/** OpenAPIContextService: registers, on the deployment's Undertow host, a
    handler that serves the OpenAPI document at /openapi, in YAML or JSON,
    with permissive CORS headers, caching each format's serialization. */
module OpenApiEndpoint {
  import opened Options

  const OAI: string := "/openapi"
  const ALLOWED_METHODS: string := "GET, HEAD, OPTIONS"
  const QUERY_PARAM_FORMAT: string := "format"

  const OK: int := 200
  const NOT_FOUND: int := 404

  /** OpenApiSerializer.Format, with its name and MIME type. */
  datatype Format = JSON | YAML {
    function Name(): string {
      match this
      case JSON => "JSON"
      case YAML => "YAML"
    }
    function MimeType(): string {
      match this
      case JSON => "application/json"
      case YAML => "application/yaml"
    }
  }

  datatype HttpMethod = GET | HEAD | OPTIONS | OtherMethod(name: string)

  /** What the handler reads of a request. `formatQueryParams` is the deque
      of "format" query values, None when the parameter is absent. */
  datatype Request = Request(
    path: string,
    requestMethod: HttpMethod,
    accept: Option<string>,
    formatQueryParams: Option<seq<string>>)

  /** The status, headers and body the handler leaves on the exchange. A
      body of None is a document that could not be serialized. */
  datatype Response = Response(status: int, headers: map<string, string>, body: Option<string>)

  // ---------------------------------------------------------------------
  // Strings

  /** Character.toLowerCase on the ASCII letters. */
  function ToLower(c: char): char {
    if 'A' <= c <= 'Z' then (c as int + 32) as char else c
  }

  /** String.equalsIgnoreCase against a possibly null argument, over ASCII
      case folding. */
  function EqualsIgnoreCase(s: string, other: Option<string>): (r: bool)
    ensures r <==> other.Some? && |s| == |other.value| &&
                   forall i | 0 <= i < |s| :: ToLower(s[i]) == ToLower(other.value[i])
  {
    other.Some? && |s| == |other.value| && SameIgnoringCase(s, other.value)
  }

  function SameIgnoringCase(a: string, b: string): (r: bool)
    requires |a| == |b|
    ensures r <==> forall i | 0 <= i < |a| :: ToLower(a[i]) == ToLower(b[i])
  {
    if a == [] then true
    else ToLower(a[0]) == ToLower(b[0]) && SameIgnoringCase(a[1..], b[1..])
  }

  /** EqualsIgnoreCase is symmetric in its strings. */
  lemma {:induction false} SameIgnoringCaseSymmetric(a: string, b: string)
    requires |a| == |b|
    ensures SameIgnoringCase(a, b) == SameIgnoringCase(b, a)
  {
    if a != [] {
      SameIgnoringCaseSymmetric(a[1..], b[1..]);
    }
  }

  /** `part` occurs in `s` at position `i`. */
  predicate OccursAt(s: string, part: string, i: int) {
    0 <= i && i + |part| <= |s| && s[i..i + |part|] == part
  }

  /** String.contains, scanning from the left. */
  function Contains(s: string, part: string): (found: bool)
    ensures part == [] ==> found
    ensures found ==> |part| <= |s|
    decreases |s|
  {
    if |part| > |s| then false
    else if s[..|part|] == part then true
    else Contains(s[1..], part)
  }

  /** Contains finds `part` exactly when it occurs somewhere in `s`. */
  lemma {:induction false} ContainsIff(s: string, part: string)
    ensures Contains(s, part) <==> exists i :: OccursAt(s, part, i)
    decreases |s|
  {
    if |part| > |s| {
    } else if s[..|part|] == part {
      assert OccursAt(s, part, 0);
    } else {
      ContainsIff(s[1..], part);
      if Contains(s[1..], part) {
        var j :| OccursAt(s[1..], part, j);
        assert s[j + 1..j + 1 + |part|] == s[1..][j..j + |part|];
        assert OccursAt(s, part, j + 1);
      } else {
        forall i | 0 <= i && i + |part| <= |s|
          ensures !OccursAt(s, part, i)
        {
          if i > 0 {
            var k := i - 1;
            assert s[1..][k..k + |part|] == s[k + 1..k + 1 + |part|];
            assert !OccursAt(s[1..], part, i - 1);
          }
        }
      }
    }
  }

  // ---------------------------------------------------------------------
  // Routing and format choice

  datatype Route = SendOai | SendPreflight | RouteNotFound

  /** handleRequest's dispatch, given whether the OpenAPI document is set. */
  function RouteFor(request: Request, documentSet: bool): (route: Route)
    ensures route != RouteNotFound <==> EqualsIgnoreCase(OAI, Some(request.path)) && documentSet && request.requestMethod in {GET, OPTIONS}
    ensures route == SendOai <==> route != RouteNotFound && request.requestMethod == GET
    ensures route == SendPreflight <==> route != RouteNotFound && request.requestMethod == OPTIONS
  {
    if EqualsIgnoreCase(OAI, Some(request.path)) && documentSet then
      if request.requestMethod == GET then SendOai
      else if request.requestMethod == OPTIONS then SendPreflight
      else RouteNotFound
    else RouteNotFound
  }

  /** formatQueryParams.getFirst(). An empty deque, which the server does
      not produce for a parameter it parsed, reads as absent. */
  function FirstFormatParam(params: Option<seq<string>>): (first: Option<string>)
    ensures first.Some? <==> params.Some? && |params.value| > 0
    ensures first.Some? ==> first.value == params.value[0]
  {
    if params.Some? && params.value != [] then Some(params.value[0]) else None
  }

  /** sendOai's choice: JSON when the Accept header mentions its MIME type
      or the first format parameter names JSON, by name or MIME type in any
      case; YAML otherwise. */
  function FormatFor(accept: Option<string>, formatParam: Option<string>): (format: Format)
    ensures format == JSON <==>
      || (accept.Some? && Contains(accept.value, JSON.MimeType()))
      || EqualsIgnoreCase(JSON.Name(), formatParam)
      || EqualsIgnoreCase(JSON.MimeType(), formatParam)
    ensures formatParam.None? && accept.None? ==> format == YAML
  {
    if (accept.Some? && Contains(accept.value, JSON.MimeType()))
       || EqualsIgnoreCase(JSON.Name(), formatParam)
       || EqualsIgnoreCase(JSON.MimeType(), formatParam)
    then JSON
    else YAML
  }

  /** The format choice ignores the case of the parameter: "json", "Json"
      and "APPLICATION/JSON" all select JSON. */
  lemma FormatParamCaseInsensitive(accept: Option<string>, p: string, q: string)
    requires |p| == |q| && forall i | 0 <= i < |p| :: ToLower(p[i]) == ToLower(q[i])
    ensures FormatFor(accept, Some(p)) == FormatFor(accept, Some(q))
  {
    assert forall s: string | |s| == |p| ::
      (forall i | 0 <= i < |s| :: ToLower(s[i]) == ToLower(p[i])) <==>
      (forall i | 0 <= i < |s| :: ToLower(s[i]) == ToLower(q[i]));
  }

  /** addCorsResponseHeaders: put the five fixed headers. */
  function WithCorsHeaders(headers: map<string, string>): (r: map<string, string>)
    ensures r.Keys == headers.Keys + {"Access-Control-Allow-Origin", "Access-Control-Allow-Credentials",
      "Access-Control-Allow-Methods", "Access-Control-Allow-Headers", "Access-Control-Max-Age"}
    ensures r["Access-Control-Allow-Origin"] == "*" && r["Access-Control-Allow-Credentials"] == "true"
    ensures r["Access-Control-Allow-Methods"] == ALLOWED_METHODS
    ensures r["Access-Control-Allow-Headers"] == "Content-Type, Authorization"
    ensures r["Access-Control-Max-Age"] == "86400"
    ensures forall h | h in headers && h !in {"Access-Control-Allow-Origin", "Access-Control-Allow-Credentials",
      "Access-Control-Allow-Methods", "Access-Control-Allow-Headers", "Access-Control-Max-Age"} :: r[h] == headers[h]
  {
    headers["Access-Control-Allow-Origin" := "*"]
           ["Access-Control-Allow-Credentials" := "true"]
           ["Access-Control-Allow-Methods" := ALLOWED_METHODS]
           ["Access-Control-Allow-Headers" := "Content-Type, Authorization"]
           ["Access-Control-Max-Age" := "86400"]
  }

  // ---------------------------------------------------------------------
  // Host selection

  datatype Host = Host(id: nat, name: string)

  /** The number of hosts over all servers. */
  function HostCount(servers: seq<seq<Host>>): nat {
    if servers == [] then 0 else HostCount(servers[..|servers| - 1]) + |servers[|servers| - 1]|
  }

  /** `hosts` lists the hosts of `servers` server by server: server k's
      hosts, in their own order, right after those of servers 0..k-1. */
  ghost predicate InServerOrder(servers: seq<seq<Host>>, hosts: seq<Host>) {
    && |hosts| == HostCount(servers)
    && forall k, j | 0 <= k < |servers| && 0 <= j < |servers[k]| ::
         HostCount(servers[..k]) + j < |hosts| && hosts[HostCount(servers[..k]) + j] == servers[k][j]
  }

  /** Listing one more server's hosts at the end keeps the server order. */
  lemma InServerOrderAppend(init: seq<seq<Host>>, last: seq<Host>, hosts: seq<Host>)
    requires InServerOrder(init, hosts)
    ensures InServerOrder(init + [last], hosts + last)
  {
    var servers := init + [last];
    assert servers[..|servers| - 1] == init;
    forall k, j | 0 <= k < |servers| && 0 <= j < |servers[k]|
      ensures HostCount(servers[..k]) + j < |hosts + last| && (hosts + last)[HostCount(servers[..k]) + j] == servers[k][j]
    {
      if k < |init| {
        assert init[..k] == servers[..k] && init[k] == servers[k];
        var host := init[k][j];
      } else {
        assert servers[..k] == init;
      }
    }
  }

  /** The hosts of all servers, server by server (the flatMap). */
  function AllHosts(servers: seq<seq<Host>>): (hosts: seq<Host>)
    ensures InServerOrder(servers, hosts)
    ensures forall h :: h in hosts <==> exists s | s in servers :: h in s
  {
    if servers == [] then []
    else
      var init := servers[..|servers| - 1];
      var last := servers[|servers| - 1];
      assert servers == init + [last];
      InServerOrderAppend(init, last, AllHosts(init));
      assert forall s | s in servers :: s in init || s == last;
      AllHosts(init) + last
  }

  /** The first host of `hosts` with the given name. */
  function FirstNamed(hosts: seq<Host>, hostName: string): (r: Option<nat>)
    ensures r.Some? ==> r.value < |hosts| && hosts[r.value].name == hostName &&
                        forall j | 0 <= j < r.value :: hosts[j].name != hostName
    ensures r.None? ==> forall h | h in hosts :: h.name != hostName
  {
    if hosts == [] then None
    else if hosts[0].name == hostName then Some(0)
    else
      var rest := FirstNamed(hosts[1..], hostName);
      if rest.Some? then Some(rest.value + 1) else None
  }

  /** The first match in a concatenation is the first match in its front,
      or failing that the first in its back. */
  lemma {:induction false} FirstNamedAppend(front: seq<Host>, back: seq<Host>, hostName: string)
    ensures FirstNamed(front + back, hostName) ==
      if FirstNamed(front, hostName).Some? then FirstNamed(front, hostName)
      else if FirstNamed(back, hostName).Some? then Some(|front| + FirstNamed(back, hostName).value)
      else None
  {
    if front == [] {
      assert front + back == back;
    } else {
      assert (front + back)[1..] == front[1..] + back;
      FirstNamedAppend(front[1..], back, hostName);
    }
  }

  /** Host j of server k carries the name, and no host before it, in
      server-then-host order, does. */
  ghost predicate FirstInServerOrder(servers: seq<seq<Host>>, k: int, j: int, hostName: string)
    requires 0 <= k < |servers| && 0 <= j < |servers[k]|
  {
    && servers[k][j].name == hostName
    && (forall k', j' | 0 <= k' < k && 0 <= j' < |servers[k']| :: servers[k'][j'].name != hostName)
    && (forall j' | 0 <= j' < j :: servers[k][j'].name != hostName)
  }

  /** A first match among all servers but the last stays first when the
      last server is added. */
  lemma FirstInServerOrderGrow(servers: seq<seq<Host>>, k: int, j: int, hostName: string)
    requires 0 <= k < |servers| - 1 && 0 <= j < |servers[k]|
    requires FirstInServerOrder(servers[..|servers| - 1], k, j, hostName)
    ensures FirstInServerOrder(servers, k, j, hostName)
  {
    var init := servers[..|servers| - 1];
    assert forall k' | 0 <= k' < |init| :: init[k'] == servers[k'];
  }

  /** With no match among the other servers, the last server's first
      match is the first in server order. */
  lemma FirstInServerOrderLast(servers: seq<seq<Host>>, last: seq<Host>, j: int, hostName: string)
    requires servers != [] && last == servers[|servers| - 1] && 0 <= j < |last|
    requires forall h | h in AllHosts(servers[..|servers| - 1]) :: h.name != hostName
    requires last[j].name == hostName
    requires forall j' | 0 <= j' < j :: last[j'].name != hostName
    ensures FirstInServerOrder(servers, |servers| - 1, j, hostName)
  {
    var init := servers[..|servers| - 1];
    forall k', j' | 0 <= k' < |servers| - 1 && 0 <= j' < |servers[k']|
      ensures servers[k'][j'].name != hostName
    {
      assert servers[k'] == init[k'] && init[k'] in init;
      assert servers[k'][j'] in AllHosts(init);
    }
  }

  /** The first named host of the flattened hosts is the first one in
      server-then-host order. */
  lemma {:induction false} FirstNamedIsFirstInServerOrder(servers: seq<seq<Host>>, hostName: string)
    ensures var i := FirstNamed(AllHosts(servers), hostName);
      i.Some? ==> exists k, j | 0 <= k < |servers| && 0 <= j < |servers[k]| ::
        servers[k][j] == AllHosts(servers)[i.value] && FirstInServerOrder(servers, k, j, hostName)
  {
    if servers != [] {
      var init := servers[..|servers| - 1];
      var last := servers[|servers| - 1];
      assert AllHosts(servers) == AllHosts(init) + last;
      FirstNamedAppend(AllHosts(init), last, hostName);
      var i := FirstNamed(AllHosts(servers), hostName);
      if FirstNamed(AllHosts(init), hostName).Some? {
        FirstNamedIsFirstInServerOrder(init, hostName);
        var k, j :| 0 <= k < |init| && 0 <= j < |init[k]| &&
          init[k][j] == AllHosts(init)[i.value] && FirstInServerOrder(init, k, j, hostName);
        assert init[k] == servers[k];
        FirstInServerOrderGrow(servers, k, j, hostName);
      } else if i.Some? {
        var j := FirstNamed(last, hostName).value;
        FirstInServerOrderLast(servers, last, j, hostName);
        assert servers[|servers| - 1][j] == AllHosts(servers)[i.value];
      }
    }
  }

  /** runWithHost's selection: the first host, over all servers in order
      and each server's hosts in order, named like the deployment's host. */
  function HostFor(servers: seq<seq<Host>>, hostName: string): (r: Option<Host>)
    ensures r.Some? ==> exists k, j | 0 <= k < |servers| && 0 <= j < |servers[k]| ::
      servers[k][j] == r.value && FirstInServerOrder(servers, k, j, hostName)
    ensures r.None? <==> forall s, h | s in servers && h in s :: h.name != hostName
  {
    var hosts := AllHosts(servers);
    var i := FirstNamed(hosts, hostName);
    FirstNamedIsFirstInServerOrder(servers, hostName);
    assert i.Some? ==> hosts[i.value] in hosts;
    if i.Some? then Some(hosts[i.value]) else None
  }

  // ---------------------------------------------------------------------
  // The service and its handler

  /** A serialized document, opaque here. */
  type Document = nat

  class OpenAPIContextService {
    /** Format -> serialized document. */
    var cachedModels: map<Format, string>
    /** The hosts on which the handler is registered at OAI. */
    var registered: set<Host>

    constructor ()
      ensures cachedModels == map[] && registered == {}
    {
      cachedModels := map[];
      registered := {};
    }

    /** start: register the handler on the selected host, if any. */
    method Start(servers: seq<seq<Host>>, hostName: string) returns (host: Option<Host>)
      modifies this`registered
      ensures host == HostFor(servers, hostName)
      ensures registered == old(registered) + (if host.Some? then {host.value} else {})
    {
      host := HostFor(servers, hostName);
      if host.Some? {
        registered := registered + {host.value};
      }
    }

    /** stop: unregister the handler from the selected host, if any. */
    method Stop(servers: seq<seq<Host>>, hostName: string) returns (host: Option<Host>)
      modifies this`registered
      ensures host == HostFor(servers, hostName)
      ensures registered == old(registered) - (if host.Some? then {host.value} else {})
    {
      host := HostFor(servers, hostName);
      if host.Some? {
        registered := registered - {host.value};
      }
    }

    /** getCachedOaiString: computeIfAbsent over the serializer, which
        yields None where it threw an IOException; a None is not cached. */
    method GetCachedOaiString(format: Format, document: Document, serialize: (Document, Format) -> Option<string>)
      returns (oai: Option<string>)
      modifies this`cachedModels
      ensures format in old(cachedModels) ==> oai == Some(old(cachedModels)[format]) && cachedModels == old(cachedModels)
      ensures format !in old(cachedModels) ==>
        && oai == serialize(document, format)
        && cachedModels == if oai.Some? then old(cachedModels)[format := oai.value] else old(cachedModels)
    {
      if format in cachedModels {
        return Some(cachedModels[format]);
      }
      oai := serialize(document, format);
      if oai.Some? {
        cachedModels := cachedModels[format := oai.value];
      }
    }

    /** OpenAPIHandler.handleRequest. `document` is the OpenAPI document,
        None while it is not set. */
    method HandleRequest(request: Request, document: Option<Document>, serialize: (Document, Format) -> Option<string>)
      returns (response: Response)
      modifies this`cachedModels
      ensures RouteFor(request, document.Some?) == RouteNotFound ==>
        response == Response(NOT_FOUND, map[], None) && cachedModels == old(cachedModels)
      ensures RouteFor(request, document.Some?) == SendPreflight ==>
        response == Response(OK, WithCorsHeaders(map[]), Some(ALLOWED_METHODS)) && cachedModels == old(cachedModels)
      ensures RouteFor(request, document.Some?) == SendOai ==>
        var format := FormatFor(request.accept, FirstFormatParam(request.formatQueryParams));
        && response.status == OK
        && response.headers == WithCorsHeaders(map[])["Content-Type" := format.MimeType()]
        && (format in old(cachedModels) ==> response.body == Some(old(cachedModels)[format]) && cachedModels == old(cachedModels))
        && (format !in old(cachedModels) ==>
              && response.body == serialize(document.value, format)
              && cachedModels == if response.body.Some? then old(cachedModels)[format := response.body.value] else old(cachedModels))
    {
      var route := RouteFor(request, document.Some?);
      if route == RouteNotFound {
        return Response(NOT_FOUND, map[], None);
      }
      if route == SendPreflight {
        return Response(OK, WithCorsHeaders(map[]), Some(ALLOWED_METHODS));
      }
      var format := FormatFor(request.accept, FirstFormatParam(request.formatQueryParams));
      var oai := GetCachedOaiString(format, document.value, serialize);
      var headers := WithCorsHeaders(map[]);
      headers := headers["Content-Type" := format.MimeType()];
      response := Response(OK, headers, oai);
    }
  }

  /** Serving the same document request twice yields the same body, and
      once a format is cached, serving it leaves the cache as it was. */
  method CachedFormatIsStable(service: OpenAPIContextService, request: Request, document: Document,
                              serialize: (Document, Format) -> Option<string>)
    returns (first: Response, second: Response)
    requires RouteFor(request, true) == SendOai
    modifies service
    ensures second.body == first.body
    ensures var format := FormatFor(request.accept, FirstFormatParam(request.formatQueryParams));
      format in old(service.cachedModels) ==>
        service.cachedModels == old(service.cachedModels) && second.body == Some(old(service.cachedModels)[format])
    ensures var format := FormatFor(request.accept, FirstFormatParam(request.formatQueryParams));
      serialize(document, format).Some? ==> format in service.cachedModels
  {
    first := service.HandleRequest(request, Some(document), serialize);
    second := service.HandleRequest(request, Some(document), serialize);
  }
}
