/** ExpansionPackDependencyVerifier: an MSC service, installed at most once
    per class loader, that on start compares the base version an expansion
    pack requires with the version of the running product and logs either
    a warning (message 1) or a debug confirmation (message 2). */
module ExpansionPack {
  import opened Options

  /** An MSC service name, as the sequence of its dotted segments. */
  type ServiceName = seq<string>

  /** ServiceName.JBOSS.append("eap", "expansion", "pack", "verifier") */
  const VERIFIER_SERVICE_NAME: ServiceName := ["jboss", "eap", "expansion", "pack", "verifier"]
  /** ServiceName.JBOSS.append("as", "product-config") */
  const PRODUCT_CONFIG_SERVICE_NAME: ServiceName := ["jboss", "as", "product-config"]

  /** A service target wrapping the service registry. Installing a name the
      registry already holds raises a ServiceRegistryException (a
      DuplicateServiceException). Every addService call is logged in
      `attempts`; `services` maps each installed name to what it requires. */
  class ServiceTarget {
    var services: map<ServiceName, seq<ServiceName>>
    var attempts: seq<ServiceName>

    constructor ()
      ensures services == map[] && attempts == []
    {
      services := map[];
      attempts := [];
    }

    /** addService(name), builder.requires on each dependency, then install(). */
    method AddService(name: ServiceName, dependencies: seq<ServiceName>) returns (outcome: Outcome)
      modifies this
      ensures attempts == old(attempts) + [name]
      ensures name in old(services) ==> outcome == Threw(ServiceRegistry) && services == old(services)
      ensures name !in old(services) ==> outcome == Done && services == old(services)[name := dependencies]
    {
      attempts := attempts + [name];
      if name in services {
        outcome := Threw(ServiceRegistry);
      } else {
        services := services[name := dependencies];
        outcome := Done;
      }
    }
  }

  /** The class loader wide `installed` flag of the verifier. */
  class Installation {
    var installed: bool

    constructor ()
      ensures !installed
    {
      installed := false;
    }

    /** installVerifier: while the flag is set nothing is attempted; otherwise
        the verifier service is installed with its product-config
        requirement, and the flag is set only if the install went through.
        A registry exception is swallowed. */
    method InstallVerifier(target: ServiceTarget)
      modifies this`installed, target
      ensures old(installed) ==> installed && target.attempts == old(target.attempts) && target.services == old(target.services)
      ensures !old(installed) ==> target.attempts == old(target.attempts) + [VERIFIER_SERVICE_NAME]
      ensures !old(installed) ==> (installed <==> VERIFIER_SERVICE_NAME !in old(target.services))
      ensures !old(installed) && installed ==>
        target.services == old(target.services)[VERIFIER_SERVICE_NAME := [PRODUCT_CONFIG_SERVICE_NAME]]
      ensures !installed ==> target.services == old(target.services)
    {
      if !installed {
        var outcome := target.AddService(VERIFIER_SERVICE_NAME, [PRODUCT_CONFIG_SERVICE_NAME]);
        if outcome == Done {
          installed := true;
        }
      }
    }

    /** stop of the verifier service: clears the flag so a later
        installVerifier tries again. */
    method Stop()
      modifies this`installed
      ensures !installed
    {
      installed := false;
    }
  }

  /** From a clear flag and targets that do not hold the verifier, repeated
      installVerifier calls install it once and attempt it once; after a
      stop, another target receives it again. */
  method InstallOnceUntilStopped(installation: Installation, first: ServiceTarget, second: ServiceTarget)
    requires first != second && !installation.installed
    requires VERIFIER_SERVICE_NAME !in first.services && VERIFIER_SERVICE_NAME !in second.services
    modifies installation, first, second
    ensures first.attempts == old(first.attempts) + [VERIFIER_SERVICE_NAME]
    ensures first.services == old(first.services)[VERIFIER_SERVICE_NAME := [PRODUCT_CONFIG_SERVICE_NAME]]
    ensures second.attempts == old(second.attempts) + [VERIFIER_SERVICE_NAME]
    ensures second.services == old(second.services)[VERIFIER_SERVICE_NAME := [PRODUCT_CONFIG_SERVICE_NAME]]
    ensures installation.installed
  {
    installation.InstallVerifier(first);
    installation.InstallVerifier(first);
    installation.InstallVerifier(first);
    installation.Stop();
    installation.InstallVerifier(second);
  }

  /** After a stop, a retry on the same target meets the verifier already
      registered: the duplicate is swallowed and the flag stays clear. */
  method RetryOnSameTargetStaysUninstalled(installation: Installation, target: ServiceTarget)
    requires !installation.installed && VERIFIER_SERVICE_NAME !in target.services
    modifies installation, target
    ensures !installation.installed
    ensures target.attempts == old(target.attempts) + [VERIFIER_SERVICE_NAME, VERIFIER_SERVICE_NAME]
    ensures target.services == old(target.services)[VERIFIER_SERVICE_NAME := [PRODUCT_CONFIG_SERVICE_NAME]]
  {
    installation.InstallVerifier(target);
    installation.Stop();
    installation.InstallVerifier(target);
  }

  /** ProductConfig as the supplier provides it; either value may be null. */
  datatype ProductConfig = ProductConfig(productName: Option<string>, productVersion: Option<string>)

  /** The validation.properties class-path resource: missing, failing with
      an IOException while it is read, or loaded. */
  datatype Resource = Missing | Unreadable | Loaded(properties: map<string, string>)

  const REQUIRED_BASE_VERSION: string := "required.base.version"
  const RELEASE_NAME: string := "expansion.pack.release.name"
  const RELEASE_VERSION: string := "expansion.pack.release.version"
  const DEFAULT_RELEASE_NAME: string := "JBoss EAP XP"
  const DEFAULT_RELEASE_VERSION: string := ""

  datatype Level = WARN | DEBUG

  /** The two messages of the verifier's logger, with their arguments. */
  datatype LogMessage =
    | IncorrectBaseVersion(xpName: string, xpVersion: string, baseName: Option<string>,
                           requiredBaseVersion: string, actualBaseVersion: Option<string>)
    | CorrectBaseVersion(required: Option<string>, actualVersion: Option<string>)
  {
    function Id(): nat {
      if IncorrectBaseVersion? then 1 else 2
    }

    function MessageLevel(): Level {
      if IncorrectBaseVersion? then WARN else DEBUG
    }

    /** The project code "JBEAPXP" followed by the id padded to four digits. */
    function Code(): (code: string)
      ensures IncorrectBaseVersion? ==> code == "JBEAPXP0001"
      ensures CorrectBaseVersion? ==> code == "JBEAPXP0002"
    {
      "JBEAPXP" + PadId(Id())
    }
  }

  /** A message id written with at least four digits. */
  function PadId(id: nat): (s: string)
    ensures id < 10 ==> s == "000" + [Digit(id)]
  {
    if id < 10 then "000" + [Digit(id)]
    else if id < 100 then "00" + [Digit(id / 10), Digit(id % 10)]
    else if id < 1000 then "0" + [Digit(id / 100), Digit(id / 10 % 10), Digit(id % 10)]
    else Decimal(id)
  }

  function Digit(d: nat): char
    requires d < 10
  {
    "0123456789"[d]
  }

  function Decimal(n: nat): string
    decreases n
  {
    if n < 10 then [Digit(n)] else Decimal(n / 10) + [Digit(n % 10)]
  }

  /** The property value or the given default when it is absent. */
  function PropertyOr(properties: map<string, string>, key: string, fallback: string): string {
    if key in properties then properties[key] else fallback
  }

  /** The version decision of start on loaded properties. */
  function VersionCheck(properties: map<string, string>, product: ProductConfig): (m: LogMessage)
    // the warning exactly when a required version is given and is not the product's
    ensures m.IncorrectBaseVersion? <==>
      REQUIRED_BASE_VERSION in properties && Some(properties[REQUIRED_BASE_VERSION]) != product.productVersion
    ensures m.IncorrectBaseVersion? ==>
      && m.requiredBaseVersion == properties[REQUIRED_BASE_VERSION]
      && m.actualBaseVersion == product.productVersion
      && m.baseName == product.productName
      && (RELEASE_NAME in properties ==> m.xpName == properties[RELEASE_NAME])
      && (RELEASE_NAME !in properties ==> m.xpName == DEFAULT_RELEASE_NAME)
      && (RELEASE_VERSION in properties ==> m.xpVersion == properties[RELEASE_VERSION])
      && (RELEASE_VERSION !in properties ==> m.xpVersion == DEFAULT_RELEASE_VERSION)
    // the confirmation reports the (possibly absent) requirement, which, when present, is met
    ensures m.CorrectBaseVersion? ==>
      && m.actualVersion == product.productVersion
      && (m.required.Some? <==> REQUIRED_BASE_VERSION in properties)
      && (m.required.Some? ==> m.required == product.productVersion)
  {
    if REQUIRED_BASE_VERSION in properties && Some(properties[REQUIRED_BASE_VERSION]) != product.productVersion then
      IncorrectBaseVersion(
        PropertyOr(properties, RELEASE_NAME, DEFAULT_RELEASE_NAME),
        PropertyOr(properties, RELEASE_VERSION, DEFAULT_RELEASE_VERSION),
        product.productName,
        properties[REQUIRED_BASE_VERSION],
        product.productVersion)
    else
      CorrectBaseVersion(
        if REQUIRED_BASE_VERSION in properties then Some(properties[REQUIRED_BASE_VERSION]) else None,
        product.productVersion)
  }

  /** start: the message logged, if any. A missing resource logs nothing and
      an IOException while loading it is ignored. */
  function Start(resource: Resource, product: ProductConfig): (logged: Option<LogMessage>)
    ensures logged.None? <==> !resource.Loaded?
    ensures resource.Loaded? ==> logged == Some(VersionCheck(resource.properties, product))
  {
    match resource
    case Missing => None
    case Unreadable => None
    case Loaded(properties) => Some(VersionCheck(properties, product))
  }

  /** A server whose version matches the requirement, or that carries no
      requirement, never logs the warning tag JBEAPXP0001; when the
      resource is loaded it logs the debug tag JBEAPXP0002. */
  lemma MatchingVersionLogsOnlyDebug(resource: Resource, product: ProductConfig)
    requires resource.Loaded? ==>
      REQUIRED_BASE_VERSION in resource.properties ==> Some(resource.properties[REQUIRED_BASE_VERSION]) == product.productVersion
    ensures Start(resource, product).Some? ==>
      Start(resource, product).value.Code() == "JBEAPXP0002" && Start(resource, product).value.MessageLevel() == DEBUG
    ensures Start(resource, product).Some? <==> resource.Loaded?
  {
  }
}
