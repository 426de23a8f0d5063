/** A read-only consistent-hash snapshot of the data grid, as the modelled
    code sees it: the member list, the primary segments of each member, and
    the primary owner of every key. A new topology is a new value; none is
    ever changed in place. */
module ConsistentHashes {

  /** An opaque cluster member identity. */
  type Address = nat

  datatype ConsistentHash<!K> = ConsistentHash(
    members: seq<Address>,
    primarySegments: map<Address, set<nat>>,
    primaryOwner: K -> Address)

  /** ConsistentHash.getPrimarySegmentsForOwner: empty for a member the
      snapshot does not list. */
  function PrimarySegmentsForOwner<K>(hash: ConsistentHash<K>, address: Address): set<nat> {
    if address in hash.primarySegments then hash.primarySegments[address] else {}
  }

  /** The member owns at least one primary segment. */
  predicate OwnsPrimarySegments<K>(hash: ConsistentHash<K>, address: Address) {
    PrimarySegmentsForOwner(hash, address) != {}
  }

  /** A snapshot in which every key's primary owner is a member that owns a
      primary segment, as the data grid guarantees. */
  ghost predicate WellFormed<K(!new)>(hash: ConsistentHash<K>) {
    forall k: K :: hash.primaryOwner(k) in hash.members && OwnsPrimarySegments(hash, hash.primaryOwner(k))
  }

  /** List.containsAll: every member of `sub` is a member of `sup`. */
  predicate ContainsAll(sup: seq<Address>, sub: seq<Address>) {
    forall m :: m in sub ==> m in sup
  }
}
