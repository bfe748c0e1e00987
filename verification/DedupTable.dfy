// The hash-to-offset table behind block deduplication.
module DedupTable {
  import opened Common
  import opened Format

  class StandardHashTable {
    var entries: map<Hash, nat>
    var totalInserts: nat
    var totalLookups: nat

    constructor ()
      ensures entries == map[] && totalInserts == 0 && totalLookups == 0
    {
      entries := map[];
      totalInserts, totalLookups := 0, 0;
    }

    method Len() returns (n: nat)
      ensures n == |entries|
    {
      n := |entries|;
    }

    /** Maps `hash` to `offset`; the offset it had before, if any, is handed back. */
    method Insert(hash: Hash, offset: nat) returns (previous: Option<nat>)
      modifies this
      ensures entries == old(entries)[hash := offset]
      ensures previous == if hash in old(entries) then Some(old(entries)[hash]) else None
      ensures totalInserts == old(totalInserts) + 1 && totalLookups == old(totalLookups)
    {
      totalInserts := totalInserts + 1;
      previous := if hash in entries then Some(entries[hash]) else None;
      entries := entries[hash := offset];
    }

    method Get(hash: Hash) returns (offset: Option<nat>)
      modifies this`totalLookups
      ensures offset.Some? <==> hash in entries
      ensures offset.Some? ==> offset.value == entries[hash]
      ensures totalLookups == old(totalLookups) + 1
    {
      totalLookups := totalLookups + 1;
      offset := if hash in entries then Some(entries[hash]) else None;
    }
  }
}
