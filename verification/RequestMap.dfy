/**
 The completion map: an array of offsets, indexed by request id modulo the number
 of buckets. An id is used only to pick a bucket; it is never compared.
 */
module RequestMap {
  import opened Words

  const INVALID: int := -1

  function Lookup(buckets: seq<int>, reqId: nat): (off: int)
    requires 0 < |buckets|
  {
    buckets[Slot(reqId, |buckets|)]
  }

  function Put(buckets: seq<int>, reqId: nat, off: int): (r: seq<int>)
    requires 0 < |buckets|
    ensures |r| == |buckets| && Lookup(r, reqId) == off
  {
    buckets[Slot(reqId, |buckets|) := off]
  }

  class RequestMapTable {
    var buckets: array<int>

    /** Init: every bucket starts out INVALID. */
    constructor (numBuckets: nat)
      requires 0 < numBuckets < WRAP
      ensures fresh(buckets) && buckets.Length == numBuckets
      ensures forall b :: 0 <= b < numBuckets ==> buckets[b] == INVALID
    {
      buckets := new int[numBuckets](_ => INVALID);
    }

    method Set(reqId: nat, off: int) returns (ok: bool)
      requires 0 < buckets.Length && reqId < WRAP
      modifies buckets
      ensures ok <==> Lookup(old(buckets[..]), reqId) == INVALID
      ensures buckets[..] == if ok then Put(old(buckets[..]), reqId, off) else old(buckets[..])
    {
      var b := reqId % buckets.Length;
      if buckets[b] != INVALID {
        return false;
      }
      buckets[b] := off;
      ok := true;
    }

    method FindAndRemove(key: nat) returns (ok: bool, off: int)
      requires 0 < buckets.Length && key < WRAP
      modifies buckets
      ensures off == Lookup(old(buckets[..]), key) && (ok <==> off != INVALID)
      ensures buckets[..] == Put(old(buckets[..]), key, INVALID)
    {
      var b := key % buckets.Length;
      off := buckets[b];
      if off == INVALID {
        assert buckets[..] == Put(buckets[..], key, INVALID);
        return false, off;
      }
      buckets[b] := INVALID;
      ok := true;
    }
  }
}
