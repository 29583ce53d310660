/**
 The ledger as the client sees it. Every remote call is an oracle input: the
 resource lookup, the table lookup by key, and the two-phase
 sign-and-submit/wait of a transaction. This module also holds the rebuild of
 the site list from the table, one lookup per key in increasing key order.
 */
module Remote {
  import opened Wrappers
  import opened Sites

  /** Opaque token naming the table that stores the sites. */
  type TableHandle = string

  /** What the account's index resource yields: the sites table handle and the site counter. */
  datatype IndexResource = IndexResource(handle: TableHandle, siteCounter: nat)

  /** The table lookup: `Some(site)` when the lookup answers, `None` when it throws. */
  type TableLookup = (TableHandle, nat) -> Option<Site>

  /** Outcome of submitting one transaction: signing throws, the wait throws, or it is confirmed. */
  datatype TxOutcome = SubmitFailed | WaitFailed | Confirmed

  /** Every key from `lo` to `hi` (inclusive) answers. */
  predicate AllPresent(lookup: TableLookup, handle: TableHandle, lo: nat, hi: nat) {
    forall k :: lo <= k <= hi ==> lookup(handle, k).Some?
  }

  /** The table answers every key with the site whose id is that key. */
  ghost predicate TableConsistent(lookup: TableLookup) {
    forall handle, k :: lookup(handle, k).Some? ==> lookup(handle, k).value.site_id == k
  }

  /**
   The loop that reads keys `counter`, `counter + 1`, ..., `siteCounter` in turn,
   pushing each answer onto `acc`, and stops with `None` at the first lookup that throws.
   */
  function LoadFrom(lookup: TableLookup, handle: TableHandle, counter: nat, siteCounter: nat, acc: seq<Site>)
    : (r: Option<seq<Site>>)
    requires counter <= siteCounter + 1
    ensures r.Some? <==> AllPresent(lookup, handle, counter, siteCounter)
    ensures r.Some? ==> |r.value| == |acc| + siteCounter + 1 - counter
    ensures r.Some? ==> r.value[..|acc|] == acc
    ensures r.Some? ==> forall k :: counter <= k <= siteCounter ==> r.value[|acc| + k - counter] == lookup(handle, k).value
    decreases siteCounter + 1 - counter
  {
    if counter > siteCounter then Some(acc)
    else
      match lookup(handle, counter)
      case None => None
      case Some(site) => LoadFrom(lookup, handle, counter + 1, siteCounter, acc + [site])
  }

  /**
   The full rebuild: it succeeds exactly when every key `1..siteCounter` answers,
   and then entry `k - 1` of the list is the answer for key `k`.
   */
  function Rebuild(lookup: TableLookup, handle: TableHandle, siteCounter: nat): (r: Option<seq<Site>>)
    ensures r.Some? <==> AllPresent(lookup, handle, 1, siteCounter)
    ensures r.Some? ==> |r.value| == siteCounter
    ensures r.Some? ==> forall k :: 1 <= k <= siteCounter ==> r.value[k - 1] == lookup(handle, k).value
  {
    LoadFrom(lookup, handle, 1, siteCounter, [])
  }

  /** When the table is consistent, a successful rebuild yields ids 1..siteCounter in order. */
  lemma RebuildContiguous(lookup: TableLookup, handle: TableHandle, siteCounter: nat)
    requires TableConsistent(lookup)
    requires Rebuild(lookup, handle, siteCounter).Some?
    ensures Contiguous(Rebuild(lookup, handle, siteCounter).value)
  {
    var list := Rebuild(lookup, handle, siteCounter).value;
    forall i | 0 <= i < |list|
      ensures list[i].site_id == i + 1
    {
      assert list[i] == lookup(handle, i + 1).value;
    }
  }
}
