/**
 The `Site` record the client keeps for each registry entry, the id the client
 guesses for a new entry, and the in-place update applied once an approval is
 confirmed.
 */
module Sites {
  import opened Wrappers

  /** An account address, kept as the string the wallet reports. */
  type Address = string

  /**
   One registry entry as held in the client's list. The source keeps `site_id`
   as a decimal string and reads it back with `parseInt`; here it is the number
   itself. `isApproved` and `isEvil` are optional properties (`None` when the
   object has no such property). `completed` is the property the approval handler
   adds; it is `false` on every record that does not carry it.
   */
  datatype Site = Site(
    site_id: nat,
    address: Address,
    domain: string,
    isApproved: Option<bool>,
    isEvil: Option<bool>,
    completed: bool)

  /** The list rendering shows an enabled checkbox unless `isApproved` is truthy. */
  predicate OffersApproval(site: Site) {
    site.isApproved != Some(true)
  }

  /** Two records agree on every property other than `completed`. */
  predicate SameBesideCompleted(a: Site, b: Site) {
    && a.site_id == b.site_id
    && a.address == b.address
    && a.domain == b.domain
    && a.isApproved == b.isApproved
    && a.isEvil == b.isEvil
  }

  /** Two records agree on every property other than `isApproved`. */
  predicate SameBesideApproval(a: Site, b: Site) {
    && a.site_id == b.site_id
    && a.address == b.address
    && a.domain == b.domain
    && a.isEvil == b.isEvil
    && a.completed == b.completed
  }

  /** Ids in list order are exactly 1, 2, ..., |sites|. */
  predicate Contiguous(sites: seq<Site>) {
    forall i :: 0 <= i < |sites| ==> sites[i].site_id == i + 1
  }

  /** Ids strictly increase along the list. */
  predicate Ascending(sites: seq<Site>) {
    forall i, j :: 0 <= i < j < |sites| ==> sites[i].site_id < sites[j].site_id
  }

  /** The id the client assigns to a new entry: one past the LAST entry's id, or 1 for an empty list. */
  function NextId(sites: seq<Site>): nat {
    if |sites| > 0 then sites[|sites| - 1].site_id + 1 else 1
  }

  /** The record the client builds for a new entry before submitting it. */
  function NewEntry(sites: seq<Site>, domain: string, owner: Address): Site {
    Site(NextId(sites), owner, domain, None, Some(false), false)
  }

  /** The fresh entry carries the guessed id, the typed domain and the owner, and starts unapproved and not evil. */
  lemma NewEntryShape(sites: seq<Site>, domain: string, owner: Address)
    ensures NewEntry(sites, domain, owner).site_id == (if sites == [] then 1 else sites[|sites| - 1].site_id + 1)
    ensures NewEntry(sites, domain, owner).domain == domain
    ensures NewEntry(sites, domain, owner).address == owner
    ensures NewEntry(sites, domain, owner).isEvil == Some(false)
    ensures OffersApproval(NewEntry(sites, domain, owner))
  {
  }

  /** On a list whose ids ascend, the guessed id is larger than every id already present. */
  lemma NextIdIsFresh(sites: seq<Site>)
    requires Ascending(sites)
    ensures forall i :: 0 <= i < |sites| ==> sites[i].site_id < NextId(sites)
  {
  }

  /** On a contiguous list the guessed id is its length plus one. */
  lemma ContiguousNextId(sites: seq<Site>)
    requires Contiguous(sites)
    ensures NextId(sites) == |sites| + 1
    ensures Ascending(sites)
  {
  }

  /** Appending the guessed entry to a contiguous list keeps it contiguous. */
  lemma AppendKeepsContiguous(sites: seq<Site>, domain: string, owner: Address)
    requires Contiguous(sites)
    ensures Contiguous(sites + [NewEntry(sites, domain, owner)])
  {
  }

  /**
   Because the id is taken from the last entry rather than the largest, a list
   whose ids are out of order yields an id that is already taken.
   */
  lemma NextIdCanCollide()
    ensures var sites := [Site(2, "0xa", "b.example", None, Some(false), false),
                          Site(1, "0xa", "a.example", None, Some(false), false)];
            NextId(sites) == sites[0].site_id
  {
  }

  /**
   The approval update as written: every entry whose id is `id` gains
   `completed = true`; all other entries, and all other properties, stay as they were.
   */
  function MarkCompleted(sites: seq<Site>, id: nat): (r: seq<Site>)
    ensures |r| == |sites|
    ensures forall i :: 0 <= i < |sites| && sites[i].site_id != id ==> r[i] == sites[i]
    ensures forall i :: 0 <= i < |sites| && sites[i].site_id == id ==> r[i].completed
    ensures forall i :: 0 <= i < |sites| ==> SameBesideCompleted(r[i], sites[i])
  {
    if sites == [] then []
    else
      var head := if sites[0].site_id == id then sites[0].(completed := true) else sites[0];
      [head] + MarkCompleted(sites[1..], id)
  }

  /** The approval update leaves every id where it was, so a contiguous list stays contiguous. */
  lemma MarkCompletedKeepsContiguous(sites: seq<Site>, id: nat)
    requires Contiguous(sites)
    ensures Contiguous(MarkCompleted(sites, id))
  {
  }

  /** Applying the approval update twice is the same as applying it once. */
  lemma MarkCompletedIdempotent(sites: seq<Site>, id: nat)
    ensures MarkCompleted(MarkCompleted(sites, id), id) == MarkCompleted(sites, id)
  {
  }

  /**
   The update as written never touches `isApproved`, which is the property the
   rendering reads: an entry that offered an approval checkbox still offers it.
   */
  lemma MarkCompletedKeepsOffering(sites: seq<Site>, id: nat)
    ensures forall i :: 0 <= i < |sites| && OffersApproval(sites[i]) ==> OffersApproval(MarkCompleted(sites, id)[i])
  {
  }

  /**
   The approval update as evidently intended: every entry whose id is `id`
   becomes approved; all other entries, and all other properties, stay as they were.
   */
  function MarkApproved(sites: seq<Site>, id: nat): (r: seq<Site>)
    ensures |r| == |sites|
    ensures forall i :: 0 <= i < |sites| && sites[i].site_id != id ==> r[i] == sites[i]
    ensures forall i :: 0 <= i < |sites| && sites[i].site_id == id ==> r[i].isApproved == Some(true)
    ensures forall i :: 0 <= i < |sites| ==> SameBesideApproval(r[i], sites[i])
  {
    if sites == [] then []
    else
      var head := if sites[0].site_id == id then sites[0].(isApproved := Some(true)) else sites[0];
      [head] + MarkApproved(sites[1..], id)
  }

  /** With the intended update, a confirmed approval withdraws the checkbox from the approved entries. */
  lemma MarkApprovedWithdrawsOffer(sites: seq<Site>, id: nat)
    ensures forall i :: 0 <= i < |sites| ==>
              (OffersApproval(MarkApproved(sites, id)[i]) <==> sites[i].site_id != id && OffersApproval(sites[i]))
  {
  }

  /** The intended update is idempotent: approving an approved entry again changes nothing. */
  lemma MarkApprovedIdempotent(sites: seq<Site>, id: nat)
    ensures MarkApproved(MarkApproved(sites, id), id) == MarkApproved(sites, id)
  {
  }
}
