/**
 The session state of the `App` component and the handlers that change it.

 Each handler is modelled as the ordered list of state-setter calls it issues,
 given the outcomes of its remote calls; `Run` applies such a list to a session
 and `Trace` gives the session after each setter call. The `...Step` functions
 are the resulting transitions `AppState x outcomes -> AppState`.
 */
module Session {
  import opened Wrappers
  import opened Sites
  import opened Remote

  /** The four pieces of component state the handlers read and write. */
  datatype AppState = AppState(
    sites: seq<Site>,
    newSite: string,
    accountHasList: bool,
    transactionInProgress: bool)

  /** The state the component starts in. */
  const Initial := AppState([], "", false, false)

  /** One state-setter call. `MarkSiteCompleted` is the setter called with an update function of the previous list. */
  datatype Update =
    | SetSites(list: seq<Site>)
    | MarkSiteCompleted(target: nat)
    | SetNewSite(text: string)
    | SetAccountHasList(hasList: bool)
    | SetTransactionInProgress(inProgress: bool)

  /** Whether a setter call writes the site list. */
  predicate WritesSites(u: Update) {
    u.SetSites? || u.MarkSiteCompleted?
  }

  function Apply(s: AppState, u: Update): AppState {
    match u
    case SetSites(list) => s.(sites := list)
    case MarkSiteCompleted(target) => s.(sites := MarkCompleted(s.sites, target))
    case SetNewSite(text) => s.(newSite := text)
    case SetAccountHasList(hasList) => s.(accountHasList := hasList)
    case SetTransactionInProgress(inProgress) => s.(transactionInProgress := inProgress)
  }

  /** The session after every setter call of `us`, in order. */
  function Run(s: AppState, us: seq<Update>): AppState
    decreases |us|
  {
    if us == [] then s else Run(Apply(s, us[0]), us[1..])
  }

  /** The session observed after each setter call of `us`. */
  function Trace(s: AppState, us: seq<Update>): (t: seq<AppState>)
    ensures |t| == |us|
    decreases |us|
  {
    if us == [] then [] else [Apply(s, us[0])] + Trace(Apply(s, us[0]), us[1..])
  }

  /** No setter call of `us` writes the site list. */
  predicate NoSitesWrite(us: seq<Update>) {
    forall i :: 0 <= i < |us| ==> !WritesSites(us[i])
  }

  /** At most one setter call of `us` writes the site list. */
  predicate AtMostOneSitesWrite(us: seq<Update>) {
    forall i, j :: 0 <= i < j < |us| && WritesSites(us[i]) ==> !WritesSites(us[j])
  }

  /** A handler issues at most four setter calls; this unfolds `Run` over such a list. */
  lemma {:induction false} RunShort(s: AppState, us: seq<Update>)
    requires |us| <= 4
    ensures |us| == 0 ==> Run(s, us) == s
    ensures |us| == 1 ==> Run(s, us) == Apply(s, us[0])
    ensures |us| == 2 ==> Run(s, us) == Apply(Apply(s, us[0]), us[1])
    ensures |us| == 3 ==> Run(s, us) == Apply(Apply(Apply(s, us[0]), us[1]), us[2])
    ensures |us| == 4 ==> Run(s, us) == Apply(Apply(Apply(Apply(s, us[0]), us[1]), us[2]), us[3])
    decreases |us|
  {
    if us != [] {
      RunShort(Apply(s, us[0]), us[1..]);
    }
  }

  // ---------------------------------------------------------------------------
  // The handlers, as setter-call lists

  /**
   `fetchList`: with no account, nothing. Otherwise a failing resource lookup
   clears `accountHasList`; a successful one sets it, then either publishes the
   whole rebuilt list or, when some table lookup throws, clears it again.
   */
  function FetchList(account: Option<Address>, resource: Option<IndexResource>, lookup: TableLookup): seq<Update> {
    if account.None? then []
    else
      match resource
      case None => [SetAccountHasList(false)]
      case Some(res) =>
        match Rebuild(lookup, res.handle, res.siteCounter)
        case Some(list) => [SetAccountHasList(true), SetSites(list)]
        case None => [SetAccountHasList(true), SetAccountHasList(false)]
  }

  /** `addNewList`: raise the flag, record whether the creation was confirmed, lower the flag. */
  function AddNewList(account: Option<Address>, tx: TxOutcome): seq<Update> {
    if account.None? then []
    else [SetTransactionInProgress(true), SetAccountHasList(tx.Confirmed?), SetTransactionInProgress(false)]
  }

  /**
   `onSiteAdded`: the new record is built from the list and the typed text as they
   are when the handler starts; it is appended, and the text cleared, only once the
   transaction is confirmed.
   */
  function OnSiteAdded(s: AppState, account: Option<Address>, tx: TxOutcome): seq<Update> {
    if account.None? then []
    else
      var entry := NewEntry(s.sites, s.newSite, account.value);
      if tx.Confirmed? then
        [SetTransactionInProgress(true), SetSites(s.sites + [entry]), SetNewSite(""), SetTransactionInProgress(false)]
      else
        [SetTransactionInProgress(true), SetTransactionInProgress(false)]
  }

  /** `onCheckboxChange`: nothing unless an account is connected and the box became checked. */
  function OnCheckboxChange(account: Option<Address>, checked: bool, siteId: nat, tx: TxOutcome): seq<Update> {
    if account.None? || !checked then []
    else if tx.Confirmed? then
      [SetTransactionInProgress(true), MarkSiteCompleted(siteId), SetTransactionInProgress(false)]
    else
      [SetTransactionInProgress(true), SetTransactionInProgress(false)]
  }

  /** `onWriteSite`: the text input's change handler; it has no account guard. */
  function OnWriteSite(text: string): seq<Update> {
    [SetNewSite(text)]
  }

  // ---------------------------------------------------------------------------
  // The handlers, as transitions

  /**
   A successful fetch replaces the list as a whole with the table's items for keys
   1..siteCounter in key order; any failed lookup leaves the list alone and ends
   with `accountHasList` false.
   */
  function FetchListStep(s: AppState, account: Option<Address>, resource: Option<IndexResource>, lookup: TableLookup)
    : (r: AppState)
    ensures account.None? ==> r == s
    ensures account.Some? ==> r.newSite == s.newSite && r.transactionInProgress == s.transactionInProgress
    ensures account.Some? ==>
              (r.accountHasList <==> resource.Some? && AllPresent(lookup, resource.value.handle, 1, resource.value.siteCounter))
    ensures account.Some? && r.accountHasList ==>
              && |r.sites| == resource.value.siteCounter
              && forall k :: 1 <= k <= |r.sites| ==> r.sites[k - 1] == lookup(resource.value.handle, k).value
    ensures !r.accountHasList ==> r.sites == s.sites
  {
    RunShort(s, FetchList(account, resource, lookup));
    Run(s, FetchList(account, resource, lookup))
  }

  /** Creating the list: `accountHasList` ends true exactly when the transaction is confirmed, and the flag ends lowered. */
  function AddNewListStep(s: AppState, account: Option<Address>, tx: TxOutcome): (r: AppState)
    ensures account.None? ==> r == s
    ensures account.Some? ==> (r.accountHasList <==> tx.Confirmed?)
    ensures account.Some? ==> !r.transactionInProgress
    ensures r.sites == s.sites && r.newSite == s.newSite
  {
    RunShort(s, AddNewList(account, tx));
    Run(s, AddNewList(account, tx))
  }

  /**
   Adding a site: on confirmation the list is the old list plus exactly one new
   entry (id one past the last id, or 1; the typed domain; the account as owner;
   not evil) and the text is cleared. On failure list and text are unchanged.
   The flag ends lowered either way.
   */
  function OnSiteAddedStep(s: AppState, account: Option<Address>, tx: TxOutcome): (r: AppState)
    ensures account.None? ==> r == s
    ensures account.Some? ==> !r.transactionInProgress && r.accountHasList == s.accountHasList
    ensures account.Some? && tx.Confirmed? ==>
              && |r.sites| == |s.sites| + 1
              && r.sites[..|s.sites|] == s.sites
              && r.sites[|s.sites|].site_id == (if s.sites == [] then 1 else s.sites[|s.sites| - 1].site_id + 1)
              && r.sites[|s.sites|].domain == s.newSite
              && r.sites[|s.sites|].address == account.value
              && r.sites[|s.sites|].isEvil == Some(false)
              && r.sites[|s.sites|].isApproved == None
              && !r.sites[|s.sites|].completed
              && r.newSite == ""
    ensures account.Some? && !tx.Confirmed? ==> r.sites == s.sites && r.newSite == s.newSite
  {
    RunShort(s, OnSiteAdded(s, account, tx));
    Run(s, OnSiteAdded(s, account, tx))
  }

  /**
   Checking a box: an unchecked event, or no account, changes nothing. Otherwise,
   on confirmation, the entries with the target id gain `completed` and nothing
   else changes (same length, same other entries, same other properties); on
   failure the list is unchanged. The flag ends lowered.
   */
  function OnCheckboxChangeStep(s: AppState, account: Option<Address>, checked: bool, siteId: nat, tx: TxOutcome)
    : (r: AppState)
    ensures account.None? || !checked ==> r == s
    ensures account.Some? && checked ==>
              !r.transactionInProgress && r.newSite == s.newSite && r.accountHasList == s.accountHasList
    ensures account.Some? && checked && tx.Confirmed? ==>
              && |r.sites| == |s.sites|
              && (forall i :: 0 <= i < |s.sites| && s.sites[i].site_id != siteId ==> r.sites[i] == s.sites[i])
              && (forall i :: 0 <= i < |s.sites| && s.sites[i].site_id == siteId ==> r.sites[i].completed)
              && (forall i :: 0 <= i < |s.sites| ==> SameBesideCompleted(r.sites[i], s.sites[i]))
    ensures account.Some? && checked && !tx.Confirmed? ==> r.sites == s.sites
  {
    RunShort(s, OnCheckboxChange(account, checked, siteId, tx));
    Run(s, OnCheckboxChange(account, checked, siteId, tx))
  }

  /** Typing into the input changes the text and nothing else, with or without an account. */
  function OnWriteSiteStep(s: AppState, text: string): (r: AppState)
    ensures r.newSite == text
    ensures r.sites == s.sites && r.accountHasList == s.accountHasList
    ensures r.transactionInProgress == s.transactionInProgress
  {
    RunShort(s, OnWriteSite(text));
    Run(s, OnWriteSite(text))
  }

  // ---------------------------------------------------------------------------
  // The session as a state machine

  /** One user intent or account-triggered fetch, carrying the outcomes of its remote calls. */
  datatype Event =
    | Fetch(resource: Option<IndexResource>, lookup: TableLookup)
    | CreateList(createTx: TxOutcome)
    | AddSite(addTx: TxOutcome)
    | CheckBox(checked: bool, siteId: nat, approveTx: TxOutcome)
    | WriteSite(text: string)

  /** An event together with the wallet account connected when it fires. */
  datatype Input = Input(account: Option<Address>, event: Event)

  /** Setter calls issued by the handler for `e`. */
  function Updates(s: AppState, account: Option<Address>, e: Event): seq<Update> {
    match e
    case Fetch(resource, lookup) => FetchList(account, resource, lookup)
    case CreateList(tx) => AddNewList(account, tx)
    case AddSite(tx) => OnSiteAdded(s, account, tx)
    case CheckBox(checked, siteId, tx) => OnCheckboxChange(account, checked, siteId, tx)
    case WriteSite(text) => OnWriteSite(text)
  }

  /** The session after handling `e`: the handler's setter calls applied in order. */
  function Step(s: AppState, account: Option<Address>, e: Event): AppState {
    match e
    case Fetch(resource, lookup) => FetchListStep(s, account, resource, lookup)
    case CreateList(tx) => AddNewListStep(s, account, tx)
    case AddSite(tx) => OnSiteAddedStep(s, account, tx)
    case CheckBox(checked, siteId, tx) => OnCheckboxChangeStep(s, account, checked, siteId, tx)
    case WriteSite(text) => OnWriteSiteStep(s, text)
  }

  /** The session after handling the inputs in order, one at a time. */
  function Steps(s: AppState, inputs: seq<Input>): AppState
    decreases |inputs|
  {
    if inputs == [] then s else Steps(Step(s, inputs[0].account, inputs[0].event), inputs[1..])
  }

  /** Every fetch among the inputs reads a consistent table. */
  ghost predicate ConsistentFetches(inputs: seq<Input>) {
    forall i :: 0 <= i < |inputs| && inputs[i].event.Fetch? ==> TableConsistent(inputs[i].event.lookup)
  }

  // ---------------------------------------------------------------------------
  // Properties

  /** The last observed session of a non-empty setter list is the session it ends in. */
  lemma {:induction false} TraceEndsInRun(s: AppState, us: seq<Update>)
    requires us != []
    ensures Trace(s, us)[|us| - 1] == Run(s, us)
    decreases |us|
  {
    if |us| > 1 {
      TraceEndsInRun(Apply(s, us[0]), us[1..]);
    }
  }

  /** Setter calls that never write the list leave it unchanged in every observed session. */
  lemma {:induction false} NoSitesWritesKeepSites(s: AppState, us: seq<Update>)
    requires NoSitesWrite(us)
    ensures Run(s, us).sites == s.sites
    ensures forall i :: 0 <= i < |us| ==> Trace(s, us)[i].sites == s.sites
    decreases |us|
  {
    if us != [] {
      NoSitesWritesKeepSites(Apply(s, us[0]), us[1..]);
      var t := Trace(s, us);
      forall i | 0 <= i < |us|
        ensures t[i].sites == s.sites
      {
        if i > 0 {
          assert t[i] == Trace(Apply(s, us[0]), us[1..])[i - 1];
        }
      }
    }
  }

  /**
   A setter list that writes the list at most once never exposes a list other
   than the one it started from or the one it ends with.
   */
  lemma {:induction false} PublishIsAtomic(s: AppState, us: seq<Update>)
    requires AtMostOneSitesWrite(us)
    ensures forall i :: 0 <= i < |us| ==> Trace(s, us)[i].sites == s.sites || Trace(s, us)[i].sites == Run(s, us).sites
    decreases |us|
  {
    if us != [] {
      var s1 := Apply(s, us[0]);
      var t := Trace(s, us);
      if WritesSites(us[0]) {
        NoSitesWritesKeepSites(s1, us[1..]);
      } else {
        PublishIsAtomic(s1, us[1..]);
      }
      forall i | 0 <= i < |us|
        ensures t[i].sites == s.sites || t[i].sites == Run(s, us).sites
      {
        if i > 0 {
          assert t[i] == Trace(s1, us[1..])[i - 1];
        }
      }
    }
  }

  /** Each handler writes the list at most once. */
  lemma HandlersWriteSitesOnce(s: AppState, account: Option<Address>, e: Event)
    ensures AtMostOneSitesWrite(Updates(s, account, e))
  {
  }

  /** No handler ever exposes a partially built list: every observed list is the old one or the final one. */
  lemma HandlersPublishAtomically(s: AppState, account: Option<Address>, e: Event)
    ensures forall i :: 0 <= i < |Updates(s, account, e)| ==>
              Trace(s, Updates(s, account, e))[i].sites == s.sites
              || Trace(s, Updates(s, account, e))[i].sites == Step(s, account, e).sites
  {
    HandlersWriteSitesOnce(s, account, e);
    PublishIsAtomic(s, Updates(s, account, e));
  }

  /** Whether handling `e` submits a transaction. */
  predicate SubmitsTransaction(account: Option<Address>, e: Event) {
    account.Some? && (e.CreateList? || e.AddSite? || (e.CheckBox? && e.checked))
  }

  /**
   A handler that submits a transaction raises the in-progress flag first, keeps it
   raised in every observed session until its last setter call, and lowers it there,
   whatever the outcome.
   */
  lemma {:induction false} InProgressCoversTransaction(s: AppState, account: Option<Address>, e: Event)
    requires SubmitsTransaction(account, e)
    ensures var t := Trace(s, Updates(s, account, e));
            && |t| >= 2
            && (forall i :: 0 <= i < |t| - 1 ==> t[i].transactionInProgress)
            && !t[|t| - 1].transactionInProgress
  {
    var us := Updates(s, account, e);
    var t := Trace(s, us);
    assert us[0] == SetTransactionInProgress(true);
    assert us[|us| - 1] == SetTransactionInProgress(false);
    forall i | 0 <= i < |us| - 1
      ensures !us[i].SetTransactionInProgress? || us[i].inProgress
    {
    }
    InProgressInvariant(s, us);
  }

  /**
   Once the first setter call raises the flag and no later call but the last lowers
   it, the flag is raised in every observed session but the last, which follows the
   last call.
   */
  lemma {:induction false} InProgressInvariant(s: AppState, us: seq<Update>)
    requires |us| >= 2
    requires us[0] == SetTransactionInProgress(true)
    requires us[|us| - 1] == SetTransactionInProgress(false)
    requires forall i :: 0 <= i < |us| - 1 ==> !us[i].SetTransactionInProgress? || us[i].inProgress
    ensures var t := Trace(s, us);
            (forall i :: 0 <= i < |t| - 1 ==> t[i].transactionInProgress) && !t[|t| - 1].transactionInProgress
  {
    var t := Trace(s, us);
    TraceEndsInRun(s, us);
    RaisedUntilLast(Apply(s, us[0]), us[1..]);
    forall i | 0 <= i < |t| - 1
      ensures t[i].transactionInProgress
    {
      if i > 0 {
        assert t[i] == Trace(Apply(s, us[0]), us[1..])[i - 1];
      }
    }
    LastLowers(s, us);
  }

  /** From a session with the flag raised, calls that never lower it keep it raised in each observed session but the last. */
  lemma {:induction false} RaisedUntilLast(s: AppState, us: seq<Update>)
    requires s.transactionInProgress
    requires us != []
    requires forall i :: 0 <= i < |us| - 1 ==> !us[i].SetTransactionInProgress? || us[i].inProgress
    ensures forall i :: 0 <= i < |us| - 1 ==> Trace(s, us)[i].transactionInProgress
    decreases |us|
  {
    if |us| > 1 {
      var s1 := Apply(s, us[0]);
      assert !us[0].SetTransactionInProgress? || us[0].inProgress;
      assert s1.transactionInProgress;
      var rest := us[1..];
      forall i | 0 <= i < |rest| - 1
        ensures !rest[i].SetTransactionInProgress? || rest[i].inProgress
      {
        assert rest[i] == us[i + 1];
      }
      RaisedUntilLast(s1, rest);
      var t := Trace(s, us);
      forall i | 0 <= i < |us| - 1
        ensures t[i].transactionInProgress
      {
        if i > 0 {
          assert t[i] == Trace(s1, rest)[i - 1];
        }
      }
    }
  }

  /** A setter list whose last call lowers the flag ends with the flag lowered. */
  lemma {:induction false} LastLowers(s: AppState, us: seq<Update>)
    requires us != []
    requires us[|us| - 1] == SetTransactionInProgress(false)
    ensures !Run(s, us).transactionInProgress
    decreases |us|
  {
    if |us| > 1 {
      LastLowers(Apply(s, us[0]), us[1..]);
    }
  }

  /** With no account connected, every handler but the text input's leaves the session as it was. */
  lemma NoAccountNoChange(s: AppState, e: Event)
    ensures !e.WriteSite? ==> Step(s, None, e) == s
    ensures e.WriteSite? ==> Step(s, None, e) == s.(newSite := e.text)
  {
  }

  /**
   The handlers never read the in-progress flag: a transaction is built and
   submitted whether or not another one is still in flight.
   */
  lemma FlagIsNotAGuard(s: AppState, account: Option<Address>, e: Event)
    requires SubmitsTransaction(account, e)
    ensures Updates(s.(transactionInProgress := true), account, e) == Updates(s.(transactionInProgress := false), account, e)
    ensures Step(s.(transactionInProgress := true), account, e) == Step(s.(transactionInProgress := false), account, e)
    ensures Updates(s.(transactionInProgress := true), account, e) != []
  {
  }

  /**
   Ids 1..n in list order are kept by every handler, provided a fetch reads a table
   whose item at key k has id k. Under that invariant the id taken from the last
   entry is also one past the largest, hence fresh.
   */
  lemma StepKeepsContiguous(s: AppState, account: Option<Address>, e: Event)
    requires Contiguous(s.sites)
    requires e.Fetch? ==> TableConsistent(e.lookup)
    ensures Contiguous(Step(s, account, e).sites)
  {
    match e
    case Fetch(resource, lookup) =>
      var r := FetchListStep(s, account, resource, lookup);
      if account.Some? && r.accountHasList {
        var h := resource.value.handle;
        forall i | 0 <= i < |r.sites|
          ensures r.sites[i].site_id == i + 1
        {
          assert r.sites[i] == lookup(h, i + 1).value;
        }
      }
    case CreateList(tx) =>
    case AddSite(tx) =>
      if account.Some? && tx.Confirmed? {
        AppendKeepsContiguous(s.sites, s.newSite, account.value);
      }
    case CheckBox(checked, siteId, tx) =>
      MarkCompletedKeepsContiguous(s.sites, siteId);
    case WriteSite(text) =>
  }

  /** Every session reachable from a contiguous one by handling inputs one at a time is contiguous. */
  lemma {:induction false} StepsKeepContiguous(s: AppState, inputs: seq<Input>)
    requires Contiguous(s.sites)
    requires ConsistentFetches(inputs)
    ensures Contiguous(Steps(s, inputs).sites)
    ensures Ascending(Steps(s, inputs).sites)
    decreases |inputs|
  {
    if inputs != [] {
      StepKeepsContiguous(s, inputs[0].account, inputs[0].event);
      var rest := inputs[1..];
      assert forall i :: 0 <= i < |rest| ==> rest[i] == inputs[i + 1];
      StepsKeepContiguous(Step(s, inputs[0].account, inputs[0].event), rest);
    } else {
      ContiguousNextId(s.sites);
    }
  }

  /**
   The approval as written leaves `isApproved` unset: after a confirmed approval
   of a freshly added entry, the entry still offers its checkbox, and checking it
   again builds and submits a second approval transaction.
   */
  lemma ApprovalCanBeResubmitted()
    ensures var s := AppState([Site(1, "0xa", "example.com", None, Some(false), false)], "", true, false);
            var s1 := Step(s, Some("0xa"), CheckBox(true, 1, Confirmed));
            && s1.sites[0].completed
            && OffersApproval(s1.sites[0])
            && SubmitsTransaction(Some("0xa"), CheckBox(true, s1.sites[0].site_id, Confirmed))
            && Updates(s1, Some("0xa"), CheckBox(true, s1.sites[0].site_id, Confirmed)) != []
  {
  }

  /**
   A session walked through in order: the account connects and has no list yet,
   creates one, adds "example.com", fails to add "x" (the text stays for a retry),
   and approves entry 1.
   */
  lemma Walkthrough()
    ensures var acct := Some("0xa");
            var s1 := Step(Initial, acct, Fetch(None, (h, k) => None));
            var s2 := Step(s1, acct, CreateList(Confirmed));
            var s3 := Step(Step(s2, acct, WriteSite("example.com")), acct, AddSite(Confirmed));
            var s4 := Step(Step(s3, acct, WriteSite("x")), acct, AddSite(SubmitFailed));
            var s5 := Step(s4, acct, CheckBox(true, 1, Confirmed));
            && s1 == Initial
            && s2 == Initial.(accountHasList := true)
            && s3.sites == [Site(1, "0xa", "example.com", None, Some(false), false)]
            && s3.newSite == ""
            && s4.sites == s3.sites && s4.newSite == "x"
            && s5.sites == [Site(1, "0xa", "example.com", None, Some(false), true)]
            && !s5.transactionInProgress
  {
  }

  /**
   A fetch whose resource lookup throws never writes the list, so after the
   wallet switches accounts the previous account's list stays in place; once the
   new account creates its list, that stale list is shown under it.
   */
  lemma StaleListAfterAccountSwitch()
    ensures var previous := [Site(1, "0xa", "a.example", None, Some(false), false)];
            var s := AppState(previous, "", true, false);
            var s1 := Step(s, Some("0xb"), Fetch(None, (h, k) => None));
            var s2 := Step(s1, Some("0xb"), CreateList(Confirmed));
            && !s1.accountHasList && s1.sites == previous
            && s2.accountHasList && s2.sites == previous
  {
  }
}
