# Site registry client: session state machine

This project models the session logic of the `App` component of the site-registry
client. It is a React front end for an on-chain index of web sites. A connected
account keeps a list of sites in a table on the Aptos ledger. The client mirrors that
list locally. It lets the account create its list, register a new site, and approve a
site through signed transactions.

The session state has four parts:

- `sites`: the local list;
- `newSite`: the text being typed;
- `accountHasList`: whether the account's index resource was found;
- `transactionInProgress`: the spinner flag.

Five handlers change that state: `fetchList`, `addNewList`, `onSiteAdded`,
`onCheckboxChange` and the text input's `onWriteSite`. Every remote call becomes an
input to the model:

- the resource lookup is `Option<IndexResource>`, holding the table handle and the site counter;
- each table lookup is a function `(handle, key) -> Option<Site>`;
- each transaction is a `TxOutcome`: `SubmitFailed`, `WaitFailed` or `Confirmed`.

`None` and the two failed outcomes stand for a call that throws.

Each handler is modelled as the ordered list of state-setter calls it issues for
given outcomes (`Session.FetchList`, `Session.AddNewList`, ...). `Session.Run` applies
such a list to a session. `Session.Trace` gives the session seen after each setter
call. The `...Step` functions are the resulting pure transitions, and they carry the
contracts.

Files:

- `wrappers.dfy`: `Option`.
- `sites.dfy`: the `Site` record, the id guess for a new entry, and the approval update. This includes the update as written and the corrected one.
- `remote.dfy`: the oracle types and the rebuild of the list from the table.
- `session.dfy`: the session state (`AppState`), the handlers, the state machine and its properties.

Behaviour of the code worth knowing before reading the model:

- **Adding a site is not optimistic.** The new entry is appended only after the wait for the transaction succeeds. On failure nothing was appended, so there is no rollback step.
- **The next id is one past the LAST entry's id, not the largest id.** This is the same as the largest id whenever ids run 1..n in list order. `Session.StepsKeepContiguous` proves that this holds in every reachable session, given that table key k holds the site with id k. `Sites.NextIdCanCollide` shows the difference on an unordered list.
- **Approval writes a `completed` property, not `isApproved`.** See Findings.
- **No approval guard in the handler.** The handler does not check whether the entry is already approved. Only the rendering replaces the enabled checkbox of such an entry with a checked, disabled one (`Sites.OffersApproval`).
- **No single-flight guard.** No handler reads `transactionInProgress` (`Session.FlagIsNotAGuard`). The flag only drives the spinner.
- **A failed fetch ends with `accountHasList` false.** `accountHasList` is first set to true once the resource lookup succeeds. If a later table lookup throws, it is set back to false.
- **A failed fetch keeps the previous list.** A fetch whose lookups throw never writes the list. After the wallet switches accounts, the previous account's list therefore stays in place, and once the new account creates its list that stale list is shown under it (`Session.StaleListAfterAccountSwitch`).

## Model

| member | source | states |
|---|---|---|
| Remote.LoadFrom | client/src/App.tsx:51-65 | The lookup loop from key `counter` to the site counter succeeds exactly when every key answers. It then extends the accumulated list by one entry per key, and the entry for key k is the answer for k, in increasing key order. |
| Remote.Rebuild | client/src/App.tsx:51-67 | The rebuilt list exists exactly when every key 1..siteCounter answers. It then has siteCounter entries, and entry k-1 is the table item at key k. |
| Remote.RebuildContiguous | client/src/App.tsx:51-65 | If the table stores the site with id k at key k, a successful rebuild has ids 1..n in list order. |
| Session.FetchListStep | client/src/App.tsx:38-71 | With no account nothing changes. Otherwise `accountHasList` ends true exactly when the resource lookup and every item lookup succeed. In that case the list is replaced whole by the items for keys 1..siteCounter in key order. On any failure the list is unchanged. The text and the flag are never touched. |
| Session.AddNewListStep | client/src/App.tsx:73-94 | With no account nothing changes. Otherwise `accountHasList` ends true exactly when sign-and-submit and the wait both succeed, and `transactionInProgress` ends false on every path. List and text are untouched. |
| Session.OnSiteAddedStep | client/src/App.tsx:96-140 | With no account nothing changes. On confirmation the list becomes the old list plus exactly one appended entry, and the text is cleared. The entry's id is the last entry's id + 1, or 1 for an empty list. Its domain is the typed text and its address is the account. `isEvil` is false, `isApproved` is absent and `completed` is false. On failure the list and the text are unchanged. The flag ends false either way. |
| Session.OnCheckboxChangeStep | client/src/App.tsx:142-176 | With no account, or an unchecked event, nothing changes and the flag is not touched. On confirmation the length is kept, and entries with the target id gain `completed`. Every other entry, and every other property, stays identical. On failure the list is unchanged. The flag ends false. |
| Session.OnWriteSiteStep | client/src/App.tsx:33-36 | Typing sets the text and changes nothing else. |
| Sites.NewEntryShape | client/src/App.tsx:108-118 | The record built for a new site has the guessed id, the typed domain and the account as owner. It is not evil and does not offer itself as approved. |
| Sites.NextIdIsFresh | client/src/App.tsx:109-110 | On a list with ascending ids, the guessed id is larger than every id present. |
| Sites.ContiguousNextId | client/src/App.tsx:109-110 | On a list with ids 1..n in order, the guessed id is n+1 and the ids ascend. |
| Sites.NextIdCanCollide | client/src/App.tsx:109-110 | Because the guess reads the last entry, some lists whose ids are out of order, such as ids 2, 1, get an id that is already taken. |
| Sites.AppendKeepsContiguous | client/src/App.tsx:109-130 | Appending the guessed entry to a list with ids 1..n gives ids 1..n+1. |
| Sites.MarkCompleted | client/src/App.tsx:160-170 | The map over the previous list keeps its length. Entries with the target id get `completed`, other entries are identical, and no other property changes. |
| Sites.MarkCompletedKeepsContiguous | client/src/App.tsx:160-170 | The approval update keeps every id in place. |
| Sites.MarkCompletedIdempotent | client/src/App.tsx:160-170 | Applying the approval update twice equals applying it once. |
| Sites.MarkCompletedKeepsOffering | client/src/App.tsx:163-164 | The update never sets `isApproved`, so an entry that offered its approval checkbox still offers it. |
| Sites.MarkApproved | client/src/App.tsx:160-170 | Corrected update: entries with the target id become approved, and everything else is identical. |
| Sites.MarkApprovedWithdrawsOffer | client/src/App.tsx:239-246 | After the corrected update an entry offers the checkbox exactly when it did before and is not the target. |
| Sites.MarkApprovedIdempotent | client/src/App.tsx:160-170 | Approving an already approved entry again changes nothing. |
| Session.HandlersWriteSitesOnce | client/src/App.tsx:38-176 | Every handler issues at most one setter call that writes the list. |
| Session.PublishIsAtomic | client/src/App.tsx:38-176 | A sequence of setter calls with at most one list write never shows a list other than the initial or the final one. |
| Session.HandlersPublishAtomically | client/src/App.tsx:38-176 | While any handler runs, each observed list is either the list before the handler or the list after it. A partially rebuilt or partially extended list is never shown. |
| Session.InProgressCoversTransaction | client/src/App.tsx:73-176 | A handler that submits a transaction sets the flag first and keeps it set in every observed session until its last setter call. It clears the flag there on success and on failure. |
| Session.NoAccountNoChange | client/src/App.tsx:33-146 | With no connected account every handler returns without changing any state. The exception is the text input, which has no account guard and only sets the text. |
| Session.FlagIsNotAGuard | client/src/App.tsx:73-176 | The transaction handlers do not read `transactionInProgress`. They issue the same setter calls and reach the same session whether or not a transaction is in flight. |
| Session.StepKeepsContiguous | client/src/App.tsx:38-176 | Every handler keeps the ids at 1..n in list order, given a table that stores id k at key k. |
| Session.StepsKeepContiguous | client/src/App.tsx:38-176 | Every session reachable from one with ids 1..n has ids 1..n in order, and so has ascending ids. |
| Session.ApprovalCanBeResubmitted | client/src/App.tsx:142-176 | After a confirmed approval, the entry is `completed` but still offers its checkbox, and checking it again builds a second approval transaction. |
| Session.StaleListAfterAccountSwitch | client/src/App.tsx:38-94 | After an account switch, a fetch whose resource lookup throws leaves the previous account's list in place with `accountHasList` false; a confirmed list creation then sets `accountHasList` true with that stale list still shown. |
| Session.Walkthrough | client/src/App.tsx:38-176 | A concrete run: connect with no list, create the list, add "example.com" as id 1, fail to add "x" (the text is kept), then approve id 1. |

## Left out

- The Aptos SDK calls (`getAccountResource`, `getTableItem`, `waitForTransaction`) and the wallet's `signAndSubmitTransaction` are network calls. They appear only as outcome inputs. The transaction payloads (the Move function names and their arguments) are not modelled.
- The `useEffect` that re-fetches when the account address changes (client/src/App.tsx:178-180) is React scheduling. Fetching is an ordinary event the caller may issue.
- The JSX rendering (client/src/App.tsx:182-271) is presentation and is left out. The one exception is the truthiness test on `isApproved` that decides whether a checkbox is offered (`Sites.OffersApproval`).
- Async interleaving is left out because the model handles one event at a time. This includes overlapping handlers and `onSiteAdded` appending to the list it captured at its start rather than the current one. React's batching of setter calls is left out too.
- `parseInt` on a non-numeric id (NaN) is left out. Ids are natural numbers, and `parseInt` and the string conversion of ids are the identity.
- The `REACT_APP_MODULE_ADDRESS` environment lookup and the `console.log` of errors have no effect on state.
- A resource with missing fields, and table contents that change between lookups, are left out. The table lookup is a fixed function for the duration of one fetch.

## Findings

| source | as written | input that shows it | evidently intended | confidence | as-written member | corrected member |
|---|---|---|---|---|---|---|
| client/src/App.tsx:164 | A confirmed approval sets a new property `completed: true` on the matching entries. The rendering at lines 239-246 reads `isApproved`. | Approve entry 1 while its `isApproved` is absent, and let the wait succeed. `isApproved` is still absent, so the entry keeps an enabled checkbox. Checking it again submits a second approval transaction. | Set `isApproved: true` on the matching entries. The checkbox is then withdrawn, and approving again changes nothing. | high; not executed | Session.ApprovalCanBeResubmitted | Sites.MarkApproved |

The session model keeps the update as the code writes it (`MarkSiteCompleted`), because it describes the component's current behaviour. `Sites.MarkApproved` is the corrected update. `Sites.MarkApprovedWithdrawsOffer` and `Sites.MarkApprovedIdempotent` prove the intended properties about it.
