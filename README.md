# MegaApi facade — a Dafny model

This project models the `MegaApi` facade of the MEGA client library as shipped in
MEGAsync (`Source/MEGASync/sdk/megaapi.cpp`). The facade sits between an application
and the engine (`MegaClient`). It does four jobs:

- It queues the requests and transfers a caller builds.
- Its worker loop dispatches them to the engine, which answers each one with a tag.
- When an engine callback reports on one of them, it finds the caller's record by that tag.
- It notifies the registered listeners of every start, update, temporary error and finish.

The model describes one pass of that loop with the facade's mutex held. All of it is
sequential.

- **Engine.** The engine is not modelled. What the facade reads from it enters as
  parameters:
  - an `EngineView` (the node table, the decisecond clock, the login state and the
    engine's queue sizes);
  - `Replies` (the error codes its calls return);
  - an `EngineTransfer` (what a transfer callback hands over).

  What the facade asks of the engine is logged as `Command`s. The engine's tag counter
  (`reqtag`) and the tag of the command being answered (`restag`) are fields of the
  facade. The engine sets `restag` before each callback.
- **Listeners.** Listener notification is a trace of `Notice`s. A request or transfer
  event goes first to the listeners of its category, then to the general listeners,
  then to the listener the call was made with. Each listener set is walked in
  increasing order.
- **Records.** `MegaRequest` and `MegaTransfer` are classes whose fields the setters
  update in place. `MegaError` and `PublicNode` are values.
- **Pure helpers.** These are functions:
  - error and type names;
  - the retry predicate;
  - download and upload paths;
  - link formats;
  - access levels;
  - the account-details mask;
  - the node and contact comparators.

  The sorted listings are methods: a binary search and repeated sorted insertion.

Files:

- `wrappers.dfy`: Option and Result.
- `errors.dfy`: error codes and `MegaError`.
- `text.dfy`: C-string primitives.
- `records.dfy`: `MegaRequest`, `MegaTransfer`, `PublicNode`.
- `helpers.dfy`: pure helpers.
- `ordering.dfy`: comparators and sorted listings.
- `events.dfy`: listener fan-out.
- `dispatch.dfy`: the decision of the request switch.
- `accounting.dfy`: transfer arithmetic.
- `handoff.dfy`: sendPendingTransfers as a fold of single steps over the queue, each step optionally followed by the engine's `transfer_added` call, and what the whole pass reports, tracks and leaves waiting.
- `api.dfy`: the `MegaApi` class, with its queues, maps, fireOn* methods, dispatch loops and engine callbacks.

Some behaviour of the source is kept exactly as written and is documented at the member
that models it:

- **Finish by `restag`.** `fireOnRequestFinish` erases the entry under `restag`, not the
  finished request's own tag (`FireOnRequestFinish`).
- **Same-parent move.** The shortcut finishes without first setting `restag`. It
  therefore erases whatever entry `restag` still names (`Settle`, `Conclude`). The
  move's own entry stays mapped under its new tag, although `fireOnRequestFinish` has
  already deleted that request, so a later logout finishes it a second time
  (`Process`, `LogoutBranch`).
- **Download target.** A download whose target does not end in a separator gets a path
  but no parent path. `sendPendingTransfers` then rejects it with `API_EARGS`
  (`NewDownload`, `TransferRejected`).

The account-details property comes from three contracts together:

- `DetailsRepliesOfMask`: the number of replies the dispatch expects is 1 plus the
  number of history kinds asked for (transactions, purchases, sessions).
- `Settle`: the dispatch stores that number in the request.
- `AccountDetailsResult`: each success callback lowers it by one, and the request
  finishes with `API_OK` exactly when it reaches 0.

## Model

All source paths are under `Source/MEGASync/sdk/`.

| member | source | states |
|---|---|---|
| Errors.NewError | Source/MEGASync/sdk/megaapi.cpp:742-746 | a new error carries the given code and no next attempt, so it is temporal |
| Errors.SetNextAttempt | Source/MEGASync/sdk/megaapi.cpp:827-829 | only the next attempt changes; the error is temporal exactly when that attempt is 0 |
| Errors.ErrorStringDescribed | Source/MEGASync/sdk/megaapi.cpp:765-822 | each listed code ≤ 0 gets exactly its fixed message |
| Errors.ErrorStringUndescribed | Source/MEGASync/sdk/megaapi.cpp:765-822 | any other non-positive code gets "Unknown error" |
| Errors.ErrorStringHttp | Source/MEGASync/sdk/megaapi.cpp:765-822 | "HTTP Error" is returned for exactly the positive codes (both directions) |
| Errors.LookupFound | Source/MEGASync/sdk/megaapi.cpp:765-822 | the switch's lookup returns the first entry whose code matches |
| Errors.LookupMissing | Source/MEGASync/sdk/megaapi.cpp:765-822 | a code no case lists falls to the default text |
| Errors.LookupAmong | Source/MEGASync/sdk/megaapi.cpp:765-822 | every answer is the default text or one of the listed messages |
| Errors.LookupAvoids | Source/MEGASync/sdk/megaapi.cpp:765-822 | a text that is neither a listed message nor the default is never returned |
| Text.LastSeparator | Source/MEGASync/sdk/megaapi.cpp:676-683 | the backward scan finds the last '/' or '\\', and there is none after it; None means the path has none |
| Text.FileNameOfIsLastComponent | Source/MEGASync/sdk/megaapi.cpp:670-684 | the derived file name is the longest suffix of the path with no separator |
| Text.FindFrom | Source/MEGASync/sdk/megaapi.cpp:3820 | strstr finds the first occurrence of the pattern at or after the start; None means there is none |
| Text.FindFromFirst | Source/MEGASync/sdk/megaapi.cpp:4018 | a search finds an occurrence when no earlier one exists |
| Text.FindLastOf | Source/MEGASync/sdk/megaapi.cpp:250 | find_last_of gives the last index of the character, or npos when it is absent |
| Text.CaseCompareAntisymmetric | Source/MEGASync/sdk/megaapi.cpp:3217-3252 | swapping strcasecmp's arguments flips the sign of its result |
| Text.CaseCompareTransitive | Source/MEGASync/sdk/megaapi.cpp:3217-3252 | "not after" under strcasecmp is transitive |
| Text.CaseCompareZero | Source/MEGASync/sdk/megaapi.cpp:1604-1608 | strcasecmp returns 0 exactly for strings equal up to ASCII case |
| Records.RequestString | Source/MEGASync/sdk/megaapi.cpp:521-549 | "unknown" is returned exactly for the kinds the switch has no case for |
| Records.RequestStringInjective | Source/MEGASync/sdk/megaapi.cpp:521-549 | two named kinds never share a name |
| Records.TransferString | Source/MEGASync/sdk/megaapi.cpp:714-726 | "upload" exactly for uploads, "download" exactly for downloads |
| Records.Request.constructor | Source/MEGASync/sdk/megaapi.cpp:301-326 | every field starts at its default; only account-details requests get an account summary |
| Records.Request.ForTransfer | Source/MEGASync/sdk/megaapi.cpp:328-351 | an upload request with no listener, bound to its transfer |
| Records.Request.Copy | Source/MEGASync/sdk/megaapi.cpp:353-409 | a field-by-field copy, except that numDetails starts again at 0 |
| Records.Request.SetPublicNode | Source/MEGASync/sdk/megaapi.cpp:514-519 | with no copy held yet, the request's node becomes an equal copy, or none for NULL |
| Records.Transfer.constructor | Source/MEGASync/sdk/megaapi.cpp:557-584 | every field starts at its default (one connection, three retries, no slot or tag) |
| Records.Transfer.Copy | Source/MEGASync/sdk/megaapi.cpp:586-620 | a field-by-field copy |
| Records.Transfer.SetPath | Source/MEGASync/sdk/megaapi.cpp:670-684 | the path becomes p; for a non-NULL p the file name becomes p's last component, and NULL leaves the name alone |
| Records.Transfer.SetPublicNode | Source/MEGASync/sdk/megaapi.cpp:660-665 | with no copy held yet, the transfer's node becomes an equal copy |
| Records.Transfer.Bind | Source/MEGASync/sdk/megaapi.cpp:1820-1822 | the record learns its engine transfer, its size and its tag |
| Records.Transfer.RecordProgress | Source/MEGASync/sdk/megaapi.cpp:1897-1906 | progress and increment from the slot; start time clamped to the clock; speed is the Speed estimate |
| Records.Transfer.RecordCompletion | Source/MEGASync/sdk/megaapi.cpp:1960-1967 | the record is brought to the full size; the speed is taken over the whole run |
| Helpers.RetriesBounded | Source/MEGASync/sdk/megaapi.cpp:169-172 | over any run of failures, a transfer that has already failed failcount times is retried at most 10 - failcount more times, and never once it has failed ten times |
| Helpers.RetriesStopAtFatal | Source/MEGASync/sdk/megaapi.cpp:169-172 | a key error or a block ends the retries: no failure at or after it is retried |
| Helpers.RetriesReachBound | Source/MEGASync/sdk/megaapi.cpp:169-172 | with enough failures and no key error or block, exactly 10 - failcount retries happen, so the bound is reached |
| Helpers.DownloadDestination | Source/MEGASync/sdk/megaapi.cpp:185-191 | a folder destination (trailing separator) gets the name appended; any other non-empty destination is kept; an empty one becomes the name |
| Helpers.DownloadIntoFolderKeepsName | Source/MEGASync/sdk/megaapi.cpp:185-191 | downloading into a folder yields a path whose file name is the node's own name |
| Helpers.UploadNameIsLastComponent | Source/MEGASync/sdk/megaapi.cpp:245-250 | the upload name is the longest suffix with no separator; with no separator it is the whole name (npos + 1 wraps round to 0) |
| Helpers.ShareAccess | Source/MEGASync/sdk/megaapi.cpp:3805-3810 | a level is returned only for the accepted spellings; every other string is rejected with API_EARGS |
| Helpers.AccessParsersAgree | Source/MEGASync/sdk/megaapi.cpp:3174-3196 | checkAccess reads every string the share branch accepts as the same level and every other string as owner; getAccess's names read back to the same level |
| Helpers.FolderLinkParts | Source/MEGASync/sdk/megaapi.cpp:3814-3825 | a link is accepted exactly when "#F!" occurs with more than 12 characters from it and a '!' 11 characters in; rejections give API_EARGS |
| Helpers.ExportKey | Source/MEGASync/sdk/megaapi.cpp:2488-2495 | a file exports its node key; a folder with a share key exports exactly that key, and a folder without one fails with API_EKEY |
| Helpers.FolderLinkOfExport | Source/MEGASync/sdk/megaapi.cpp:2497-2502 | opening an exported folder link gives back the exported public handle and key |
| Helpers.SignupPayload | Source/MEGASync/sdk/megaapi.cpp:4018 | the payload is what follows the first "#confirm", or the whole link when there is none |
| Helpers.SignupPayloadOfConfirmLink | Source/MEGASync/sdk/megaapi.cpp:4018 | a confirmation link built from a code yields that code |
| Helpers.DetailsMask | Source/MEGASync/sdk/megaapi.cpp:1236-1242 | the mask has bit 0x01..0x20 set exactly for the kinds of detail asked for |
| Helpers.DetailsRepliesOfMask | Source/MEGASync/sdk/megaapi.cpp:3875-3888 | the number of replies the dispatch awaits is 1 plus the number of history kinds asked for, so between 1 and 4 |
| Ordering.SortedIsPartitioned | Source/MEGASync/sdk/megaapi.cpp:3254-3304 | under a weak order a sorted listing is partitioned for every node, which is what lower_bound needs |
| Ordering.LowerBound | Source/MEGASync/sdk/megaapi.cpp:3254-3304 | the position returned is the first one whose element does not come before x |
| Ordering.InsertKeepsSorted | Source/MEGASync/sdk/megaapi.cpp:3254-3304 | inserting at the lower bound keeps the listing sorted |
| Ordering.InsertionListing | Source/MEGASync/sdk/megaapi.cpp:3254-3304 | repeated sorted insertion returns a sorted permutation of its input |
| Ordering.CaseOrder | Source/MEGASync/sdk/megaapi.cpp:3217-3252 | strcasecmp totally preorders strings |
| Ordering.DefaultAscIsWeakOrder | Source/MEGASync/sdk/megaapi.cpp:3217-3223 | the default ascending comparator is a weak order |
| Ordering.DefaultDescIsWeakOrder | Source/MEGASync/sdk/megaapi.cpp:3225-3231 | the default descending comparator is a weak order |
| Ordering.AlphabeticalIsWeakOrder | Source/MEGASync/sdk/megaapi.cpp:3248-3251 | both alphabetical comparators are weak orders |
| Ordering.ComparatorIsWeakOrder | Source/MEGASync/sdk/megaapi.cpp:3254-3304 | every comparator getChildren can pick is a weak order |
| Ordering.UserComparatorIsWeakOrder | Source/MEGASync/sdk/megaapi.cpp:1604-1608 | the contact comparator is a weak order |
| Ordering.GetChildren | Source/MEGASync/sdk/megaapi.cpp:3254-3304 | a permutation of the children, sorted by the order's comparator; an unknown order or ORDER_NONE keeps the engine's order |
| Ordering.GetContacts | Source/MEGASync/sdk/megaapi.cpp:1610-1626 | a permutation of the contacts, in case-insensitive e-mail order |
| Ordering.ListingOrder | Source/MEGASync/sdk/megaapi.cpp:3217-3252 | what a sorted listing means for each order, in terms of node type, name, size and times |
| Events.Least | Source/MEGASync/sdk/megaapi.cpp:2964-2978 | the least listener of a set, from which a set's iteration starts |
| Events.DeliverLength | Source/MEGASync/sdk/megaapi.cpp:2964-2978 | walking a listener set delivers once per listener |
| Events.DeliverSound | Source/MEGASync/sdk/megaapi.cpp:2964-2978 | every delivery carries the event and goes to a member of the set |
| Events.DeliverComplete | Source/MEGASync/sdk/megaapi.cpp:2964-2978 | every member of the set is told |
| Events.DeliverIncreasing | Source/MEGASync/sdk/megaapi.cpp:2964-2978 | deliveries go out in strictly increasing listener order, so nobody is told twice |
| Events.FanOutShape | Source/MEGASync/sdk/megaapi.cpp:2981-3032 | a fireOn* tells each category listener, then each general listener, then the call's own listener last |
| Dispatch.OutcomeErrorOrigin | Source/MEGASync/sdk/megaapi.cpp:3678-4080 | the switch's error is API_OK, an argument error or an engine reply, never anything else |
| Dispatch.UnknownNodeRejected | Source/MEGASync/sdk/megaapi.cpp:3741-4044 | a request naming a node the engine does not know is rejected with API_EARGS and issues nothing |
| Dispatch.MissingArgumentRejected | Source/MEGASync/sdk/megaapi.cpp:3693-4044 | a request missing a required string argument is rejected with API_EARGS and issues nothing |
| Dispatch.RejectionIssuesNothing | Source/MEGASync/sdk/megaapi.cpp:3678-4080 | an argument or access rejection issues no engine command |
| Dispatch.FolderAccessOfExportLink | Source/MEGASync/sdk/megaapi.cpp:3814-3825 | the folder-access branch opens an exported folder link with the exported handle and key, then fetches its nodes |
| Accounting.CDivProperties | Source/MEGASync/sdk/megaapi.cpp:1905 | C division agrees with Euclidean division on non-negative operands and is odd in its dividend |
| Accounting.ClampStart | Source/MEGASync/sdk/megaapi.cpp:1898-1904 | the start time is never after the clock; an unset (0) start becomes the clock; a past start is kept |
| Accounting.SpeedBounds | Source/MEGASync/sdk/megaapi.cpp:1905 | the speed estimate lies between 0 and ten times the bytes moved, and is exact within the first decisecond |
| Accounting.ShiftStart | Source/MEGASync/sdk/megaapi.cpp:4057-4062 | an unset start time stays 0; a set one moves later by the pause's length |
| Accounting.ResumeExcludesPause | Source/MEGASync/sdk/megaapi.cpp:4057-4062 | after a resume, a transfer's active time is what it was when the pause began |
| Facade.PublicFileName | Source/MEGASync/sdk/megaapi.cpp:2578-2604 | never empty; "NO_KEY" without a key; the decrypted non-empty name when there is one |
| Facade.RequestFinishesStep | Source/MEGASync/sdk/megaapi.cpp:3911-3917 | logout finishes the request with the lowest tag first, then the rest |
| Facade.TransferFinishesStep | Source/MEGASync/sdk/megaapi.cpp:3919-3923 | logout finishes the transfer with the lowest key first, then the rest |
| Facade.RequestFinishesSound | Source/MEGASync/sdk/megaapi.cpp:3911-3917 | every notice of the request loop is the finish, with the given error, of a mapped request |
| Facade.RequestFinishesComplete | Source/MEGASync/sdk/megaapi.cpp:3911-3917 | every general listener hears the finish of every mapped request |
| Facade.TransferFinishesSound | Source/MEGASync/sdk/megaapi.cpp:3919-3923 | every notice of the transfer loop is the finish, with the given error, of a tracked transfer |
| Facade.TransferFinishesComplete | Source/MEGASync/sdk/megaapi.cpp:3919-3923 | every general listener hears the finish of every tracked transfer |
| Facade.MoveKeepsEntries | Source/MEGASync/sdk/megaapi.cpp:2563-2564 | re-keying an entry keeps the map's size and the set of records it holds |
| Facade.MegaApi.TrackedDistinct | Source/MEGASync/sdk/megaapi.cpp:1813-1829 | no record is tracked under two engine transfers |
| Facade.MegaApi.constructor | Source/MEGASync/sdk/megaapi.cpp:898-930 | empty queues, maps and listener sets, apart from the constructor's listener; counters at zero; three retries |
| Facade.MegaApi.AddListener | Source/MEGASync/sdk/megaapi.cpp:2892-2926 | the listener joins its category's set; NULL and the other sets are unchanged |
| Facade.MegaApi.RemoveListener | Source/MEGASync/sdk/megaapi.cpp:2928-2962 | the listener leaves its category's set; NULL and the other sets are unchanged |
| Facade.MegaApi.Notify | Source/MEGASync/sdk/megaapi.cpp:2964-2978 | the loop over a listener set appends exactly that set's deliveries |
| Facade.MegaApi.FireOnRequestStart | Source/MEGASync/sdk/megaapi.cpp:2964-2978 | appends the request's start fan-out |
| Facade.MegaApi.FireOnRequestFinish | Source/MEGASync/sdk/megaapi.cpp:2981-3032 | appends the finish fan-out, then erases the entry under restag, whichever request it holds |
| Facade.MegaApi.FireOnRequestTemporaryError | Source/MEGASync/sdk/megaapi.cpp:3034-3051 | appends the temporary-error fan-out; the maps are unchanged |
| Facade.MegaApi.FireOnTransferStart | Source/MEGASync/sdk/megaapi.cpp:3053-3067 | appends the transfer's start fan-out |
| Facade.MegaApi.FireOnTransferFinish | Source/MEGASync/sdk/megaapi.cpp:3069-3089 | appends the finish fan-out, then erases the entry keyed by the record's own engine transfer |
| Facade.MegaApi.FireOnTransferTemporaryError | Source/MEGASync/sdk/megaapi.cpp:3091-3108 | appends the temporary-error fan-out; the transfer stays tracked |
| Facade.MegaApi.FireOnTransferUpdate | Source/MEGASync/sdk/megaapi.cpp:3110-3124 | appends the update fan-out |
| Facade.MegaApi.FireOnGlobal | Source/MEGASync/sdk/megaapi.cpp:3126-3163 | global listeners first, then general ones |
| Facade.MegaApi.FireOnSyncStateChanged | Source/MEGASync/sdk/megaapi.cpp:3165-3171 | general listeners only |
| Facade.MegaApi.NextReqTag | Source/MEGASync/sdk/megaapi.cpp:3686 | each tag is one more than the last one handed out |
| Facade.MegaApi.FinishAllRequests | Source/MEGASync/sdk/megaapi.cpp:3911-3917 | every mapped request finishes, lowest tag first, and the map ends empty |
| Facade.MegaApi.FinishAllTransfers | Source/MEGASync/sdk/megaapi.cpp:3919-3923 | every tracked transfer finishes, lowest key first, and the map ends empty |
| Facade.MegaApi.AbortAll | Source/MEGASync/sdk/megaapi.cpp:3911-3923 | every other request, then every transfer, finishes with API_EACCESS; both maps end empty |
| Facade.MegaApi.LogoutBranch | Source/MEGASync/sdk/megaapi.cpp:3906-3931 | the API_EACCESS finishes of every other request and every transfer, then the logout's own finish with API_OK; both maps end empty |
| Facade.MegaApi.ShiftStartTimes | Source/MEGASync/sdk/megaapi.cpp:4054-4063 | every tracked transfer's start time is shifted as ShiftStart says |
| Facade.MegaApi.PauseBranch | Source/MEGASync/sdk/megaapi.cpp:4045-4071 | a pause records the clock only if not already paused; a resume while paused shifts start times and clears the pause; the request finishes with API_OK |
| Facade.MegaApi.Register | Source/MEGASync/sdk/megaapi.cpp:3684-3690 | a fresh tag, the request mapped under it, and its start notices |
| Facade.MegaApi.Settle | Source/MEGASync/sdk/megaapi.cpp:3747-3750 | account details await DetailsReplies replies; the same-parent move finishes by restag; an error finishes the request under its own tag; success leaves it mapped |
| Facade.MegaApi.Conclude | Source/MEGASync/sdk/megaapi.cpp:3873-4078 | the bookkeeping by kind: logout, pause/resume, the move shortcut, and error or success of the rest |
| Facade.MegaApi.Process | Source/MEGASync/sdk/megaapi.cpp:3684-4078 | a fresh tag and the start notices first; logout then finishes every other request and every transfer with API_EACCESS and itself with API_OK, emptying both maps; pause/resume finishes with API_OK under its own tag and updates the pause time and start times; the same-parent move finishes with API_OK, erasing the entry under the old restag; any other request finishes with the error under its own tag, or on success stays mapped with restag unchanged |
| Facade.MegaApi.DispatchRequest | Source/MEGASync/sdk/megaapi.cpp:3684-4078 | the switch's commands are issued, and the request is processed, as Process states, with the switch's error |
| Facade.MegaApi.SendNextRequest | Source/MEGASync/sdk/megaapi.cpp:3680-3684 | the front request is popped and gets the next tag, the only new key of the request map |
| Facade.MegaApi.SendPendingRequests | Source/MEGASync/sdk/megaapi.cpp:3678-4080 | the queue is drained; every request gets a tag handed out by this pass; the trace and command log only grow |
| Facade.MegaApi.DispatchTransfer | Source/MEGASync/sdk/megaapi.cpp:3608-3660 | a rejected transfer finishes with API_EARGS; an accepted one waits in currentTransfer and the engine is told to start it, an upload from its path into its parent folder, a download of the known node or else the public node; a download's path is the parent path plus the file's name |
| Facade.MegaApi.HandOff | Source/MEGASync/sdk/megaapi.cpp:3608-3660 | one iteration, with the engine's transfer_added answer during startxfer as a parameter: the bookkeeping afterwards is HandOffStep of the bookkeeping before; an adopted record is bound to the engine transfer's id, size and tag, any other keeps its binding, size and tag |
| Facade.MegaApi.HandOffAdopted | Source/MEGASync/sdk/megaapi.cpp:1813-1829 | an accepted transfer that the engine reports at once is tracked, counted and started, and leaves currentTransfer empty, as HandOffStep says; the record takes the engine transfer's id, size and tag |
| Facade.MegaApi.Advance | Source/MEGASync/sdk/megaapi.cpp:3608-3610 | the i-th transfer is popped and handed off, which extends the pass by one step; the rest of the queue is untouched |
| Facade.MegaApi.SendPendingTransfers | Source/MEGASync/sdk/megaapi.cpp:3603-3663 | the queue is drained, and the bookkeeping afterwards is Pass over the queue as it was, with each transfer's ticket read before the loop |
| Handoff.Tickets | Source/MEGASync/sdk/megaapi.cpp:3612-3651 | one ticket per queued transfer, each the verdict of the switch on that transfer: rejected, or the startxfer command with its local path and its handle (the parent folder for an upload, the fetched node for a download) |
| Handoff.StepFields | Source/MEGASync/sdk/megaapi.cpp:3608-3660 | one iteration draws one tag, issues the ticket's commands only when it is accepted, puts an accepted transfer into currentTransfer until transfer_added takes it, and erases a rejection's bound entry |
| Handoff.PassIssues | Source/MEGASync/sdk/megaapi.cpp:3608-3610 | the pass draws one tag per transfer and issues exactly the accepted tickets' commands, in queue order |
| Handoff.PassExtends | Source/MEGASync/sdk/megaapi.cpp:3603-3663 | the pass only appends to the trace |
| Handoff.PassReports | Source/MEGASync/sdk/megaapi.cpp:3653-3657 | every category and general listener hears of a rejected transfer's API_EARGS finish and of an adopted transfer's start |
| Handoff.PassReportsOnly | Source/MEGASync/sdk/megaapi.cpp:3653-3657 | each notice the pass adds is a rejection's finish or an adopted transfer's start of some queued transfer |
| Handoff.PassTracks | Source/MEGASync/sdk/megaapi.cpp:1813-1822 | a transfer the engine adopts stays tracked under its engine transfer unless a later step touches that entry |
| Handoff.PassNeverTracks | Source/MEGASync/sdk/megaapi.cpp:1813-1822 | a record that is not tracked before the pass and that the engine never adopts during it is not tracked after it |
| Handoff.PassKeepsSlot | Source/MEGASync/sdk/megaapi.cpp:3653-3657 | a pass in which every transfer is rejected leaves currentTransfer as it was |
| Handoff.PassLeavesSlot | Source/MEGASync/sdk/megaapi.cpp:3620-3651 | after the last accepted transfer currentTransfer holds it, unless the engine adopted it at once, when it is empty |
| Handoff.PassSlotMoves | Source/MEGASync/sdk/megaapi.cpp:3620-3651 | a later accepted transfer overwrites currentTransfer, so an earlier one no longer waits there |
| Handoff.PassLosesUnadopted | Source/MEGASync/sdk/megaapi.cpp:3620-3651 | an accepted transfer that the engine did not report before a later accepted transfer is neither waiting nor tracked at the end of the pass |
| Facade.MegaApi.FinishAnswered | Source/MEGASync/sdk/megaapi.cpp:2391-2454 | the answered request finishes with the reported error; an unmapped tag is ignored |
| Facade.MegaApi.SetattrResult | Source/MEGASync/sdk/megaapi.cpp:2173-2190 | only a rename is finished, with the node handle recorded |
| Facade.MegaApi.NodeResult | Source/MEGASync/sdk/megaapi.cpp:2192-2220 | the node handle is recorded and the request finishes |
| Facade.MegaApi.ShareResult | Source/MEGASync/sdk/megaapi.cpp:2282-2298 | an export keeps waiting; any other request finishes with the error |
| Facade.MegaApi.FaFailed | Source/MEGASync/sdk/megaapi.cpp:2332-2347 | an unmapped tag returns 1 silently; more than 3 retries finishes with API_EINTERNAL and returns 1; otherwise API_EAGAIN is a temporary error, 0 is returned and the request stays mapped |
| Facade.MegaApi.AccountDetailsResult | Source/MEGASync/sdk/megaapi.cpp:2664-2678 | one awaited reply fewer; the request finishes with API_OK exactly when none is left |
| Facade.MegaApi.Retag | Source/MEGASync/sdk/megaapi.cpp:2563-2564 | the entry moves from restag to a fresh tag; the map keeps its size and records, and nothing is notified |
| Facade.MegaApi.PutnodesResult | Source/MEGASync/sdk/megaapi.cpp:2235-2280 | inbox deliveries are ignored; an upload finishes its transfer and drops its request silently; anything else records the new node and finishes |
| Facade.MegaApi.ExportnodeResult | Source/MEGASync/sdk/megaapi.cpp:2469-2512 | a missing node finishes with API_ENOENT; a folder without a share key with API_EKEY; otherwise the link is recorded and the request finishes with API_OK |
| Facade.MegaApi.OpenfilelinkResult | Source/MEGASync/sdk/megaapi.cpp:2531-2610 | not logged in gives API_EACCESS; an import is re-tagged and a putnodes issued; a query records the public node and finishes |
| Facade.MegaApi.EphemeralResult | Source/MEGASync/sdk/megaapi.cpp:2750-2773 | the request is re-tagged and the signup link sent to its address |
| Facade.MegaApi.QuerysignuplinkResult | Source/MEGASync/sdk/megaapi.cpp:2802-2856 | address and name recorded; a query finishes; a wrong password gives API_ENOENT; otherwise re-tag and confirm |
| Facade.MegaApi.UpdateStatics | Source/MEGASync/sdk/megaapi.cpp:4090-4096 | the pending counters become the engine's queue sizes |
| Facade.MegaApi.Claim | Source/MEGASync/sdk/megaapi.cpp:1816-1818 | the waiting record, or a fresh one of the transfer's direction; currentTransfer is cleared |
| Facade.MegaApi.Track | Source/MEGASync/sdk/megaapi.cpp:1819-1822 | the record is tracked under the engine transfer and bound to it |
| Facade.MegaApi.Adopt | Source/MEGASync/sdk/megaapi.cpp:1813-1825 | the claimed record is tracked under the engine transfer, and the direction's total counts it |
| Facade.MegaApi.TransferAdded | Source/MEGASync/sdk/megaapi.cpp:1813-1829 | as Adopt, followed by the transfer's start notices |
| Facade.MegaApi.TransferRemoved | Source/MEGASync/sdk/megaapi.cpp:1831-1840 | one fewer pending in the direction; a tracked record gets a temporary API_OK |
| Facade.MegaApi.TransferPrepare | Source/MEGASync/sdk/megaapi.cpp:1842-1886 | the tracked record learns its local path, file name and size; a download also learns its node |
| Facade.MegaApi.TransferUpdated | Source/MEGASync/sdk/megaapi.cpp:1888-1920 | with a slot: progress, increment, clamped start and speed; listeners hear of it once a byte has moved |
| Facade.MegaApi.TransferFailed | Source/MEGASync/sdk/megaapi.cpp:1922-1933 | with a slot the record takes the last-data time; listeners hear a temporary error |
| Facade.MegaApi.TransferLimit | Source/MEGASync/sdk/megaapi.cpp:1935-1950 | listeners of a tracked record hear a temporary API_EOVERQUOTA |
| Facade.MegaApi.TransferComplete | Source/MEGASync/sdk/megaapi.cpp:1952-1972 | one fewer pending; the record reaches full size and finishes with API_OK, which ends its tracking |
| Facade.MegaApi.SubmitRequest | Source/MEGASync/sdk/megaapi.cpp:1244-1246 | the request joins the back of the request queue |
| Facade.MegaApi.SubmitTransfer | Source/MEGASync/sdk/megaapi.cpp:1316-1318 | the transfer joins the back of the transfer queue |
| Facade.MegaApi.GetAccountDetails | Source/MEGASync/sdk/megaapi.cpp:1233-1247 | a queued account-details request that carries the detail mask |
| Facade.MegaApi.PauseAll | Source/MEGASync/sdk/megaapi.cpp:1293-1299 | a queued pause/resume request that carries the flag |
| Facade.MegaApi.StartUpload | Source/MEGASync/sdk/megaapi.cpp:1307-1319 | a queued upload with the path, the derived or given name, the parent, the limits and the facade's retry limit |
| Facade.MegaApi.NewDownload | Source/MEGASync/sdk/megaapi.cpp:1330-1346 | a target ending in a separator is the parent folder; any other target is the file's path and gives its name |
| Facade.MegaApi.StartDownload | Source/MEGASync/sdk/megaapi.cpp:1330-1347 | the download NewDownload builds, queued |
| Facade.MegaApi.StartPublicDownload | Source/MEGASync/sdk/megaapi.cpp:1358-1366 | a queued download into the folder, holding its own copy of the public node |

## Left out

- **Threads.** The worker thread, the mutexes and the waiter wake-ups are left out. One
  pass of the loop is modelled sequentially, and the queues are sequences.
- **Thumbnails.** `createthumbnail` is left out: it decodes and encodes images in a
  foreign library. For the same reason, the thumbnail generation and `putfa` calls that
  `transfer_prepare` makes for uploads are left out.
- **Cryptography.** It is left out and treated as opaque:
  - Password keys, symmetric ciphers and the folder key generated in mkdir are left out.
  - Attribute decryption in `openfilelink_result` enters as a `Decryption` value.
  - The signup password challenge enters as `passwordMatches`.
  - Base64 encoding enters as the `encode` parameter of `ExportnodeResult`.
- **Engine internals.** `MegaClient`'s own work (login, putnodes, checkmove, checkaccess,
  addsync, the node tree) enters as an `EngineView` and as the `Replies` codes. Its
  tag counter is assumed to count up by one.
- **File system and shell.** The path conversions (`local2path`, `path2local`), the
  temporary names, the `fa_complete` file write, the sync shell notifications and
  `is_syncable`'s wildcard matching are left out.
- **Logging.** Logging and the default listener bodies, which only print, are left out.
- **Read accessors.** The root-node getters, shares, `processTree` and `search` only read
  live engine nodes, so they are left out. So is `getNodeByPath`: its tokenizer walks
  the engine's node tree, which is not modelled.
- **Other request builders.** `createFolder`, `moveNode`, `renameNode`, `login`, `share`
  and the other wrappers only call the request constructor and setters and then queue
  the request. Their shared tail is `SubmitRequest`; only `getAccountDetails` and
  `pauseTransfers`, whose fields the dispatch interprets, are modelled in full.
- **Other operations.** `setUploadLimit`, `cancelTransfer`, `checkTransfer`,
  `syncPathState` and the sync callbacks drive engine state that is not modelled.
- **Commented-out code.** The session-ID renewal code is commented out, so it is left
  out, and so is its `updatingSID` guard, which is always off.
- **Memory ownership.** `new`/`delete`, `strdup` and the release of finished records are
  left out. The maps hold only non-null records, since every insertion stores a live
  object.
- **Integer width.** Counters, sizes and speeds are unbounded integers: 64-bit overflow
  of `10 * bytes` is not modelled.
- **Clock reads.** The engine clock is read once per callback (`view.now`). The source
  reads `getdstime()` and `ds` separately, and the model assumes they agree.
- **One-line callbacks.**
  - `share_result(int, error)` does nothing.
  - `fetchnodes_result`, `login_result`, `changepw_result`, `invite_result`,
    `sendsignuplink_result`, `confirmsignuplink_result`, `putfa_result`,
    `request_error`, `fa_complete`, and the error forms of `exportnode_result`,
    `openfilelink_result`, `account_details`, `ephemeral_result` and
    `querysignuplink_result` only finish the answered request with the reported code,
    which is what `FinishAnswered` states.
  - `login_result`'s extra success work belongs to the commented-out session code.
- **startDownload by node.** The `startDownload(Node*, ...)` overload passes 1 instead of
  its `connections` argument. Only the handle-based `startDownload`, which it forwards
  to, is modelled.
- Records.Request.SetPublicNode: requires that no copy is held yet. When one is, the
  source deletes its argument and then copies the deleted node. That use-after-free has
  no defined result. Every caller sets the node only once.
- Records.Transfer.SetPublicNode: the same restriction, for the same reason.
- Facade.MegaApi.NewDownload: requires a non-empty target, because the source reads the
  character before the target's first one when the target is empty.
- Facade.MegaApi.StartDownload: the same requirement.
- Facade.MegaApi.LogoutBranch: requires every tracked transfer to be keyed by its own
  engine transfer, which `Valid` keeps. Otherwise the source's loop never ends.
- **Order across logs.** Engine commands and listener notices are two separate logs, so
  their relative order is not captured. For example, the logout command reaches the
  engine after the API_EACCESS finishes in the source, which this model cannot express.
- **Notices hold live records.** A `Notice` refers to the request or transfer record
  itself, not to a copy of its fields. The source hands listeners the live object too,
  so a later setter changes what an earlier notice shows.
- **startxfer.** The engine's answer to `startxfer` enters as a parameter. It says
  whether `transfer_added` is called before `startxfer` returns, and with which engine
  transfer.
- Facade.MegaApi.SendPendingTransfers: states the pass over the bookkeeping fields.
  What it sets on each record is stated per iteration, and not repeated over the whole
  pass. `DispatchTransfer` states the download path and file name, and `HandOff` states
  the engine transfer, size and tag that `transfer_added` binds.
- Facade.MegaApi.SendNextRequest: states the pop, the tag and that the logs only grow.
  The popped request's outcome is stated by `DispatchRequest`, which it calls, and is
  not repeated.
- Ordering.InsertionListing: states a sorted permutation, not how equivalent elements
  are ordered. `lower_bound` puts a new element before its equivalents under a strict
  comparator, so they end in reverse input order. Under the contact comparator's `<=`
  it puts it after them, so they keep input order.
- Ordering.GetChildren: the same; the order among children that compare equivalent is
  not stated.
- Ordering.GetContacts: the same; the order among contacts whose e-mails are equal up to
  case is not stated.
- Facade.MegaApi.SendPendingRequests: states that the pass issues tags and drains the
  queue. The contract of each request's dispatch is stated in `DispatchRequest`, not
  repeated over the whole sequence.
