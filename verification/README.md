# Verified models of the durable core

A Dafny 4.11 project about the parts of the system that must stay right when processes die,
requests get lost or arrive late, and the same work is asked for twice. SQLite transactions are
atomic steps, remote servers and native engines are part of the state, and a crash may fall between
any two steps. `dafny verify dfyconfig.toml` checks everything.

## What is modelled

**The consent write journal** (`PolicyJournal`, `JournalInvariants`, `JournalTheorems`, `JournalContents`,
`JournalWitness`, `CommandTheorems`, `ConsentJournal`, `CrmControl`). An ordered compare-and-set writer over room account
data whose PUTs may be refused, lost or commit late, next to other writers, crashes and restores of any
older database, under a prepare/commit/cancel layer. `PolicyJournal` has one action for each committed
transaction or exchange; `JournalTheorems` and `CommandTheorems` are about all its runs, and `JournalContents` says what
the writes carry and what stands behind each. A manual request is written under the owner and generation of the journal
that writes it, which need not be those it was made by (`agents/uplink/crm_policy.py:318-342`). `ConsentJournal` and
`CrmControl` are the program's own methods over the tables, every commit of which is one of those actions.

**Which message answers which** (`ReplyPairing`, `ConversationTracking`, `ConversationParts`, `ConversationLedger`,
`ConversationUpdate`, `ConversationWindows`, `OutreachPairing`, `OutreachParts`).
The specification counts: a message is answered by the first later one at which the other side's messages
outnumber its own side's. The two-stack loop and the greedy scan are both proved to compute it. The windows
that feed the first are merged, grouped and refused as in the code; `ConversationLedger` says which are refused.

**Configuration** (`ConfigMerge`, `ConfigActivation`). A three-way merge that splices edit scripts in place, and
the redo journal behind an activation.

**The iMessage daemon** (`OutboundDispatch`, `OutboundDaemon`, `InboundRelay`, `RateCaps`). Dispatch of events under
replay, concurrent transactions and restarts; relay of native messages component by component; sliding-window
caps over pruned tables.

**History, contacts, notifications** (`HistoryPaging`, `ContactStore`, `PushDelivery`, `DeliveryPlan`). The backwards page
walk with its persisted cursor; the versioned contact table and its feed; the push state machine; windows, slots
and collecting intervals (`Numerals` has the numbers in their keys).

Where the code loops over tables or lists, the model is a method with that loop, proved against a function or
relation; the promises are lemmas about those. Methods that stand for calls to the outside take what the outside
did as a parameter (the fate of a request, the point at which the process dies, the events of other threads).

## Properties that do not hold as one would state them

- *Links survive whatever happens to the boundary message* (`agents/uplink/conversation_tracking.py:82-88`). The first window's
  oldest message is hidden while more history remains. If later windows reach further back, messages on both sides
  of it are paired over it; when the history turns out complete it is shown again and takes part in the pairing.
  `BoundaryReappears` projects three such windows one after the other. `ProjectedLinksSurviveIff`: for a window that adds
  only before or behind the stored events, a link survives if and only if the window still has more behind it, or there was
  no boundary, or the boundary does not lie between message and answer.
- *When a policy PUT starts, the markers on the server are those of the local attempts* (`agents/uplink/crm_control.py:141-164`). Each local
  attempt then has its marker there (`IssueIsFenced`), but the check precedes the PUT, and the marker of an attempt that a
  restore has forgotten can land between them; `StrayMarker` is such a run. No PUT was ever issued under such a marker.
  `StillMatchedIff`: every marker is still that of a local attempt if and only if none lands behind the check but those
  of attempts the database then knows.
- *A push that may have arrived is never repeated* (`master/notifications.py:756-759` and `848-854`). If the transaction that
  records a group's outcome raises something other than a value error, the handler in `deliver` takes the first job
  for one that was never attempted and makes it pending. `GroupFaultPushesTwice` is such a run of two rounds. `JobExact` states
  the one case exactly, by what is known of the job and the table before it (`Faulty`): the push of a group came back, not
  told to retry; its record was lost that way and the handler's own was not; the job was in the group and had no
  receipt. `RoundExact`: a round is sound at every point if and only if none of its jobs is that case.
- *At most three chats an hour, ten a day* (`imessage/daemon.py:482-488`) holds of windows that are open at their beginning. With both
  ends counted an hour can hold six and a day thirteen, and no more (`StartsAreCapped`, `ClosedWindowsAreTight`).
  `ClosedWindowsAreCappedIff`: closed hours hold at most three if and only if no start comes exactly an hour after the third
  before it, and closed days at most ten if and only if none comes exactly a day after the tenth before it.
- *Each attachment is relayed* (`imessage/daemon.py:1350-1357`) holds by component key. Two attachments are one component if and only if
  they have the same id, or one has none and its place in the list is the other's id (`SharesKeyIff`); only the first of them
  is sent. `RelayMessage`: of readable attachments each gets to the room if and only if no two share a key.
  `SecondAttachmentIsLost` is a run that ends well without one of its attachments.
- A restore of an older database brings back what that database says. `TerminalMeansSettled`, `RevisionsOnlyGrow`,
  `FinishedStays`, `CanceledCommandStaysSilent` and `SafeStaysSafe` therefore speak of runs without a restore, or of states
  whose database still knows all PUTs; `WritesAreOrdered`, `AppliedMeansCommitted` and `SafeMeansEnded` hold of all runs,
  and `RestoreStopsWrites` says what a forgetting restore leads to.

## Assumptions

- Hashes and UUIDs do not collide: an operation id or transaction id is the tuple it is made from, a fence attempt id is new.
- Other writers of a room's account data store content of their own or copies of what the room has held; none invents a marker of the journal.
- The transport reports a refusal or a retryable answer only when the request was not applied.
- The homeserver answers a repeated transaction id with the event it made the first time, as section "Transaction identifiers" of the Matrix Client-Server API says, and a message's sender does not change between attempts.
- A history page continues the timeline at the place its token stands for; a missing token means the beginning of the room.
- A line matcher reports sorted edits of a base, with an untouched line between any two, that turn it into the other text. Registering in the Discord list a second time changes nothing.
- The clock of the rate caps does not go back.

## Model

| member | source | states |
|---|---|---|
| JournalTheorems.WritesAreOrdered | agents/uplink/crm_policy.py:275-365 | Over every interleaving, crashes, late commits and restores included: never two outstanding policy PUTs in a room; committed PUTs are of distinct operations, and in sequence order within a room |
| JournalTheorems.TerminalMeansSettled | agents/uplink/crm_policy.py:275-295 | While every issued PUT is still on record, an operation that ended has no PUT outstanding |
| JournalTheorems.UnrestoredRemembers | agents/uplink/crm_control.py:136-156 | Without a restore, every issued PUT stays on record |
| JournalTheorems.IssueRemembersAll | agents/uplink/crm_control.py:136-191 | A policy PUT starts only while the database knows of every PUT ever issued |
| JournalTheorems.RestoreStopsWrites | agents/uplink/crm_control.py:136-191 | After a restore of any earlier snapshot that forgets an issued PUT, no run without another restore issues one |
| JournalTheorems.ForgettingRun | agents/uplink/crm_control.py:172-191 | A database that has forgotten an issued PUT never learns of it again, and issues none |
| JournalTheorems.AppliedRevisions | agents/uplink/crm_policy.py:173-195 | Applied operations of a room have strictly increasing resulting revisions, in sequence order, none above the room's own |
| JournalTheorems.OneAppliedPerRevision | agents/uplink/crm_policy.py:329-348 | Of all intents naming one room and one expected revision at most one is applied |
| JournalTheorems.RevisionsOnlyGrow | agents/uplink/crm_policy.py:173-195 | No step short of a restore lowers a room's revision |
| JournalTheorems.FinishedStays | agents/uplink/crm_policy.py:270-365 | No step short of a restore changes a request, or an operation that ended |
| JournalTheorems.AppliedMeansCommitted | agents/uplink/crm_policy.py:182-189 | An operation is shown as applied only if its PUT committed on the server |
| JournalContents.StoredIsRequested | agents/uplink/crm_policy.py:337-348 | An operation that was attempted has stored its own marker, at the level requested and one revision above the one named; a grant under the owner and generation it was made by |
| JournalContents.StoredUnder | agents/uplink/crm_policy.py:337-348 | The marker carries the owner and generation of the journal that writes, and the content read is stored as the previous one |
| JournalContents.IssuedIsRequested | agents/uplink/crm_control.py:163-164 | In every reachable state the PUT that starts goes to the room of its request and carries the level requested |
| JournalContents.SentCarries | agents/uplink/crm_policy.py:349-365 | Until its answer is judged, a PUT under way carries what its operation asks, to its room |
| JournalContents.AppliedIsRequested | agents/uplink/crm_policy.py:182-189 | Every PUT that committed for an applied operation carried the level and revision requested |
| JournalContents.RevisionAfter | agents/uplink/crm_policy.py:173-195 | A room is first seen at revision 0; the same content changes nothing; other content takes it one revision on, until revisions run out |
| JournalContents.ObservationEnds | agents/uplink/crm_policy.py:182-195 | An observation ends a write exactly if it shows its marker: applied if nothing came between, else for review; no other operation changes |
| JournalContents.ObservationSpares | agents/uplink/crm_policy.py:182-195 | Where nothing is being written an observation changes no operation |
| JournalContents.StatesAre | agents/uplink/crm_policy.py:308-316 | Which states wait, are being written, and have ended |
| JournalContents.RetryWaits | agents/uplink/crm_policy.py:354-359 | What was positively not applied waits again with nothing stored of the attempt |
| JournalContents.JudgedIs | agents/uplink/crm_policy.py:285-295 | Without its marker an unanswered write keeps its barrier, and one that completed goes to review |
| JournalContents.AcceptedEnds | agents/uplink/crm_policy.py:362-365 | What the confirming read makes of a write answered with a 2xx: applied exactly if it shows the new marker |
| JournalContents.ReachableFence | agents/uplink/crm_control.py:143-190 | In every reachable state all databases and markers tell the same of an attempt, what any database has as confirmed is on the server, and since the check every attempt but the one being opened has its marker there |
| JournalContents.IssueIsFenced | agents/uplink/crm_control.py:136-190 | When a policy PUT starts, each local attempt has exactly its marker on the server; a marker there without a local attempt is one under which no PUT was ever issued |
| JournalContents.StillMatchedIff | agents/uplink/crm_control.py:141-164 | From the check on to the PUT every marker is that of a local attempt exactly if none lands meanwhile but those of attempts the database then knows |
| JournalWitness.StrayMarker | agents/uplink/crm_control.py:141-164 | A run with a restore in which a PUT starts while the server has a marker of a forgotten attempt |
| JournalInvariants.ReachableInv | agents/uplink/crm_policy.py:115-131 | Every reachable state has the head-of-line, write-ordering and fence invariants the theorems rest on |
| JournalInvariants.ObserveKeeps | agents/uplink/crm_policy.py:173-195 | An observation keeps the tables consistent: one write in progress per room, aimed at the room's next revision |
| JournalInvariants.ReconcileEnds | agents/uplink/crm_policy.py:275-295 | A reconciling read ends the write exactly if it shows its own marker, uninterrupted or superseded, or if the write is known to have completed; otherwise it keeps its barrier; no other operation changes |
| JournalInvariants.IssueKeepsWrites | agents/uplink/crm_control.py:163-170 | Issuing a PUT behind a confirmed marker keeps writes to a room one at a time |
| JournalInvariants.LandingKeepsWrites | agents/uplink/crm_policy.py:285-292 | A PUT that commits late still commits in order |
| JournalInvariants.ServerTracks | agents/uplink/crm_policy.py:285-292 | Whatever the server does, an outstanding PUT still belongs to the write on record |
| JournalWitness.RequestCanBeApplied | agents/uplink/crm_policy.py:297-365 | Any request, manual or of a command that commits, about the revision last seen can be carried through to applied, short of exhausted revisions |
| CommandTheorems.CanceledCommandStaysSilent | agents/uplink/crm_control.py:387-391 | Once a cancel is recorded, in no later step does a policy write of a child start, nor is a child created |
| CommandTheorems.SafeMeansEnded | agents/uplink/crm_control.py:506-523 | A result that says the membership may change means every child has ended |
| CommandTheorems.SafeStaysSafe | agents/uplink/crm_control.py:506-523 | And it stays so: no later run has another child, or changes one |
| CommandTheorems.ChildrenGrantDirect | agents/uplink/crm_control.py:492-504 | Every operation of a command asks for Direct in a room of the ticket, at the ticket's revision of that room, with the command's binding and membership |
| CommandTheorems.PrivateWins | agents/uplink/crm_control.py:536-550 | A grant is written only at level Direct, linked to a command that is not being canceled and not over, and never while a manual Private request waits in its room |
| CommandTheorems.ReachableControl | agents/uplink/crm_control.py:492-557 | In every reachable state children belong to the rooms of a committed ticket, and a write under way is still authorized |
| ConsentJournal.Journal.Observe | agents/uplink/crm_policy.py:173-195 | The observation is the specified one: revision moves once per change, the exact marker settles the write, uninterrupted or superseded |
| ConsentJournal.Journal.Submit | agents/uplink/crm_policy.py:212-240 | A repeated intent returns the stored row or collides; a new one is appended only for an observed room |
| ConsentJournal.Journal.CancelCrm | agents/uplink/crm_policy.py:253-268 | Cancels a never-attempted grant and nothing else |
| ConsentJournal.Journal.Pending | agents/uplink/crm_policy.py:151-164 | Lists exactly the unfinished operations of a room, in sequence order |
| ConsentJournal.Journal.Inspect | agents/uplink/crm_policy.py:197-210 | Reports the confirmed revision, or changes nothing when the read fails |
| ConsentJournal.Journal.WriteOverride | agents/uplink/crm_control.py:136-170 | The PUT is issued exactly if markers are read and match, and the new one is sent and read back; then all earlier ones are on record, and the outcome says truly what came of it |
| ConsentJournal.Journal.OpenFence | agents/uplink/crm_control.py:141-151 | An attempt is opened exactly when the remote markers are read, each has its local attempt with that operation and sequence, and each local attempt has its marker there; on failure the attempts are as they were |
| ConsentJournal.Journal.SetMarker | agents/uplink/crm_control.py:152-162 | The fence is up exactly if its marker was sent, answered, and is on the server |
| ConsentJournal.Journal.Reconcile | agents/uplink/crm_policy.py:275-295 | Reconciling issues nothing and leaves the tables that the content read calls for; only an exact marker or a 2xx before ends the operation |
| ConsentJournal.Journal.ProcessNext | agents/uplink/crm_policy.py:297-365 | One call handles the head of the line and issues at most its own attempt. What it reports and leaves is determined: declined exactly for its reason, room unreadable, revisions exhausted or in conflict, fence not standing, and each answer with what had become of the request; applied only if the room shows the requested level at the next revision |
| ConsentJournal.Journal.PrepareAndWrite | agents/uplink/crm_policy.py:336-365 | An intent that is recorded: retryable with nothing sent exactly if the fence does not stand, else settled by the answer and the confirming read |
| ConsentJournal.Journal.Settle | agents/uplink/crm_policy.py:350-365 | Refused, retryable, unknown and accepted answers each leave the whole tables as specified; an accepted one is on record before the confirming read |
| ConsentJournal.Journal.Drift | agents/uplink/crm_policy.py:285-292 | What the server and other writers do between two commits |
| CrmControl.Control.Prepare | agents/uplink/crm_control.py:414-420 | A command id is used once |
| CrmControl.Control.QueueCommit | agents/uplink/crm_control.py:492-504 | Succeeds exactly if every room of the ticket has been observed or has its operation from the present pairing; then each has its linked operation, for Direct in that room at the ticket's revision, with the command's binding and membership; otherwise the command is as it was |
| CrmControl.Control.Commit | agents/uplink/crm_control.py:392-427 | Anything later than prepared is reported as stored and changes nothing; a late, unresolved, unprepared, wrongly ticketed or re-scoped commit is refused without a change; any other is recorded as committing, and as submitted exactly if every room can be queued, with its operation for Direct |
| CrmControl.Control.Cancel | agents/uplink/crm_control.py:387-397 | The cancel is recorded first; the answer is safe exactly if every child ended, and no child is left queued |
| CrmControl.Control.CancelCommit | agents/uplink/crm_control.py:506-523 | Goes over the rooms of the ticket; safe exactly if every one of them ended |
| ReplyPairing.AnswersInjective | agents/uplink/conversation_tracking.py:84-99 | No message answers two |
| ReplyPairing.AnswersUnique | agents/uplink/conversation_tracking.py:84-99 | No message has two answers |
| ReplyPairing.OpenMeansUnanswered | agents/uplink/conversation_tracking.py:84-99 | A message is unanswered exactly when the other side never outnumbers its own after it |
| ReplyPairing.AnswersMove | agents/uplink/conversation_tracking.py:39-104 | Messages added before and after change no answer |
| ReplyPairing.InsertedBreaks | agents/uplink/conversation_tracking.py:82-93 | A message that appears between another and its answer takes that answer away |
| ReplyPairing.LinkSurvivesIff | agents/uplink/conversation_tracking.py:82-99 | A link lasts exactly if the message that appears is not between its ends |
| ReplyPairing.PairStep | agents/uplink/conversation_tracking.py:91-99 | One turn of the two-stack loop keeps the stacks the open messages of either side, newest last |
| ReplyPairing.PairMessages | agents/uplink/conversation_tracking.py:89-99 | The two-stack loop computes exactly the links of the counting rule |
| ConversationTracking.Window | agents/uplink/conversation_tracking.py:28-38 | An accepted window is well formed and names no event twice |
| ConversationTracking.LedgerOnlyGrows | agents/uplink/conversation_tracking.py:39-51 | A merge keeps every event at its place, with its mapping, and gains exactly the window's |
| ConversationTracking.SortByOrder | agents/uplink/conversation_tracking.py:66 | The sorted ledger is ordered and a permutation |
| ConversationTracking.GroupsDivide | agents/uplink/conversation_tracking.py:69-81 | Accepted messages divide the ordered events: contiguous, distinct targets, direction from the first event, time from the last |
| ConversationTracking.DivisionIsGroups | agents/uplink/conversation_tracking.py:69-81 | Whatever divides the events that way is what the grouping accepts |
| ConversationTracking.LinksAreAnswers | agents/uplink/conversation_tracking.py:89-99 | The links of a projection are those of the counting rule on its messages |
| ConversationTracking.LinksSurviveIff | agents/uplink/conversation_tracking.py:82-99 | Messages added around the retained ones leave every link in place, except one spanning a boundary message that is shown again |
| ConversationLedger.WindowIff | agents/uplink/conversation_tracking.py:28-38 | A window is read exactly if its events are well formed and no id comes twice |
| ConversationLedger.WellFormedIs | agents/uplink/conversation_tracking.py:30-35 | Which events are well formed |
| ConversationLedger.ValueOfDigits | agents/uplink/conversation_tracking.py:41 | An order stands for the number it is the numeral of |
| ConversationLedger.MergeIff | agents/uplink/conversation_tracking.py:39-51 | A merge is accepted exactly if the ledger is empty or shares an id with the window, what the window leaves out lies below all of it while more remains, both tell the same of what both know, and the bound holds; the gap is reported exactly if nothing is shared; what comes of it has the events of both, each in its place |
| ConversationLedger.PartShapeIs | agents/uplink/conversation_tracking.py:54-57 | Which part lists are well formed |
| ConversationLedger.DeliveredIff | agents/uplink/conversation_tracking.py:62 | A native id is delivered exactly if it is that of a sent event of the ledger |
| ConversationLedger.SequenceIff | agents/uplink/conversation_tracking.py:60-81 | A ledger is read as messages exactly if its parts are sent events named once, orders differ, time does not run against them, and the events divide into messages |
| ConversationLedger.ShownIs | agents/uplink/conversation_tracking.py:91-99 | A shown message has the time, order and direction of its group, and is not the boundary |
| ConversationLedger.ProjectIff | agents/uplink/conversation_tracking.py:16-104 | A conversation is projected exactly if its window is usable and fits the ledger and the ledger it leads to can be read as messages; complete once its beginning was shown |
| ConversationWindows.ProjectedLinksSurviveIff | agents/uplink/conversation_tracking.py:39-104 | For a stored projection and a window that adds on its ends only: a link survives exactly if more history remains or the boundary is not between its ends |
| ConversationWindows.ItemsAround | agents/uplink/conversation_tracking.py:39-81 | Such a window leaves the messages of the ledger together, and adds messages before and behind |
| ConversationWindows.ProjectIsStored | agents/uplink/conversation_tracking.py:16-104 | Every projection of a first window, or after a stored one, is one that can be stored |
| ConversationWindows.SortAround | agents/uplink/conversation_tracking.py:66 | Sorting puts what comes before the ledger in front of it and the rest behind |
| ConversationWindows.BoundaryReappears | agents/uplink/conversation_tracking.py:82-99 | Three windows, projected one after the other, in which a link is lost |
| ConversationWindows.SuchWindowsExist | agents/uplink/conversation_tracking.py:28-38 | Events for these windows exist |
| ConversationUpdate.ReadWindow | agents/uplink/conversation_tracking.py:28-38 | The loop over the window accepts and refuses as specified |
| ConversationUpdate.MergeLedger | agents/uplink/conversation_tracking.py:39-51 | The merge loops accept exactly the windows `MergeIff` speaks of, refuse a gap as one, and leave the events of both |
| ConversationUpdate.ReadParts | agents/uplink/conversation_tracking.py:52-59 | Parts are accepted exactly if well formed and in agreement; then each message of either side has one entry, with the ids it had, and there is no other |
| ConversationParts.MergePartsIff | agents/uplink/conversation_tracking.py:52-59 | When the merge of parts is refused, and what it comes to |
| ConversationUpdate.ReadAliases | agents/uplink/conversation_tracking.py:60-65 | Accepted exactly if every native id of a part is that of a sent event and no id is named twice; the table then maps these ids, each to its message |
| ConversationParts.AliasesIff | agents/uplink/conversation_tracking.py:60-65 | When the table of native ids is refused, and what it maps |
| ConversationUpdate.GroupMessages | agents/uplink/conversation_tracking.py:69-81 | The grouping loop is the specified grouping |
| ConversationUpdate.PairShown | agents/uplink/conversation_tracking.py:89-99 | Every message but the boundary, each with its answer |
| ConversationUpdate.ProjectConversation | agents/uplink/conversation_tracking.py:16-104 | The whole update: accepted exactly as `ProjectIff` says, and what it stores is the merged ledger and parts, with the links of the counting rule |
| ConversationUpdate.MessagesLinkForward | agents/uplink/conversation_tracking.py:89-99 | Answers are later messages |
| ConversationUpdate.KeepSet | agents/uplink/conversation_tracking.py:175-181 | One pass closes the kept set under answers, and every closed set with the seeds holds all of it |
| OutreachPairing.CheckOrder | agents/uplink/crm_tracking.py:77-87 | Accepts exactly the events with claimed ties only, rising times and incoming ids used once |
| OutreachPairing.TimestampTestExcludesNone | agents/uplink/crm_tracking.py:86-96 | With the order checked, the timestamp test excludes no candidate |
| OutreachPairing.TopIsAnswered | agents/uplink/crm_tracking.py:95-102 | The latest open outreach is the top of the stack of open ones |
| OutreachPairing.TimelineExists | agents/uplink/crm_tracking.py:76-88 | Checked events and outreaches have one order |
| OutreachPairing.TimelineUnique | agents/uplink/crm_tracking.py:76-88 | And one only |
| OutreachPairing.Latest | agents/uplink/crm_tracking.py:95-100 | The eligible outreach that ended last |
| OutreachPairing.ScanStep | agents/uplink/crm_tracking.py:90-102 | Giving a message to the latest eligible outreach is what the counting rule does |
| OutreachPairing.ProjectAnswers | agents/uplink/crm_tracking.py:89-102 | The scan hands out exactly the answers of the counting rule, and refuses exactly on an interruption or an unmapped answer |
| OutreachParts.ReadOutreaches | agents/uplink/crm_tracking.py:62-75 | The loop over the targets accepts exactly parts that exist, are sent, lie within the window and belong to one outreach each |
| OutreachParts.ReadIsSound | agents/uplink/crm_tracking.py:62-88 | What the loop accepts is what the scan relies on: distinct outreaches, claimed events all sent, each outreach spanned by its parts |
| OutreachParts.TargetFitsIff | agents/uplink/crm_tracking.py:61-74 | A target fits exactly if its parts are one to a hundred different sent events of the ledger, within the window |
| OutreachParts.OrderedFromCounts | agents/uplink/crm_tracking.py:76-80 | The order holds no event more often than the ledger |
| OutreachParts.ProjectOutreaches | agents/uplink/crm_tracking.py:62-102 | From the table of parts to the answers: accepted exactly if parts, order, ends and mapping are sound, with the answers of the counting rule |
| OutreachPairing.LaterKeepsAnswers | agents/uplink/crm_tracking.py:76-102 | Later events and outreaches never change an answer on the timeline |
| OutreachParts.LaterRunsKeepAnswers | agents/uplink/crm_tracking.py:76-102 | The answers of a run are all among those of every later run |
| ConfigMerge.ConflictIsSymmetric | hub/managed_config.py:48-59 | Whether two scripts conflict does not depend on whose is whose |
| ConfigMerge.RebaseIsBoth | hub/managed_config.py:48-62 | Making one script and then the other where it has moved to is making both at once |
| ConfigMerge.MergeIsEitherOrder | hub/managed_config.py:36-62 | An unrefused merge is local then upstream, and upstream then local, each rebased |
| ConfigMerge.MergeIsSymmetric | hub/managed_config.py:36-62 | Swapping the sides changes neither the text nor whether there is one |
| ConfigMerge.TouchIff | hub/managed_config.py:54-57 | Two edits touch exactly if both replace some line or one inserts within the other or at its ends |
| ConfigMerge.RefusedIff | hub/managed_config.py:50-59 | Of sides that both changed and differ the merge is refused exactly if an edit only the upstream made touches one of the operator's |
| ConfigMerge.OneSidedMerges | hub/managed_config.py:37-40 | A side that changed nothing gives way to the other, and sides that agree are the result |
| ConfigMerge.AppliedIs | hub/managed_config.py:60-62 | An edit puts its own lines for its range, behind what the edits before it make, and the rest stays |
| ConfigMerge.ShortcutsAgree | hub/managed_config.py:37-40 | The early exits give what the scripts would |
| ConfigMerge.ArrangementUnique | hub/managed_config.py:60 | The edits have one order |
| ConfigMerge.SpliceStep | hub/managed_config.py:60-61 | A splice from the end leaves the earlier edits in place |
| ConfigMerge.Splice | hub/managed_config.py:60-62 | Splicing in place, last edit first, is making all edits at once |
| ConfigMerge.FindTouching | hub/managed_config.py:54-58 | Finds a touching edit if there is one |
| ConfigMerge.Merge | hub/managed_config.py:36-62 | The merge loop, conflicts and early exits included |
| ConfigActivation.RecoveryConverges | hub/managed_config.py:115-129 | Any number of interrupted recoveries and then a whole one end in the files of one run |
| ConfigActivation.RedoAfterPrefix | hub/managed_config.py:121-128 | Starting over after any part of the writes ends in the same files |
| ConfigActivation.JournalSettles | hub/managed_config.py:121-128 | A finished journal leaves the effective, default and override copies it names |
| ConfigActivation.JudgedAgain | hub/managed_config.py:71-95 | A file activated from a stage is planned the same way when the stage comes again |
| ConfigActivation.ActivationIsIdempotent | hub/managed_config.py:65-112 | Activating the same stage again changes no file |
| ConfigActivation.ChangedIs | hub/managed_config.py:107 | What is reported as changed are the files that were not there or said something else |
| ConfigActivation.JudgedByCopies | hub/managed_config.py:75-95 | What is planned, by the copies on disk: the operator's text is the override, else the file in effect, else the staged text; kept without a stored default, else merged with what changed since |
| ConfigActivation.OverrideDecides | hub/managed_config.py:79 | With an override the verdict does not depend on the file in effect |
| ConfigActivation.LinksAreRefused | hub/managed_config.py:76-77 | A symbolic link refuses the whole stage |
| ConfigActivation.OperatorsTextStays | hub/managed_config.py:79-83 | An activation leaves an operator's file without a stored default as the operator had it, and stores the staged text as the default |
| ConfigActivation.Installation.WriteItem | hub/managed_config.py:125-128 | Replaces the copies of one file in order, as far as it gets |
| ConfigActivation.Installation.Recover | hub/managed_config.py:115-129 | Stopped anywhere, the journal stays and a prefix of its writes is done; it finishes exactly if no path leads astray and the process lives for all writes, and then all are done and it is gone |
| ConfigActivation.Installation.PlanFile | hub/managed_config.py:75-95 | One file: refused, conflicting, or planned from the operator's text, which is the override, else the file in effect, else the staged text |
| ConfigActivation.Installation.Prepare | hub/managed_config.py:70-97 | Plans every file or none; when it refuses only review candidates are written, one for each conflict |
| ConfigActivation.Installation.Activate | hub/managed_config.py:65-112 | Succeeds exactly if every file can be planned, now and behind a journal left over, and the process lives for all writes; then the files are those of the plan; stopped anywhere, recovery reaches the same end |
| OutboundDispatch.SentAtMostOnce | imessage/daemon.py:1955-1995 | The engine is asked again about an event only if every earlier time it could not be started |
| OutboundDispatch.MarkedMeansDone | imessage/daemon.py:2227-2239 | Every send of a marked transaction is final, and stays as it is in every later run, but for what a restart files under ignored |
| OutboundDispatch.SentIsNeverOpen | imessage/daemon.py:207-211 | What may have been sent is final, or journalled to be called ambiguous |
| OutboundDispatch.ConfirmedWasAccepted | imessage/daemon.py:1927-1952 | What is confirmed was accepted by the engine |
| OutboundDispatch.FinalStates | imessage/daemon.py:1967-1969 | Only what is under way or to be retried is not final |
| OutboundDispatch.FatesAreTold | imessage/daemon.py:1927-1952 | What the engine accepted ends as confirmed, what it denied as refused, what may have gone unheard as ambiguous, short of a journalled dispatch that was interrupted |
| OutboundDispatch.AnswerIsRecorded | imessage/daemon.py:1936-1952 | Which state each answer is recorded as |
| OutboundDispatch.StepKeepsInv | imessage/daemon.py:1927-1995 | Every step of every thread, and a restart anywhere, keeps the journal of states true to what the engine was asked |
| OutboundDispatch.DoneIsFinal | imessage/daemon.py:1967-1969 | A final state is never left; a restart only files under ignored what was misfiled as refused |
| OutboundDaemon.Daemon.Initialize | imessage/daemon.py:207-216 | Recovery calls an interrupted dispatch ambiguous and anything else under way retryable, and files misfiled rows as ignored |
| OutboundDaemon.Daemon.DispatchNative | imessage/daemon.py:1927-1952 | Journal, invoke, record: the state left for each way it can go |
| OutboundDaemon.Daemon.Handle | imessage/daemon.py:1980-1991 | What the ending of the handler makes of the event |
| OutboundDaemon.AskedOnce | imessage/daemon.py:1927-1952 | The engine is asked at most once for an event in a turn, and only behind the journal |
| OutboundDaemon.BecomesLeft | imessage/daemon.py:1980-1991 | Which state each course of the handler leaves |
| OutboundDaemon.Daemon.ProcessOutboundEvent | imessage/daemon.py:1955-1995 | True exactly if the event has no id or is final; a busy lock or a final state changes nothing |
| OutboundDaemon.Daemon.PutTransaction | imessage/daemon.py:2218-2239 | A transaction is marked only if all its events are done; one marked before is answered at once |
| InboundRelay.PutKeepsServer | imessage/daemon.py:253-254 | A repeated transaction id posts nothing and is answered with its event |
| InboundRelay.PostedOnce | imessage/daemon.py:1332-1410 | A component of a relayed message has a receipt, its event is in the room, and none is there twice |
| InboundRelay.SharesKeyIff | imessage/daemon.py:1350-1357 | Two attachments are one component exactly if they have the same id, or one has none and its place in the list is the other's id |
| InboundRelay.EachIsPostedIff | imessage/daemon.py:1350-1387 | Of readable attachments each has a post of its own exactly if no two share a key |
| InboundRelay.SecondAttachmentIsLost | imessage/daemon.py:1350-1357 | A run that ends well and never sends an attachment |
| InboundRelay.Relay.Send | imessage/daemon.py:1370-1387 | A component gets a receipt exactly if the request was answered; the homeserver has it exactly if it was carried out |
| InboundRelay.Relay.RelayMessage | imessage/daemon.py:1332-1410 | The receipts, the room and the ending for every way the requests can go; done only when every component is received or refused; a message not sent before then adds exactly its posts, one for each readable attachment if and only if no two share a key |
| InboundRelay.Relay.RelayAttachment | imessage/daemon.py:1347-1390 | One attachment: passed over, refused, missing or sent |
| InboundRelay.Relay.DeliverInbound | imessage/daemon.py:1316-1330 | The daemon's own echo, known by its id or by its text in the ledger, is dealt with without a relay |
| InboundRelay.Relay.ImportMessage | imessage/daemon.py:326-349 | Seen from then on exactly if it was, is the daemon's own, or was sent whole; off the pending table exactly if its edits and reactions are reconciled too; otherwise pending |
| InboundRelay.Relay.BackfillOne | imessage/daemon.py:964-971 | A message of the history leaves the pending table only with every component settled |
| InboundRelay.Relay.Backfill | imessage/daemon.py:938-974 | The tables after it; complete only when all messages are seen, and always when all can be relayed under the cap; the others are pending; no more are seen than the cap allows |
| InboundRelay.BackfillBound | imessage/daemon.py:959-974 | No more messages are relayed than the cap allows, and if all goes well all are |
| InboundRelay.BackfillCovers | imessage/daemon.py:952-974 | Each message is seen or pending, and what left the pending table is seen |
| InboundRelay.Relay.HandleChatDelta | imessage/daemon.py:1276-1313 | The tables after a poll; no message that was offered is forgotten: it is seen or pending; no more are newly seen than the budget |
| InboundRelay.DeltaBound | imessage/daemon.py:1294-1312 | No more messages are newly seen in a poll than its budget |
| InboundRelay.DeltaCovers | imessage/daemon.py:1285-1312 | What is seen or pending when a poll begins is so when it ends |
| InboundRelay.DeltaCompletes | imessage/daemon.py:1290-1312 | If all goes well and the budget is enough, all that was offered is seen and not pending |
| InboundRelay.NotDueWaits | imessage/daemon.py:1305-1307 | Work that is not due is left as it is |
| RateCaps.WindowBound | imessage/daemon.py:499-512 | If fewer than the limit lay in the window before every admission, no window anywhere holds more |
| RateCaps.PrunedCount | imessage/daemon.py:502 | Pruned rows lie outside the windows asked about |
| RateCaps.CountIs | imessage/daemon.py:482-505 | What is counted: the rows of the key in the window |
| RateCaps.DispatchesAreCapped | imessage/daemon.py:499-512 | Any closed minute holds at most the limit of dispatches to a chat, two of them a second apart |
| RateCaps.Dispatches.RateOk | imessage/daemon.py:499-512 | Admission on the rows left is admission on all there ever were |
| RateCaps.StartsAreCapped | imessage/daemon.py:473-493 | Any half-open hour or day holds at most 3 or 10 started chats, a closed one at most 6 or 13, and equal handles are a minute apart |
| RateCaps.StartLogIff | imessage/daemon.py:473-493 | The gate admits a log exactly if each start comes an hour after the third before it, a day after the tenth, and a minute after the last to its handle |
| RateCaps.ClosedWindowsAreCappedIff | imessage/daemon.py:482-488 | Closed hours hold at most 3 exactly if no start comes exactly an hour after the third before it; closed days at most 10 exactly if none comes exactly a day after the tenth |
| RateCaps.CountSpans | imessage/daemon.py:482-488 | A window holds more than n exactly if some start and the n-th after it lie in it |
| RateCaps.ClosedWindowsAreTight | imessage/daemon.py:482-488 | A log the gate admits, with 6 starts in a closed hour and 13 in a closed day |
| RateCaps.StartChats.StartChatGate | imessage/daemon.py:473-493 | Admission and both counts are as on all rows there ever were |
| HistoryPaging.WalkInPages | agents/uplink/durable_sync.py:473-494 | A timeline is walked in any pages as in one piece |
| HistoryPaging.WalkReaches | agents/uplink/durable_sync.py:478-494 | A walk takes everything expected up to the first anchor, the cap or the beginning of the room |
| HistoryPaging.TakenKinds | agents/uplink/durable_sync.py:478-494 | Upwards the messages and redactions are taken, downwards the proposals, all there are up to where the walk ends |
| HistoryPaging.UncappedReachesAnchor | agents/uplink/durable_sync.py:478-494 | Without a cap every message and redaction before the anchor is taken |
| HistoryPaging.RefOrdinals | agents/uplink/durable_sync.py:488-490 | Ordinals increase strictly from the oldest to the newest |
| HistoryPaging.QueuedOnceInOrder | agents/uplink/durable_sync.py:497-508 | A finished walk has queued each event once, at its ordinal; what was pending stays; nothing else is added |
| HistoryPaging.DurableSync.ScheduleHistory | agents/uplink/durable_sync.py:439-443 | One job for a boundary and direction |
| HistoryPaging.DurableSync.SelectJob | agents/uplink/durable_sync.py:451-454 | The job under way that has found least, the earliest of those |
| HistoryPaging.DurableSync.EnqueueEvents | agents/uplink/durable_sync.py:424-437 | Live events go in once, unless delivered |
| HistoryPaging.DurableSync.MarkRevoking | agents/uplink/durable_sync.py:276-285 | Revocation drops what waits for the room and ends its walks |
| HistoryPaging.DurableSync.ReadPage | agents/uplink/durable_sync.py:479-494 | One page adds what the walk takes of it |
| HistoryPaging.DurableSync.TurnPage | agents/uplink/durable_sync.py:473-511 | The job goes on behind the page, ends incomplete on a token that stands still, or queues the whole walk; its cursor, count and refs in each case |
| HistoryPaging.DurableSync.HistorySlice | agents/uplink/durable_sync.py:445-511 | What each reply makes of the job that is next, and that a job that ends as queued has queued exactly what its whole timeline calls for |
| ContactStore.FeedCatchesUp | agents/contacts/contacts_store.py:153-159 | A copy that agreed at some version agrees now after folding the feed behind it |
| ContactStore.ViewSays | agents/contacts/contacts_store.py:153-159 | The feed tells kind, name, person and whether a row is deleted |
| ContactStore.CursorKeepsUp | agents/contacts/contacts_store.py:153-159 | The last version of a feed is a version to ask from next |
| ContactStore.ExtendsTransitively | agents/contacts/contacts_store.py:65-178 | Changes add up over any run of imports and person-id changes |
| ContactStore.ChangeExtends | agents/contacts/contacts_store.py:65-76 | A change takes the next number; live versions stay distinct |
| ContactStore.ImportThenMark | agents/contacts/contacts_store.py:88-148 | Upserts and then the soft deletes make the table a complete import calls for |
| ContactStore.Store.Upsert | agents/contacts/contacts_store.py:88-131 | One item: a new row, a change, or only a later sighting |
| ContactStore.Store.UpsertContacts | agents/contacts/contacts_store.py:79-150 | The whole import; the counter advances by added, updated and soft-deleted; an empty one changes nothing |
| ContactStore.Store.SoftDelete | agents/contacts/contacts_store.py:135-148 | Exactly the missing rows are marked, each with a number of its own |
| ContactStore.Store.SharedSince | agents/contacts/contacts_store.py:153-159 | Exactly the rows behind a version, by version |
| ContactStore.Store.SetPersonId | agents/contacts/contacts_store.py:162-178 | The grouping changes with a new number, or nothing does |
| PushDelivery.RetryMeansRefusal | master/notifications.py:688-693 | A push says to retry exactly with a 429 or a 5xx and fewer than four attempts before |
| PushDelivery.OutcomeIs | master/notifications.py:689-693 | Which state each answer makes of a delivery |
| PushDelivery.ClaimThenPush | master/notifications.py:826-843 | What is claimed was never pushed without being told to retry |
| PushDelivery.RecordOutcome | master/notifications.py:756-759 | Recording the outcome makes pending only what was told to retry |
| PushDelivery.MembersAre | master/notifications.py:734-743 | Whom a job pushes: its own delivery alone, or all of a group that all waits |
| PushDelivery.PushedRow | master/notifications.py:702-854 | What a pushed delivery becomes: one attempt more; accepted if a receipt came, even during the push; else what the answer makes of it; claimed, or put back by the handler, if that was not recorded |
| PushDelivery.OtherRow | master/notifications.py:761-854 | What a delivery becomes that was not pushed: only the job's own is closed; receipts and cancellations count for any |
| PushDelivery.EndingIs | master/notifications.py:761-854 | When a round ends early |
| PushDelivery.HandlerMakesPending | master/notifications.py:848-854 | Exactly when the handler's record after a failed group record breaks that |
| PushDelivery.JobExact | master/notifications.py:702-854 | One job keeps the invariant exactly if it is not the fault, told from the job and the table before it |
| PushDelivery.RoundExact | master/notifications.py:761-854 | A round is sound at every point exactly if no job of it is that fault |
| PushDelivery.GroupFaultPushesTwice | master/notifications.py:734-759 | Two rounds in which a delivery is pushed twice although the first push may have arrived |
| PushDelivery.Notifications.Restart | master/notifications.py:201-205 | A claim that outlived its process is unknown |
| PushDelivery.Notifications.Enqueue | master/notifications.py:271-281 | A notification is queued for its devices once |
| PushDelivery.Notifications.Receipt | master/notifications.py:283-304 | A receipt accepts the delivery, or the frozen group |
| PushDelivery.Notifications.ClaimAndPush | master/notifications.py:734-743 | All of the group is claimed or none, and what was claimed is what is pushed |
| PushDelivery.Notifications.DeliverAlone | master/notifications.py:822-854 | A job pushed by itself: the whole table after it, whatever came between |
| PushDelivery.Notifications.DeliverGroup | master/notifications.py:702-759 | A group, its record and the handler behind it: the whole table after it, how it ends, and exactly when the invariant breaks |
| PushDelivery.Notifications.DeliverJob | master/notifications.py:773-854 | One job on each of its courses: the whole table after it, what was pushed, how it ends, and the one case that breaks the invariant |
| PushDelivery.Notifications.Deliver | master/notifications.py:761-854 | A round over the jobs due leaves what its jobs come to, one after the other; without the fault it pushes nothing again that was not told to retry |
| DeliveryPlan.InsideIffOpenedRecently | master/notifications.py:77-81 | A moment is inside exactly if a window opened on one of its days less than its length ago, over midnight and the turn of the week |
| DeliveryPlan.AllowedIff | master/notifications.py:60-83 | A working schedule allows what lies within its windows, a quiet one what does not; a malformed one or one of an unknown zone nothing, none everything |
| DeliveryPlan.SlotBounds | master/notifications.py:86-93 | The slot is the last repetition that has come |
| DeliveryPlan.SlotIsLastRepetition | master/notifications.py:86-93 | It changes exactly when the next one comes |
| DeliveryPlan.SlotIff | master/notifications.py:86-93 | There is a slot exactly once the reminder is due, if its repetition is one that can be |
| DeliveryPlan.ReadyIsNextBoundary | master/notifications.py:111-112 | Ready is the first boundary strictly after creation, so the wait never exceeds the interval |
| DeliveryPlan.MaturedShareKey | master/notifications.py:115-116 | Any two matured messages of a rule have one key at an instant; one that has not matured is collected later |
| DeliveryPlan.KeysIff | master/notifications.py:111-117 | Two collected messages have one key exactly if they are collected at the same time in groups of one room or digests of one list |
| DeliveryPlan.ImmediateIs | master/notifications.py:107-112 | What is not collected has no key and is ready at once |
| DeliveryPlan.PresentationIs | master/notifications.py:96-110 | Which intervals groups and digests may have |
| DeliveryPlan.Plan | master/notifications.py:96-118 | None exactly if no rule is open and well formed; otherwise the least ready time, ties by key, and of equals the first |
| DeliveryPlan.WinnerUnique | master/notifications.py:118 | Only one rule can be that |

## Left out

- `crm_batch.py` and `crm_approval.py`: their dispatch depends on forwarding in `uplink.py`; their checkpoint fence repeats the one modelled here.
- `consent.py`: a consent level is only compared, never resolved to an effective one.
- Authorization gates other than the tables' own (link state, contact scope, generation, approved chats) are one answer of the environment in `ConsentJournal.Journal.ProcessNext`.
- Bootstrapping the control room, rotating generations, and a lost database: the journal starts empty and keeps its epoch.
- JSON shapes, size limits of payloads, identifier syntax and Unicode cleaning: values come in the checked shape.
- Which of two refusals is reported when one pass over a Python set would meet both: the model takes the ledger's order.
- The merge of ledgers in `agents/uplink/crm_tracking.py:25-60` and the publication of items, receipts and corrections there: parts, order checks and pairing are modelled.
- OutreachParts.ProjectOutreaches: the three refusals of the order check are one, because `CheckOrder` says what is refused and not which test refused first.
- OutreachParts.LaterRunsKeepAnswers: speaks of later runs that know the earlier run's incoming messages unchanged; one that answers nothing and is mapped only later is not covered.
- ConversationWindows.ProjectedLinksSurviveIff: says nothing of windows that add an event between stored ones or give a stored message's id to a new incoming event, because links can then move (`ReplyPairing.InsertedBreaks`).
- CrmControl.Control.Commit: whether a request is timely, and whether it names the ticket before its expiry, are parameters, because clocks and ticket hashes are not modelled; the rooms of the ticket stand for its proofs.
- Publishing the conversation state, its size bound and the mapping to mirror events; only the set of kept messages is modelled.
- Native read requests, reactions and edits, portal creation, and message bodies in the daemon; `OutboundDaemon.Daemon.Others` stands for what other threads may do between two events.
- OutboundDaemon.Daemon.ProcessOutboundEvent: what a handler decides (rate limit, refused attachment, not a send) is a parameter, because it depends on the room and content; every decision is covered.
- OutboundDaemon.Daemon.PutTransaction: does not say when a transaction with sends goes unacknowledged, because other threads may hold the lock or finish its events between two of its steps.
- InboundRelay.Relay.HandleChatDelta: retry times and the order of attempts are parameters, because only which messages stay pending is at stake.
- HistoryPaging.DurableSync.HistorySlice: delivery of the queue afterwards, and receipts queued along with a page, are not part of it.
- ContactStore.Store.UpsertContacts: sighting times are kept but nothing is claimed of them beyond one item, because the feed does not carry them.
- PushDelivery.Notifications.Deliver: policies, source verification and retry times decide which course a job takes and are parameters, because the promise is about what is pushed, not when.
- DeliveryPlan.Plan: time is whole milliseconds, and what an instant is in each zone is a table, because time zones are not modelled.
- DeliveryPlan.InsideIffOpenedRecently: changes of daylight saving time within a window are not modelled.
- JournalTheorems.TerminalMeansSettled: is not claimed after a restore that forgets an issued PUT, because the restored rows then say nothing of it.
- CommandTheorems.CanceledCommandStaysSilent: is not claimed across a restore of a database from before the cancel, because that database does not hold the cancel.
- ConfigActivation.Installation.Activate: the report of adopted legacy files and the last-render file are not modelled, because nothing reads them back.
- Liveness: an unanswered PUT blocks its room on purpose.
