# Iskra: a verified model of its shared state

This project models, in Dafny, the parts of Iskra that keep state and have to get it exactly right, and proves what they
promise:

- **The collaborative whiteboard** (`BoardOps`, `BoardListing`, `BoardStates`, `BoardConvergence`, `UndoHistory`,
  `Replicas`, `ReplicaChanges`, `ReplicaCuts`, `ReplicaRuns`, `Batching`). The server puts batches of ops in one order;
  an app shows the board they fold to with its own unanswered batches on top. `BoardState` keeps what it shows up to
  date object by object and caches the sorted list, bottom to top. Proved: the cache is always the replay; every
  (object, field) pair is a last-writer-wins register; over all runs of changes, lost answers, resends, refusals, live
  events, catch-up replies and snapshots, every change reaches the log in order or was refused, exactly when apps that
  sent and heard everything agree, and exactly when one's own batch coming back flickers; undo and redo are exact over
  whole sessions, with other people drawing in between, and reach back exactly as far as the history is long; the batch
  splitter is optimal.
- **Strokes** (`StrokeGeometry`, `StrokeSimplifier`, `StrokeCodec`, `HitTest`, `HitFields`). The Ramer-Douglas-Peucker
  loop over an explicit stack refines a recursion that keeps a close and minimal selection, the delta codec is a round
  trip, what bounds and touches an object is said of its fields for every kind, and the bounding-box shortcut of the hit
  test never changes its answer for strokes and lines, and for an ellipse exactly when it is not tiny.
- **Streamed saves** (`SaveStreams`, `SaveRuns`). Writes, failing writes, finish and abort as a machine of steps between
  awaits: a finished file is what the page gave, and nothing else is left behind.
- **Activities** (`ActivityRooms`, `ActivitySdk`, `ActivityRuns`). The server's buffer for late joiners, held messages
  and re-entrant handlers; exactly which games keep the state of players the same, whenever they join.
- **Small machines**: `LineReader` (bytes to lines), `Prekeys` (rotation over time), `WindowGate` (a token bucket),
  `Hotkeys` and `HotkeyRuns` (matcher, push-to-talk and captures), `Versions` (version precedence), `WeekCounter` (ISO
  weeks and counts).

Objects that the program updates in place are classes (`BoardState`, `History`, `ActivityRoom`, `Sdk`, `Reader`,
`WindowOpenGate`, `HotkeyMatcher`, `ModifierTracker`, `PushToTalk`, `Counter`); each method is proved against a
function of the old state, and the theorems about runs are lemmas about those functions. Replicas and streamed saves
are step machines with an invariant, because several parties or suspended calls share their state.

`dafny verify dfyconfig.toml` checks everything.

## How the model reads the program

- Ops, messages and objects are already checked: well-typed values. A missing optional field is an absent map key.
- Coordinates and tolerances are `real`, distances are compared by their squares, times and version numbers are
  unbounded `int`s, minus infinity is `None`, dates are day numbers of the computer's calendar.
- Batch ids, handlers, players and channels are numbers: they are only compared. An absent or empty batch id is `None`.
- An ellipse grown by a negative reach (a slop below zero) has no meaning of its own: there the hit test means what its
  quotients say, and the laws about ellipses ask for a reach that is not negative.
- `Array.sort` with the board's comparator is a stable insertion sort; only its result matters, and there is only one.
- The length of an op as JSON is an arbitrary function; so is `Game.reduce`.
- In `SaveStreams` every await is a point where any other step may come, the one between the two names `begin` tries
  included: each try is a step of its own, which opens a part file and lists its save. A failing write may leave a
  prefix; `open`, `close`, `rename` and `rm` may fail at will, and `close` may be called twice. Save ids never repeat.
- In `Replicas` an app sends its batches one at a time and may send one again; the server may take it twice. Each batch
  of the log reaches an app once, from its live event, which carries the batch id, or from a `wb.get` reply, which does
  not (`client/src/state/whiteboard.ts` line 223; the event is then skipped, line 283). A reply that begins with a
  snapshot is one step: the snapshot is loaded, and the batches after it up to where the app was before are folded in
  again; the rest of the reply comes batch by batch. An app remembers (in `cuts`) at which places in the log the
  snapshots behind its board were made. Apps make snapshots of their confirmed boards, which reach the server in any
  order or never; the server makes them of its last one and the batches since.
- In `ActivityRuns` the server numbers messages 1, 2, 3, ... and gives a late joiner the snapshot and the messages after
  it that are still in its buffer: the newest 300 at most, and 256 KB at most (`ActivityRooms`). The length of a message
  is an arbitrary function.

## Where the promise needs a condition

- **Undoing a delete.** `protocol/PROTOCOL.md` (lines 3561-3562) says the undo of a delete sends all fields with
  `d: false`. The code sends back only the fields the step overwrote, which removes `d`; the model does what the code does.
- **"Other people's changes are never undone"** (`client/src/core/board.ts` line 392) holds of a register exactly when
  the step did not write it or the others put back the very value it recorded: `UndoHistory.UndoKeepsOthersIff`.
- **Ending up where everyone else is** (`client/src/core/board.ts` lines 3-6). A `wb.get` reply does not say which
  batches are this app's own. If one that is pending comes that way (a board closed and reopened while its `wb.update`
  is under way, or an own event that reveals a gap), it stays pending after it was folded, and once it is answered
  nothing takes it off again: `ReplicaRuns.ReopeningLosesABatch`. It then hides other people's later changes of its
  registers (`ReopeningHidesOthers`, `LostHides`) and makes a later change of one's own flip back
  (`ReopeningFlipsBack`). `NothingPendingIff` says, over all runs, exactly when an app that sent and heard everything has
  nothing pending, by a condition read off before each event; `SafeFetchExact` says exactly which fetches are harmless
  whatever comes after: those of a batch that is not one's own pending one, or that the log holds once more; and the
  same of loading a snapshot. Without a lost batch an app shows the log on top of the snapshot it started from
  (`CaughtUpShowsTheLog`), which may have left deleted objects out. So it lists what the log lists if and only if no
  object tells that it was left out (`ListsWhatTheLogLists`), and two apps list the same if and only if no object tells
  by whose snapshots it was left out (`EveryoneAgrees`); with the same snapshots, or none, they always do.
- **No flicker.** A batch of one's own that comes back leaves the screen alone exactly when no register it writes was
  last written differently by an older pending batch and by no newer one: `BoardConvergence.ConfirmOwnIffClashFree`. The
  batches it overtakes are ones that came by `wb.get` before (`ReplicaRuns.OvertakesOnlyFetched`, `EchoFlickersIff`);
  without those it is the oldest and never flickers (`OwnEchoNeverFlickers`). Coming by `wb.get` itself never flickers.
- **Snapshots** drop deleted objects, both those apps make of encrypted boards and those the server makes of plain ones
  (`protocol/PROTOCOL.md` line 3623), so undoing a delete afterwards brings the object back only for those who kept it
  (`BoardConvergence.SnapshotLosesUndo`). `SnapshotExact` says exactly when nobody notices, and `CompactionExact` exactly
  when the server's next snapshot, folded from its last, is that of the whole log. `ReplicaCuts` carries this to
  snapshots made on top of snapshots: `CutObject` says what becomes of each object, `OneCutIff` is the first of these
  conditions for an app that loaded the log's snapshot at one place.
- **Streamed saves.** A save is out of the map while its cleanup is still under way, and a late abort can remove a part
  file after its finish renamed it (`SaveStreams.RemovalCanOutliveFinish`). A new save may then own that name, and may
  lose its file, or finish over a file it did not write (`ReusedNameGoesWrong`). `NamesFreeExact` gives the exact
  condition on a begin, one that can be read off the saves there are: its part name and target are not the part name of
  an unsettled save, and its part name is not a target that a save may still rename to.
- **Activities.** Players agree in every run if and only if `parse` gives back every state a snapshot may be made of and
  the messages the server's buffer may have dropped do not matter to the game (`ActivityRuns.AgreedIff`). In runs where
  nobody joins while the buffer has dropped messages after the snapshot, the first alone is exact
  (`AgreedIffComesBack`). A refused snapshot makes a late joiner differ (`RefusedSnapshotDiverges`), and so do 301
  messages before the first snapshot (`DroppedMessageDiverges`). The server says `missed` to such a joiner
  (`ActivityRooms.ActivityRoom.Join`); the app shows a note, and the game does not hear of it.
- **Ellipses.** The hit test gives a tiny ellipse radii of at least 1, but its box stays tiny: the box changes the answer
  of some point exactly when the ellipse is less than 2 wide or high (`HitTest.EllipseShortcutIff`).
- **Push-to-talk** does not end when its key is released during a capture or when the hook stops: it is on until the key
  is released without a capture, or another is set (`HotkeyRuns.TalkingIff`).
- **The week's counts.** A write of the file that fails throws and counts as done: it is not tried again until
  something changes, and a message or a join that begins a new week is not counted when it does.
- **Window opens.** In any stretch at most `EXTERNAL_BURST`, and one more for every `REFILL_MS` the stretch lasts.

## Model

| member | source | states |
|---|---|---|
| BoardOps.RegAfter | client/src/core/board.ts:261-268 | Folding ops leaves in each (object, field) register its last write, or what was there: last writer wins |
| BoardOps.LookupAfter | client/src/core/board.ts:370-372 | Replaying the ops on one object alone gives what the whole board holds for it |
| BoardOps.KeysAfter | client/src/core/board.ts:304-308 | The objects there are afterwards are the old ones and those the ops name |
| BoardOps.SameViewApply | client/src/core/board.ts:3-6 | Boards equal in every register stay so under the same ops |
| BoardListing.SortedUnique | client/src/core/board.ts:358-358 | The comparator is a strict total order: a set of shown objects has one sorted list |
| BoardListing.SameViewSameListing | client/src/core/board.ts:346-361 | Boards that agree in every register list alike, however their maps were filled |
| BoardListing.SortSorted | client/src/core/board.ts:358-358 | Sorting with the comparator gives strictly increasing (z, id) |
| BoardListing.ListedBottomToTop | client/src/core/board.ts:345-361 | Of two listed objects the first has the smaller number in its field z (0 when it has none), or the same and the earlier id, by the first character that differs or as a proper prefix |
| BoardListing.ListedExactly | client/src/core/board.ts:345-361 | An object is listed, once and with all its fields, if and only if it has a kind and is not marked deleted |
| TextOrder.LessIs | client/src/core/board.ts:358-358 | One string is before another if and only if they begin alike up to a place where it has ended or has the smaller character |
| BoardStates.IndexOf | client/src/core/board.ts:310-310 | The first pending batch with the id, or none has it |
| BoardStates.ConfirmedElsewhere | client/src/core/board.ts:303-313 | Confirmed ops change what is shown of no object they do not name, so refreshing those is enough |
| BoardStates.WithoutElsewhere | client/src/core/board.ts:323-328 | Taking a pending batch out changes no object its ops do not name |
| BoardStates.AddedElsewhere | client/src/core/board.ts:317-320 | Nor does adding one |
| BoardStates.BoardState.constructor | client/src/core/board.ts:279-288 | An empty board that meets the invariant |
| BoardStates.BoardState.Load | client/src/core/board.ts:290-294 | The snapshot replaces the confirmed board, pending batches stay on top, and the invariant holds: shown is the replay, a cached list is its listing, maxZ bounds every visible z |
| BoardStates.BoardState.Clear | client/src/core/board.ts:296-300 | Nothing confirmed, nothing pending, and the invariant |
| BoardStates.BoardState.ApplyConfirmed | client/src/core/board.ts:302-314 | The ops are folded in, the first batch with the id stops being pending, and refreshing only the touched objects keeps shown equal to the replay |
| BoardStates.BoardState.AddPending | client/src/core/board.ts:316-320 | The batch goes on top, and the invariant |
| BoardStates.BoardState.DropPending | client/src/core/board.ts:322-328 | The first batch with the id goes, with the invariant; nothing at all changes when there is none |
| BoardStates.BoardState.ConfirmedObjects | client/src/core/board.ts:338-343 | Exactly the visible confirmed objects, in whatever order the map is walked |
| BoardStates.BoardState.List | client/src/core/board.ts:345-361 | Exactly the visible objects of the replay, strictly increasing in (z, id), from the cache or not |
| BoardStates.BoardState.Rebuild | client/src/core/board.ts:363-367 | Establishes the invariant from any shown map |
| BoardStates.BoardState.Refresh | client/src/core/board.ts:369-381 | When only the given objects may be out of date, restores the invariant; maxZ only grows, and only to the z of a visible object refreshed |
| BoardStates.BoardState.ShownNow | client/src/core/board.ts:371-372 | The walk over all pending batches gives the object of the full replay |
| BoardConvergence.ConfirmOwnIffClashFree | client/src/core/board.ts:302-314 | Confirming one's own batch leaves the screen unchanged if and only if it overtakes no clashing earlier batch |
| BoardConvergence.ConfirmOwnNoFlicker | client/src/core/board.ts:4-6 | So the oldest batch, or one whose registers the earlier ones leave alone, comes back without a flicker |
| BoardConvergence.FetchOwnNoFlicker | client/src/state/whiteboard.ts:222-223 | A pending batch confirmed without its id changes nothing on screen |
| BoardConvergence.OthersLand | client/src/core/board.ts:4-6 | Someone else's batch shows register by register, except where this app has a change of its own waiting |
| BoardConvergence.OnlyTheServerConfirms | client/src/core/board.ts:290-328 | The confirmed board depends on what the server said alone, in every run of the five operations |
| BoardConvergence.Convergence | client/src/core/board.ts:4-6 | Two apps the server told the same, with nothing waiting, show the same list |
| BoardConvergence.ListingsAgreeIff | client/src/core/board.ts:345-361 | Lists are equal if and only if every object is hidden on both boards or visible and equal on both |
| BoardConvergence.LeftOutObject | client/src/core/board.ts:338-343 | What later ops must do to an object a snapshot left out for nobody to notice, if and only if |
| BoardConvergence.SnapshotExact | client/src/core/board.ts:338-343 | Loading a snapshot and folding the rest lists what folding everything does, if and only if every left-out object goes unnoticed |
| BoardConvergence.CompactionExact | server/src/Iskra.Server/Features/WhiteboardFeature.cs:541-573 | The server's next snapshot, folded from its last one, is the snapshot of the whole log, if and only if every left-out object goes unnoticed |
| BoardConvergence.SnapshotEnough | client/src/core/board.ts:338-343 | In particular when no later op names an object hidden at the snapshot |
| BoardConvergence.SnapshotLosesUndo | client/src/core/board.ts:390-393 | It can fail: undoing a delete after the snapshot |
| UndoHistory.History.constructor | client/src/core/board.ts:394-400 | Nothing to undo or redo |
| UndoHistory.History.Record | client/src/core/board.ts:402-414 | One more step, with the fields about to be overwritten on the shown board, the oldest dropped past the limit, and nothing left to redo |
| UndoHistory.History.Undo | client/src/core/board.ts:424-430 | Answers the last step's undo and moves the step over; null when there is none |
| UndoHistory.History.Redo | client/src/core/board.ts:432-437 | The same the other way |
| UndoHistory.History.Clear | client/src/core/board.ts:439-442 | Nothing to undo or redo |
| UndoHistory.ChangeShows | client/src/state/whiteboard.ts:329-341 | A change shows as its ops applied to the screen, however it is split into batches |
| UndoHistory.RunBounded | client/src/core/board.ts:412-412 | In every run, steps done and undone together are never more than the limit |
| UndoHistory.BoardRunBounded | client/src/state/whiteboard.ts:222-353 | The same on the board itself |
| UndoHistory.NewestKept | client/src/core/board.ts:411-413 | After any number of changes exactly the last `limit` of them can be undone, or all when there are no more |
| UndoHistory.UndosUsedUp | client/src/core/board.ts:424-430 | The next undo takes back the newest change left, and there is none exactly when all changes, or as many as the limit, have been undone |
| UndoHistory.UndoWrites | client/src/core/board.ts:402-411 | An undo writes exactly the registers its step wrote, each with what it held before the whole step, several ops on one object included |
| UndoHistory.StepThenUndo | client/src/core/board.ts:390-393 | A step and its undo give back the board |
| UndoHistory.UndoKeepsOthersIff | client/src/core/board.ts:390-392 | An undo keeps someone else's change to a register if and only if its step did not write it or the value is the recorded one |
| UndoHistory.MineFaithful | client/src/core/board.ts:402-414 | A new step keeps the timeline exact; what falls off the history becomes part of the base |
| UndoHistory.UndoFaithful | client/src/core/board.ts:424-430 | An undo moves one step back along the timeline, and the register holds what it held there |
| UndoHistory.RedoFaithful | client/src/core/board.ts:432-437 | A redo moves one step forward |
| UndoHistory.RunFaithful | client/src/core/board.ts:390-443 | Over every run of changes, undos, redos and anything else, a register only this person writes holds the steps in effect on top of a base that changes only when a step falls off |
| UndoHistory.AllUndone | client/src/core/board.ts:390-393 | Once all of one's steps are undone, one's registers are as they were |
| UndoHistory.UndoRedoReturns | client/src/core/board.ts:424-437 | From any point, n undos and n redos come back to the same value |
| UndoHistory.UndoAllRedoAll | client/src/core/board.ts:390-443 | Any changes within the limit: as many undos give back the first board, as many redos the last |
| UndoHistory.UndoAllSameListing | client/src/core/board.ts:345-443 | So the list of visible objects is the one from before |
| UndoHistory.BoardRefines | client/src/state/whiteboard.ts:222-353 | Changes, undos, redos, others' batches, loaded snapshots, and own batches that come back at any place, are fetched or are refused act on the screen as in the session; one that is no own step leaves a register alone if and only if a condition read off before it holds |
| UndoHistory.EchoLeavesIff | client/src/state/whiteboard.ts:299-301 | A pending batch that comes back leaves a register alone if and only if it overtakes no older one that wrote something else there |
| UndoHistory.RefusalLeavesIff | client/src/state/whiteboard.ts:446-447 | A refusal leaves a register alone if and only if the batch was covered there or had changed nothing |
| UndoHistory.ReloadLeavesIff | client/src/core/board.ts:290-294 | Loading a snapshot leaves a register alone if and only if a pending batch writes it or the snapshot holds the same there |
| UndoHistory.BoardUndoExact | client/src/state/whiteboard.ts:222-353 | On the board itself, in every run whose acts leave a register alone in that sense, it holds exactly what the steps in effect leave on top of what it held at first |
| UndoHistory.QuietLeavesAlone | client/src/state/whiteboard.ts:222-353 | When nobody else writes it, own batches come back oldest first or are fetched, none is refused and no snapshot is loaded, every act leaves the register alone |
| Replicas.ChangeOk | client/src/state/whiteboard.ts:329-341 | A change keeps the invariant of app and log |
| Replicas.LogGrows | client/src/state/whiteboard.ts:393-411 | So does the server taking a batch, for the sender and for everyone else, also when it is taken again |
| Replicas.OutgoingShrinks | client/src/state/whiteboard.ts:410-410 | And the sender hearing that it was taken |
| Replicas.RefusedOk | client/src/state/whiteboard.ts:433-450 | And a refusal, which drops the change |
| Replicas.DeliverOk | client/src/state/whiteboard.ts:281-309 | And applying the next batch of the log from its event, with its id if it is one's own |
| Replicas.FetchOk | client/src/state/whiteboard.ts:222-230 | And applying it from a reply, without one |
| Replicas.LoadOk | client/src/state/whiteboard.ts:246-265 | And loading the server's snapshot, also an older one than the app's own place, with pending changes on top |
| Replicas.SealOk | client/src/state/whiteboard.ts:463-477 | A snapshot an app makes is on its way, and is that of the log up to where the app is, without the objects deleted there, behind the snapshots it started from |
| Replicas.CompactOk | server/src/Iskra.Server/Features/WhiteboardFeature.cs:541-573 | So is the one the server makes from its last one and the batches since |
| Replicas.NextKeeps | client/src/state/whiteboard.ts:189-477 | Every event keeps the invariant of the whole system: of every app, of the server's snapshot and of those on their way |
| Replicas.ConfirmedIsTheLog | protocol/PROTOCOL.md:3556-3559 | In every run, by whichever route, each app's confirmed board is the log folded up to where it is, on top of the snapshots it started from; the log's own board if there were none |
| ReplicaChanges.ChangesReachTheLog | client/src/state/whiteboard.ts:329-450 | In every run: once its queue is empty the server has each change an app made, or refused it; what the log holds of the app are its changes as it made them, none before an older one that was not refused |
| ReplicaChanges.QueueIs | client/src/state/whiteboard.ts:329-450 | In every run an app's queue is exactly the changes it made and has not heard of, in order |
| ReplicaChanges.ChangeShowsAtOnce | client/src/state/whiteboard.ts:329-341 | A change shows on the app's own board at once |
| ReplicaChanges.NeverBack | client/src/state/whiteboard.ts:189-309 | An app's place in the log never goes back, whatever it loads |
| ReplicaChanges.KeepsTheFurthest | server/src/Iskra.Server/Features/WhiteboardFeature.cs:541-573 | The server's snapshot is the furthest of those that came or that it made, in whatever order |
| ReplicaCuts.CutObject | client/src/core/board.ts:338-343 | Whatever snapshots were made of one another: each object is what the log made of it since it was last left out, or ever if it was not |
| ReplicaCuts.SameSinceIff | client/src/core/board.ts:338-343 | An object left out at two different places, or at one, looks the same if and only if the later one goes unnoticed in the ops since |
| ReplicaCuts.CutsAgreeIff | client/src/core/board.ts:338-361 | Two boards behind different snapshots list alike if and only if that is so of every object |
| ReplicaCuts.ListsTheLogIff | client/src/core/board.ts:338-361 | A board behind snapshots lists what the log lists, if and only if no object tells that it was left out |
| ReplicaCuts.OneCutIff | client/src/core/board.ts:338-361 | With one snapshot of the log: if and only if nobody notices it in the batches since |
| ReplicaCuts.CutRegisterIff | client/src/core/board.ts:338-343 | A register behind snapshots holds what the log holds, if and only if its object was never left out, or it was written since or was empty then |
| ReplicaRuns.NextLost | client/src/state/whiteboard.ts:189-309 | A pending batch is past helping after an event if and only if it was before, or the event is the last thing that could have helped and does not: an answer, a fetch or a load |
| ReplicaRuns.RunAnyLost | client/src/state/whiteboard.ts:189-309 | The same over whole runs |
| ReplicaRuns.NothingPendingIff | client/src/core/board.ts:3-6 | In all runs an app that sent and heard everything has nothing pending if and only if no event lost a batch of its own |
| ReplicaRuns.CaughtUpShowsTheLog | client/src/core/board.ts:3-6 | It then shows the log and nothing else, on top of the snapshot it started from; exactly the log's board if there was none |
| ReplicaRuns.ListsWhatTheLogLists | client/src/core/board.ts:3-6 | It then lists what the log lists, if and only if no object tells that a snapshot left it out |
| ReplicaRuns.ShowsTheLogIff | client/src/core/board.ts:3-6 | With batches pending and behind snapshots it shows the log's registers if and only if each is last written alike by a pending batch, or by none and its object was not left out, or it was written since or was empty then |
| ReplicaRuns.EveryoneAgrees | client/src/core/board.ts:3-6 | Any two apps that sent and heard everything and lost nothing list the same objects in the same order, if and only if no object tells by whose snapshots it was left out, and always if those are the same; whatever was sent, unanswered, sent again or refused |
| ReplicaRuns.OvertakesOnlyFetched | client/src/state/whiteboard.ts:222-234 | A batch of one's own that comes back has the ops it was made with, and every older pending one has gone by without its id |
| ReplicaRuns.EchoFlickersIff | client/src/state/whiteboard.ts:299-301 | Wherever a run has got to, it comes back without a flicker if and only if it overtakes no clashing one |
| ReplicaRuns.OwnEchoNeverFlickers | client/src/core/board.ts:3-6 | If no pending batch has gone by, it is the oldest, and the screen stays as it is |
| ReplicaRuns.FetchOwnNeverFlickers | client/src/state/whiteboard.ts:222-223 | Nor does a batch of one's own flicker that comes in a reply |
| ReplicaRuns.SafeRunSettles | client/src/state/whiteboard.ts:189-265 | Without an unsafe fetch or load in the run, an app that sent and heard everything has nothing pending |
| ReplicaRuns.SafeFetchExact | client/src/state/whiteboard.ts:189-265 | A fetch or a load is harmless in every safe run after it if and only if it is safe: no own pending batch it passes over came for the last time |
| ReplicaRuns.LostHides | client/src/core/board.ts:3-6 | From then on, in every run, the registers a lost batch writes show this app's writes and never the log's |
| ReplicaRuns.ReopeningLosesABatch | client/src/state/whiteboard.ts:150-160 | The run that loses one: the board is reopened while the batch is on its way |
| ReplicaRuns.ReopeningHidesOthers | client/src/state/whiteboard.ts:222-234 | Two apps that sent and heard everything then show different values, whatever those are |
| ReplicaRuns.ReopeningFlipsBack | client/src/state/whiteboard.ts:299-301 | And one's own next change shows, and flips back when it comes |
| Batching.Batches | client/src/core/board.ts:445-462 | The batches joined are the ops, each has 1 to 200 and fits unless it is a single op, every one but the last is full, and no other such split has fewer |
| Batching.FitsIs | client/src/core/board.ts:445-456 | 200 ops and 40 KB of JSON at most, unless it is a single op |
| Batching.OneMoreOp | client/src/core/board.ts:450-459 | One turn of the loop keeps the split admissible and every closed batch full |
| Batching.NoFurther | client/src/core/board.ts:450-458 | A split that is not ahead cannot overtake the greedy one |
| Batching.FullIsFewest | client/src/core/board.ts:445-462 | A split whose batches are full has no more batches than any other |
| StrokeGeometry.SegmentDist2IsLeast | client/src/core/board.ts:161-167 | No point of the segment is nearer than the computed distance |
| StrokeSimplifier.FarthestIs | client/src/core/board.ts:144-152 | The first of the farthest points in the span and farther than the tolerance, or none is |
| StrokeSimplifier.ChainSplit | client/src/core/board.ts:153-156 | A point is kept in a span if and only if it is an end of it, or kept in one of the two spans it is split into |
| StrokeSimplifier.TurnCovers | client/src/core/board.ts:143-156 | One turn keeps the invariant, and uses up the measure, so the loop ends |
| StrokeSimplifier.MarkKept | client/src/core/board.ts:141-157 | The marks end up exactly on what the recursion keeps |
| StrokeSimplifier.Simplify | client/src/core/board.ts:136-159 | The loop over the stack selects, in order, the points the recursion keeps; two points or fewer stay as they are |
| StrokeSimplifier.ChainClose | client/src/core/board.ts:136-159 | Every dropped point is within tolerance of the segment between its kept neighbours |
| StrokeSimplifier.ChainNeeded | client/src/core/board.ts:136-159 | Every kept inner point is the farthest, and too far, from a segment between kept points around it |
| StrokeSimplifier.SimplifyKeepsShape | client/src/core/board.ts:136-159 | Together: strictly increasing, both ends kept, close, and nothing without need |
| StrokeCodec.DecodePoints | client/src/core/board.ts:107-119 | Point i is the position plus a tenth of the sum of the first i + 1 steps; a lone number at the end is ignored |
| StrokeCodec.DecodedStepByStep | client/src/core/board.ts:107-119 | The first point is a step from the object's position, every other one from the point before, in tenths |
| StrokeCodec.EncodePoints | client/src/core/board.ts:121-134 | Each pair is the difference of rounded tenths to the point before |
| StrokeCodec.SumEncoded | client/src/core/board.ts:126-132 | The steps telescope: rounding errors do not add up |
| StrokeCodec.DecodeOfEncode | client/src/core/board.ts:107-134 | Decoding an encoded stroke rounds every point to tenths from its position on each axis, halves up |
| StrokeCodec.EncodeOfDecode | client/src/core/board.ts:107-134 | Encoding a decoded stroke gives back the very same steps |
| HitTest.Bounds | client/src/core/board.ts:169-204 | For every kind: the smallest box around the corners, widened by half the width of what is drawn with one; an empty stroke is at its position |
| HitTest.BoxAround | client/src/core/board.ts:185-190 | The running minimum and maximum make the smallest box, or there was no point |
| HitTest.Hits | client/src/core/board.ts:208-244 | For every kind, true if and only if the point touches: within slop and half the width of a point drawn (strokes and lines) or of the outline (rectangles), in the widened box (filled ones, texts, notes, pictures), near an ellipse and in its box |
| HitTest.HitsExactly | client/src/core/board.ts:212-243 | What the part behind the box decides on its own |
| HitTest.HitsEllipse | client/src/core/board.ts:224-235 | True if and only if the point is one of the ellipse grown by the reach and, unless it is filled, not one inside the ellipse shrunk by it (radii of 1 at least) |
| HitTest.BandDecides | client/src/core/board.ts:229-234 | The two quotients decide whether the point is a point of those ellipses |
| HitTest.OutlineIsNear | client/src/core/board.ts:224-235 | Every point of the ellipse's own outline is a hit |
| HitTest.NearEllipseGrows | client/src/core/board.ts:224-235 | A larger reach never loses a hit |
| HitFields.LinesOfJoined | client/src/core/board.ts:172-172 | Lines without newlines joined by newlines are split into those lines again |
| HitFields.LongestOfLines | client/src/core/board.ts:173-173 | The longest is as long as some line and no shorter than any, or 1 when all are empty |
| HitFields.MeasuresIff | client/src/core/board.ts:169-175 | A text is 0.6 of its letters' size (20 when absent) wide for every letter of the longest line, and 1.25 of it high for every line; anything else has the size of its fields w and h |
| HitFields.BoundsInFields | client/src/core/board.ts:193-203 | The box of whatever is not a stroke, from its fields: lines, arrows, rectangles and ellipses half their width wider on every side |
| HitFields.StrokeWidening | client/src/core/board.ts:182-192 | A stroke's box is half its width wider than its points on every side |
| HitFields.BoxTouched | client/src/core/board.ts:211-243 | Texts, notes and pictures are touched in their box widened by the slop, and nowhere else |
| HitFields.RectTouched | client/src/core/board.ts:236-240 | Rectangles in their box when filled, else near a point of their outline, within slop and half the line's width on each axis |
| HitFields.LineTouched | client/src/core/board.ts:222-223 | Lines and arrows within slop and half their width of a point between (x, y) and (x + w, y + h) |
| HitFields.StrokeTouched | client/src/core/board.ts:214-221 | Strokes within slop and half their width of their only point, or of the line between two neighbours |
| HitFields.EllipseTouched | client/src/core/board.ts:224-235 | Ellipses in their widened box on the band around them, from their fields |
| HitTest.HitsPath | client/src/core/board.ts:215-220 | One point or many: true if and only if some point of the path is within reach |
| HitTest.SegmentDecides | client/src/core/board.ts:161-167 | The distance to a segment decides whether one of its points is within reach |
| HitTest.OutsideNeverTouches | client/src/core/board.ts:211-211 | Outside the widened box no point of a stroke or line is within reach |
| HitTest.OutlineDecides | client/src/core/board.ts:236-240 | In the widened box and near the line of a side means near a point of the outline |
| HitTest.BoxDecides | client/src/core/board.ts:211-211 | In the widened box means near a point of the box |
| HitTest.EllipseShortcutIff | client/src/core/board.ts:211-235 | The box never changes the answer for an ellipse if and only if it is at least 2 wide and 2 high |
| SaveStreams.AcceptOk | desktop/src/saveStreams.ts:43-54 | An accepted write keeps the queue contiguous, and what is on disk and queued equal to everything accepted |
| SaveStreams.EndWriteOk | desktop/src/saveStreams.ts:48-60 | So does a write that ends, well or not |
| SaveStreams.NextSaveOk | desktop/src/saveStreams.ts:26-91 | So does every step of finish and abort |
| SaveStreams.WriteAtIs | desktop/src/saveStreams.ts:46-50 | Data written at a place is there, what was elsewhere stays, and a gap reads as zeros |
| SaveStreams.BeginNames | desktop/src/saveStreams.ts:26-41 | Opening a part file under free names, the first or the second, keeps the names of unsettled saves apart |
| SaveStreams.RenameNames | desktop/src/saveStreams.ts:74-75 | The rename gives the save's own file its target and takes no one's part file |
| SaveStreams.NextNames | desktop/src/saveStreams.ts:26-91 | Every step keeps what each name may hold |
| SaveStreams.NameChanges | desktop/src/saveStreams.ts:1-3 | A step of a clean run changes a name only by making a part file, removing the save's own, or putting its complete file there |
| SaveStreams.ReachesRemoval | desktop/src/saveStreams.ts:76-91 | From every state of an unsettled save its own steps may lead to removing its part file |
| SaveStreams.ReachesRename | desktop/src/saveStreams.ts:65-74 | From every state in which a save may still rename, its own steps may lead to the rename |
| SaveStreams.PartNameTaken | desktop/src/saveStreams.ts:83-91 | A part file under an unsettled save's part name may be removed by that save |
| SaveStreams.TargetIsPartName | desktop/src/saveStreams.ts:83-91 | A target that is an unsettled save's part name may lose its complete file |
| SaveStreams.PartNameIsTarget | desktop/src/saveStreams.ts:73-75 | A part name that is a target still to be taken may come to hold another save's file, which is then taken for one's own |
| SaveStreams.NamesFreeExact | desktop/src/saveStreams.ts:26-41 | After a begin all clean runs are proper if and only if the names it took were free |
| SaveStreams.ReusedNameGoesWrong | desktop/src/saveStreams.ts:76-91 | From any state with a removal pending, reusing the name can end with finish answering true over a file it did not write |
| SaveStreams.RemovalCanOutliveFinish | desktop/src/saveStreams.ts:65-91 | Such a state is within reach: an abort while a finish waits |
| SaveRuns.TakesWhatIsGiven | desktop/src/saveStreams.ts:43-63 | In every run a save has taken exactly what its page gave it, in call order: bytes of at most 16 MB at a time, after its begin and before the first finish, abort or failed write |
| SaveRuns.WasBegun | desktop/src/saveStreams.ts:26-41 | Every save was begun by one event |
| SaveRuns.FinishedIsComplete | desktop/src/saveStreams.ts:64-91 | In every run at all, finish answers true only for a save none of whose writes failed and whose file held exactly what its page gave it; one that is over, or whose failed writes have called abort, is out of the map |
| SaveRuns.FailedIff | desktop/src/saveStreams.ts:49-54 | In every run a save counts as failed exactly when one of its writes failed |
| SaveRuns.FailuresAbort | desktop/src/saveStreams.ts:55-60 | In every run each failed write calls abort once, and nothing else does by itself |
| SaveRuns.OnlyCompleteFiles | desktop/src/saveStreams.ts:1-3 | In every clean run a save's file is under its part name, or under its target, holding exactly what its page gave it, after finish answered true |
| SaveRuns.NothingLeftBehind | desktop/src/saveStreams.ts:1-3 | In every clean run in which removing works, a save that is over and did not finish has left no file under any name |
| SaveRuns.WritesEndInOrder | desktop/src/saveStreams.ts:43-60 | In every run the writes that have not ended are the newest ones taken, in call order |
| SaveRuns.OwnStepsEnd | desktop/src/saveStreams.ts:48-91 | Every step a save takes by itself brings it nearer to its end, however the steps interleave |
| SaveRuns.SettledIff | desktop/src/saveStreams.ts:64-91 | A save its page finished or aborted has no step left to take if and only if nothing more will happen to it |
| ActivityRooms.TrimmedFrom | server/src/Iskra.Server/Features/ActivityRooms.cs:185-190 | Dropping the oldest until the rest fits stops at the same message wherever the buffer begins, or at once |
| ActivityRooms.GoneIs | server/src/Iskra.Server/Features/ActivityRooms.cs:185-190 | What is left are 300 messages and 256 KB at most, and one more would be too many |
| ActivityRooms.GoneGrows | server/src/Iskra.Server/Features/ActivityRooms.cs:185-190 | What is gone for a late joiner stays gone when more is sent |
| ActivityRooms.ActivityRoom.constructor | server/src/Iskra.Server/Features/ActivityRooms.cs:26-36 | No message, no snapshot |
| ActivityRooms.ActivityRoom.Send | server/src/Iskra.Server/Features/ActivityRooms.cs:182-190 | The message takes the next number, and the buffer holds exactly the messages after the snapshot and after those that had to go |
| ActivityRooms.ActivityRoom.Trim | server/src/Iskra.Server/Features/ActivityRooms.cs:185-190 | The fewest oldest messages go for the rest to be 300 and 256 KB at most |
| ActivityRooms.ActivityRoom.SetState | server/src/Iskra.Server/Features/ActivityRooms.cs:202-210 | A snapshot from the future is refused, an older one ignored; another becomes the snapshot, with its number, and the buffer still holds exactly the messages after it |
| ActivityRooms.ActivityRoom.ForgetUpTo | server/src/Iskra.Server/Features/ActivityRooms.cs:206-210 | Exactly the messages up to the snapshot leave the buffer |
| ActivityRooms.ActivityRoom.Join | server/src/Iskra.Server/Features/ActivityRooms.cs:122-131 | A joiner gets the snapshot, its number and the messages after it but for those that are gone, and hears that some are missing exactly when some are |
| ActivitySdk.Sdk.constructor | protocol/activity-sdk.js:1-16 | Nothing accepted, nobody listening |
| ActivitySdk.Sdk.Init | protocol/activity-sdk.js:56-60 | The first init counts, with the number of its snapshot's last message; later ones change nothing |
| ActivitySdk.Sdk.Schedule | protocol/activity-sdk.js:46-50 | One timer at most; afterwards a flush is scheduled whenever somebody listens |
| ActivitySdk.Sdk.On | protocol/activity-sdk.js:88-91 | One more listener, and a flush scheduled for what is held |
| ActivitySdk.Sdk.Off | protocol/activity-sdk.js:92-95 | The first of that listener goes, or nothing changes |
| ActivitySdk.Sdk.Deliver | protocol/activity-sdk.js:24-38 | The message goes once to everyone who listened at that moment, whatever handlers do to the list meanwhile |
| ActivitySdk.Sdk.OnMessage | protocol/activity-sdk.js:61-71 | Accepted messages are always the delivered and then the held, in order; ignored before init; delivered at once when somebody listens and nothing is held |
| ActivitySdk.Sdk.Flush | protocol/activity-sdk.js:42-45 | Hands over held messages in order until none is left or nobody listens, also when handlers come and go during it |
| ActivitySdk.Sdk.SetState | protocol/activity-sdk.js:100-100 | A posted snapshot carries the number of the last message delivered, or of the snapshot started from |
| ActivitySdk.HeardOnce | protocol/activity-sdk.js:24-33 | Who listens once hears a message exactly once, who does not listen does not |
| ActivitySdk.HeardAll | protocol/activity-sdk.js:24-45 | Who listened all along heard every delivered message once, in order |
| ActivityRuns.NextConsistent | client/src/activities/kit.ts:152-199 | Every event keeps snapshot, posts and players folds of the log, while nobody is sent too little or that is harmless |
| ActivityRuns.RunConsistent | client/src/activities/kit.ts:152-199 | So does every run |
| ActivityRuns.PlayersAreFolds | client/src/activities/kit.ts:192-198 | When states come back, and nobody is sent too little or that is harmless: in every run a player's state is the fold of the messages up to its number, however it joined |
| ActivityRuns.PostsAreFolds | client/src/activities/kit.ts:176-184 | And every posted pair is the fold of all messages up to its number |
| ActivityRuns.PostsWhenChanged | client/src/activities/kit.ts:176-199 | In every run a player posts a snapshot if and only if its state changed as the host since its last one |
| ActivityRuns.KeepsTheNewest | server/src/Iskra.Server/Features/ActivityRooms.cs:202-205 | In every run late joiners get the newest snapshot that arrived, in whatever order they came |
| ActivityRuns.SdkIsPlayer | protocol/activity-sdk.js:35-76 | An SDK given the log from where it starts has delivered the messages up to its last number and holds the rest, and the game reduced them to what the player of the model holds |
| ActivityRuns.LateJoinerDiffers | client/src/activities/kit.ts:159-159 | A state that does not come back from its snapshot makes some run in which a late joiner differs |
| ActivityRuns.GapDiffers | server/src/Iskra.Server/Features/ActivityRooms.cs:185-190 | Messages dropped after the snapshot that matter to the game make some run in which two players at the same message differ |
| ActivityRuns.AgreedIffComesBack | client/src/activities/kit.ts:54-61 | In runs where nobody is sent too little, players at the same message always agree if and only if every state a snapshot may be made of comes back |
| ActivityRuns.AgreedIff | client/src/activities/kit.ts:152-199 | In all runs, players at the same message always agree if and only if those states come back and dropped messages do not matter |
| ActivityRuns.RefusedSnapshotDiverges | client/src/activities/kit.ts:56-57 | A game whose parse refuses its snapshots: some run disagrees |
| ActivityRuns.DroppedMessageDiverges | server/src/Iskra.Server/Features/ActivityRooms.cs:185-190 | 301 messages before the first snapshot: a game that counts them disagrees in some run |
| LineReader.NextNewline | bots/sdk/src/bridge.ts:322-322 | The first newline from there on, or there is none |
| LineReader.PieceJoinsTail | bots/sdk/src/bridge.ts:323-332 | A piece without a newline only lengthens the line that has not ended |
| LineReader.NewlineEndsTail | bots/sdk/src/bridge.ts:333-337 | A newline ends it, and it comes to one event |
| LineReader.Reader.constructor | bots/sdk/src/bridge.ts:314-317 | Nothing read |
| LineReader.Reader.Take | bots/sdk/src/bridge.ts:324-331 | A piece is kept while the line fits; the first byte too many reports it, once, and drops what was kept |
| LineReader.Reader.EndLine | bots/sdk/src/bridge.ts:333-336 | The line is reported unless it was already refused |
| LineReader.Reader.OnData | bots/sdk/src/bridge.ts:319-339 | After any chunk the events are those of all bytes so far, and never more than max bytes are kept |
| LineReader.Reader.OnEnd | bots/sdk/src/bridge.ts:340-343 | A last line without a newline is reported unless empty or refused |
| LineReader.ReadLines | bots/sdk/src/bridge.ts:310-346 | Whatever chunks a stream comes in, the events are those of the whole stream |
| LineReader.EveryStream | bots/sdk/src/bridge.ts:319-339 | Every stream is lines without newlines, each ended, and what comes after the last |
| LineReader.ReadsLineByLine | bots/sdk/src/bridge.ts:319-343 | Each of them is reported without the carriage return it ends with, or refused when longer than allowed with it; and so is the last when anything is left of it |
| LineReader.ReadBack | bots/sdk/src/bridge.ts:310-313 | Lines within the limit come back as written, with either line ending |
| Prekeys.CurrentIsNewest | client/src/core/devices.ts:80-83 | The newest active key, and none only when no key is active |
| Prekeys.FirstOfNewest | client/src/core/devices.ts:80-83 | Of equally new active keys it is the first |
| Prekeys.RotatePrekeys | client/src/core/devices.ts:85-106 | The rotated store; changed if and only if it differs; the secrets wiped are exactly the expired ones |
| Prekeys.RotationChanges | client/src/core/devices.ts:99-104 | A rotation that is due never leaves the store as it was |
| Prekeys.RotateKeepsChain | client/src/core/devices.ts:85-106 | One call, whatever time has passed: keys a week or more apart, each retired when the next was made, none expired, only the last active |
| Prekeys.FewKeys | client/src/core/devices.ts:85-106 | After any call of any run exactly one key is active, and at most six are stored |
| Prekeys.CurrentIsFresh | client/src/core/devices.ts:98-104 | After any call of any run the current key was made by a call and is less than a week old |
| Prekeys.CurrentStays | client/src/core/devices.ts:10-13 | A key that was current at some moment is still stored after any call up to thirty days later |
| Prekeys.SecretsGoInTime | client/src/core/devices.ts:85-88 | With calls at most g apart, every secret stored is at any moment younger than 37 days and twice g |
| WindowGate.WindowOpenGate.constructor | desktop/src/popouts.ts:222-225 | A full bucket and no gesture |
| WindowGate.WindowOpenGate.Gesture | desktop/src/popouts.ts:227-229 | The gesture is remembered, and nothing else changes |
| WindowGate.WindowOpenGate.Decide | desktop/src/popouts.ts:231-243 | The answer and the whole new state for a pop-out, a refused address, a stale gesture, and the bucket with its first, partial and full refills |
| WindowGate.AskSpends | desktop/src/popouts.ts:235-242 | Tokens and time earned never grow faster than the clock, opening costs a token, and the bucket is capped |
| WindowGate.OpenedWithin | desktop/src/popouts.ts:235-242 | What opens is paid for by the bucket's credit and the time that passes |
| WindowGate.RateBound | desktop/src/popouts.ts:208-210 | In any stretch of any run the browser opens at most EXTERNAL_BURST times and once more for every REFILL_MS it lasts |
| WindowGate.RunMetered | desktop/src/popouts.ts:235-242 | In every run the whole tokens and the time since are what a steady meter of 6 seconds holds, each opening taking 2 |
| WindowGate.AnswersExactly | desktop/src/popouts.ts:231-243 | In every run each answer, for pop-outs too, is the one that meter and the last gesture give |
| WindowGate.TokenComesBack | desktop/src/popouts.ts:235-242 | Two seconds after the last opening the next web address after a gesture is opened |
| WindowGate.OpensOnlyAfterGesture | desktop/src/popouts.ts:232-234 | Each opening is of an http(s) address and within GESTURE_MS of the last gesture |
| Hotkeys.TriggeredAre | desktop/src/hotkeys.ts:119-130 | A press triggers distinct actions bound to that key and its modifiers, none of which is down |
| Hotkeys.PressedOk | desktop/src/hotkeys.ts:119-130 | After a press exactly the triggered hold actions are down besides those that were |
| Hotkeys.LiftedOk | desktop/src/hotkeys.ts:132-138 | After a release exactly the actions that key started are up |
| Hotkeys.StepOk | desktop/src/keyHook.ts:36-142 | Every event keeps the reports alternating and what is reported down equal to what is down |
| Hotkeys.NothingStaysDown | desktop/src/keyHook.ts:59-77 | After a stop or a rebind no hold action is down |
| Hotkeys.ReportedBy | desktop/src/keyHook.ts:117-130 | An action is reported only by a press of the key it is bound to, with no capture pending, and then the key counts as held |
| Hotkeys.FiresOnce | desktop/src/keyHook.ts:36-142 | In every history of captures, stops and rebinds: between two reports of an action its key was released, the hook stopped or the hotkeys changed |
| Hotkeys.AlwaysAlternate | desktop/src/keyHook.ts:36-142 | In every history the reports of each hold action, and of push-to-talk, go down and up in turn, starting with down |
| HotkeyRuns.PressReportsIff | desktop/src/keyHook.ts:117-130 | A press reports an action, once, if and only if it is bound to that key and the other modifiers held, no capture waits and the key is not held |
| HotkeyRuns.ModifierKeys | desktop/src/hotkeys.ts:13-18 | The eight modifier keys and the bit of each, left and right alike |
| HotkeyRuns.HeldIff | desktop/src/hotkeys.ts:94-138 | In every history a key counts as held exactly since it fired, until it is released, the hook stopped or the hotkeys changed |
| HotkeyRuns.ReportedIff | desktop/src/keyHook.ts:117-130 | In every history, which events report which of the seven actions, told by the events and reports alone |
| HotkeyRuns.DownIff | desktop/src/keyHook.ts:59-142 | In every history a hold action is down exactly from the press that reported it until that key is let go |
| HotkeyRuns.TalkingIff | desktop/src/keyHook.ts:65-142 | In every history push-to-talk is on exactly from a press of its key, no capture waiting, to a release of it without one, or a new key |
| HotkeyRuns.KeyIs | desktop/src/keyHook.ts:65-71 | Its key is the one set last |
| HotkeyRuns.BindsAre | desktop/src/keyHook.ts:73-77 | The hotkeys are those set last |
| HotkeyRuns.RunningIff | desktop/src/keyHook.ts:36-63 | The hook runs exactly since the system let it start, until it is stopped |
| HotkeyRuns.KeyCaptureIff | desktop/src/keyHook.ts:83-94 | A single key is waited for exactly since it was asked for while the hook ran, until one is pressed other than the left and right mouse buttons, or it is asked anew or cancelled |
| HotkeyRuns.ComboCaptureIff | desktop/src/keyHook.ts:96-115 | And a key with modifiers until one that is no modifier is pressed, or the modifier pressed last is released |
| Hotkeys.HotkeyMatcher.constructor | desktop/src/hotkeys.ts:95-99 | Nothing bound, held or down |
| Hotkeys.HotkeyMatcher.Set | desktop/src/hotkeys.ts:101-105 | The new bindings, nothing held or down |
| Hotkeys.HotkeyMatcher.Release | desktop/src/hotkeys.ts:107-113 | Each hold action down, exactly once, and afterwards none |
| Hotkeys.HotkeyMatcher.Down | desktop/src/hotkeys.ts:119-130 | What was triggered, and the new state |
| Hotkeys.HotkeyMatcher.Up | desktop/src/hotkeys.ts:132-138 | What ended, and the new state |
| Hotkeys.ModifierTracker.constructor | desktop/src/hotkeys.ts:82-83 | No modifier seen |
| Hotkeys.ModifierTracker.Update | desktop/src/hotkeys.ts:85-91 | The flags and the modifier keys seen down and not up, those four bits only |
| Hotkeys.ReportsAlternate | desktop/src/keyHook.ts:122-125 | Reporting distinct actions not yet in that position keeps every action's reports alternating |
| Hotkeys.PushToTalk.constructor | desktop/src/keyHook.ts:19-34 | Nothing reported |
| Hotkeys.PushToTalk.Start | desktop/src/keyHook.ts:36-53 | Running if it was or the system lets it |
| Hotkeys.PushToTalk.Stop | desktop/src/keyHook.ts:59-63 | Every hold action down is reported up once, nothing else is, and none stays down |
| Hotkeys.PushToTalk.SetHotkeys | desktop/src/keyHook.ts:73-77 | The same across a change of bindings |
| Hotkeys.PushToTalk.SetKey | desktop/src/keyHook.ts:65-71 | Talking ends exactly if it was on |
| Hotkeys.PushToTalk.CaptureNext | desktop/src/keyHook.ts:83-110 | A capture starts, ending another one, unless the hook is not running |
| Hotkeys.PushToTalk.CancelCapture | desktop/src/keyHook.ts:112-115 | No capture is pending |
| Hotkeys.PushToTalk.Press | desktop/src/keyHook.ts:117-130 | A pending capture takes the press; otherwise what is triggered is reported down, then talking if it starts, and reports alternate |
| Hotkeys.PushToTalk.ReleaseKey | desktop/src/keyHook.ts:132-142 | What the key started is reported up even during a capture, talking ends only without one, and reports alternate |
| Hotkeys.PushToTalk.OnKeyDown | desktop/src/keyHook.ts:41-41 | A press with the modifiers, the key's own among them from now on |
| Hotkeys.PushToTalk.OnKeyUp | desktop/src/keyHook.ts:42-42 | A release with the modifiers, the key's own no longer among them |
| Hotkeys.PushToTalk.OnMouseDown | desktop/src/keyHook.ts:43-43 | A mouse button is pressed like a key beyond all others, and the modifiers seen stay as they are |
| Hotkeys.PushToTalk.OnMouseUp | desktop/src/keyHook.ts:44-44 | And a release of one |
| Versions.ParseOfText | desktop/src/platform.ts:83-83 | A written version, with or without its v, is read back with the same numbers and identifiers |
| Versions.ParseIff | desktop/src/platform.ts:83-83 | A string is read as a version if and only if it is written as one: three numbers and dots, perhaps a dash and a prerelease, perhaps a v in front |
| Versions.PreCharIs | desktop/src/platform.ts:83-83 | A prerelease is made of digits, letters, dots and dashes |
| Versions.CompareVersions | desktop/src/platform.ts:88-106 | The loops compute the comparison the lemmas below are about |
| Versions.CompareOpposite | desktop/src/platform.ts:88-106 | Comparing the other way round gives the opposite sign, for all strings |
| Versions.CompareChained | desktop/src/platform.ts:88-106 | Comparisons chain, strictly when either is strict, for all strings: with the above, a total preorder |
| Versions.AgreesWithSemver | desktop/src/platform.ts:88-88 | On strings that parse, lower means lower precedence by section 11 of Semantic Versioning 2.0.0 |
| Versions.ValidIdsEqual | desktop/src/platform.ts:99-103 | Identifiers without leading zeros compare equal if and only if they are the same |
| Versions.NewerRelease | desktop/src/platform.ts:114-122 | None exactly when no published release is newer than ours; otherwise the first of the newest, without its v |
| Versions.NewerIs | desktop/src/platform.ts:117-118 | A release counts if and only if it is no draft, lies at github.com, and has a version that can be read and is newer |
| Versions.WithoutVIs | desktop/src/platform.ts:121-121 | The answer is the tag without the v it begins with, or the tag |
| Versions.OneMore | desktop/src/platform.ts:117-120 | One more release takes over exactly when it is newer than ours and than the best so far |
| WeekCounter.YearLength | bots/gallery/server-stats/stats.ts:24-24 | Years are 366 days long exactly when the Gregorian calendar says so |
| WeekCounter.YearUnique | bots/gallery/server-stats/stats.ts:24-25 | Every day lies in one year |
| WeekCounter.KnownDay | bots/gallery/server-stats/stats.ts:20-26 | 1 January 2024, 19723 days after the first day of the count, was a Monday |
| WeekCounter.KeyIsIso | bots/gallery/server-stats/stats.ts:20-26 | The year of the week's Thursday, and which Thursday of that year it is: 1 to 53 (sections 3.2.2 and 4.1.4 of ISO 8601:2004) |
| WeekCounter.SameKeyIffSameWeek | bots/gallery/server-stats/stats.ts:20-26 | Two dates have the same key if and only if they share a week from Monday to Sunday |
| WeekCounter.KeysInOrder | bots/gallery/server-stats/stats.ts:20-26 | A later week has a later key, by year and then by week |
| WeekCounter.KeyTextUnique | bots/gallery/server-stats/stats.ts:25-25 | Keys are written alike if and only if they are equal |
| WeekCounter.KeyTextIs | bots/gallery/server-stats/stats.ts:25-25 | A key is written as the year, -W and two digits |
| WeekCounter.CountsAre | bots/gallery/server-stats/stats.ts:45-56 | The exact counts of a week: channel by channel its messages, no channel without one, and its joins |
| WeekCounter.OneMoreExact | bots/gallery/server-stats/stats.ts:45-56 | A call counted in its own week, and in no other, keeps counts exact |
| WeekCounter.NewWeekExact | bots/gallery/server-stats/stats.ts:58-67 | Into another week: nothing was counted in it yet, and the week that ended waits with exact counts unless it was quiet |
| WeekCounter.BusyIff | bots/gallery/server-stats/stats.ts:61-63 | Counts of a week are worth a card exactly when anything happened in it |
| WeekCounter.CallCounted | bots/gallery/server-stats/stats.ts:45-56 | One more call keeps this week's counts and the waiting ones exact |
| WeekCounter.Counter.constructor | bots/gallery/server-stats/stats.ts:33-43 | The counts of the file go on, exact for the calls they were saved after; without one, the week of the date with nothing counted |
| WeekCounter.Counter.Save | bots/gallery/server-stats/stats.ts:83-89 | Nothing without a file or a change; otherwise the file holds the counts, exact for all calls so far, or the write fails, throws and leaves the file as it was, and either way nothing is still to be saved |
| WeekCounter.Restart | bots/gallery/server-stats/stats.ts:33-43 | A counter started again from its file has lost the calls after the last save that went through and nothing else |
| WeekCounter.Counter.Roll | bots/gallery/server-stats/stats.ts:58-67 | Nothing changes within the week; in a new one the old counts wait if there was anything to count, and are saved, which throws when the file cannot be written |
| WeekCounter.Counter.Message | bots/gallery/server-stats/stats.ts:45-50 | With dates that never go back, each count is exactly the number of calls in its week; a call in a new week that cannot be saved throws and is not counted |
| WeekCounter.Counter.JoinedOne | bots/gallery/server-stats/stats.ts:52-56 | The same for joins |
| WeekCounter.Counter.Due | bots/gallery/server-stats/stats.ts:69-73 | The waiting counts, exact and of an earlier week; nothing exactly when none wait, saving a new week throws, or it is a Monday before the hour |
| WeekCounter.Counter.Posted | bots/gallery/server-stats/stats.ts:75-79 | Nothing waits any more, and this week's counts stay; it throws when the file cannot be written |

## Left out

- SaveRuns.OnlyCompleteFiles: under the condition on names above; without it the claim is false, as shown.
- Versions.CompareVersions: numbers are unbounded, so huge ones do not lose digits; the length limit of `isVersion` is left out.
- WeekCounter.KeyIsIso: `Date.UTC` takes the years 0 to 99 for 1900 to 1999; the model does not.
- Checking ops and live cursors (`checkOps`, `checkField`, `checkLive`), JSON, id generation, image addresses.
- Rendering: `intersects`, `moved`, live cursors, and the one-object-per-record cache (identity of records).
- Floating point: rounding, NaN and infinite coordinates.
- In `Replicas`: encrypted batches an app cannot open, and a board that is cleared and gets a new id (the app starts over).
- `write`'s own answer, `abortAll` (the aborts of each of a page's saves) and `suggestedName` in streamed saves.
- The SDK's `ready`, `send`, `end`, and its players and end events; an exception in a handler, which is caught and changes nothing.
- Whether an activity's state is the same object (states are compared by value); who may join, leaving, and the server's rate limit.
- UTF-8 decoding and stream errors in `readLines`; the rest of the bridge (references, requests).
- Signing, publishing, checking and revoking device keys, and `usablePrekeys`.
- Where a pop-out goes and what page it shows (`areaFor`, `overlap`, `openBounds`).
- Reading hotkeys from settings and naming them, and the value a capture resolves with.
- The statistics card's text, and the counter's file as text: it holds the counts, or cannot be read.
- DOM helpers, themes and translations of activities; network connections, voice, Electron windows, bots' texts.
