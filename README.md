# Speaking queue — a Dafny model

This project models the core of a virtual-tabletop "speaking queue". One ordered
list of user ids is shared by every client. The id at the head of the list is the
current speaker.

A handler on the socket channel accepts four action tags. `addPlayer` appends an id
unless it is already queued. `removePlayer` drops every occurrence of an id.
`removeCurrent` shifts off the head if the list is non-empty. `clearQueue` empties
the list. After each recognised action the handler broadcasts one `updateQueue`
message carrying the whole new list. Any other tag falls through the `switch` and
does nothing. A client that receives a snapshot overwrites its own list with it. It
then renders one entry per id: the first entry as the speaker, the rest plain, with
"Unknown Player" for ids that do not resolve to a named user.

Files and modules:

- `SpeakingQueue.dfy`, module `SpeakingQueue`: the message (`Payload`, with the
  string tag the `switch` tests) and the pure transitions. `Join`, `Leave` and
  `Advance` model the three non-trivial actions. `Step` is one pass through the
  `switch`. `Run` and `Broadcasts` fold `Step` over a sequence of messages. The
  lemmas here state the queue's properties: idempotence, order preservation,
  the at-most-once invariant over any run, and one snapshot per recognised message.
- `QueueView.dfy`, module `QueueView`: the display projection. `Render` is written
  the way the UI computes it, as a map over the list with an index test.
  `HeadThenWaiting` is an independent head/tail definition. A lemma proves the two
  equal, and further lemmas relate rendering to `removeCurrent` and `addPlayer`.
- `QueueHandler.dfy`, module `QueueHandler`: class `QueueStore`. Its field
  `speakingQueue` is the module-level list, which the handler methods reassign in
  place. Its field `broadcasts` is the log of `updateQueue` snapshots sent. Each
  action method is proved against the pure transition of the same action.
  `HandleMessage` is the `switch`. `UpdateQueueUI` is the snapshot receiver. A
  client method walks through a join/join/repeated-join/advance scenario.

Three behaviours of the code worth stating explicitly:

- Leaving removes *every* occurrence of the id (`filter`), not just the first one.
  `SpeakingQueue.LeaveSingleOccurrence` shows that on duplicate-free queues this
  is the same as removing the one occurrence.
- The display name falls back to "Unknown Player" when the user is missing, and
  also when the user's name is empty. The source uses `||`, and the empty string is
  falsy.
- A received snapshot is installed unchecked. A snapshot that contains duplicates
  therefore breaks the at-most-once invariant on that client. `UpdateQueueUI`
  promises the invariant only for duplicate-free snapshots.

## Model

| member | source | states |
|---|---|---|
| `SpeakingQueue.Join` | scripts/speaking-queue.js:147-148 | the id is queued afterwards; the length grows by one exactly when it was absent; all earlier entries keep their places; when absent it becomes the last entry; the at-most-once invariant is kept |
| `SpeakingQueue.JoinIdempotent` | scripts/speaking-queue.js:148 | joining a second time leaves the queue as after the first join |
| `SpeakingQueue.JoinsInArrivalOrder` | scripts/speaking-queue.js:147-148 | three distinct joins from the empty queue give exactly `[a, b, c]` |
| `SpeakingQueue.Leave` | scripts/speaking-queue.js:151-152 | no occurrence of the id is left; the queue does not grow; the queue is unchanged when the id was absent |
| `SpeakingQueue.LeaveCounts` | scripts/speaking-queue.js:152 | the id's count drops to zero and every other id keeps its count |
| `SpeakingQueue.LeaveKeepsCleanPrefix` | scripts/speaking-queue.js:152 | a prefix that does not contain the id comes through leaving unchanged |
| `SpeakingQueue.LeaveMembership` | scripts/speaking-queue.js:152 | the id is gone afterwards, and every other id is queued afterwards iff it was before |
| `SpeakingQueue.LeaveKeepsOrder` | scripts/speaking-queue.js:152 | the remaining ids are a subsequence of the old queue, so their relative order is kept |
| `SpeakingQueue.LeaveKeepsNoDuplicates` | scripts/speaking-queue.js:152 | leaving keeps the at-most-once invariant |
| `SpeakingQueue.LeaveSingleOccurrence` | scripts/speaking-queue.js:152 | on `a + [x] + b` with x in neither part, leaving gives `a + b` |
| `SpeakingQueue.LeaveIdempotent` | scripts/speaking-queue.js:152 | leaving a second time changes nothing |
| `SpeakingQueue.Advance` | scripts/speaking-queue.js:155-156 | on a non-empty queue the old head followed by the result is the old queue; on the empty queue the result is empty; the invariant is kept |
| `SpeakingQueue.AdvanceRemovesHeadOnly` | scripts/speaking-queue.js:156 | `removeCurrent` on `[a] + rest` yields `rest`, and on `[]` yields `[]` |
| `SpeakingQueue.Step` | scripts/speaking-queue.js:146-163 | each of the four tags applies its own transition (`Join`, `Leave`, `Advance`, or `[]` for `clearQueue` from any state); any other tag leaves the queue unchanged |
| `SpeakingQueue.Emitted` | scripts/speaking-queue.js:146-170 | a recognised tag emits exactly one snapshot and any other tag none; every emitted snapshot equals the queue after the message |
| `SpeakingQueue.UpdateQueueIgnoredByHandler` | scripts/speaking-queue.js:146-163 | an `updateQueue` message reaching the action handler changes nothing and emits nothing |
| `SpeakingQueue.StepKeepsNoDuplicates` | scripts/speaking-queue.js:146-163 | every message keeps the at-most-once invariant |
| `SpeakingQueue.RunKeepsNoDuplicates` | scripts/speaking-queue.js:145-164 | any sequence of messages processed in order keeps the at-most-once invariant |
| `SpeakingQueue.RunFromEmptyHasNoDuplicates` | scripts/speaking-queue.js:1 | starting from the initial empty queue, no sequence of messages queues an id twice |
| `SpeakingQueue.BroadcastsFaithful` | scripts/speaking-queue.js:146-170 | a run emits one snapshot per recognised message; with no recognised message the queue is unchanged; otherwise the last snapshot is the final queue |
| `SpeakingQueue.BroadcastsHaveNoDuplicates` | scripts/speaking-queue.js:168-170 | every snapshot emitted by a run from a duplicate-free queue is duplicate-free |
| `QueueView.DisplayName` | scripts/speaking-queue.js:125 | a user present with a non-empty name is shown under that name; a missing user shows "Unknown Player"; the shown name is never empty; any other name shown is that user's own name |
| `QueueView.WaitingLabelsAt` | scripts/speaking-queue.js:124-127 | the plain entries have one label per id, in order, each with that id's name |
| `QueueView.RenderIsHeadThenWaiting` | scripts/speaking-queue.js:124-127 | the index-based rendering equals "head speaking, then every other id waiting in order" |
| `QueueView.Render` | scripts/speaking-queue.js:124-127 | one entry per queued id; an entry is the speaker iff it is at index 0; each entry shows the name of the id at its index |
| `QueueView.RenderAfterAdvance` | scripts/speaking-queue.js:124-127 | after `removeCurrent` the first waiting entry becomes the speaker and every later entry moves up by one; dismissing the only speaker leaves no entries |
| `QueueView.RenderAfterJoin` | scripts/speaking-queue.js:124-127 | a newcomer is rendered as the speaker of a previously empty queue, or otherwise as a new waiting entry at the back |
| `QueueView.RenderThree` | scripts/speaking-queue.js:124-127 | `[u1, u2, u3]` renders as u1 speaking, then u2 and u3 waiting, in that order |
| `QueueHandler.QueueStore.constructor` | scripts/speaking-queue.js:1 | the queue starts empty, no snapshot has been sent, and the invariant holds |
| `QueueHandler.QueueStore.BroadcastQueueUpdate` | scripts/speaking-queue.js:168-170 | exactly one snapshot, equal to the current queue, is appended to the log; the queue is untouched |
| `QueueHandler.QueueStore.AddPlayer` | scripts/speaking-queue.js:147-150 | the queue becomes `Join` of the old queue; one snapshot of the new queue is sent; the invariant is kept |
| `QueueHandler.QueueStore.RemovePlayer` | scripts/speaking-queue.js:151-154 | the queue becomes `Leave` of the old queue; one snapshot of the new queue is sent; the invariant is kept |
| `QueueHandler.QueueStore.RemoveCurrent` | scripts/speaking-queue.js:155-158 | the queue becomes `Advance` of the old queue; one snapshot of the new queue is sent; the invariant is kept |
| `QueueHandler.QueueStore.ClearQueue` | scripts/speaking-queue.js:159-162 | the queue becomes empty; one empty snapshot is sent; the invariant is kept |
| `QueueHandler.QueueStore.HandleMessage` | scripts/speaking-queue.js:145-164 | the queue becomes `Step` of the old queue; a recognised tag sends exactly one snapshot equal to the new queue, even for a no-op; any other tag changes neither the queue nor the log |
| `QueueHandler.QueueStore.UpdateQueueUI` | scripts/speaking-queue.js:122-127 | the local queue becomes exactly the received snapshot; the returned entries are `Render` of it; the log is untouched; the invariant survives a duplicate-free snapshot |
| `QueueHandler.JoinJoinRepeatAdvance` | scripts/speaking-queue.js:144-170 | joins of A and B, a repeated join of A and then `removeCurrent` send the snapshots `[A]`, `[A, B]`, `[A, B]`, `[B]`; a mirror receiving the last one shows B as the speaker and nobody else |

## Left out

- Hook registration (`Hooks.on("ready")`, `Hooks.once("setup")`) and the socket transport (`game.socket.on`/`emit`, lines 3-9, 144-145, 169) are host-application messaging. A sent message is modelled as an entry appended to `QueueStore.broadcasts`. The `ready` listener that passes `updateQueue` messages to `updateQueueUI` (lines 5-8) is modelled only as a direct call of `UpdateQueueUI`.
- The floating controls, the button listeners and the sidebar class (lines 30-117) are DOM wiring and subclassing of host classes. They only build and send the payloads this model takes as input.
- The GM checks (lines 20-24 and 110) only decide which buttons are wired. The handler applies every action whoever sent it, and so does the model.
- The HTML string and the DOM and sidebar updates (line 126 markup, lines 129-138) are not modelled. Only the sequence of `Label` values is kept.
- `game.users.get` (line 125) is replaced by a `map` from id to name passed in by the caller.
- The handler is registered on every client (lines 144-145), so every client runs it. Delivery, ordering and convergence across clients are concurrency and networking that the code does not show. The model follows one store and one mirror.
- A payload whose `userId` or `queue` field is absent or not of the expected type is not modelled; every model payload carries a string id and a list of ids. In JavaScript a missing `userId` would queue `undefined`. A non-array `queue` in an `updateQueue` message would replace `speakingQueue` (line 123), make `queue.map` throw (line 124), and make `speakingQueue.includes` throw at line 148 on that client until a well-formed snapshot arrives.
- Aliasing at line 123 is not modelled. JavaScript stores the received array object itself (line 123), but a Dafny `seq` is a value.
