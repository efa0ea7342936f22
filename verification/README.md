# Luna Core: protocols and transformations, modelled and proved

Luna Core runs AI agents: chat conversations that pause for human approval of
tool calls, flows whose agents iterate over scratchpad records, live event
streams over Redis and WebSockets, connectors that call HTTP services. Most of
its difficulty sits in small protocols written over Postgres rows and Redis
keys. This project models those protocols as state plus atomic steps, gives the
loops and the mutable objects their imperative form, and proves what every run
of them keeps.

`dafny verify dfyconfig.toml` checks everything.

## How the parts fit

- **Wrappers, Sequences** hold the `Option` type and the few list notions the
  others share.
- **Transcript, Compaction, CompactionProofs, ViewPairing** are the stored
  conversation. `Transcript` says what it is for tool calls and results to be
  paired. `Compaction` computes the history a model is sent from the rows and
  appends markers. The proofs show that the list a turn goes on with is a
  re-read of the rows, that markers chain, that messages and attachment counts
  are conserved over any number of compactions, and that every cut leaves both
  sides paired.
- **ChatTurn, ChatSafety, ChatAnswers, Conversations** are the approval protocol.
  `ChatTurn` gives send, decide, resume and handoff as functions on a
  conversation value, with the model, the tool handlers and the host's resolver
  as arbitrary oracles. `ChatSafety` proves the invariant over every run of
  requests, the truth of every answer to a call included. `ChatAnswers` reads off
  the rows and the lists sent, position by position, what a request adds and why
  it stops, without the protocol's own steps. `Conversations` is the object the
  code keeps, with rows and approvals updated in place and a running message list
  that is never re-read within a turn; each of its methods is proved equal to the
  function of the same name, so the theorems are about it. `Serve` states that
  for a whole life of the object.
- **SequenceAllocation, Timeline** are the two halves of event and message
  numbering: optimistic allocation under every interleaving, and the order of
  the published timeline.
- **InflightCache, StreamFanout** are reconnection: what a snapshot of a
  streaming turn contains, and the zero-loss contract of one key's fan-out.
  `StreamFanout` has the manager with its tables and, beside it, one key as a
  machine over time; `ServeKey` runs any schedule of the machine on a manager by
  its own methods and proves that the two stay equal.
- **RateLimit, Scratchpad, HttpRetry, TokenRotation** are counters and budgets
  over traces: a fixed-window limiter in real time, tasks under a semaphore, a
  retry loop with two budgets, refresh tokens with family revocation.
- **Paths, Templates, Schedules, InheritedHistory, DedupSplice** are
  transformations with laws: a path language and its walk, an in-place template
  rewriter against a one-pass reading, a per-user lens on shared schedules, the
  closure of inherited tool pairs, and the splice of dedup verdicts.

Tool-use ids are assumed fresh, grants fixed and requests serialized by the turn
lock: `FreshIds` and the shape of `World` say so.

## Where the code and its documentation part

These are stated as theorems, with the exact condition.

- The tokenizer loops forever on a chunk with a `[` that does not open `[*]`,
  for instance `items[0]` (`Paths.IndexingNeverHalts`); it halts on exactly the
  other chunks (`Paths.TokenizerHaltsIff`).
- The retry cap is said to be hit only when allocation is broken. Contention
  between two sessions is enough (`SequenceAllocation.TwoSessionsExhaust`),
  although it always takes 32 commits of others.
- Event numbers are said to be monotonic. Rows commit in number order exactly
  when no writer had read a high-water mark at or above a number committed after
  its own row, and count 1..n exactly when none had read a mark above the number
  of rows before its own (`SequenceAllocation.CommitOrderIffNoMarkAhead`,
  `SequenceAllocation.CountsUpIffMarksBehind`); a run where they do not is
  `SequenceAllocation.EventsMayCommitOutOfOrder`.
- Reconnection is said to lose nothing. A chunk is missed exactly when the
  snapshot is too short for it and it was fanned out before the client joined,
  or past the client's subscriptions (`StreamFanout.ChunkArrivesIff`); for
  instance `StreamFanout.FinishedTurnIsNotInTheSnapshot`.
- The plain SET of the timeline's high-water mark keeps the order exactly when
  each turn's deltas follow its started event with nothing in between
  (`Timeline.OrderHoldsIffTurnsAreContiguous`); two interleaved turns break it
  (`Timeline.InterleavedTurnsCollide`).
- A snapshot frame is said to carry the live sequence. It does until built-in
  tool activity is published in the turn, then lags by that many
  (`InflightCache.SnapshotEqualsLive`); one built-in call before the first words
  is enough (`InflightCache.BuiltinShiftsTheSnapshot`).
- Promoting an interrupted reply to final loses it from what is sent and
  summarized exactly when a compaction has passed it by
  (`CompactionProofs.PromotionConservesIff`), as in
  `CompactionProofs.LateFinalizeLosesARow`.
- A scratchpad record can be consumed by an iteration reported as failed,
  exactly when somewhere in the schedule its drop raises after the deletion or
  its completed event raises after a clean drop
  (`Scratchpad.DroppedButFailedIff`, and
  `Scratchpad.CompletedEventCanFailADroppedRecord`).
- A user's rules are said to be replaced by what it sends. It reads back exactly
  that when validation changes none of the rules and no legacy cron stands beside
  an empty list (`Schedules.PutGet`, `Schedules.LegacyCronComesBackAsARule`). In
  the other case even saving one's own view back adds a rule, left behind by
  whoever wrote the cron and now firing as oneself (`Schedules.GetPut`,
  `Schedules.SavingBackAddsARule`).

## Other exact conditions

- The preview shows a placeholder where a source is not loaded, as it says it
  does. It agrees with the engine exactly when every referenced source is loaded
  under the name the preview splits off (`Templates.PreviewAgreesIffLoaded`); any
  other source differs (`Templates.UnloadedSourceDiffers`), for instance
  `${context.profile}` (`Templates.ProfileIsUnresolved`).
- With inherited tool interactions stripped, a node's history is closed exactly
  when no pair spans its own and the inherited messages
  (`InheritedHistory.StrippedHistoryIsClosedIff`). A call and its result are
  stored under one node, so a pair spans two only when both show the same
  tool-use id (`InheritedHistory.SpanningTakesACollision`), as in
  `InheritedHistory.CollisionLeavesAnOrphan`.

## Model

| member | source | states |
|---|---|---|
| Transcript.ChainAt | luna_core/engine/agent.py:384-432 | In a paired transcript a row with calls is answered by the very next row, a user message with one result per call in order, and no result answers anything else |
| Transcript.AddTextKeepsPairing | luna_core/engine/chat.py:205-232 | Putting words into the latest assistant message changes no row's calls, answers, kind or number: the transcript is paired exactly when it was |
| Compaction.CountMedia | luna_core/engine/chat.py:505-521 | The counting loop computes the attachments up to the end of a sent history, an earlier marker standing for all it summarized |
| CompactionProofs.CompactionRefinesReread | luna_core/engine/chat.py:413-475 | `[marker, *kept]` equals the history computed from the stored rows afterwards, and the marker reaches strictly further than the one before |
| CompactionProofs.MarkerIsSound | luna_core/engine/chat.py:450-460 | A new marker's media is the raw count of attachments over all stored user rows up to where it reaches |
| CompactionProofs.MediaSurvives | luna_core/engine/chat.py:505-521 | Counting over what is sent gives the raw count over everything stored |
| CompactionProofs.RunsStaySound | luna_core/engine/chat.py:364-475 | Over every run of messages, compactions and promotions the rows stay numbered, markers chain and the counts agree |
| CompactionProofs.CompactionMoves | luna_core/engine/chat.py:413-475 | The sent messages before a compaction are those it summarized followed by those sent after it |
| CompactionProofs.RunsConserve | luna_core/engine/chat.py:377-387 | Every durable message was summarized by exactly one compaction or is sent exactly once, in order, over any number of compactions |
| CompactionProofs.PromotionConservesIff | luna_core/services/conversation.py:130-149 | Promoting interrupted rows conserves the messages if and only if none lies at or below the latest marker's reach |
| CompactionProofs.LateFinalizeLosesARow | luna_core/services/conversation.py:130-149 | A concrete run in which a promoted reply is neither summarized nor sent |
| CompactionProofs.CompactionNeedsAReply | luna_core/engine/chat.py:477-501 | Over every run a compaction writes a marker only if a durable reply was stored since the marker before |
| CompactionProofs.DueWhenWorthIt | luna_core/engine/chat.py:413-437 | The policy, decided on the sent rows and the gauge, is met exactly when three rows or more hold a reply since the marker, its call and the agent's own counted prompt reach the size, the counted gain is enough and the provider answered |
| CompactionProofs.SentIff | luna_core/engine/chat.py:364-387 | A stored row is sent exactly when it is the latest marker, or a message that is not partial beyond that marker's reach; messages are sent in number order |
| CompactionProofs.RawMediaIsCounted | luna_core/engine/chat.py:505-521 | The raw count is the number of attachments of each kind in durable user rows up to a number |
| CompactionProofs.SayingStores | luna_core/engine/chat.py:168-241 | Over every run what is said is stored at the end, word for word, and earlier rows stay as they are |
| ViewPairing.ViewIsPaired | luna_core/engine/chat.py:364-387 | The history a model is sent is paired and leaves waiting exactly the calls the stored rows do |
| ViewPairing.CompactionCutsClosed | luna_core/engine/chat.py:417-418 | What a compaction summarizes has no call waiting, and the rows with its marker stay paired |
| ChatSafety.RunsStayAtRest | luna_core/routers/conversations.py:433-511 | After every request of every run the invariant holds, the last turn is open exactly while an approval is pending, and the log of handler runs only grows |
| ChatSafety.OnlyApprovedCallsRan | luna_core/engine/agent.py:516-558 | A gated call ran only if its row is approved, with that row's inputs when non-empty; an ungated one ran with its own and has no row |
| ChatSafety.EachCallRunsOnce | luna_core/engine/agent.py:384-403 | No tool-use id runs twice, no call of a suspended turn has run, and every answered call that was not rejected did run |
| ChatSafety.TranscriptStaysPaired | luna_core/engine/agent.py:342-432 | The transcript between requests and every list ever sent to a model is paired, the one exception being the last turn while suspended |
| ChatSafety.ConverseIsSafe | luna_core/engine/agent.py:284-432 | A turn from a closed transcript ends closed, or open and suspended, whether it completes, ends in invalid output or hits the iteration cap |
| ChatSafety.SuspendIsSafe | luna_core/engine/agent.py:351-382 | A turn with a gated call stops before any of its calls runs, with one pending row for each gated call |
| ChatSafety.ResumeIsSafe | luna_core/engine/agent.py:654-730 | Resume finds the suspended turn, never fails its own guards, and closes the turn whatever was decided |
| ChatSafety.DecideIsSafe | luna_core/routers/conversations.py:597-674 | A decision is recorded for good, never meets a history it cannot resume, and resumes the turn exactly when nothing is left pending; until then no row changes and nothing runs |
| ChatSafety.DecisionIsAsGiven | luna_core/routers/conversations.py:610-674 | After a whole decision request, through resume and handoffs, the decided row is as the verdict says; a correction leaves every pending sibling rejected with its reason and the turn resumed; otherwise each sibling is as it was |
| ChatSafety.DecisionsAreFinal | luna_core/services/tool_approval.py:96-132 | A resolved row is the same after any further requests, and a rejected call never runs |
| ChatSafety.SilentRejectionEndsTheTurn | luna_core/engine/agent.py:83-100 | A resumed turn calls no model if and only if every one of its calls was rejected without a reason |
| ChatSafety.SendIsSafe | luna_core/routers/conversations.py:443-505 | A send, refused or run with compaction and handoffs, keeps the invariant |
| ChatSafety.AnswersAreTrue | luna_core/engine/agent.py:516-629 | Over every run each answered call has a result at its own position in the next row: that it was not run, and why, as an error, exactly when it was rejected; else the handler's text and error flag, with the inputs exactly when the user corrected them |
| ChatSafety.PendingShowsItsCall | luna_core/services/tool_approval.py:28-57 | Over every run a pending row belongs to a gated call of the last turn and shows its name, its own inputs and the agent that proposed it |
| ChatAnswers.ConverseIsATurn | luna_core/engine/agent.py:284-432 | The loop, read by position: each reply is stored word for word under its agent and was written for all the rows before it; calls that need nobody are answered in the next row; which of the four endings it is, and that it stops no sooner, is told by the last reply |
| ChatAnswers.FollowIsARelay | luna_core/routers/conversations.py:838-894 | Handoffs are whole turns, each by a different agent the resolver named on completion, at most four; it stops at a turn that did not complete or when the resolver stays |
| ChatAnswers.CompactsWhenWorthIt | luna_core/engine/chat.py:413-475 | In what was measured: nothing, or one marker over all that was sent but a last reply, which is kept behind it |
| ChatAnswers.SendIsAnswered | luna_core/routers/conversations.py:443-505 | A send is refused exactly while something is pending and then changes nothing; otherwise every row stays, the content is the next row, word for word, the list first sent ends in it, the reply after it is the resolver's agent's, and the rest is a turn with handoffs |
| ChatAnswers.DecisionIsAnswered | luna_core/routers/conversations.py:597-674 | The decision that leaves nothing pending answers the waiting calls in one row and goes on under the agent that proposed them, or the resolver's when it is gone; it calls no model exactly on silent rejection; any other changes no row |
| ChatAnswers.Unmoved | luna_core/services/tool_approval.py:96-132 | A decision about no row, or about a resolved one, is told which and changes nothing |
| ChatAnswers.EverySendIsHeard | luna_core/engine/agent.py:227-238 | Over every run, whatever follows, a send with content that came while nothing was pending has its own row and a reply right after it, written for a list that ends in it |
| ChatAnswers.TranscriptOnlyGrows | luna_core/routers/conversations.py:407-511 | Over every run the rows and the lists sent so far stay a prefix of later ones |
| Conversations.Conversation.ExecuteToolUses | luna_core/engine/agent.py:497-629 | The loop over calls answers each at its position, a rejected one as not run with its reason and as an error, any other with what its handler said; it runs exactly the non-rejected ones in order with their decided inputs, and flags a terminal tool that ran without error |
| Conversations.Conversation.AddText | luna_core/engine/chat.py:205-232 | In place, the latest assistant row gets the words after its thinking; the rows keep their numbers |
| Conversations.Conversation.RunAgent | luna_core/engine/agent.py:284-432 | The loop over its own running list is a whole turn, read by position, and does what the protocol says, that list being at each step a re-read of the store |
| Conversations.Conversation.CompactIfDue | luna_core/engine/chat.py:389-475 | In place, a marker is written exactly when the policy is met in the gauge's own fields, over all but a last reply; the returned list equals a re-read of the rows it leaves |
| Conversations.Conversation.FollowHandoffs | luna_core/routers/conversations.py:838-894 | The handoff loop is a relay of whole turns, each by the next agent the resolver names, at most four |
| Conversations.Conversation.Send | luna_core/routers/conversations.py:433-511 | A send on the object is a send of the protocol: refused while something is pending, else the user's message stored, sent and answered |
| Conversations.Conversation.Resume | luna_core/engine/agent.py:654-730 | A resume on the object is a resume of the protocol |
| Conversations.Conversation.Decide | luna_core/routers/conversations.py:597-674 | A decision on the object, with its cascade, is a decision of the protocol |
| Conversations.Serve | luna_core/routers/conversations.py:407-511 | After any requests in any order the object's state is the protocol's run and is at rest |
| SequenceAllocation.MessagesCountUp | luna_core/engine/chat.py:168-241 | Under every interleaving of savers the messages of a scope are numbered 1..n and commit order is number order |
| SequenceAllocation.CommitOrderIffNoMarkAhead | luna_core/engine/emitter.py:182-277 | Under every interleaving and every movement of the mark, rows commit in number order if and only if no writer had read a mark at or above a number committed after its own row |
| SequenceAllocation.CountsUpIffMarksBehind | luna_core/engine/emitter.py:182-201 | Rows are numbered exactly 1..n in commit order if and only if no writer had read a mark above the number of rows committed before its own |
| SequenceAllocation.EventsCountUpBehindTheTable | luna_core/engine/emitter.py:211-277 | While the mark is never set past the table, as when only emits move it, events are numbered 1..n in commit order |
| SequenceAllocation.GivingUpTakesThirtyTwoRivals | luna_core/engine/emitter.py:235-261 | No number is used twice, an operation commits at most once, and it fails if and only if the schedule holds 32 inserts of its own that came when the number it held was taken; those numbers strictly rise and each was committed by another after it began |
| SequenceAllocation.TwoSessionsExhaust | luna_core/engine/emitter.py:22-31 | Two sessions alone, never more than two operations at work, can exhaust all 32 attempts |
| SequenceAllocation.EventsMayCommitOutOfOrder | luna_core/engine/emitter.py:182-201 | A run in which a burst of live deltas between two reads puts a later commit under a smaller number |
| SequenceAllocation.Table.Emit | luna_core/engine/emitter.py:211-262 | With arbitrary interference between its steps, the retry loop returns a number exactly when its row is stored under it, and otherwise 32 rows were committed past it |
| Timeline.OrderHoldsIffTurnsAreContiguous | luna_core/engine/emitter.py:131-147 | With sequential emits and a live mark, published numbers strictly increase over the run if and only if each turn's deltas are contiguous |
| Timeline.InterleavedTurnsCollide | luna_core/llm/providers/_turn.py:258-275 | Two interleaved turns publish one number twice and take the mark back |
| Timeline.Stream.EmitEvent | luna_core/engine/emitter.py:182-277 | A persisted event is the next number above both the table and the mark, and becomes both |
| Timeline.Stream.PublishDelta | luna_core/llm/providers/_turn.py:258-275 | In a contiguous run, a delta is above everything published before it exactly when its own turn spoke last |
| InflightCache.ReadInflightChunks | luna_core/services/flow.py:767-815 | The chunks are exactly the well-formed text and thinking elements, each once and in order, at their place, with their own words, numbered among those of their kind before them |
| InflightCache.ReadsAreStable | luna_core/services/flow.py:767-815 | A later read of the cache starts with the earlier one, ids included |
| InflightCache.IdsAreDistinct | luna_core/llm/base.py:169-177 | Two chunks of a turn never share the kind and index their id is made of |
| InflightCache.SnapshotEqualsLive | luna_core/llm/providers/anthropic.py:1049-1099 | A snapshot is the live deltas one for one with the same ids; its sequences are the live ones exactly until built-in activity, then lag by that many |
| InflightCache.BuiltinShiftsTheSnapshot | luna_core/llm/providers/anthropic.py:1080-1099 | After one built-in call the first words have a snapshot sequence one below the live one |
| StreamFanout.WebSocketManager.Register | luna_core/engine/websocket.py:107-117 | Joining adds a fresh client and starts a pump exactly when the key had none; a key has a pump exactly when it has a client |
| StreamFanout.WebSocketManager.Remove | luna_core/engine/websocket.py:251-266 | Leaving removes the client, takes the pump with the last one and touches no other key |
| StreamFanout.WebSocketManager.Fanout | luna_core/engine/websocket.py:287-315 | A frame with no iteration or of a lifecycle type goes to the end of every queue of the key, any other exactly to those subscribed to its iteration; nothing else changes |
| StreamFanout.WebSocketManager.HandleControl | luna_core/engine/websocket.py:226-249 | A well-formed subscribe adds its iteration, an unsubscribe takes it out, for one client; anything else changes nothing |
| StreamFanout.WebSocketManager.TakeNext | luna_core/engine/websocket.py:176-180 | The send loop takes the oldest queued frame of one client and changes nothing else |
| StreamFanout.ServeKey | luna_core/engine/websocket.py:107-314 | Over any schedule of joins, acknowledgements, fan-outs, sends, control frames and leaves, one key of a manager holds exactly the clients, queues, subscriptions and pump of the one-key machine, and no other key is touched |
| StreamFanout.LiveFramesInOrder | luna_core/engine/websocket.py:152-180 | For frames of every kind, what a client was forwarded and has queued is the channel since it joined at strictly rising positions, exactly those its subscriptions allowed at the fan-out; its wire is the snapshot through the same filter and then that |
| StreamFanout.SubscriptionsAreWants | luna_core/engine/websocket.py:197-249 | Over every run a client is subscribed to an iteration exactly when it asked for it while connected and has neither asked out nor left since |
| StreamFanout.FanoutFollowsItsClients | luna_core/engine/websocket.py:287-315 | Over every run a frame the pump reaches is queued for a client exactly when it is tagged with no iteration, or of a lifecycle type, or the client wants its iteration |
| StreamFanout.SendingFollowsTheClient | luna_core/engine/websocket.py:152-180 | Over every run the socket is sent the snapshot frame by frame, without tagged frames not wanted as they come up, then the queue from the front |
| StreamFanout.NeverAskedNeverSent | luna_core/engine/websocket.py:182-195 | A client that never asked for an iteration has none of its frames, from the snapshot or live |
| StreamFanout.SnapshotIsTheCache | luna_core/engine/websocket.py:119-131 | A snapshot is read once, after the subscription, and is the cache while the turn is in flight, or empty |
| StreamFanout.ChunksArePublishedInOrder | luna_core/llm/providers/anthropic.py:1049-1079 | Over every run chunks are published in the order they were cached, and the turn ends with all of them published |
| StreamFanout.NoChunkIsLost | luna_core/engine/websocket.py:119-180 | If the turn was in flight when the snapshot was read, every chunk outside an iteration that the pump has reached is in the snapshot or forwarded or queued, and once drained was sent |
| StreamFanout.ChunkArrivesIff | luna_core/engine/websocket.py:119-180 | Whether or not the turn was in flight at the snapshot, a chunk the pump has reached gets to the client if and only if the snapshot is long enough for it or it was fanned out since the client joined and let through; one outside an iteration is let through always |
| StreamFanout.FinishedTurnIsNotInTheSnapshot | luna_core/engine/websocket.py:119-130 | A run in which a client that joined before a chunk was published misses it, its turn having ended between subscription and snapshot |
| StreamFanout.PumpIffClient | luna_core/engine/websocket.py:107-117 | Over every run a key has a pump exactly when it has a client |
| RateLimit.LifetimeBound | luna_core/core/rate_limit.py:25-41 | However INCRs and late EXPIREs interleave, one lifetime of the key allows at most the limit |
| RateLimit.SlidingWindowBound | luna_core/core/rate_limit.py:25-41 | Any half-open interval of one window holds at most 2 * limit - 1 allowed calls, and none under a zero limit |
| RateLimit.BoundIsReached | luna_core/core/rate_limit.py:25-41 | For every positive limit and window a trace reaches that bound |
| RateLimit.Limiter.Check | luna_core/core/rate_limit.py:13-41 | A call counts once in the key's lifetime, or opens a new one, is allowed up to the limit, and is told what is left and the rounded time to the expiry, or a whole window when none is left |
| Paths.WalkPath | luna_core/engine/template_paths.py:70-90 | The loop with its recursive projection computes the segment-by-segment meaning of the path, for every value |
| Paths.WalkReads | luna_core/engine/template_paths.py:70-90 | One more segment in front: an entry of a dict, an attribute of a plain value, nothing of a list or None; `[*]` walks the rest from every item of a list in order, and nothing of anything else |
| Paths.WalkComposes | luna_core/engine/template_paths.py:70-90 | Walking p then q is walking p and then q at a list depth equal to the number of `[*]` in p, None where a list is missing |
| Paths.WalkKeepsLengths | luna_core/engine/template_paths.py:80-81 | More segments never change the length of a list the path has opened |
| Paths.TokenizerHaltsIff | luna_core/engine/template_paths.py:41-55 | The inner loop ends on a chunk if and only if every `[` of it opens `[*]` |
| Paths.IndexingNeverHalts | luna_core/engine/template_paths.py:41-55 | On `items[0]` the inner loop has text left after any number of turns |
| Paths.TokenizePath | luna_core/engine/template_paths.py:34-56 | On halting paths the nested loops compute the tokens chunk by chunk |
| Paths.TokensAreLossless | luna_core/engine/template_paths.py:34-56 | On every halting path the tokens fall into groups that glue and join by dots to the path again; each is `[*]` or a name as long as it can be |
| Paths.TokenizeInvertsPrint | luna_core/engine/template_paths.py:7-19 | Every path of the documented grammar halts and tokenizes to exactly its segments |
| Templates.ParseIsLossless | luna_core/engine/nodes.py:1591-1606 | Reading a template into literals and markers loses nothing |
| Templates.PiecesAreMaximal | luna_core/engine/nodes.py:1596-1601 | No marker's path holds a closing brace and no literal holds a complete marker |
| Templates.Rewrite | luna_core/engine/nodes.py:1591-1606 | Rewriting in place terminates and equals filling the pieces of the original text once; replaced text is never read again |
| Templates.FormatTemplate | luna_core/engine/nodes.py:1591-1606 | The engine's result is the one-pass filling with resolved values, missing ones empty |
| Templates.RenderTemplate | luna_core/services/agent.py:341-375 | The preview's result is the one-pass filling with a warning for every unloaded source, whose path is never tokenized |
| Templates.PreviewAgreesIffLoaded | luna_core/services/agent.py:341-389 | Preview and engine agree if and only if every referenced source is loaded |
| Templates.UnloadedSourceDiffers | luna_core/services/agent.py:341-375 | For every plain source that is not loaded, the template naming it is empty to the engine and a placeholder in the preview |
| Templates.ProfileIsUnresolved | luna_core/services/agent.py:341-375 | `${context.profile}` with nothing loaded is such a template |
| Templates.LoadedFieldIsShown | luna_core/services/agent.py:341-389 | In engine and preview a field of a loaded source is shown as it is when a string, as nothing when absent or None, else as `str()` has it |
| Templates.EmptyReferenceIsTheState | luna_core/engine/template_paths.py:59-67 | The empty reference is the whole state |
| Scratchpad.ParallelIterationIsSafe | luna_core/engine/nodes.py:915-941 | Over every schedule at most `concurrency` iterations run; task i works on record i; a task drops at most once and after its agent returned, so with distinct ids no record is dropped twice; processed means dropped; no record vanishes otherwise |
| Scratchpad.OutcomeIff | luna_core/engine/nodes.py:1066-1253 | Over every schedule a task is skipped as aborted exactly when the abort was set at its check, as missing exactly when its record was not stored as it was fetched, and processed, or failed where it failed, exactly at the step that did it |
| Scratchpad.ReturnedTookItsSteps | luna_core/engine/nodes.py:1066-1179 | An agent run that returned was admitted with a slot free, checked with no abort so far, and given a record that was stored as it was fetched, in that order |
| Scratchpad.DroppedIff | luna_core/engine/nodes.py:1178-1179 | A task is logged as having dropped its record exactly when, after its agent returned, it deleted it |
| Scratchpad.StoredIff | luna_core/services/scratchpad.py:270-283 | Over every schedule a record is stored exactly when it was at the start, or was stashed, and nothing has removed it since |
| Scratchpad.DroppedButFailedIff | luna_core/engine/nodes.py:1151-1240 | Over every schedule, a task's record is dropped and the task reported failed if and only if at some step its drop raised after the deletion or its completed event raised after a clean drop |
| Scratchpad.CompletedEventCanFailADroppedRecord | luna_core/engine/nodes.py:1239-1253 | A schedule of that kind |
| Scratchpad.EveryScheduleEnds | luna_core/engine/nodes.py:925-946 | Over every schedule at most six steps per task move anything, and a run is one no step can move if and only if every task has finished |
| Scratchpad.CollectOutcomes | luna_core/engine/nodes.py:1002-1024 | The gathering loop keeps position and turns every exception into a failure |
| Scratchpad.CountersAreConserved | luna_core/engine/nodes.py:828-846 | Each counter is the number of tasks that ended so, failures are exactly the tasks that raised; they sum to min(snapshot, max iterations); drops lie between processed and processed plus failed; exhausted means every record had a task |
| Schedules.StampScheduleOwner | luna_core/services/flow.py:129-145 | In place, every object rule gets the saving user as owner and nothing else changes |
| Schedules.PutGet | luna_core/services/flow.py:239-262 | After an accepted update its user reads back the rules the request stands for, stamped: those it sent if and only if validation changes none of them and no legacy cron stands beside an empty list; every other user's view is unchanged |
| Schedules.UpdateStores | luna_core/services/flow.py:180-203 | An accepted update stores the request's rules, stamped, and behind them the other users' as they were |
| Schedules.OtherFieldsAreTheRequests | luna_core/services/flow.py:180-203 | Whatever is no rule is taken from the request, an absent trigger leaving it empty |
| Schedules.RefusedIff | luna_core/services/flow.py:239-262 | A request is refused exactly when the schema does not accept it or one of its rules, a promoted cron included, is no object or has a refused body |
| Schedules.FiltersSelect | luna_core/services/flow.py:148-197 | A user reads exactly the rules it owns; the rules kept for others are those with another owner; both in stored order |
| Schedules.PutPut | luna_core/services/flow.py:239-262 | Updating twice stores what the second update alone does |
| Schedules.GetPut | luna_core/services/flow.py:239-262 | Saving one's own view back changes no one else's view, and leaves one's own if and only if validation changes none of its rules and it is not a schedule trigger with a legacy cron and no rules |
| Schedules.EveryoneSeesTheirOwnLastSave | luna_core/services/flow.py:239-262 | Over any history of updates by any users, each user's view is what its own latest accepted one stands for |
| Schedules.SavesCommute | luna_core/services/flow.py:239-262 | Updates by two users commute on every user's view |
| Schedules.OwnerlessRulesAreDropped | luna_core/services/flow.py:190-197 | After an accepted update every stored rule is an object with an owner |
| Schedules.ValidationIsIdempotent | luna_core/schemas/flow.py:85-89 | A request validated on arrival and again by the update is validated once in effect |
| Schedules.LegacyCronComesBackAsARule | luna_core/schemas/flow.py:85-89 | A legacy cron beside an empty list is read back as one rule |
| Schedules.SavingBackAddsARule | luna_core/schemas/flow.py:85-89 | A user without rules who saves back what it reads of another's legacy cron gains a rule |
| InheritedHistory.LoadHistory | luna_core/engine/nodes.py:1395-1437 | The loops compute the filtered history: own interrupted turns out, tool blocks kept by mode and pairing, empty messages dropped |
| InheritedHistory.ReadableIs | luna_core/engine/nodes.py:1385-1395 | Everything stored is read but the node's own interrupted turns, in stored order |
| InheritedHistory.KeptToolsArePaired | luna_core/engine/nodes.py:1416-1433 | A tool block that stays is the node's own or tools are included, and its id shows on both sides of what is read |
| InheritedHistory.NoEmptyMessages | luna_core/engine/nodes.py:1432-1437 | No message of a history is empty |
| InheritedHistory.HistoryIsClosed | luna_core/engine/nodes.py:1397-1414 | With tool interactions included, calls and results of the result carry exactly the same ids |
| InheritedHistory.StrippedHistoryIsClosedIff | luna_core/engine/nodes.py:1416-1433 | With them stripped, that holds if and only if no pair spans own and inherited messages |
| InheritedHistory.SpanningTakesACollision | luna_core/engine/nodes.py:1416-1433 | When no tool-use id shows both in the node's own and in other messages, no pair spans them |
| InheritedHistory.CollisionLeavesAnOrphan | luna_core/engine/nodes.py:1416-1433 | With one colliding id the stripped history keeps a call without its result |
| InheritedHistory.OtherBlocksSurvive | luna_core/engine/nodes.py:1432-1433 | In either mode every other block of the readable messages is in the loaded history, in order and with its role |
| InheritedHistory.HistoryIsGreatest | luna_core/engine/nodes.py:1397-1433 | Any choice of blocks of the readable messages whose tool blocks have ids and whose calls and results have the same ids lies within the loaded history, messages and blocks in order |
| InheritedHistory.HistoryIsWithin | luna_core/engine/nodes.py:1395-1437 | The loaded history is itself the readable messages with some blocks left out |
| InheritedHistory.HistoryIsIdempotent | luna_core/engine/nodes.py:1395-1437 | Filtering a filtered history changes nothing |
| HttpRetry.DelayBounds | luna_core/connectors/retry.py:61-72 | Whatever the policy and the draw, a sleep is between 0 and 30 seconds |
| HttpRetry.DelaysGrow | luna_core/connectors/retry.py:61-72 | Before jitter the delays never shrink |
| HttpRetry.DelaysAreExponential | luna_core/connectors/retry.py:61-72 | The first delay is the configured one and each next one the configured factor longer, up to 30 seconds; jitter scales it by the draw |
| HttpRetry.ParseRetryPolicy | luna_core/connectors/retry.py:75-92 | A read policy is valid, keeps its numbers, retries exactly the listed non-auth statuses, and is refused exactly when out of range |
| HttpRetry.ExecuteHttp | luna_core/connectors/registry.py:364-493 | At most max attempts + 1 requests with at most one refresh, each sleep after a retryable response and each refresh after an auth error; a returned response is not retryable or the budget is spent, a returned 401/403 on oauth2 came after the refresh; total sleep is at most 30 seconds per retry |
| TokenRotation.NoTokenRotatesTwice | luna_core/services/auth.py:100-137 | Over every run no refresh token rotates successfully twice |
| TokenRotation.ReplayRevokesTheFamily | luna_core/services/auth.py:119-125 | Presenting a revoked or expired token makes every token issued to that user so far unusable for good |
| TokenRotation.SpentStaysSpent | luna_core/services/auth.py:119-125 | A token refused as revoked or expired never rotates later |
| TokenRotation.LiveTokensWithinLogins | luna_core/services/auth.py:75-158 | A user's unrevoked tokens never exceed its logins since the latest revocation of its family |
| TokenRotation.AuthService.RevokeAllUserTokens | luna_core/services/auth.py:150-158 | The loop revokes exactly the user's rows in place |
| TokenRotation.AuthService.RotateRefreshToken | luna_core/services/auth.py:100-137 | Which of the four answers, by the row and its user; a rotation revokes the row and adds one of the configured lifetime, a spent token revokes the family, any other answer changes nothing |
| TokenRotation.AuthService.RevokeRefreshToken | luna_core/services/auth.py:140-148 | A logout revokes the presented row and nothing else |
| DedupSplice.MissingNamesTheGaps | luna_core/dedup/node_config.py:197-222 | A record's verdict names exactly the required fields it lacks |
| DedupSplice.SlimmedReadsThrough | luna_core/dedup/node_config.py:195-206 | The projection holds each present source's value under its canonical name and nothing else |
| DedupSplice.CheckBatch | luna_core/dedup/node_config.py:180-257 | The projecting, forwarding and splicing loops compute the bound checker |
| DedupSplice.OneVerdictPerRecord | luna_core/dedup/node_config.py:224-257 | One verdict for each record: no object is an invalid shape, an object without a required field is told which; an error exactly when the checker answered a non-empty batch of usable records with the wrong number |
| DedupSplice.PointwiseCheckerStaysPointwise | luna_core/dedup/node_config.py:224-257 | For a checker that judges record by record, each record with its required fields gets the judgement on its own projection, any other its own verdict |

## Left out

- Handler exceptions, aborts, crashes between commits and expiry of the turn lock: the chat protocol gives no pairing guarantee there, so its runs have none.
- ChatTurn.Blank: whitespace is blank, tab, newline and carriage return; Unicode whitespace is not modelled.
- ChatTurn.World: model, handlers and resolver are functions of a counter or of a call's id, so a handler's answer does not depend on the inputs it ran with; the inputs are logged.
- RateLimit.SlidingWindowBound: an explicit reset of the key is a step of the model but excluded from the bound, which it breaks by design.
- Timeline.OrderHoldsIffTurnsAreContiguous: emits do not overlap and the mark does not expire; overlapping writes of the mark are not ordered by the code.
- InflightCache.IdsAreDistinct: ids are the kind and index they are derived from; the hash over them is taken as injective. Cached JSON that is no object is not modelled.
- StreamFanout.NoChunkIsLost: one streaming turn per machine, all other traffic of the key being arbitrary frames; for frames inside an iteration see StreamFanout.ChunkArrivesIff, their backfill over REST is not modelled. Expiry of the cache is not modelled.
- Scratchpad.StoredIff: a stored entry that is no JSON object reads as missing in the code and counts as not stored here.
- Scratchpad.ParallelIterationIsSafe: `continue` mode without an abort error; sequential mode and `cancel_siblings` are not modelled.
- HttpRetry.ExecuteHttp: building the request, interpolation and the refresh's own exchange are answers of the outside; overflow of a floating-point power is not modelled.
- TokenRotation.NoTokenRotatesTwice: requests are atomic; two concurrent rotations of one token are not ordered by the code.
- Paths.TokenizePath: called only on halting paths, since on the others the loop never returns; Templates.FormatTemplate and Templates.RenderTemplate inherit that for the paths they tokenize.
- Templates.PreviewAgreesIffLoaded: references name a non-empty source and loaded sources are dicts; `str()` of a value is an arbitrary function.
- Schedules.PutGet: users and owners are non-empty strings; refusals other than of a rule are an arbitrary acceptance test, the parsing of one rule an arbitrary partial function; other fields of a definition are taken from the latest save and do not commute; creating a flow is a starting definition.
- DedupSplice.CheckBatch: the checker is a function of the batch; its call context is fixed.
- LLM providers, MCP transport, LangGraph execution, the HTTP and WebSocket servers, storage, auto-titling, schemas, migrations and plain CRUD: foreign calls or easy members.
