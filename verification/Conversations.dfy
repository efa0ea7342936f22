/** The conversation as the code keeps it: rows and approvals updated in place,
    a running message list that is never re-read within a turn, and loops over
    calls, iterations and handoffs. Each method is tied to the value-level
    protocol of `ChatTurn`, so every theorem of `ChatSafety` is about it. */
module Conversations {
  import opened Transcript
  import opened Compaction
  import opened CompactionProofs
  import opened ViewPairing
  import opened ChatTurn
  import opened ChatSafety
  import opened ChatAnswers

  /** What one more call adds to the results, the executions and the verdict. */
  lemma CallStep(w: World, agent: string, d: Approvals, speaker: string, calls: seq<ToolCall>, i: nat)
    requires i < |calls|
    ensures Results(w, d, calls[..i + 1]) == Results(w, d, calls[..i]) + [ResultBlock(w, d, calls[i])]
    ensures EndsTurn(w, agent, d, calls[..i + 1]) ==
            (EndsTurn(w, agent, d, calls[..i]) ||
             (!IsRejected(d, calls[i].id) && calls[i].name in w.terminal(agent) && !w.outcome(calls[i].id).isError))
    ensures Executions(d, Propose(speaker, calls[..i + 1])) ==
            Executions(d, Propose(speaker, calls[..i])) +
            (if IsRejected(d, calls[i].id) then []
             else [Execution(Proposal(speaker, calls[i]), RunInput(d, calls[i]))])
  {
    hide IsRejected, RunInput, ResultBlock;
    var ps := Propose(speaker, calls[..i + 1]);
    assert ps[..i] == Propose(speaker, calls[..i]);
    assert calls[..i + 1][i] == calls[i];
    if EndsTurn(w, agent, d, calls[..i]) {
      var j :| 0 <= j < i && !IsRejected(d, calls[j].id)
               && calls[j].name in w.terminal(agent) && !w.outcome(calls[j].id).isError;
      assert calls[..i + 1][j] == calls[j];
    }
    if EndsTurn(w, agent, d, calls[..i + 1]) {
      var j :| 0 <= j <= i && !IsRejected(d, calls[..i + 1][j].id)
               && calls[..i + 1][j].name in w.terminal(agent) && !w.outcome(calls[..i + 1][j].id).isError;
      if j < i { assert calls[..i][j] == calls[j]; }
    }
  }

  /** One iteration of the loop, from the list sent to the next rest point. */
  lemma ConverseUnfolds(w: World, agent: string, c: Chat, iteration: nat)
    requires iteration < MAX_TOOL_ITERATIONS
    ensures var reply, told := w.reply(c.calls), Told(w, agent, c);
            var calls := Uses(reply.blocks);
            var done := told.(rows := Stored(told.rows, User, Results(w, map[], calls), ""),
                              ran := c.ran + Executions(map[], Propose(agent, calls)));
            Converse(w, agent, c, iteration) ==
            if calls == [] then (told, if reply.valid then Completed else InvalidOutput)
            else if NeedsApproval(w, agent, calls) then (ChatTurn.Suspend(w, agent, told, reply), Suspended)
            else if EndsTurn(w, agent, map[], calls) then (done, Completed)
            else Converse(w, agent, done, iteration + 1)
  {
    hide Uses, Stored, Results, Executions, EndsTurn, HistoryRows, NeedsApproval;
  }

  lemma LoopCap(w: World, agent: string, c: Chat)
    ensures Converse(w, agent, c, MAX_TOOL_ITERATIONS) == (c, TooManyIterations)
  {
  }

  lemma NoCalls(w: World, agent: string, d: Approvals, speaker: string)
    ensures Results(w, d, []) == [] && !EndsTurn(w, agent, d, []) && Executions(d, Propose(speaker, [])) == []
  {
  }

  lemma {:induction false} LastAssistant(rows: seq<Row>, text: string, at: nat)
    requires at <= |rows|
    requires forall k :: at <= k < |rows| ==> !(rows[k].Message? && rows[k].role == Assistant)
    requires at > 0 ==> rows[at - 1].Message? && rows[at - 1].role == Assistant
    ensures AddTextToLastAssistant(rows, text) ==
            if at == 0 then rows
            else rows[at - 1 := rows[at - 1].(content := InsertWords(rows[at - 1].content, text))]
    decreases |rows|
  {
    hide InsertWords;
    if rows != [] && at < |rows| {
      LastAssistant(rows[..|rows| - 1], text, at);
    }
  }

  lemma TerminalTells(w: World, agent: string, d: Approvals, calls: seq<ToolCall>, blocks: seq<Block>)
    requires TellsAll(w, d, calls, blocks)
    ensures EndsTurn(w, agent, d, calls) <==>
            exists k :: 0 <= k < |calls| && calls[k].name in w.terminal(agent) && !blocks[k].isError && !blocks[k].answer.NotRun?
  {
    hide CorrectedInput;
    if EndsTurn(w, agent, d, calls) {
      var k :| 0 <= k < |calls| && !IsRejected(d, calls[k].id)
               && calls[k].name in w.terminal(agent) && !w.outcome(calls[k].id).isError;
      assert Tells(w, d, calls[k], blocks[k]);
    }
    if k :| 0 <= k < |calls| && calls[k].name in w.terminal(agent) && !blocks[k].isError && !blocks[k].answer.NotRun? {
      assert Tells(w, d, calls[k], blocks[k]);
    }
  }

  lemma TurnOf(w: World, agent: string, c: Chat)
    requires Sequenced(c.rows)
    ensures Turn(w, agent, c, Converse(w, agent, c, 0).0, Converse(w, agent, c, 0).1, MAX_TOOL_ITERATIONS)
  {
    hide Turn, Converse;
    ConverseIsATurn(w, agent, c, 0);
  }

  lemma RelayOf(w: World, agent: string, c: Chat, e: Ending)
    requires Sequenced(c.rows)
    ensures Relayed(w, agent, c, e, MAX_HANDOFF_HOPS, Follow(w, agent, c, e, 0).0, Follow(w, agent, c, e, 0).1)
  {
    hide Relayed, Follow;
    FollowIsARelay(w, agent, c, e, 0);
  }

  lemma SendOf(w: World, c: Chat, content: seq<Block>, g: Gauge)
    requires Sequenced(c.rows) && AllDurable(c.rows) && Through(c.rows) <= |c.rows|
    ensures HandleSend(w, c, content, g).1 == Refused <==> exists id :: id in c.approvals && c.approvals[id].status == Pending
    ensures if HandleSend(w, c, content, g).1 == Refused then HandleSend(w, c, content, g).0 == c
            else SendAdds(w, c, content, g, HandleSend(w, c, content, g).0, HandleSend(w, c, content, g).1)
  {
    hide SendAdds, HandleSend;
    SendIsAnswered(w, c, content, g);
  }

  lemma AddTextKeepsNumbers(rows: seq<Row>, text: string)
    requires Sequenced(rows) && AllDurable(rows)
    ensures var r := AddTextToLastAssistant(rows, text);
            Sequenced(r) && AllDurable(r) && Through(r) == Through(rows)
  {
    AddTextKeepsPairing(rows, text);
    AddTextMarkers(rows, text);
    SameNumbers(rows, AddTextToLastAssistant(rows, text));
  }

  class Conversation {
    const w: World
    var rows: seq<Row>
    var approvals: Approvals
    var calls: nat
    var consults: nat
    ghost var ran: seq<Execution>
    ghost var prompts: seq<seq<Row>>

    ghost function State(): Chat
      reads this
    {
      Chat(rows, approvals, calls, consults, ran, prompts)
    }

    /** Row numbers count up from 1 and the latest marker reaches back. */
    ghost predicate Valid()
      reads this
    {
      Sequenced(rows) && AllDurable(rows) && Through(rows) <= |rows|
    }

    constructor (world: World)
      ensures w == world && Valid() && State() == EMPTY
    {
      w, rows, approvals, calls, consults := world, [], map[], 0, 0;
      ran, prompts := [], [];
    }

    /** Stores a row; the running list `messages` gets it too and stays what a
        re-read of the store would give. */
    method SaveMessage(role: Role, content: seq<Block>, speaker: string, messages: seq<Row>)
      returns (extended: seq<Row>)
      requires Valid() && messages == HistoryRows(rows)
      modifies this`rows
      ensures Valid() && extended == HistoryRows(rows)
      ensures rows == Stored(old(rows), role, content, speaker)
      ensures Through(rows) == Through(old(rows))
    {
      var row := Message(NextSequence(rows), role, content, false, speaker);
      NextSequenceIsLength(rows);
      AppendMarker(rows, row);
      ViewSnoc(rows, row);
      rows := rows + [row];
      extended := messages + [row];
    }

    method AddText(text: string)
      requires Valid()
      modifies this`rows
      ensures rows == AddTextToLastAssistant(old(rows), text)
      ensures Valid()
    {
      hide AddTextToLastAssistant, Sequenced, AllDurable, Through;
      AddTextKeepsNumbers(rows, text);
      var i := |rows|;
      while i > 0 && !(rows[i - 1].Message? && rows[i - 1].role == Assistant)
        invariant 0 <= i <= |rows|
        invariant forall k :: i <= k < |rows| ==> !(rows[k].Message? && rows[k].role == Assistant)
      {
        i := i - 1;
      }
      LastAssistant(rows, text, i);
      if i == 0 {
        return;
      }
      var blocks, at := rows[i - 1].content, 0;
      while at < |blocks| && blocks[at].Thinking?
        invariant 0 <= at <= |blocks|
        invariant LeadingThinking(blocks) == at + LeadingThinking(blocks[at..])
      {
        at := at + 1;
      }
      rows := rows[i - 1 := rows[i - 1].(content := blocks[..at] + [Text(text)] + blocks[at..])];
    }

    /** Runs the turn's calls in order; a rejected one is answered, not run. Each
        answer tells what became of its call, and `terminal` whether a terminal
        tool that was not rejected ran without error. */
    method ExecuteToolUses(agent: string, speaker: string, toolUses: seq<ToolCall>, decisions: Approvals)
      returns (blocks: seq<Block>, terminal: bool)
      modifies this`ran
      ensures blocks == Results(w, decisions, toolUses)
      ensures terminal == EndsTurn(w, agent, decisions, toolUses)
      ensures ran == old(ran) + Executions(decisions, Propose(speaker, toolUses))
      ensures TellsAll(w, decisions, toolUses, blocks)
      ensures terminal <==> exists k :: 0 <= k < |toolUses| && toolUses[k].name in w.terminal(agent)
                                        && !blocks[k].isError && !blocks[k].answer.NotRun?
    {
      hide Results, EndsTurn, Executions, Propose;
      NoCalls(w, agent, decisions, speaker);
      blocks, terminal := [], false;
      for i := 0 to |toolUses|
        invariant blocks == Results(w, decisions, toolUses[..i])
        invariant terminal == EndsTurn(w, agent, decisions, toolUses[..i])
        invariant ran == old(ran) + Executions(decisions, Propose(speaker, toolUses[..i]))
      {
        var call := toolUses[i];
        CallStep(w, agent, decisions, speaker, toolUses, i);
        if call.id in decisions && decisions[call.id].status == Rejected {
          blocks := blocks + [Result(call.id, NotRun(decisions[call.id].reason), true)];
          continue;
        }
        var edited := && call.id in decisions && decisions[call.id].status == Approved
                      && decisions[call.id].input != map[] && decisions[call.id].input != call.input;
        var toolInput := call.input;
        if edited {
          toolInput := decisions[call.id].input;
        }
        var outcome := w.outcome(call.id);
        ran := ran + [Execution(Proposal(speaker, call), toolInput)];
        blocks := blocks + [Result(call.id, if edited then RanWith(toolInput, outcome.text) else Plain(outcome.text), outcome.isError)];
        if call.name in w.terminal(agent) && !outcome.isError {
          terminal := true;
        }
      }
      assert toolUses[..|toolUses|] == toolUses;
      ResultsTell(w, decisions, toolUses);
      TerminalTells(w, agent, decisions, toolUses, blocks);
    }

    /** One pending row for each gated call. */
    method CreatePending(agent: string, toolUses: seq<ToolCall>)
      modifies this`approvals
      ensures approvals == AddPending(w, old(approvals), agent, toolUses)
    {
      for i := 0 to |toolUses|
        invariant approvals == AddPending(w, old(approvals), agent, toolUses[..i])
      {
        var call := toolUses[i];
        assert toolUses[..i + 1][..i] == toolUses[..i];
        if call.name in w.gated(agent) {
          approvals := approvals[call.id := Approval(call.name, call.input, agent, Pending, "")];
        }
      }
      assert toolUses[..|toolUses|] == toolUses;
    }

    /** Words first, if the model wrote none, then the rows that wait. */
    method PauseForApproval(agent: string, reply: Reply, messages: seq<Row>)
      requires Valid() && messages == HistoryRows(rows)
      modifies this`rows, this`approvals, this`prompts
      ensures Valid()
      ensures State() == ChatTurn.Suspend(w, agent, old(State()), reply)
    {
      hide Uses, HistoryRows, AddTextToLastAssistant, AddPending, AskForWords, HasWords;
      if !HasWords(reply.blocks) {
        prompts := prompts + [AskForWords(messages, Uses(reply.blocks))];
        if reply.words != "" {
          AddText(reply.words);
        }
      }
      CreatePending(agent, Uses(reply.blocks));
    }

    /** The loop of one turn, over the running list it was given. */
    method RunAgent(agent: string, history: seq<Row>) returns (ending: Ending)
      requires Valid() && history == HistoryRows(rows)
      modifies this
      ensures Valid()
      ensures (State(), ending) == Converse(w, agent, old(State()), 0)
      ensures Turn(w, agent, old(State()), State(), ending, MAX_TOOL_ITERATIONS)
    {
      hide Turn, Uses, Stored, HistoryRows, Executions, Results, ChatTurn.Suspend, EndsTurn, Through, Converse, NeedsApproval, Propose;
      TurnOf(w, agent, State());
      var messages := history;
      for iteration := 0 to MAX_TOOL_ITERATIONS
        invariant Valid() && messages == HistoryRows(rows)
        invariant Converse(w, agent, State(), iteration) == Converse(w, agent, old(State()), 0)
      {
        ConverseUnfolds(w, agent, State(), iteration);
        var reply := w.reply(calls);
        prompts := prompts + [messages];
        calls := calls + 1;
        messages := SaveMessage(Assistant, reply.blocks, agent, messages);
        var toolUses := Uses(reply.blocks);
        if toolUses == [] {
          return if reply.valid then Completed else InvalidOutput;
        }
        if NeedsApproval(w, agent, toolUses) {
          PauseForApproval(agent, reply, messages);
          return Suspended;
        }
        var blocks, terminal := ExecuteToolUses(agent, agent, toolUses, map[]);
        messages := SaveMessage(User, blocks, "", messages);
        if terminal {
          return Completed;
        }
      }
      LoopCap(w, agent, State());
      ending := TooManyIterations;
    }

    method FollowHandoffs(first: string, result: Ending) returns (ending: Ending)
      requires Valid()
      modifies this
      ensures Valid()
      ensures (State(), ending) == Follow(w, first, old(State()), result, 0)
      ensures Relayed(w, first, old(State()), result, MAX_HANDOFF_HOPS, State(), ending)
    {
      hide Converse, HistoryRows, Relayed, Turn;
      RelayOf(w, first, State(), result);
      var agent, hops := first, 0;
      ending := result;
      while ending == Completed && hops < MAX_HANDOFF_HOPS
        invariant Valid() && 0 <= hops <= MAX_HANDOFF_HOPS
        invariant Follow(w, agent, State(), ending, hops) == Follow(w, first, old(State()), result, 0)
        decreases MAX_HANDOFF_HOPS - hops
      {
        var next := w.resolve(consults);
        consults := consults + 1;
        if next == agent {
          return;
        }
        agent := next;
        ending := RunAgent(agent, HistoryRows(rows));
        hops := hops + 1;
      }
    }

    /** The list the turn goes on with is built from the old view, and is what
        a re-read of the rows would give. */
    method CompactIfDue(view: seq<Row>, g: Gauge) returns (messages: seq<Row>)
      requires Valid() && view == HistoryRows(rows)
      modifies this`rows, this`prompts
      ensures Valid() && messages == HistoryRows(rows)
      ensures State() == Compacted(old(State()), g)
      ensures Compacts(old(State()), State(), g)
    {
      hide HistoryRows, Due, Compacts, NextSequence, MediaCounts, Sequenced, AllDurable, Through;
      CompactsWhenWorthIt(State(), g);
      if !Due(view, g) {
        return view;
      }
      CompactionWrites(rows, g);
      var summarized := if view[|view| - 1].Message? && view[|view| - 1].role == Assistant then view[..|view| - 1] else view;
      var kept := view[|summarized|..];
      assert summarized == view[..CutPoint(view)];
      prompts := prompts + [summarized];
      var media := CountMedia(summarized);
      var marker := Marker(NextSequence(rows), summarized[|summarized| - 1].sequence, media);
      rows := rows + [marker];
      messages := [marker] + kept;
    }

    method Send(content: seq<Block>, g: Gauge) returns (ending: Ending)
      requires Valid()
      modifies this
      ensures Valid()
      ensures (State(), ending) == HandleSend(w, old(State()), content, g)
      ensures ending == Refused <==> exists id :: id in old(approvals) && old(approvals)[id].status == Pending
      ensures if ending == Refused then State() == old(State()) else SendAdds(w, old(State()), content, g, State(), ending)
    {
      hide Converse, Follow, HistoryRows, Due, Compacted, Compacts, SendAdds, Turn, Relayed;
      SendOf(w, State(), content, g);
      if HasPending(approvals) {
        return Refused;
      }
      var agent := w.resolve(consults);
      consults := consults + 1;
      var messages := CompactIfDue(HistoryRows(rows), g);
      if content != [] {
        messages := SaveMessage(User, content, "", messages);
      }
      var result := RunAgent(agent, messages);
      ending := FollowHandoffs(agent, result);
    }

    method Resume(agent: string) returns (ending: Ending)
      requires Valid()
      modifies this
      ensures Valid()
      ensures (State(), ending) == ChatTurn.Resume(w, agent, old(State()))
    {
      hide Converse, HistoryRows, Uses, Results, Executions;
      var history := HistoryRows(rows);
      if history == [] || !history[|history| - 1].Message? || history[|history| - 1].role != Assistant {
        return BadHistory;
      }
      var last := history[|history| - 1];
      var toolUses := Uses(last.content);
      if toolUses == [] {
        return BadHistory;
      }
      var decisions := Resolved(approvals);
      var blocks, _ := ExecuteToolUses(agent, last.speaker, toolUses, decisions);
      var messages := SaveMessage(User, blocks, "", history);
      if !ShouldReinvoke(toolUses, decisions) {
        return Completed;
      }
      ending := RunAgent(agent, messages);
    }

    method Decide(id: string, v: Verdict) returns (ending: Ending)
      requires Valid()
      modifies this
      ensures Valid()
      ensures (State(), ending) == HandleDecide(w, old(State()), id, v)
    {
      hide Follow, ChatTurn.Resume, HistoryRows, Converse, Relayed, Blank;
      if id !in approvals {
        return NotFound;
      }
      if approvals[id].status != Pending {
        return NotPending;
      }
      var proposer := approvals[id].agent;
      approvals := approvals[id := Settle(approvals[id], v)];
      if v.Reject? && !Blank(v.reason) {
        approvals := map k | k in approvals :: if approvals[k].status == Pending then Settle(approvals[k], v) else approvals[k];
      }
      assert approvals == Decided(old(approvals), id, v);
      if HasPending(approvals) {
        return AwaitingApproval;
      }
      var agent := proposer;
      if proposer == "" || !w.known(proposer) {
        agent := w.resolve(consults);
        consults := consults + 1;
      }
      var result := Resume(agent);
      ending := FollowHandoffs(agent, result);
    }
  }

  /** A whole life of a conversation object: after any requests in any order
      its state is the run of the protocol, so it is at rest, and what it ran
      was approved, once. */
  method Serve(world: World, requests: seq<Request>) returns (c: Conversation)
    requires FreshIds(world)
    requires forall i :: 0 <= i < |requests| ==> Admissible(requests[i])
    ensures c.w == world && c.State() == ChatAfter(world, requests) && AtRest(world, c.State())
  {
    hide HandleSend, HandleDecide, AtRest, FreshIds;
    c := new Conversation(world);
    for n := 0 to |requests|
      invariant fresh(c) && c.w == world && c.Valid() && c.State() == ChatAfter(world, requests[..n])
    {
      assert requests[..n + 1][..n] == requests[..n];
      match requests[n]
      case Send(content, g) => var _ := c.Send(content, g);
      case Decide(id, v) => var _ := c.Decide(id, v);
    }
    assert requests[..|requests|] == requests;
    RunsStayAtRest(world, requests);
  }
}
