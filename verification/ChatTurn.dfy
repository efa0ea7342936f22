/** The chat turn protocol: an agent loop that suspends for human approval,
    the decision that resumes it, and the handoffs that follow. The model,
    the tool handlers and the host's resolver are the fields of `World`. */
module ChatTurn {
  import opened Wrappers
  import opened Transcript
  import opened Compaction

  const MAX_TOOL_ITERATIONS := 16
  const MAX_HANDOFF_HOPS := 4

  datatype Outcome = Outcome(text: string, isError: bool)

  /** One completion: its blocks, the words the model would write beside an
      approval ("" for none), and whether its text passes the output schema. */
  datatype Reply = Reply(blocks: seq<Block>, words: string, valid: bool)

  /** What the conversation does not control. Grants are fixed: `gated` and
      `terminal` depend on the agent alone. */
  datatype World = World(
    gated: string -> set<string>,
    terminal: string -> set<string>,
    reply: nat -> Reply,
    outcome: string -> Outcome,
    resolve: nat -> string,
    known: string -> bool)

  datatype Status = Pending | Approved | Rejected

  datatype Approval = Approval(name: string, input: Input, agent: string, status: Status, reason: string)

  type Approvals = map<string, Approval>

  /** A tool call together with the agent that proposed it. */
  datatype Proposal = Proposal(speaker: string, call: ToolCall)

  /** A handler invocation and the arguments it ran with. */
  datatype Execution = Execution(proposal: Proposal, input: Input)

  /** `calls` and `consults` count completions and resolver consultations;
      `ran` and `prompts` log every handler run and every list sent to a model. */
  datatype Chat = Chat(rows: seq<Row>, approvals: Approvals, calls: nat, consults: nat,
                       ran: seq<Execution>, prompts: seq<seq<Row>>)

  datatype Ending =
    | Completed | Suspended | InvalidOutput | TooManyIterations
    | Refused | AwaitingApproval | NotFound | NotPending | BadHistory

  /** A rejection carries no inputs. */
  datatype Verdict = Approve(reason: string, input: Option<Input>) | Reject(reason: string)

  datatype Request =
    | Send(content: seq<Block>, gauge: Gauge)
    | Decide(id: string, verdict: Verdict)

  // ---------------------------------------------------------------- text

  predicate Blank(s: string) {
    forall i :: 0 <= i < |s| ==> s[i] in " \t\n\r"
  }

  predicate HasWords(blocks: seq<Block>) {
    exists i :: 0 <= i < |blocks| && blocks[i].Text? && !Blank(blocks[i].text)
  }

  // ---------------------------------------------------------------- running a turn's calls

  predicate IsRejected(d: Approvals, id: string) {
    id in d && d[id].status == Rejected
  }

  predicate IsEdited(d: Approvals, call: ToolCall) {
    call.id in d && d[call.id].status == Approved && d[call.id].input != map[] && d[call.id].input != call.input
  }

  function RunInput(d: Approvals, call: ToolCall): Input {
    if IsEdited(d, call) then d[call.id].input else call.input
  }

  function ResultBlock(w: World, d: Approvals, call: ToolCall): Block {
    if IsRejected(d, call.id) then Result(call.id, NotRun(d[call.id].reason), true)
    else
      var o := w.outcome(call.id);
      Result(call.id, if IsEdited(d, call) then RanWith(d[call.id].input, o.text) else Plain(o.text), o.isError)
  }

  function Results(w: World, d: Approvals, calls: seq<ToolCall>): (blocks: seq<Block>)
    ensures |blocks| == |calls|
  {
    seq(|calls|, i requires 0 <= i < |calls| => ResultBlock(w, d, calls[i]))
  }

  function Propose(speaker: string, calls: seq<ToolCall>): (ps: seq<Proposal>)
    ensures |ps| == |calls|
  {
    seq(|calls|, i requires 0 <= i < |calls| => Proposal(speaker, calls[i]))
  }

  /** The handlers that run for `ps` under the decisions `d`, in order. */
  function Executions(d: Approvals, ps: seq<Proposal>): seq<Execution> {
    if ps == [] then []
    else
      var rest, last := Executions(d, ps[..|ps| - 1]), ps[|ps| - 1];
      if IsRejected(d, last.call.id) then rest else rest + [Execution(last, RunInput(d, last.call))]
  }

  /** A terminal tool that ran without error ends the loop. */
  predicate EndsTurn(w: World, agent: string, d: Approvals, calls: seq<ToolCall>) {
    exists i :: 0 <= i < |calls| && !IsRejected(d, calls[i].id)
                && calls[i].name in w.terminal(agent) && !w.outcome(calls[i].id).isError
  }

  /** Only resolved rows are decisions. */
  function Resolved(a: Approvals): Approvals {
    map id | id in a && a[id].status != Pending :: a[id]
  }

  predicate HasPending(a: Approvals) {
    exists id :: id in a && a[id].status == Pending
  }

  predicate ShouldReinvoke(calls: seq<ToolCall>, d: Approvals) {
    exists i :: 0 <= i < |calls| && (!IsRejected(d, calls[i].id) || d[calls[i].id].reason != "")
  }

  // ---------------------------------------------------------------- the loop

  function Stored(rows: seq<Row>, role: Role, content: seq<Block>, speaker: string): seq<Row> {
    rows + [Message(NextSequence(rows), role, content, false, speaker)]
  }

  predicate NeedsApproval(w: World, agent: string, calls: seq<ToolCall>) {
    exists i :: 0 <= i < |calls| && calls[i].name in w.gated(agent)
  }

  function AddPending(w: World, a: Approvals, agent: string, calls: seq<ToolCall>): Approvals {
    if calls == [] then a
    else
      var rest, last := AddPending(w, a, agent, calls[..|calls| - 1]), calls[|calls| - 1];
      if last.name in w.gated(agent)
      then rest[last.id := Approval(last.name, last.input, agent, Pending, "")] else rest
  }

  /** The waiting calls answered as not run yet, so the request for words is
      itself well paired. */
  function AskForWords(view: seq<Row>, calls: seq<ToolCall>): seq<Row> {
    view + [Message(0, User, seq(|calls|, i requires 0 <= i < |calls| => Result(calls[i].id, Plain("awaiting approval"), false))
                             + [Text("write the words")], false, "")]
  }

  function Suspend(w: World, agent: string, c: Chat, reply: Reply): Chat {
    var calls := Uses(reply.blocks);
    var spoken :=
      if HasWords(reply.blocks) then c
      else c.(prompts := c.prompts + [AskForWords(HistoryRows(c.rows), calls)],
              rows := if reply.words == "" then c.rows else AddTextToLastAssistant(c.rows, reply.words));
    spoken.(approvals := AddPending(w, spoken.approvals, agent, calls))
  }

  function Converse(w: World, agent: string, c: Chat, iteration: nat): (Chat, Ending)
    requires iteration <= MAX_TOOL_ITERATIONS
    decreases MAX_TOOL_ITERATIONS - iteration
  {
    if iteration == MAX_TOOL_ITERATIONS then (c, TooManyIterations)
    else
      var reply := w.reply(c.calls);
      var calls := Uses(reply.blocks);
      var told := c.(prompts := c.prompts + [HistoryRows(c.rows)], calls := c.calls + 1,
                     rows := Stored(c.rows, Assistant, reply.blocks, agent));
      if calls == [] then (told, if reply.valid then Completed else InvalidOutput)
      else if NeedsApproval(w, agent, calls) then (Suspend(w, agent, told, reply), Suspended)
      else
        var done := told.(rows := Stored(told.rows, User, Results(w, map[], calls), ""),
                          ran := c.ran + Executions(map[], Propose(agent, calls)));
        if EndsTurn(w, agent, map[], calls) then (done, Completed)
        else Converse(w, agent, done, iteration + 1)
  }

  /** Keep answering under a new agent while the resolver names another one. */
  function Follow(w: World, agent: string, c: Chat, ending: Ending, hops: nat): (Chat, Ending)
    requires hops <= MAX_HANDOFF_HOPS
    decreases MAX_HANDOFF_HOPS - hops
  {
    if ending != Completed || hops == MAX_HANDOFF_HOPS then (c, ending)
    else
      var next := w.resolve(c.consults);
      var asked := c.(consults := c.consults + 1);
      if next == agent then (asked, ending)
      else
        var (c', e) := Converse(w, next, asked, 0);
        Follow(w, next, c', e, hops + 1)
  }

  // ---------------------------------------------------------------- the requests

  function Compacted(c: Chat, g: Gauge): Chat {
    var view := HistoryRows(c.rows);
    if Due(view, g) then
      var summarized := view[..CutPoint(view)];
      c.(rows := c.rows + [MarkerFor(c.rows, summarized)], prompts := c.prompts + [summarized])
    else c
  }

  function HandleSend(w: World, c: Chat, content: seq<Block>, g: Gauge): (Chat, Ending) {
    if HasPending(c.approvals) then (c, Refused)
    else
      var agent := w.resolve(c.consults);
      var ready := Compacted(c.(consults := c.consults + 1), g);
      var said := if content == [] then ready else ready.(rows := Stored(ready.rows, User, content, ""));
      var (c', e) := Converse(w, agent, said, 0);
      Follow(w, agent, c', e, 0)
  }

  function Resume(w: World, agent: string, c: Chat): (Chat, Ending) {
    var history := HistoryRows(c.rows);
    if history == [] || !history[|history| - 1].Message? || history[|history| - 1].role != Assistant
    then (c, BadHistory)
    else
      var last := history[|history| - 1];
      var calls, d := Uses(last.content), Resolved(c.approvals);
      if calls == [] then (c, BadHistory)
      else
        var done := c.(rows := Stored(c.rows, User, Results(w, d, calls), ""),
                       ran := c.ran + Executions(d, Propose(last.speaker, calls)));
        if ShouldReinvoke(calls, d) then Converse(w, agent, done, 0) else (done, Completed)
  }

  function Settle(a: Approval, v: Verdict): Approval {
    match v
    case Approve(reason, input) =>
      a.(status := Approved, reason := reason, input := if input.Some? then input.value else a.input)
    case Reject(reason) => a.(status := Rejected, reason := reason)
  }

  /** The decided row, and with a correction every other pending row too. */
  function Decided(a: Approvals, id: string, v: Verdict): Approvals
    requires id in a
  {
    var one := a[id := Settle(a[id], v)];
    if v.Reject? && !Blank(v.reason)
    then map k | k in one :: if one[k].status == Pending then Settle(one[k], v) else one[k]
    else one
  }

  /** The suspended turn goes on under the agent that proposed its calls, or
      the resolver's when that one is gone. */
  function GoOn(w: World, c: Chat, proposer: string): (Chat, Ending) {
    var keeps := proposer != "" && w.known(proposer);
    var agent := if keeps then proposer else w.resolve(c.consults);
    var ready := if keeps then c else c.(consults := c.consults + 1);
    var (c', e) := Resume(w, agent, ready);
    Follow(w, agent, c', e, 0)
  }

  function HandleDecide(w: World, c: Chat, id: string, v: Verdict): (Chat, Ending) {
    if id !in c.approvals then (c, NotFound)
    else if c.approvals[id].status != Pending then (c, NotPending)
    else
      var settled := c.(approvals := Decided(c.approvals, id, v));
      if HasPending(settled.approvals) then (settled, AwaitingApproval) else GoOn(w, settled, c.approvals[id].agent)
  }

  function Handle(w: World, c: Chat, r: Request): (Chat, Ending) {
    match r
    case Send(content, g) => HandleSend(w, c, content, g)
    case Decide(id, v) => HandleDecide(w, c, id, v)
  }

  const EMPTY := Chat([], map[], 0, 0, [], [])

  /** The conversation after a series of requests, each under the turn lock. */
  function ChatAfter(w: World, requests: seq<Request>): Chat {
    if requests == [] then EMPTY
    else Handle(w, ChatAfter(w, requests[..|requests| - 1]), requests[|requests| - 1]).0
  }
}
