/** What a request adds to a conversation, read position by position: which
    rows, which lists sent to which agent, and why it stops. */
module ChatAnswers {
  import opened Transcript
  import opened Compaction
  import opened CompactionProofs
  import opened ViewPairing
  import opened ChatTurn
  import opened ChatSafety

  // ---------------------------------------------------------------- one turn

  predicate Asks(w: World, agent: string, calls: seq<ToolCall>) {
    exists k :: 0 <= k < |calls| && calls[k].name in w.gated(agent)
  }

  predicate HandsBack(w: World, agent: string, calls: seq<ToolCall>) {
    exists k :: 0 <= k < |calls| && calls[k].name in w.terminal(agent) && !w.outcome(calls[k].id).isError
  }

  /** At `at` stands the reply of `agent` to everything before it, which is
      what it was sent as prompt `p`. */
  ghost predicate RepliesAt(c: Chat, agent: string, at: nat, p: nat) {
    && at < |c.rows| && p < |c.prompts|
    && c.rows[at].Message? && c.rows[at].role == Assistant && !c.rows[at].partial
    && c.rows[at].sequence == at + 1 && c.rows[at].speaker == agent
    && c.prompts[p] == HistoryRows(c.rows[..at])
  }

  /** At `at` stand the answers to `calls`, as the decisions `d` have it. */
  ghost predicate AnsweredAt(w: World, d: Approvals, c: Chat, calls: seq<ToolCall>, at: nat) {
    && at < |c.rows|
    && c.rows[at].Message? && c.rows[at].role == User && !c.rows[at].partial && c.rows[at].sequence == at + 1
    && TellsAll(w, d, calls, c.rows[at].content)
  }

  /** Completion j of a turn that began at `from`: stored word for word. */
  ghost predicate Says(w: World, agent: string, from: Chat, c: Chat, j: nat) {
    && RepliesAt(c, agent, |from.rows| + 2 * j, |from.prompts| + j)
    && c.rows[|from.rows| + 2 * j].content == w.reply(from.calls + j).blocks
  }

  /** A completion whose calls need nobody's approval, run and answered. */
  ghost predicate Exchanges(w: World, agent: string, from: Chat, c: Chat, j: nat) {
    var calls := Uses(w.reply(from.calls + j).blocks);
    && Says(w, agent, from, c, j)
    && calls != [] && !Asks(w, agent, calls)
    && AnsweredAt(w, map[], c, calls, |from.rows| + 2 * j + 1)
  }

  /** One after which the agent is asked again: no terminal tool succeeded. */
  ghost predicate Continues(w: World, agent: string, from: Chat, c: Chat, j: nat) {
    Exchanges(w, agent, from, c, j) && !HandsBack(w, agent, Uses(w.reply(from.calls + j).blocks))
  }

  /** `content` is `blocks` with `words` after the leading thinking. */
  ghost predicate WordsAdded(blocks: seq<Block>, words: string, content: seq<Block>) {
    exists at :: 0 <= at <= |blocks|
                 && (forall i :: 0 <= i < at ==> blocks[i].Thinking?)
                 && (at < |blocks| ==> !blocks[at].Thinking?)
                 && content == blocks[..at] + [Text(words)] + blocks[at..]
  }

  /** Completion j suspends the turn. The user sees it with words: the model's
      own, or those it is asked for now. */
  ghost predicate Waits(w: World, agent: string, from: Chat, c: Chat, j: nat) {
    var reply, at := w.reply(from.calls + j), |from.rows| + 2 * j;
    && RepliesAt(c, agent, at, |from.prompts| + j)
    && |c.rows| == at + 1
    && Uses(reply.blocks) != [] && Asks(w, agent, Uses(reply.blocks))
    && var silent := forall i, k :: 0 <= i < |reply.blocks| && reply.blocks[i].Text? && 0 <= k < |reply.blocks[i].text| ==>
                        reply.blocks[i].text[k] in " \t\n\r";
    && |c.prompts| == |from.prompts| + j + (if silent then 2 else 1)
    && (silent && reply.words != "" ==> WordsAdded(reply.blocks, reply.words, c.rows[at].content))
    && (!silent || reply.words == "" ==> c.rows[at].content == reply.blocks)
    && (silent ==> AskedForWords(c, at))
  }

  /** Each call is answered as waiting, and then words are asked for. */
  ghost predicate AsksOver(calls: seq<ToolCall>, blocks: seq<Block>) {
    && |blocks| == |calls| + 1 && blocks[|calls|].Text?
    && forall k :: 0 <= k < |calls| ==> blocks[k] == Result(calls[k].id, Plain("awaiting approval"), false)
  }

  /** The last list sent is the suspended turn, each call answered as waiting. */
  ghost predicate AskedForWords(c: Chat, at: nat) {
    c.prompts != [] && at < |c.rows| &&
    var asked := c.prompts[|c.prompts| - 1];
    && asked != [] && asked[|asked| - 1].Message? && asked[|asked| - 1].role == User
    && AsksOver(RowUses(c.rows[at]), asked[|asked| - 1].content)
    && exists reply: Row :: SameButWords(reply, c.rows[at]) && asked[..|asked| - 1] == HistoryRows(c.rows[..at] + [reply])
  }

  /** A whole turn of `agent`, allowed `cap` completions. It makes at least one
      (when allowed any); every one but the last is an exchange that hands
      nothing back; and how it ends is told by the last. */
  ghost predicate Turn(w: World, agent: string, from: Chat, c: Chat, e: Ending, cap: nat) {
    && from.calls <= c.calls <= from.calls + cap && (cap > 0 ==> c.calls > from.calls)
    && from.rows <= c.rows && from.prompts <= c.prompts && c.consults == from.consults
    && var n := c.calls - from.calls;
    && (forall j :: 0 <= j < n - 1 ==> Continues(w, agent, from, c, j))
    && (e != Suspended ==> c.approvals == from.approvals && |c.prompts| == |from.prompts| + n)
    && e in {Completed, Suspended, InvalidOutput, TooManyIterations}
    && (e != TooManyIterations ==> n > 0)
    && (n > 0 ==> Stops(w, agent, from, c, e, n - 1, cap))
    && (n == 0 ==> c == from)
  }

  ghost predicate Stops(w: World, agent: string, from: Chat, c: Chat, e: Ending, j: nat, cap: nat) {
    var reply := w.reply(from.calls + j);
    var calls := Uses(reply.blocks);
    match e
    case Completed =>
      || (calls == [] && reply.valid && Says(w, agent, from, c, j) && |c.rows| == |from.rows| + 2 * j + 1)
      || (Exchanges(w, agent, from, c, j) && HandsBack(w, agent, calls) && |c.rows| == |from.rows| + 2 * j + 2)
    case InvalidOutput =>
      calls == [] && !reply.valid && Says(w, agent, from, c, j) && |c.rows| == |from.rows| + 2 * j + 1
    case Suspended => Waits(w, agent, from, c, j)
    case TooManyIterations =>
      && Continues(w, agent, from, c, j)
      && |c.rows| == |from.rows| + 2 * j + 2 && j + 1 == cap
    case _ => false
  }

  // ---------------------------------------------------------------- the loop makes turns

  /** What was read at a position stays there when rows and prompts are added. */
  lemma Persists(w: World, agent: string, from: Chat, c: Chat, d: Chat, j: nat)
    requires Continues(w, agent, from, c, j) && c.rows <= d.rows && c.prompts <= d.prompts
    ensures Continues(w, agent, from, d, j)
  {
    hide HistoryRows, Uses, TellsAll, Asks, HandsBack;
    var at := |from.rows| + 2 * j;
    assert d.rows[..at] == c.rows[..at];
    assert d.rows[at] == c.rows[at] && d.rows[at + 1] == c.rows[at + 1];
    assert d.prompts[|from.prompts| + j] == c.prompts[|from.prompts| + j];
  }

  /** Counting completions from one exchange earlier. */
  lemma ShiftStops(w: World, agent: string, from: Chat, next: Chat, c: Chat, e: Ending, j: nat, cap: nat)
    requires |next.rows| == |from.rows| + 2 && |next.prompts| == |from.prompts| + 1 && next.calls == from.calls + 1
    ensures Continues(w, agent, next, c, j) <==> Continues(w, agent, from, c, j + 1)
    ensures Stops(w, agent, next, c, e, j, cap) <==> Stops(w, agent, from, c, e, j + 1, cap + 1)
  {
    hide HistoryRows, Uses, TellsAll, Asks, HandsBack, AskedForWords, WordsAdded, Blank;
    assert |next.rows| + 2 * j == |from.rows| + 2 * (j + 1);
    assert |next.prompts| + j == |from.prompts| + (j + 1);
    assert next.calls + j == from.calls + (j + 1);
  }

  lemma OneMore(w: World, agent: string, from: Chat, next: Chat, c: Chat, e: Ending, cap: nat)
    requires next.calls == from.calls + 1 && |next.prompts| == |from.prompts| + 1 && |next.rows| == |from.rows| + 2
    requires from.rows <= next.rows && from.prompts <= next.prompts
    requires next.approvals == from.approvals && next.consults == from.consults
    requires Continues(w, agent, from, next, 0)
    requires Turn(w, agent, next, c, e, cap)
    ensures Turn(w, agent, from, c, e, cap + 1)
  {
    hide Continues, Stops;
    Persists(w, agent, from, next, c, 0);
    var n := c.calls - from.calls;
    forall j | 0 <= j < n - 1 ensures Continues(w, agent, from, c, j) {
      if j > 0 { ShiftStops(w, agent, from, next, c, e, j - 1, cap); }
    }
    if n > 1 {
      ShiftStops(w, agent, from, next, c, e, n - 2, cap);
      assert Stops(w, agent, next, c, e, n - 2, cap);
    } else {
      LastExchange(w, agent, from, c, e, cap);
    }
    assert Stops(w, agent, from, c, e, n - 1, cap + 1);
    assert from.rows <= c.rows && from.prompts <= c.prompts;
  }

  lemma LastExchange(w: World, agent: string, from: Chat, c: Chat, e: Ending, cap: nat)
    requires Continues(w, agent, from, c, 0)
    requires cap == 0 && |c.rows| == |from.rows| + 2 && e == TooManyIterations
    ensures Stops(w, agent, from, c, e, 0, cap + 1)
  {
    hide Continues;
  }

  lemma ReplyStands(w: World, agent: string, c: Chat)
    requires Sequenced(c.rows)
    ensures Says(w, agent, c, Told(w, agent, c), 0) && Sequenced(Told(w, agent, c).rows)
    ensures |Told(w, agent, c).rows| == |c.rows| + 1 && c.rows <= Told(w, agent, c).rows
  {
    hide HistoryRows;
    NextSequenceIsLength(c.rows);
    assert Told(w, agent, c).rows[..|c.rows|] == c.rows;
  }

  /** The state after an exchange. */
  function Done(w: World, agent: string, c: Chat): Chat {
    var told, calls := Told(w, agent, c), Uses(w.reply(c.calls).blocks);
    told.(rows := Stored(told.rows, User, Results(w, map[], calls), ""),
          ran := c.ran + Executions(map[], Propose(agent, calls)))
  }

  lemma ExchangeStands(w: World, agent: string, c: Chat)
    requires Sequenced(c.rows)
    requires Uses(w.reply(c.calls).blocks) != [] && !NeedsApproval(w, agent, Uses(w.reply(c.calls).blocks))
    ensures Exchanges(w, agent, c, Done(w, agent, c), 0) && Sequenced(Done(w, agent, c).rows)
    ensures |Done(w, agent, c).rows| == |c.rows| + 2 && c.rows <= Done(w, agent, c).rows
  {
    hide HistoryRows, Uses, TellsAll, Results, Executions, NextSequence;
    var told, done, calls := Told(w, agent, c), Done(w, agent, c), Uses(w.reply(c.calls).blocks);
    ReplyStands(w, agent, c);
    NextSequenceIsLength(told.rows);
    ResultsTell(w, map[], calls);
    assert done.rows[..|c.rows|] == told.rows[..|c.rows|];
  }

  lemma InsertedWords(blocks: seq<Block>, words: string)
    ensures WordsAdded(blocks, words, InsertWords(blocks, words))
  {
    var at := LeadingThinking(blocks);
  }

  lemma Silence(blocks: seq<Block>)
    ensures HasWords(blocks) <==> !(forall i, k :: 0 <= i < |blocks| && blocks[i].Text? && 0 <= k < |blocks[i].text| ==> blocks[i].text[k] in " \t\n\r")
  {
  }

  lemma WordsOnly(row: Row, words: string)
    requires row.Message?
    ensures SameButWords(row, row) && SameButWords(row, row.(content := InsertWords(row.content, words)))
    ensures row.role == Assistant ==>
              RowUses(row) == RowUses(row.(content := InsertWords(row.content, words))) == Uses(row.content)
  {
    hide Uses, Answered, InsertWords;
    InsertWordsKeepsCalls(row.content, words);
  }

  lemma SuspendedWaits(w: World, agent: string, c: Chat)
    requires Sequenced(c.rows)
    requires Uses(w.reply(c.calls).blocks) != [] && NeedsApproval(w, agent, Uses(w.reply(c.calls).blocks))
    ensures var s := Suspend(w, agent, Told(w, agent, c), w.reply(c.calls));
            && Waits(w, agent, c, s, 0) && Sequenced(s.rows) && c.rows <= s.rows && c.prompts <= s.prompts
            && s.calls == c.calls + 1 && s.consults == c.consults
  {
    hide SameButWords, Answered, HistoryRows, Uses, NextSequence, AddPending, HasWords, InsertWords, WordsAdded, AddTextToLastAssistant, Blank, RowUses;
    var reply, told := w.reply(c.calls), Told(w, agent, c);
    var s, at := Suspend(w, agent, told, reply), |c.rows|;
    var row := Message(NextSequence(c.rows), Assistant, reply.blocks, false, agent);
    ReplyStands(w, agent, c);
    Silence(reply.blocks);
    AddTextLast(c.rows, row, reply.words);
    InsertedWords(reply.blocks, reply.words);
    assert s.rows[..at] == c.rows;
    if !HasWords(reply.blocks) {
      WordsOnly(row, reply.words);
      AskIsRead(s, row, Uses(reply.blocks));
    }
  }

  lemma AskIsRead(s: Chat, row: Row, calls: seq<ToolCall>)
    requires s.rows != [] && SameButWords(row, s.rows[|s.rows| - 1]) && RowUses(s.rows[|s.rows| - 1]) == calls
    requires s.prompts != [] && s.prompts[|s.prompts| - 1] == AskForWords(HistoryRows(s.rows[..|s.rows| - 1] + [row]), calls)
    ensures AskedForWords(s, |s.rows| - 1)
  {
    hide HistoryRows, SameButWords, RowUses;
    var asked := s.prompts[|s.prompts| - 1];
    assert asked[..|asked| - 1] == HistoryRows(s.rows[..|s.rows| - 1] + [row]);
  }

  /** The loop is a turn: whatever the model and the tools do. */
  lemma {:induction false} ConverseIsATurn(w: World, agent: string, c: Chat, iteration: nat)
    requires Sequenced(c.rows) && iteration <= MAX_TOOL_ITERATIONS
    ensures var (c', e) := Converse(w, agent, c, iteration);
            Turn(w, agent, c, c', e, MAX_TOOL_ITERATIONS - iteration) && Sequenced(c'.rows)
    decreases MAX_TOOL_ITERATIONS - iteration
  {
    hide Uses, HistoryRows, Stored, Results, Executions, Suspend, Exchanges, Waits, Says;
    if iteration < MAX_TOOL_ITERATIONS {
      var reply, told, done := w.reply(c.calls), Told(w, agent, c), Done(w, agent, c);
      var calls := Uses(reply.blocks);
      ReplyStands(w, agent, c);
      if calls != [] {
        if NeedsApproval(w, agent, calls) {
          SuspendedWaits(w, agent, c);
        } else {
          ExchangeStands(w, agent, c);
          if !EndsTurn(w, agent, map[], calls) {
            ConverseIsATurn(w, agent, done, iteration + 1);
            var (c', e) := Converse(w, agent, done, iteration + 1);
            OneMore(w, agent, c, done, c', e, MAX_TOOL_ITERATIONS - iteration - 1);
          }
        }
      }
    }
  }

  // ---------------------------------------------------------------- handoffs

  /** One agent's part: where it left the conversation, and how it ended. */
  datatype Leg = Leg(agent: string, at: Chat, ending: Ending)

  /** On completion an agent hands over to a different one that the resolver
      names, for one whole turn. */
  ghost predicate HandsOver(w: World, leg: Leg, next: Leg) {
    var c := leg.at;
    && leg.ending == Completed && next.agent == w.resolve(c.consults) && next.agent != leg.agent
    && Turn(w, next.agent, c.(consults := c.consults + 1), next.at, next.ending, MAX_TOOL_ITERATIONS)
  }

  /** It stops at a turn that did not complete, at the last handoff allowed, or
      when the resolver stays with the agent. */
  ghost predicate Relay(w: World, legs: seq<Leg>, hops: nat, c': Chat)
    requires legs != []
  {
    var last := legs[|legs| - 1];
    && |legs| <= hops + 1
    && (forall i :: 0 <= i < |legs| - 1 ==> HandsOver(w, legs[i], legs[i + 1]))
    && if last.ending == Completed && |legs| <= hops
       then w.resolve(last.at.consults) == last.agent && c' == last.at.(consults := last.at.consults + 1)
       else c' == last.at
  }

  /** From a turn of `first` that ended as `e` at `c`, by handoffs. */
  ghost predicate Relayed(w: World, first: string, c: Chat, e: Ending, hops: nat, c': Chat, e': Ending) {
    exists legs: seq<Leg> ::
      legs != [] && legs[0] == Leg(first, c, e) && legs[|legs| - 1].ending == e' && Relay(w, legs, hops, c')
  }

  /** The handoff loop is a relay of at most four handoffs. */
  lemma {:induction false} FollowIsARelay(w: World, agent: string, c: Chat, e: Ending, hops: nat)
    requires Sequenced(c.rows) && hops <= MAX_HANDOFF_HOPS
    ensures var (c', e') := Follow(w, agent, c, e, hops);
            && Relayed(w, agent, c, e, MAX_HANDOFF_HOPS - hops, c', e')
            && Sequenced(c'.rows) && c.rows <= c'.rows && c.prompts <= c'.prompts
            && (e' == e || e' in {Completed, Suspended, InvalidOutput, TooManyIterations})
    decreases MAX_HANDOFF_HOPS - hops
  {
    hide Converse, Stops, Exchanges, HandsBack, Relayed, Uses;
    var next, asked := w.resolve(c.consults), c.(consults := c.consults + 1);
    if e != Completed || hops == MAX_HANDOFF_HOPS || next == agent {
      StaysPut(w, agent, c, e, MAX_HANDOFF_HOPS - hops, Follow(w, agent, c, e, hops).0);
    } else {
      ConverseIsATurn(w, next, asked, 0);
      var (c1, e1) := Converse(w, next, asked, 0);
      FollowIsARelay(w, next, c1, e1, hops + 1);
      var (c', e') := Follow(w, next, c1, e1, hops + 1);
      RelayedOnce(w, Leg(agent, c, e), Leg(next, c1, e1), MAX_HANDOFF_HOPS - hops - 1, c', e');
    }
  }

  lemma StaysPut(w: World, agent: string, c: Chat, e: Ending, hops: nat, c': Chat)
    requires if e == Completed && 0 < hops then w.resolve(c.consults) == agent && c' == c.(consults := c.consults + 1) else c' == c
    ensures Relayed(w, agent, c, e, hops, c', e)
  {
    var legs := [Leg(agent, c, e)];
    assert Relay(w, legs, hops, c') && legs[|legs| - 1].ending == e;
  }

  lemma RelayedOnce(w: World, leg: Leg, next: Leg, hops: nat, c': Chat, e': Ending)
    requires HandsOver(w, leg, next) && Relayed(w, next.agent, next.at, next.ending, hops, c', e')
    ensures Relayed(w, leg.agent, leg.at, leg.ending, hops + 1, c', e')
  {
    hide HandsOver;
    var legs: seq<Leg> :| legs != [] && legs[0] == next && legs[|legs| - 1].ending == e' && Relay(w, legs, hops, c');
    var longer := [leg] + legs;
    forall i | 0 <= i < |longer| - 1 ensures HandsOver(w, longer[i], longer[i + 1]) {
      if i > 0 { assert longer[i] == legs[i - 1] && longer[i + 1] == legs[i]; }
    }
    assert Relay(w, longer, hops + 1, c') && longer[|longer| - 1] == legs[|legs| - 1];
  }

  // ---------------------------------------------------------------- compaction

  /** What compacting makes of a conversation, in what was measured: nothing, or
      one marker that reaches to the end of what was summarized, which is all
      that was sent but a last reply. */
  ghost predicate Compacts(before: Chat, after: Chat, g: Gauge) {
    var view := HistoryRows(before.rows);
    if !WorthIt(view, g) then after == before
    else
      var last := view[|view| - 1];
      var cut := if last.Message? && last.role == Assistant then |view| - 1 else |view|;
      var marker := Marker(|before.rows| + 1, view[cut - 1].sequence, MediaCounts(view[..cut]));
      && after == before.(rows := before.rows + [marker], prompts := before.prompts + [view[..cut]])
      && HistoryRows(after.rows) == [marker] + view[cut..]
  }

  lemma CompactsWhenWorthIt(c: Chat, g: Gauge)
    requires Sequenced(c.rows) && AllDurable(c.rows) && Through(c.rows) <= |c.rows|
    ensures Compacts(c, Compacted(c, g), g)
    ensures var rows := Compacted(c, g).rows; Sequenced(rows) && AllDurable(rows) && Through(rows) <= |rows|
  {
    hide HistoryRows, Due, WorthIt, MediaCounts, NextSequence;
    DueWhenWorthIt(c.rows, g);
    NextSequenceIsLength(c.rows);
    if Due(HistoryRows(c.rows), g) { CompactionWrites(c.rows, g); }
  }

  // ---------------------------------------------------------------- a send

  /** A turn of `agent` and the handoffs after it. */
  ghost predicate Answers(w: World, agent: string, from: Chat, c: Chat, e: Ending) {
    exists mid: Chat, e1: Ending ::
      Turn(w, agent, from, mid, e1, MAX_TOOL_ITERATIONS) && Relayed(w, agent, mid, e1, MAX_HANDOFF_HOPS, c, e)
  }

  /** At `n` stands the user's message, word for word, and the list of prompt `p`
      ends in it. */
  ghost predicate HeardAt(c: Chat, content: seq<Block>, n: nat, p: nat) {
    && n < |c.rows| && c.rows[n] == Message(n + 1, User, content, false, "")
    && p < |c.prompts| && c.prompts[p] != [] && c.prompts[p][|c.prompts[p]| - 1] == c.rows[n]
  }

  ghost predicate SendAdds(w: World, c: Chat, content: seq<Block>, g: Gauge, c': Chat, e: Ending) {
    var agent := w.resolve(c.consults);
    var marks := if WorthIt(HistoryRows(c.rows), g) then 1 else 0;
    var n := |c.rows| + marks;
    var at := if content == [] then n else n + 1;
    && c.rows <= c'.rows && c.prompts <= c'.prompts && at < |c'.rows|
    && (marks == 1 ==> c'.rows[|c.rows|].Marker?)
    && RepliesAt(c', agent, at, |c.prompts| + marks)
    && (content != [] ==> HeardAt(c', content, n, |c.prompts| + marks))
    && exists said: Chat ::
         && said.rows == c'.rows[..at] && said.prompts == c'.prompts[..|c.prompts| + marks]
         && said.approvals == c.approvals && said.ran == c.ran && said.calls == c.calls && said.consults == c.consults + 1
         && Answers(w, agent, said, c', e)
  }

  /** A send is refused exactly while something is pending, and then changes
      nothing. Otherwise every row stays; after a marker if one was due comes
      the user's message, word for word, if there is any; the next row is the
      reply of the agent the resolver named, which was sent everything up to
      and with that message; and from there on it is a turn with its handoffs. */
  lemma SendIsAnswered(w: World, c: Chat, content: seq<Block>, g: Gauge)
    requires Sequenced(c.rows) && AllDurable(c.rows) && Through(c.rows) <= |c.rows|
    ensures var (c', e) := HandleSend(w, c, content, g);
            && (e == Refused <==> exists id :: id in c.approvals && c.approvals[id].status == Pending)
            && (e == Refused ==> c' == c)
            && (e != Refused ==> SendAdds(w, c, content, g, c', e))
  {
    hide HistoryRows, Converse, Follow, Compacted, Turn, Relayed, Stored, WorthIt, Sequenced, AllDurable;
    PendingExists(c.approvals);
    if !HasPending(c.approvals) {
      var agent, asked := w.resolve(c.consults), c.(consults := c.consults + 1);
      CompactsWhenWorthIt(asked, g);
      var ready := Compacted(asked, g);
      var said := if content == [] then ready else ready.(rows := Stored(ready.rows, User, content, ""));
      Said(ready, content);
      ConverseIsATurn(w, agent, said, 0);
      var (mid, e1) := Converse(w, agent, said, 0);
      FollowIsARelay(w, agent, mid, e1, 0);
      var (c', e) := Follow(w, agent, mid, e1, 0);
      TurnStarts(w, agent, said, mid, e1);
      SendHeard(w, c, content, g, ready, said, mid, e1, c', e);
    }
  }

  lemma PendingExists(a: Approvals)
    ensures HasPending(a) <==> exists id :: id in a && a[id].status == Pending
  {
  }

  /** A durable message stored last is sent last. */
  lemma Said(c: Chat, content: seq<Block>)
    requires Sequenced(c.rows) && AllDurable(c.rows) && Through(c.rows) <= |c.rows|
    ensures var row := Message(|c.rows| + 1, User, content, false, "");
            && Stored(c.rows, User, content, "") == c.rows + [row] && Sequenced(c.rows + [row])
            && HistoryRows(c.rows + [row]) == HistoryRows(c.rows) + [row]
  {
    hide HistoryRows, NextSequence, Through;
    NextSequenceIsLength(c.rows);
    ViewSnoc(c.rows, Message(|c.rows| + 1, User, content, false, ""));
  }

  lemma TurnStarts(w: World, agent: string, from: Chat, c: Chat, e: Ending)
    requires Turn(w, agent, from, c, e, MAX_TOOL_ITERATIONS)
    ensures RepliesAt(c, agent, |from.rows|, |from.prompts|)
    ensures from.rows <= c.rows && from.prompts <= c.prompts && e in {Completed, Suspended, InvalidOutput, TooManyIterations}
  {
    hide HistoryRows, Uses, HandsBack, Asks, TellsAll, AskedForWords, WordsAdded, RepliesAt;
    if c.calls - from.calls > 1 { assert Continues(w, agent, from, c, 0); }
  }

  lemma SendHeard(w: World, c: Chat, content: seq<Block>, g: Gauge, ready: Chat, said: Chat, mid: Chat, e1: Ending, c': Chat, e: Ending)
    requires Compacts(c.(consults := c.consults + 1), ready, g)
    requires var row := Message(|ready.rows| + 1, User, content, false, "");
             && said == (if content == [] then ready else ready.(rows := ready.rows + [row]))
             && HistoryRows(ready.rows + [row]) == HistoryRows(ready.rows) + [row]
    requires Turn(w, w.resolve(c.consults), said, mid, e1, MAX_TOOL_ITERATIONS)
    requires RepliesAt(mid, w.resolve(c.consults), |said.rows|, |said.prompts|)
    requires said.rows <= mid.rows <= c'.rows && said.prompts <= mid.prompts <= c'.prompts
    requires Relayed(w, w.resolve(c.consults), mid, e1, MAX_HANDOFF_HOPS, c', e)
    ensures SendAdds(w, c, content, g, c', e)
  {
    hide HistoryRows, Turn, Relayed, WorthIt, MediaCounts;
    var agent := w.resolve(c.consults);
    var marks := if WorthIt(HistoryRows(c.rows), g) then 1 else 0;
    var at := |said.rows|;
    assert |ready.rows| == |c.rows| + marks && |ready.prompts| == |c.prompts| + marks && ready.rows <= said.rows;
    assert c'.rows[..at] == said.rows == mid.rows[..at] && c'.prompts[..|said.prompts|] == said.prompts;
    assert c'.rows[at] == mid.rows[at] && c'.prompts[|said.prompts|] == mid.prompts[|said.prompts|];
    assert Answers(w, agent, said, c', e);
  }

  // ---------------------------------------------------------------- a decision

  /** The decision that leaves nothing pending: the waiting calls are answered
      under the decisions, in one row; then, unless every one of them was
      rejected without a reason, the agent that proposed them goes on, or the
      resolver's when that one is gone. */
  ghost predicate DecisionAdds(w: World, c: Chat, d: Approvals, c': Chat, e: Ending)
    requires c.rows != [] && c.rows[|c.rows| - 1].Message?
  {
    var n, proposer := |c.rows|, c.rows[|c.rows| - 1].speaker;
    var keeps := proposer != "" && w.known(proposer);
    var agent := if keeps then proposer else w.resolve(c.consults);
    && c.rows <= c'.rows && c.prompts <= c'.prompts
    && AnsweredAt(w, d, c', LastUses(c.rows), n)
    && exists done: Chat ::
         && done.rows == c'.rows[..n + 1] && done.prompts == c.prompts && done.approvals == d && done.calls == c.calls
         && done.consults == (if keeps then c.consults else c.consults + 1)
         && if SilentlyRejected(d, LastUses(c.rows)) then Relayed(w, agent, done, Completed, MAX_HANDOFF_HOPS, c', e)
            else Answers(w, agent, done, c', e)
  }

  predicate SilentlyRejected(d: Approvals, calls: seq<ToolCall>) {
    forall k :: 0 <= k < |calls| ==> calls[k].id in d && d[calls[k].id].status == Rejected && d[calls[k].id].reason == ""
  }

  lemma DecisionIsAnswered(w: World, c: Chat, id: string, v: Verdict)
    requires FreshIds(w) && AtRest(w, c) && id in c.approvals && c.approvals[id].status == Pending
    ensures var (c', e) := HandleDecide(w, c, id, v);
            && c.rows != [] && c.rows[|c.rows| - 1].Message?
            && (HasPending(Decided(c.approvals, id, v)) ==> e == AwaitingApproval && c' == c.(approvals := c'.approvals))
            && (!HasPending(Decided(c.approvals, id, v)) ==> DecisionAdds(w, c, Decided(c.approvals, id, v), c', e))
  {
    hide FreshIds, Decided, GoOn, Paired, Ledger, Truthful, PromptsClosed, Executions, DecisionAdds;
    DecisionIsSafe(w, c, id, v);
    DecidedFacts(c.approvals, id, v);
    var d := Decided(c.approvals, id, v);
    ResumeFindsTurn(w, c);
    PendingIsACall(w, c, id);
    assert WaitsAs(w, c, id);
    if !HasPending(d) { GoesOn(w, c, d, c.approvals[id].agent); }
  }

  lemma GoesOn(w: World, c: Chat, d: Approvals, proposer: string)
    requires Safe(w, c.(approvals := d)) && Open(c.rows) && !HasPending(d)
    requires c.rows != [] && c.rows[|c.rows| - 1].Message? && proposer == c.rows[|c.rows| - 1].speaker
    ensures var (c', e) := GoOn(w, c.(approvals := d), proposer); DecisionAdds(w, c, d, c', e)
  {
    hide Uses, Answered, HistoryRows, Executions, Converse, Follow, Results, Safe, Turn, Relayed, LastUses, Truthful, TellsAll;
    hide Ledger, Paired, PromptsClosed, Open, NextSequence, SilentlyRejected;
    var keeps := proposer != "" && w.known(proposer);
    var agent := if keeps then proposer else w.resolve(c.consults);
    var ready := if keeps then c.(approvals := d) else c.(approvals := d, consults := c.consults + 1);
    assert Safe(w, ready) by { ConsultsDontMatter(w, c.(approvals := d), ready); }
    var calls := LastUses(c.rows);
    OpenHasCalls(c.rows);
    ResumeFindsTurn(w, ready);
    ResolvedAgrees(d);
    ResultsTell(w, d, calls);
    SafeIsSequenced(w, ready);
    NextSequenceIsLength(c.rows);
    var done := ready.(rows := Stored(c.rows, User, Results(w, d, calls), ""),
                       ran := c.ran + Executions(d, Propose(proposer, calls)));
    ReinvokesUnlessSilent(calls, d);
    var (mid, e1) := if ShouldReinvoke(calls, d) then Converse(w, agent, done, 0) else (done, Completed);
    assert Resume(w, agent, ready) == (mid, e1);
    var (c', e) := Follow(w, agent, mid, e1, 0);
    assert Sequenced(done.rows);
    if ShouldReinvoke(calls, d) {
      ConverseIsATurn(w, agent, done, 0);
      TurnStarts(w, agent, done, mid, e1);
    }
    FollowIsARelay(w, agent, mid, e1, 0);
    DecisionHeard(w, c, d, keeps, agent, done, mid, e1, c', e);
  }

  lemma SafeIsSequenced(w: World, c: Chat)
    requires Safe(w, c)
    ensures Sequenced(c.rows)
  {
  }

  lemma ReinvokesUnlessSilent(calls: seq<ToolCall>, d: Approvals)
    ensures ShouldReinvoke(calls, d) <==> !SilentlyRejected(d, calls)
  {
  }

  lemma DecisionHeard(w: World, c: Chat, d: Approvals, keeps: bool, agent: string, done: Chat, mid: Chat, e1: Ending, c': Chat, e: Ending)
    requires c.rows != [] && c.rows[|c.rows| - 1].Message?
    requires keeps == (c.rows[|c.rows| - 1].speaker != "" && w.known(c.rows[|c.rows| - 1].speaker))
    requires agent == if keeps then c.rows[|c.rows| - 1].speaker else w.resolve(c.consults)
    requires done == c.(approvals := d, consults := if keeps then c.consults else c.consults + 1, rows := done.rows, ran := done.ran)
    requires |done.rows| == |c.rows| + 1 && c.rows <= done.rows && AnsweredAt(w, d, done, LastUses(c.rows), |c.rows|)
    requires if SilentlyRejected(d, LastUses(c.rows)) then mid == done && e1 == Completed
             else Turn(w, agent, done, mid, e1, MAX_TOOL_ITERATIONS)
    requires done.rows <= mid.rows <= c'.rows && done.prompts <= mid.prompts <= c'.prompts
    requires Relayed(w, agent, mid, e1, MAX_HANDOFF_HOPS, c', e)
    ensures DecisionAdds(w, c, d, c', e)
  {
    hide Turn, Relayed, TellsAll, SilentlyRejected, LastUses;
    assert c'.rows[|c.rows|] == done.rows[|c.rows|];
    assert c'.rows[..|c.rows| + 1] == done.rows;
    if !SilentlyRejected(d, LastUses(c.rows)) { assert Answers(w, agent, done, c', e); }
  }

  // ---------------------------------------------------------------- every run

  lemma HandleGrows(w: World, c: Chat, r: Request)
    requires FreshIds(w) && AtRest(w, c)
    ensures c.rows <= Handle(w, c, r).0.rows && c.prompts <= Handle(w, c, r).0.prompts
  {
    hide FreshIds, HandleSend, HandleDecide, AtRest, Answers, Relayed, RepliesAt, HeardAt, AnsweredAt, HistoryRows, Decided, LastUses;
    AtRestIsNumbered(w, c);
    match r
    case Send(content, g) =>
      SendIsAnswered(w, c, content, g);
    case Decide(id, v) =>
      if id in c.approvals && c.approvals[id].status == Pending {
        DecisionIsAnswered(w, c, id, v);
      } else {
        Unmoved(w, c, id, v);
      }
  }

  lemma AtRestIsNumbered(w: World, c: Chat)
    requires AtRest(w, c)
    ensures Sequenced(c.rows) && AllDurable(c.rows) && Through(c.rows) <= |c.rows|
  {
  }

  /** A decision about no row, or about one already resolved, is told so and
      changes nothing. */
  lemma Unmoved(w: World, c: Chat, id: string, v: Verdict)
    requires id in c.approvals ==> c.approvals[id].status != Pending
    ensures HandleDecide(w, c, id, v) == (c, if id in c.approvals then NotPending else NotFound)
  {
  }

  /** Rows and prompts are only ever added. */
  lemma {:induction false} TranscriptOnlyGrows(w: World, requests: seq<Request>, more: seq<Request>)
    requires FreshIds(w)
    requires forall i :: 0 <= i < |requests| ==> Admissible(requests[i])
    requires forall i :: 0 <= i < |more| ==> Admissible(more[i])
    ensures var c, later := ChatAfter(w, requests), ChatAfter(w, requests + more);
            c.rows <= later.rows && c.prompts <= later.prompts
    decreases |more|
  {
    hide FreshIds, AtRest, Handle;
    if more == [] {
      assert requests + more == requests;
    } else {
      var init, last := more[..|more| - 1], more[|more| - 1];
      assert (requests + more)[..|requests + more| - 1] == requests + init;
      TranscriptOnlyGrows(w, requests, init);
      RunsStayAtRest(w, requests + init);
      HandleGrows(w, ChatAfter(w, requests + init), last);
    }
  }

  /** Over any run, whatever follows: a send that came while nothing was pending
      is stored word for word, at the end of what was stored before it (a marker
      between them at most), and has a reply right after it that was written
      for a list ending in it. */
  lemma EverySendIsHeard(w: World, before: seq<Request>, content: seq<Block>, g: Gauge, after: seq<Request>)
    requires FreshIds(w) && content != [] && UserContent(content)
    requires forall i :: 0 <= i < |before| ==> Admissible(before[i])
    requires forall i :: 0 <= i < |after| ==> Admissible(after[i])
    ensures var c, all := ChatAfter(w, before), ChatAfter(w, before + [Request.Send(content, g)] + after);
            !HasPending(c.approvals) ==>
              exists n, p ::
                && |c.rows| <= n <= |c.rows| + 1 && |c.prompts| <= p && c.rows <= all.rows
                && HeardAt(all, content, n, p) && RepliesAt(all, w.resolve(c.consults), n + 1, p)
  {
    hide FreshIds, AtRest, ChatAfter, HandleSend, HistoryRows, WorthIt, Answers, RepliesAt, HeardAt;
    var send := Request.Send(content, g);
    var c, c' := ChatAfter(w, before), ChatAfter(w, before + [send]);
    var all := ChatAfter(w, before + [send] + after);
    assert c' == HandleSend(w, c, content, g).0 by {
      assert (before + [send])[..|before|] == before;
      assert c' == Handle(w, c, send).0 by { OneMoreSend(w, before, send); }
    }
    RunsStayAtRest(w, before);
    AtRestIsNumbered(w, c);
    SendIsAnswered(w, c, content, g);
    TranscriptOnlyGrows(w, before + [send], after);
    if !HasPending(c.approvals) {
      var marks := if WorthIt(HistoryRows(c.rows), g) then 1 else 0;
      var n, p := |c.rows| + marks, |c.prompts| + marks;
      StillHeard(c', all, content, w.resolve(c.consults), n, p);
    }
  }

  lemma StillHeard(c: Chat, d: Chat, content: seq<Block>, agent: string, n: nat, p: nat)
    requires HeardAt(c, content, n, p) && RepliesAt(c, agent, n + 1, p) && c.rows <= d.rows && c.prompts <= d.prompts
    ensures HeardAt(d, content, n, p) && RepliesAt(d, agent, n + 1, p)
  {
    hide HistoryRows;
    assert d.rows[..n + 1] == c.rows[..n + 1];
    assert d.rows[n] == c.rows[n] && d.rows[n + 1] == c.rows[n + 1] && d.prompts[p] == c.prompts[p];
  }

  lemma OneMoreSend(w: World, before: seq<Request>, r: Request)
    ensures ChatAfter(w, before + [r]) == Handle(w, ChatAfter(w, before), r).0
  {
    hide Handle;
    assert (before + [r])[..|before|] == before;
  }

}
