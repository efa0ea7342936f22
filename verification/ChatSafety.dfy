/** Safety of the chat turn protocol over every run of requests. */
module ChatSafety {
  import opened Sequences
  import opened Transcript
  import opened Compaction
  import opened ViewPairing
  import opened ChatTurn

  // ---------------------------------------------------------------- ids

  function ReplyIds(w: World, k: nat): seq<string> {
    CallIds(Uses(w.reply(k).blocks))
  }

  /** Tool-use ids are never reused, within a reply or across replies. */
  ghost predicate FreshIds(w: World) {
    && (forall k: nat :: Distinct(ReplyIds(w, k)))
    && (forall j: nat, k: nat, id :: j < k && id in ReplyIds(w, j) ==> id !in ReplyIds(w, k))
  }

  ghost predicate Issued(w: World, n: nat, id: string) {
    exists k: nat :: k < n && id in ReplyIds(w, k)
  }

  function RowProposals(row: Row): seq<Proposal> {
    if row.Message? then Propose(row.speaker, RowUses(row)) else []
  }

  /** Every call ever proposed in the transcript, in order. */
  function Proposals(rows: seq<Row>): seq<Proposal> {
    if rows == [] then [] else Proposals(rows[..|rows| - 1]) + RowProposals(rows[|rows| - 1])
  }

  /** The calls of every row but the last: the ones already answered. */
  function Settled(rows: seq<Row>): seq<Proposal> {
    if rows == [] then [] else Proposals(rows[..|rows| - 1])
  }

  predicate IsGated(w: World, p: Proposal) {
    p.call.name in w.gated(p.speaker)
  }

  // ---------------------------------------------------------------- the invariant

  /** Ids are distinct and issued, and exactly the gated calls have a row. */
  ghost predicate Ledger(w: World, n: nat, ps: seq<Proposal>, a: Approvals) {
    && (forall i, j :: 0 <= i < j < |ps| ==> ps[i].call.id != ps[j].call.id)
    && (forall i :: 0 <= i < |ps| ==> Issued(w, n, ps[i].call.id))
    && (forall i :: 0 <= i < |ps| ==> (IsGated(w, ps[i]) <==> ps[i].call.id in a))
    && (forall id :: id in a ==> Issued(w, n, id))
    && (forall i :: 0 <= i < |ps| && ps[i].call.id in a ==> AsAsked(ps[i], a[ps[i].call.id]))
  }

  /** A row names its call and who proposed it; while it waits it shows the
      call's own inputs and no reason. */
  predicate AsAsked(p: Proposal, row: Approval) {
    && row.name == p.call.name && row.agent == p.speaker
    && (row.status == Pending ==> row.input == p.call.input && row.reason == "")
  }

  ghost predicate PendingIsOpen(c: Chat) {
    forall id :: id in c.approvals && c.approvals[id].status == Pending ==> id in CallIds(LastUses(c.rows))
  }

  ghost predicate PromptsClosed(c: Chat) {
    forall i :: 0 <= i < |c.prompts| ==> Closed(c.prompts[i])
  }

  ghost predicate Safe(w: World, c: Chat) {
    && Paired(c.rows)
    && Ledger(w, c.calls, Proposals(c.rows), c.approvals)
    && c.ran == Executions(c.approvals, Settled(c.rows))
    && PendingIsOpen(c)
    && PromptsClosed(c)
    && Truthful(w, c.approvals, c.rows)
  }

  /** Between requests: the last turn is open exactly when an approval waits. */
  ghost predicate AtRest(w: World, c: Chat) {
    Safe(w, c) && (Open(c.rows) <==> HasPending(c.approvals))
  }

  /** No row is lost or changed. */
  ghost predicate RowsKept(a: Approvals, b: Approvals) {
    forall id :: id in a ==> id in b && b[id] == a[id]
  }

  /** No resolved row is lost or changed. */
  ghost predicate DecisionsKept(a: Approvals, b: Approvals) {
    forall id :: id in a && a[id].status != Pending ==> id in b && b[id] == a[id]
  }

  // ---------------------------------------------------------------- what the model is told

  predicate CorrectedInput(a: Approvals, call: ToolCall) {
    && call.id in a && a[call.id].status == Approved
    && a[call.id].input != map[] && a[call.id].input != call.input
  }

  /** What the answer to a call says: a rejected one that it was not run and
      why, as an error; any other one what its handler said and whether that was
      an error, with the inputs it ran with when the user corrected them. */
  ghost predicate Tells(w: World, a: Approvals, call: ToolCall, b: Block) {
    && b.Result? && b.useId == call.id
    && (b.answer.NotRun? <==> call.id in a && a[call.id].status == Rejected)
    && (b.answer.NotRun? ==> b.isError && b.answer.reason == a[call.id].reason)
    && (!b.answer.NotRun? ==> b.isError == w.outcome(call.id).isError && b.answer.text == w.outcome(call.id).text)
    && (b.answer.RanWith? <==> CorrectedInput(a, call))
    && (b.answer.RanWith? ==> b.answer.input == a[call.id].input)
  }

  ghost predicate TellsAll(w: World, a: Approvals, calls: seq<ToolCall>, blocks: seq<Block>) {
    |blocks| == |calls| && forall k :: 0 <= k < |calls| ==> Tells(w, a, calls[k], blocks[k])
  }

  ghost predicate AnswersTell(w: World, a: Approvals, calls: seq<ToolCall>, row: Row) {
    calls != [] ==> row.Message? && TellsAll(w, a, calls, row.content)
  }

  /** Every answered call has been answered truly. */
  ghost predicate Truthful(w: World, a: Approvals, rows: seq<Row>) {
    rows != [] ==>
      var init, last := rows[..|rows| - 1], rows[|rows| - 1];
      Truthful(w, a, init) && AnswersTell(w, a, LastUses(init), last)
  }

  lemma TruthSnoc(w: World, a: Approvals, rows: seq<Row>, row: Row)
    ensures Truthful(w, a, rows + [row]) <==> Truthful(w, a, rows) && AnswersTell(w, a, LastUses(rows), row)
  {
    assert (rows + [row])[..|rows|] == rows;
  }

  lemma ResultsTell(w: World, a: Approvals, calls: seq<ToolCall>)
    ensures TellsAll(w, a, calls, Results(w, a, calls))
  {
    forall k | 0 <= k < |calls| ensures Tells(w, a, calls[k], Results(w, a, calls)[k]) {
      BlockTells(w, a, calls[k]);
    }
  }

  lemma BlockTells(w: World, a: Approvals, call: ToolCall)
    ensures Tells(w, a, call, ResultBlock(w, a, call))
  {
  }

  /** The truth of an answer depends on the decision about its own call only. */
  lemma {:induction false} TruthAgrees(w: World, a: Approvals, b: Approvals, rows: seq<Row>)
    requires Truthful(w, a, rows) && SameDecisions(a, b, Settled(rows))
    ensures Truthful(w, b, rows)
  {
    if rows != [] {
      hide Tells, Uses;
      var init, last := rows[..|rows| - 1], rows[|rows| - 1];
      if init != [] {
        var before := init[|init| - 1];
        assert Proposals(init) == Settled(init) + RowProposals(before);
        assert forall i :: 0 <= i < |Settled(init)| ==> Proposals(init)[i] == Settled(init)[i];
        TruthAgrees(w, a, b, init);
        var calls := LastUses(init);
        forall k | 0 <= k < |calls| && last.Message? && |last.content| == |calls| && Tells(w, a, calls[k], last.content[k])
          ensures Tells(w, b, calls[k], last.content[k])
        {
          assert Proposals(init)[|Settled(init)| + k].call == calls[k];
          OneTruth(w, a, b, calls[k], last.content[k]);
        }
      }
    }
  }

  ghost predicate SameDecisions(a: Approvals, b: Approvals, ps: seq<Proposal>) {
    forall i :: 0 <= i < |ps| ==> SameDecision(a, b, ps[i].call.id)
  }

  predicate SameDecision(a: Approvals, b: Approvals, id: string) {
    (id in a <==> id in b) && (id in a ==> a[id] == b[id])
  }

  lemma OneTruth(w: World, a: Approvals, b: Approvals, call: ToolCall, block: Block)
    requires Tells(w, a, call, block) && SameDecision(a, b, call.id)
    ensures Tells(w, b, call, block)
  {
  }

  /** A reply and the answers to it, on a transcript with nothing waiting. */
  lemma ExchangeTells(w: World, a: Approvals, rows: seq<Row>, reply: Row, answers: Row)
    requires Truthful(w, a, rows) && !Open(rows)
    requires AnswersTell(w, a, RowUses(reply), answers)
    ensures Truthful(w, a, rows + [reply] + [answers])
  {
    hide Uses, Truthful, AnswersTell;
    TruthSnoc(w, a, rows, reply);
    TruthSnoc(w, a, rows + [reply], answers);
    assert AnswersTell(w, a, LastUses(rows), reply) by { NothingToTell(w, a, rows, reply); }
    assert LastUses(rows + [reply]) == RowUses(reply) by { ChainSnoc(rows, reply); }
  }

  lemma NothingToTell(w: World, a: Approvals, rows: seq<Row>, row: Row)
    requires !Open(rows)
    ensures AnswersTell(w, a, LastUses(rows), row)
  {
    hide Uses;
  }

  /** An answer given under no decisions is true of calls without a row. */
  lemma UndecidedTells(w: World, a: Approvals, calls: seq<ToolCall>)
    requires forall i :: 0 <= i < |calls| ==> calls[i].id !in a
    ensures TellsAll(w, a, calls, Results(w, map[], calls))
  {
    hide Tells;
    ResultsTell(w, map[], calls);
    forall k | 0 <= k < |calls| ensures Tells(w, a, calls[k], Results(w, map[], calls)[k]) {
      OneTruth(w, map[], a, calls[k], Results(w, map[], calls)[k]);
    }
  }

  // ---------------------------------------------------------------- executions

  /** The two decision tables say the same about every call of `ps`. */
  ghost predicate Agree(d: Approvals, e: Approvals, ps: seq<Proposal>) {
    forall i :: 0 <= i < |ps| ==>
      && IsRejected(d, ps[i].call.id) == IsRejected(e, ps[i].call.id)
      && RunInput(d, ps[i].call) == RunInput(e, ps[i].call)
  }

  lemma {:induction false} ExecutionsAgree(d: Approvals, e: Approvals, ps: seq<Proposal>)
    requires Agree(d, e, ps)
    ensures Executions(d, ps) == Executions(e, ps)
  {
    if ps != [] { ExecutionsAgree(d, e, ps[..|ps| - 1]); }
  }

  function Ran(d: Approvals, p: Proposal): seq<Execution> {
    if IsRejected(d, p.call.id) then [] else [Execution(p, RunInput(d, p.call))]
  }

  lemma Associates<T>(a: seq<T>, b: seq<T>, c: seq<T>)
    ensures (a + b) + c == a + (b + c)
  {
  }

  lemma ExecutionsSnoc(d: Approvals, ps: seq<Proposal>, p: Proposal)
    ensures Executions(d, ps + [p]) ==
            Executions(d, ps) + Ran(d, p)
  {
    hide IsRejected, RunInput;
    assert (ps + [p])[..|ps|] == ps;
  }

  lemma {:induction false} ExecutionsConcat(d: Approvals, ps: seq<Proposal>, qs: seq<Proposal>)
    ensures Executions(d, ps + qs) == Executions(d, ps) + Executions(d, qs)
    decreases |qs|
  {
    assert Executions(d, []) == [];
    hide Executions, Ran;
    if qs == [] {
      assert ps + qs == ps;
    } else {
      var init, last := qs[..|qs| - 1], qs[|qs| - 1];
      ExecutionsConcat(d, ps, init);
      ExecutionsSnoc(d, ps + init, last);
      ExecutionsSnoc(d, init, last);
      assert ps + qs == ps + init + [last] && qs == init + [last];
      Associates(Executions(d, ps), Executions(d, init), Ran(d, last));
    }
  }

  /** What ran, position by position: the non-rejected calls, in order. */
  lemma {:induction false} ExecutionsSound(d: Approvals, ps: seq<Proposal>)
    ensures forall k :: 0 <= k < |Executions(d, ps)| ==>
              var e := Executions(d, ps)[k];
              e.proposal in ps && !IsRejected(d, e.proposal.call.id) && e.input == RunInput(d, e.proposal.call)
    ensures forall i :: 0 <= i < |ps| && !IsRejected(d, ps[i].call.id) ==>
              Execution(ps[i], RunInput(d, ps[i].call)) in Executions(d, ps)
  {
    if ps != [] {
      var init, last := ps[..|ps| - 1], ps[|ps| - 1];
      ExecutionsSound(d, init);
      assert forall p :: p in init ==> p in ps;
      forall i | 0 <= i < |ps| && !IsRejected(d, ps[i].call.id)
        ensures Execution(ps[i], RunInput(d, ps[i].call)) in Executions(d, ps)
      {
        if i < |init| { assert init[i] == ps[i]; }
      }
    }
  }

  lemma {:induction false} ExecutionsDistinct(d: Approvals, ps: seq<Proposal>)
    requires forall i, j :: 0 <= i < j < |ps| ==> ps[i].call.id != ps[j].call.id
    ensures forall i, j :: 0 <= i < j < |Executions(d, ps)| ==>
              Executions(d, ps)[i].proposal.call.id != Executions(d, ps)[j].proposal.call.id
  {
    if ps != [] {
      var init, last := ps[..|ps| - 1], ps[|ps| - 1];
      ExecutionsDistinct(d, init);
      ExecutionsSound(d, init);
      forall k | 0 <= k < |Executions(d, init)|
        ensures Executions(d, init)[k].proposal.call.id != last.call.id
      {
        var p := Executions(d, init)[k].proposal;
        var i :| 0 <= i < |init| && init[i] == p;
        assert ps[i] == p;
      }
    }
  }

  // ---------------------------------------------------------------- the ledger

  /** The n-th reply's ids are on no ledger yet. */
  lemma ReplyIdsAreNew(w: World, n: nat, ps: seq<Proposal>, a: Approvals)
    requires FreshIds(w) && Ledger(w, n, ps, a)
    ensures forall i :: 0 <= i < |ps| ==> ps[i].call.id !in ReplyIds(w, n)
    ensures forall id :: id in ReplyIds(w, n) ==> id !in a
  {
    hide ReplyIds;
    forall id | Issued(w, n, id) ensures id !in ReplyIds(w, n) {
      var k: nat :| k < n && id in ReplyIds(w, k);
    }
  }

  lemma IdsStayDistinct(ps: seq<Proposal>, agent: string, calls: seq<ToolCall>)
    requires forall i, j :: 0 <= i < j < |ps| ==> ps[i].call.id != ps[j].call.id
    requires Distinct(CallIds(calls)) && forall i :: 0 <= i < |ps| ==> ps[i].call.id !in CallIds(calls)
    ensures var all := ps + Propose(agent, calls);
            forall i, j :: 0 <= i < j < |all| ==> all[i].call.id != all[j].call.id
  {
    var all := ps + Propose(agent, calls);
    forall i, j | 0 <= i < j < |all| ensures all[i].call.id != all[j].call.id {
      if |ps| <= j {
        assert all[j].call.id == CallIds(calls)[j - |ps|];
        if |ps| <= i { assert all[i].call.id == CallIds(calls)[i - |ps|]; }
      }
    }
  }

  lemma IdsAreIssued(w: World, n: nat, ps: seq<Proposal>, agent: string)
    requires forall i :: 0 <= i < |ps| ==> Issued(w, n, ps[i].call.id)
    ensures var all := ps + Propose(agent, Uses(w.reply(n).blocks));
            forall i :: 0 <= i < |all| ==> Issued(w, n + 1, all[i].call.id)
    ensures forall id :: Issued(w, n, id) || id in ReplyIds(w, n) ==> Issued(w, n + 1, id)
  {
    hide Uses;
    IssuedGrows(w, n, n + 1);
    var calls := Uses(w.reply(n).blocks);
    forall id | id in ReplyIds(w, n) ensures Issued(w, n + 1, id) {
      assert n < n + 1;
    }
    forall i | 0 <= i < |calls| ensures calls[i].id in ReplyIds(w, n) {
      assert ReplyIds(w, n)[i] == calls[i].id;
    }
  }

  lemma GatesStayExact(w: World, ps: seq<Proposal>, a: Approvals, agent: string, calls: seq<ToolCall>, a': Approvals)
    requires forall i :: 0 <= i < |ps| ==> (IsGated(w, ps[i]) <==> ps[i].call.id in a)
    requires forall i :: 0 <= i < |ps| ==> ps[i].call.id !in CallIds(calls)
    requires GatesOpened(w, agent, calls, a, a')
    requires forall i :: 0 <= i < |ps| && ps[i].call.id in a ==> AsAsked(ps[i], a[ps[i].call.id])
    ensures var all := ps + Propose(agent, calls);
            && (forall i :: 0 <= i < |all| ==> (IsGated(w, all[i]) <==> all[i].call.id in a'))
            && (forall i :: 0 <= i < |all| && all[i].call.id in a' ==> AsAsked(all[i], a'[all[i].call.id]))
  {
    var all := ps + Propose(agent, calls);
    forall i | 0 <= i < |all|
      ensures IsGated(w, all[i]) <==> all[i].call.id in a'
      ensures all[i].call.id in a' ==> AsAsked(all[i], a'[all[i].call.id])
    {
      if i >= |ps| {
        assert all[i] == Proposal(agent, calls[i - |ps|]);
      } else {
        assert all[i] == ps[i] && IsGated(w, ps[i]) == IsGated(w, all[i]);
      }
    }
  }

  lemma LedgerExtend(w: World, n: nat, ps: seq<Proposal>, a: Approvals, agent: string, a': Approvals)
    requires FreshIds(w) && Ledger(w, n, ps, a)
    requires GatesOpened(w, agent, Uses(w.reply(n).blocks), a, a')
    ensures Ledger(w, n + 1, ps + Propose(agent, Uses(w.reply(n).blocks)), a')
    ensures forall i :: 0 <= i < |ps| ==> ps[i].call.id !in ReplyIds(w, n)
    ensures forall id :: id in ReplyIds(w, n) ==> id !in a
  {
    hide Uses, Issued, IsGated, Propose;
    var calls := Uses(w.reply(n).blocks);
    ReplyIdsAreNew(w, n, ps, a);
    assert ReplyIds(w, n) == CallIds(calls);
    IdsStayDistinct(ps, agent, calls);
    IdsAreIssued(w, n, ps, agent);
    GatesStayExact(w, ps, a, agent, calls, a');
  }

  lemma {:induction false} AddPendingKeeps(w: World, a: Approvals, agent: string, calls: seq<ToolCall>)
    requires forall i :: 0 <= i < |calls| ==> calls[i].id !in a
    ensures RowsKept(a, AddPending(w, a, agent, calls))
  {
    if calls != [] { AddPendingKeeps(w, a, agent, calls[..|calls| - 1]); }
  }

  /** Every row it adds is pending and belongs to one of the calls. */
  lemma {:induction false} AddPendingAdds(w: World, a: Approvals, agent: string, calls: seq<ToolCall>, id: string)
    requires id in AddPending(w, a, agent, calls) && id !in a
    ensures id in CallIds(calls) && AddPending(w, a, agent, calls)[id].status == Pending
  {
    var n := |calls| - 1;
    assert CallIds(calls) == CallIds(calls[..n]) + [calls[n].id];
    assert AddPending(w, a, agent, calls) ==
           if calls[n].name in w.gated(agent)
           then AddPending(w, a, agent, calls[..n])[calls[n].id := Approval(calls[n].name, calls[n].input, agent, Pending, "")]
           else AddPending(w, a, agent, calls[..n]);
    if id in AddPending(w, a, agent, calls[..n]) { AddPendingAdds(w, a, agent, calls[..n], id); }
  }

  lemma {:induction false} AddPendingCovers(w: World, a: Approvals, agent: string, calls: seq<ToolCall>, i: nat)
    requires Distinct(CallIds(calls)) && i < |calls| && calls[i].id !in a
    ensures calls[i].id in AddPending(w, a, agent, calls) <==> calls[i].name in w.gated(agent)
    ensures calls[i].name in w.gated(agent) ==> AddPending(w, a, agent, calls)[calls[i].id] == Asked(agent, calls[i])
    decreases |calls|
  {
    var n := |calls| - 1;
    assert CallIds(calls) == CallIds(calls[..n]) + [calls[n].id];
    assert CallIds(calls)[i] == calls[i].id;
    if i < n {
      AddPendingCovers(w, a, agent, calls[..n], i);
    } else if calls[n].id in AddPending(w, a, agent, calls[..n]) {
      AddPendingAdds(w, a, agent, calls[..n], calls[n].id);
    }
  }

  lemma AddPendingFacts(w: World, a: Approvals, agent: string, calls: seq<ToolCall>)
    requires Distinct(CallIds(calls)) && forall i :: 0 <= i < |calls| ==> calls[i].id !in a
    ensures var r := AddPending(w, a, agent, calls);
            && GatesOpened(w, agent, calls, a, r) && RowsKept(a, r)
            && forall id :: id in r ==> id in a || (id in CallIds(calls) && r[id].status == Pending)
  {
    hide AddPending;
    var r := AddPending(w, a, agent, calls);
    AddPendingKeeps(w, a, agent, calls);
    forall id | id in r && id !in a ensures id in CallIds(calls) && r[id].status == Pending {
      AddPendingAdds(w, a, agent, calls, id);
    }
    forall i | 0 <= i < |calls|
      ensures calls[i].id in r <==> calls[i].name in w.gated(agent)
      ensures calls[i].id in r ==> r[calls[i].id] == Asked(agent, calls[i])
    {
      AddPendingCovers(w, a, agent, calls, i);
    }
  }

  // ---------------------------------------------------------------- rows and proposals

  lemma ProposalsSnoc(rows: seq<Row>, row: Row)
    ensures Proposals(rows + [row]) == Proposals(rows) + RowProposals(row)
    ensures Settled(rows + [row]) == Proposals(rows)
  {
    assert (rows + [row])[..|rows|] == rows;
  }

  lemma ClosedSettles(rows: seq<Row>)
    requires !Open(rows)
    ensures Settled(rows) == Proposals(rows)
  {
    hide Uses, Answered;
  }

  lemma AddTextLast(rows: seq<Row>, row: Row, text: string)
    requires row.Message? && row.role == Assistant
    ensures AddTextToLastAssistant(rows + [row], text) == rows + [row.(content := InsertWords(row.content, text))]
  {
    hide InsertWords;
    assert (rows + [row])[..|rows|] == rows;
  }

  // ---------------------------------------------------------------- one row at a time

  /** Storing a row without calls or answers on a closed transcript. */
  lemma QuietRow(w: World, c: Chat, row: Row, c': Chat)
    requires AtRest(w, c) && !Open(c.rows)
    requires RowUses(row) == [] && Paired(c.rows + [row])
    requires c'.rows == c.rows + [row] && c'.approvals == c.approvals && c'.ran == c.ran
    requires c'.calls >= c.calls && PromptsClosed(c')
    ensures AtRest(w, c') && !Open(c'.rows)
  {
    hide Uses, Answered, Paired, Truthful, AnswersTell;
    TruthSnoc(w, c.approvals, c.rows, row);
    NothingToTell(w, c.approvals, c.rows, row);
    ProposalsSnoc(c.rows, row);
    ClosedSettles(c.rows);
    ChainSnoc(c.rows, row);
    IssuedGrows(w, c.calls, c'.calls);
    assert RowProposals(row) == [];
  }

  lemma IssuedGrows(w: World, m: nat, n: nat)
    requires m <= n
    ensures forall id :: Issued(w, m, id) ==> Issued(w, n, id)
  {
    forall id | Issued(w, m, id) ensures Issued(w, n, id) {
      var k: nat :| k < m && id in ReplyIds(w, k);
      assert k < n;
    }
  }

  /** What storing the k-th reply makes of a closed transcript: its calls are
      on the ledger, and no earlier execution is judged differently. */
  lemma ReplyStored(w: World, n: nat, agent: string, rows: seq<Row>, row: Row, a: Approvals, a': Approvals)
    requires FreshIds(w) && Ledger(w, n, Proposals(rows), a) && !Open(rows)
    requires row.Message? && row.speaker == agent && RowUses(row) == Uses(w.reply(n).blocks)
    requires GatesOpened(w, agent, RowUses(row), a, a')
    ensures Proposals(rows + [row]) == Proposals(rows) + Propose(agent, RowUses(row))
    ensures Ledger(w, n + 1, Proposals(rows + [row]), a')
    ensures Executions(a', Settled(rows + [row])) == Executions(a, Settled(rows))
    ensures SameDecisions(a, a', Settled(rows))
  {
    hide Uses, Answered, LastUses, RowUses, Executions, Ledger, GatesOpened, FreshIds, Proposals, Settled, Open;
    ProposalsSnoc(rows, row);
    ClosedSettles(rows);
    LedgerExtend(w, n, Proposals(rows), a, agent, a');
    OldCallsAgree(w, n, agent, Proposals(rows), a, a');
    ExecutionsAgree(a', a, Proposals(rows));
  }

  lemma OldCallsAgree(w: World, n: nat, agent: string, ps: seq<Proposal>, a: Approvals, a': Approvals)
    requires forall i :: 0 <= i < |ps| ==> ps[i].call.id !in ReplyIds(w, n)
    requires GatesOpened(w, agent, Uses(w.reply(n).blocks), a, a')
    ensures Agree(a', a, ps) && SameDecisions(a, a', ps)
  {
    hide Uses;
    forall i | 0 <= i < |ps| ensures ps[i].call.id in a' <==> ps[i].call.id in a {
      assert ps[i].call.id !in ReplyIds(w, n);
    }
  }

  /** `a'` keeps every row of `a` and adds rows for gated calls only. */
  ghost predicate GatesOpened(w: World, agent: string, calls: seq<ToolCall>, a: Approvals, a': Approvals) {
    && (forall id :: id in a' ==> id in a || id in CallIds(calls))
    && (forall id :: id in a ==> id in a' && a'[id] == a[id])
    && (forall i :: 0 <= i < |calls| ==> (calls[i].id in a' <==> calls[i].name in w.gated(agent)))
    && (forall i :: 0 <= i < |calls| && calls[i].id in a' ==> a'[calls[i].id] == Asked(agent, calls[i]))
  }

  /** The row a gated call waits under. */
  function Asked(agent: string, call: ToolCall): Approval {
    Approval(call.name, call.input, agent, Pending, "")
  }

  lemma ResultsAnswer(w: World, d: Approvals, calls: seq<ToolCall>, rows: seq<Row>)
    requires LastUses(rows) == calls != [] && Paired(rows)
    ensures var all := Stored(rows, User, Results(w, d, calls), "");
            Paired(all) && !Open(all) && Proposals(all) == Proposals(rows) && Settled(all) == Proposals(rows)
  {
    hide Uses, Answered, NextSequence, Proposals, Settled;
    NextSequenceIsLength(rows);
    AnsweredInOrder(calls, Results(w, d, calls));
    var row := Message(NextSequence(rows), User, Results(w, d, calls), false, "");
    PairedSnoc(rows, row);
    ChainSnoc(rows, row);
    ProposalsSnoc(rows, row);
    assert RowProposals(row) == [];
  }

  lemma ReplyPaired(rows: seq<Row>, blocks: seq<Block>, agent: string)
    requires Paired(rows) && !Open(rows)
    ensures Paired(Stored(rows, Assistant, blocks, agent))
    ensures LastUses(Stored(rows, Assistant, blocks, agent)) == Uses(blocks)
  {
    hide Uses, Answered, NextSequence;
    NextSequenceIsLength(rows);
    var row := Message(NextSequence(rows), Assistant, blocks, false, agent);
    PairedSnoc(rows, row);
    ChainSnoc(rows, row);
  }

  lemma PromptAdded(c: Chat, p: seq<Row>, c': Chat)
    requires PromptsClosed(c) && Closed(p) && c'.prompts == c.prompts + [p]
    ensures PromptsClosed(c')
  {
    hide Chain, Open;
  }

  lemma ViewPrompt(rows: seq<Row>)
    requires Paired(rows) && !Open(rows)
    ensures Closed(HistoryRows(rows))
  {
    hide Uses, Answered, HistoryRows;
    ViewIsPaired(rows);
  }

  // ---------------------------------------------------------------- the three ends of one completion

  /** The state right after the k-th completion was stored. */
  function Told(w: World, agent: string, c: Chat): Chat {
    c.(prompts := c.prompts + [HistoryRows(c.rows)], calls := c.calls + 1,
       rows := Stored(c.rows, Assistant, w.reply(c.calls).blocks, agent))
  }

  /** A completion without calls ends the turn closed. */
  lemma FinalReply(w: World, agent: string, c: Chat)
    requires AtRest(w, c) && !Open(c.rows) && Uses(w.reply(c.calls).blocks) == []
    ensures AtRest(w, Told(w, agent, c)) && !Open(Told(w, agent, c).rows)
  {
    hide Uses, Answered, NextSequence, HistoryRows, Paired, Ledger;
    var c' := Told(w, agent, c);
    var row := Message(NextSequence(c.rows), Assistant, w.reply(c.calls).blocks, false, agent);
    ReplyPaired(c.rows, w.reply(c.calls).blocks, agent);
    ViewPrompt(c.rows);
    PromptAdded(c, HistoryRows(c.rows), c');
    QuietRow(w, c, row, c');
  }

  /** Ungated calls run at once and are answered by the next row. */
  lemma Exchanged(w: World, agent: string, c: Chat)
    requires FreshIds(w) && AtRest(w, c) && !Open(c.rows)
    requires var calls := Uses(w.reply(c.calls).blocks); calls != [] && !NeedsApproval(w, agent, calls)
    ensures var calls, told := Uses(w.reply(c.calls).blocks), Told(w, agent, c);
            var done := told.(rows := Stored(told.rows, User, Results(w, map[], calls), ""),
                              ran := c.ran + Executions(map[], Propose(agent, calls)));
            AtRest(w, done) && !Open(done.rows)
  {
    hide Uses, Answered, NextSequence, HistoryRows, Paired, Ledger, FreshIds, Executions, Proposals, Settled, Chain, Truthful, TellsAll;
    var calls, told := Uses(w.reply(c.calls).blocks), Told(w, agent, c);
    var row := Message(NextSequence(c.rows), Assistant, w.reply(c.calls).blocks, false, agent);
    var done := told.(rows := Stored(told.rows, User, Results(w, map[], calls), ""),
                      ran := c.ran + Executions(map[], Propose(agent, calls)));
    ReplyPaired(c.rows, w.reply(c.calls).blocks, agent);
    ViewPrompt(c.rows);
    PromptAdded(c, HistoryRows(c.rows), told);
    ReplyIdsFresh(w, c);
    ReplyStored(w, c.calls, agent, c.rows, row, c.approvals, c.approvals);
    ResultsAnswer(w, map[], calls, told.rows);
    ProposalsSnoc(c.rows, row);
    ClosedSettles(c.rows);
    ExecutionsConcat(c.approvals, Proposals(c.rows), Propose(agent, calls));
    ExecutionsAgree(map[], c.approvals, Propose(agent, calls));
    UndecidedTells(w, c.approvals, calls);
    ExchangeTells(w, c.approvals, c.rows, row, done.rows[|done.rows| - 1]);
  }

  lemma ReplyIdsFresh(w: World, c: Chat)
    requires FreshIds(w) && Ledger(w, c.calls, Proposals(c.rows), c.approvals)
    ensures Distinct(ReplyIds(w, c.calls))
    ensures forall id :: id in ReplyIds(w, c.calls) ==> id !in c.approvals
    ensures forall i :: 0 <= i < |Uses(w.reply(c.calls).blocks)| ==>
              Uses(w.reply(c.calls).blocks)[i].id !in c.approvals
  {
    hide Uses;
    forall id | id in c.approvals ensures id !in ReplyIds(w, c.calls) {
      var k: nat :| k < c.calls && id in ReplyIds(w, k);
    }
    var calls := Uses(w.reply(c.calls).blocks);
    forall i | 0 <= i < |calls| ensures calls[i].id !in c.approvals {
      assert ReplyIds(w, c.calls)[i] == calls[i].id;
    }
  }

  lemma AskIsClosed(view: seq<Row>, calls: seq<ToolCall>)
    requires Chain(view) && LastUses(view) == calls != []
    ensures Closed(AskForWords(view, calls))
  {
    hide Uses;
    var blocks := seq(|calls|, i requires 0 <= i < |calls| => Result(calls[i].id, Plain("awaiting approval"), false));
    forall i | 0 <= i < |calls| ensures blocks[i].useId == calls[i].id {
    }
    AnsweredInOrder(calls, blocks);
    UsesAppend(blocks, Text("write the words"));
    ChainSnoc(view, Message(0, User, blocks + [Text("write the words")], false, ""));
  }

  lemma {:induction false} AnsweredInOrder(calls: seq<ToolCall>, blocks: seq<Block>)
    requires |blocks| == |calls|
    requires forall i :: 0 <= i < |calls| ==> blocks[i].Result? && blocks[i].useId == calls[i].id
    ensures Answered(blocks) == CallIds(calls)
  {
    if calls != [] {
      var n := |calls| - 1;
      AnsweredInOrder(calls[..n], blocks[..n]);
      assert CallIds(calls) == CallIds(calls[..n]) + [calls[n].id];
    }
  }

  /** The row a suspension leaves last: the reply, with words put in if any. */
  function SuspendedRow(c: Chat, agent: string, reply: Reply): Row {
    var row := Message(NextSequence(c.rows), Assistant, reply.blocks, false, agent);
    if HasWords(reply.blocks) || reply.words == "" then row
    else row.(content := InsertWords(row.content, reply.words))
  }

  lemma SuspendRows(w: World, agent: string, c: Chat)
    requires Paired(c.rows) && !Open(c.rows) && PromptsClosed(c)
    requires Uses(w.reply(c.calls).blocks) != []
    ensures var reply := w.reply(c.calls);
            var s := Suspend(w, agent, Told(w, agent, c), reply);
            && s.rows == c.rows + [SuspendedRow(c, agent, reply)]
            && Paired(s.rows) && PromptsClosed(s)
            && RowUses(SuspendedRow(c, agent, reply)) == Uses(reply.blocks)
  {
    hide Uses, Answered, NextSequence, HistoryRows, AddTextToLastAssistant, InsertWords, HasWords, AskForWords;
    hide Paired, Chain, LastUses, Closed, Open, AddPending;
    var reply, told := w.reply(c.calls), Told(w, agent, c);
    var row := Message(NextSequence(c.rows), Assistant, reply.blocks, false, agent);
    ReplyPaired(c.rows, reply.blocks, agent);
    ViewPrompt(c.rows);
    PromptAdded(c, HistoryRows(c.rows), told);
    if !HasWords(reply.blocks) {
      ViewIsPaired(told.rows);
      AskIsClosed(HistoryRows(told.rows), Uses(reply.blocks));
      PromptAdded(told, AskForWords(HistoryRows(told.rows), Uses(reply.blocks)), Suspend(w, agent, told, reply));
      AddTextKeepsPaired(told.rows, reply.words);
      AddTextLast(c.rows, row, reply.words);
      InsertWordsKeepsCalls(reply.blocks, reply.words);
    }
  }

  /** A turn with a gated call stops before any of its calls runs, one pending
      row for each gated call and for no other. */
  lemma SuspendIsSafe(w: World, agent: string, c: Chat)
    requires FreshIds(w) && AtRest(w, c) && !Open(c.rows)
    requires NeedsApproval(w, agent, Uses(w.reply(c.calls).blocks))
    ensures var s := Suspend(w, agent, Told(w, agent, c), w.reply(c.calls));
            AtRest(w, s) && Open(s.rows) && s.ran == c.ran && RowsKept(c.approvals, s.approvals)
  {
    hide Uses, Answered, NextSequence, HistoryRows, Paired, Ledger, FreshIds, Executions, Proposals, Settled, Chain;
    hide AddTextToLastAssistant, InsertWords, HasWords, AskForWords, AddPending, GatesOpened, PromptsClosed, Truthful, TellsAll;
    var reply := w.reply(c.calls);
    var calls := Uses(reply.blocks);
    var s := Suspend(w, agent, Told(w, agent, c), reply);
    SuspendRows(w, agent, c);
    ReplyIdsFresh(w, c);
    AddPendingFacts(w, c.approvals, agent, calls);
    ReplyStored(w, c.calls, agent, c.rows, SuspendedRow(c, agent, reply), c.approvals, s.approvals);
    ChainSnoc(c.rows, SuspendedRow(c, agent, reply));
    GatedIsPending(w, agent, calls, c.approvals);
    TruthAgrees(w, c.approvals, s.approvals, c.rows);
    TruthSnoc(w, s.approvals, c.rows, SuspendedRow(c, agent, reply));
    assert forall id :: id in c.approvals ==> c.approvals[id].status != Pending;
  }

  lemma GatedIsPending(w: World, agent: string, calls: seq<ToolCall>, a: Approvals)
    requires Distinct(CallIds(calls)) && (forall i :: 0 <= i < |calls| ==> calls[i].id !in a)
    requires NeedsApproval(w, agent, calls)
    ensures HasPending(AddPending(w, a, agent, calls))
  {
    AddPendingFacts(w, a, agent, calls);
    var i :| 0 <= i < |calls| && calls[i].name in w.gated(agent);
    assert calls[i].id in AddPending(w, a, agent, calls);
  }

  // ---------------------------------------------------------------- whole turns

  /** A conversation turn leaves the transcript closed, or open and suspended. */
  lemma {:induction false} ConverseIsSafe(w: World, agent: string, c: Chat, iteration: nat)
    requires FreshIds(w) && AtRest(w, c) && !Open(c.rows) && iteration <= MAX_TOOL_ITERATIONS
    ensures var (c', e) := Converse(w, agent, c, iteration);
            && AtRest(w, c') && (e == Suspended <==> Open(c'.rows)) && c.ran <= c'.ran && RowsKept(c.approvals, c'.approvals)
            && e in {Completed, Suspended, InvalidOutput, TooManyIterations}
    decreases MAX_TOOL_ITERATIONS - iteration
  {
    hide Uses, Answered, NextSequence, HistoryRows, AtRest, FreshIds, Executions, Open, Suspend, Results;
    if iteration < MAX_TOOL_ITERATIONS {
      var reply, told := w.reply(c.calls), Told(w, agent, c);
      var calls := Uses(reply.blocks);
      if calls == [] {
        FinalReply(w, agent, c);
      } else if NeedsApproval(w, agent, calls) {
        SuspendIsSafe(w, agent, c);
      } else {
        Exchanged(w, agent, c);
        var done := told.(rows := Stored(told.rows, User, Results(w, map[], calls), ""),
                          ran := c.ran + Executions(map[], Propose(agent, calls)));
        if !EndsTurn(w, agent, map[], calls) {
          ConverseIsSafe(w, agent, done, iteration + 1);
        }
      }
    }
  }

  lemma {:induction false} FollowIsSafe(w: World, agent: string, c: Chat, ending: Ending, hops: nat)
    requires FreshIds(w) && AtRest(w, c) && hops <= MAX_HANDOFF_HOPS
    requires ending == Completed ==> !Open(c.rows)
    ensures var (c', e) := Follow(w, agent, c, ending, hops);
            && AtRest(w, c') && c.ran <= c'.ran && (ending == Suspended ==> c' == c) && RowsKept(c.approvals, c'.approvals)
            && (e == ending || e in {Completed, Suspended, InvalidOutput, TooManyIterations})
    decreases MAX_HANDOFF_HOPS - hops
  {
    hide FreshIds, Executions, Converse, Paired, Ledger, PromptsClosed, RowsKept, Open, Truthful, Safe;
    SameRowsKept(c.approvals);
    if ending == Completed && hops < MAX_HANDOFF_HOPS {
      var next, asked := w.resolve(c.consults), c.(consults := c.consults + 1);
      assert AtRest(w, asked) by { ConsultsDontMatter(w, c, asked); }
      if next != agent {
        ConverseIsSafe(w, next, asked, 0);
        var (c', e) := Converse(w, next, asked, 0);
        FollowIsSafe(w, next, c', e, hops + 1);
        KeptTwice(c.approvals, c'.approvals, Follow(w, next, c', e, hops + 1).0.approvals);
      }
    }
  }

  lemma ConsultsDontMatter(w: World, c: Chat, c': Chat)
    requires Safe(w, c) && c' == c.(consults := c'.consults)
    ensures Safe(w, c') && (AtRest(w, c) ==> AtRest(w, c'))
  {
    hide Paired, Ledger, Executions, Open, Truthful;
  }

  lemma CompactedIsSafe(w: World, c: Chat, g: Gauge)
    requires AtRest(w, c) && !Open(c.rows)
    ensures AtRest(w, Compacted(c, g)) && !Open(Compacted(c, g).rows)
    ensures Compacted(c, g).ran == c.ran && Compacted(c, g).approvals == c.approvals
  {
    hide Uses, Answered, HistoryRows, Ledger, Executions, Chain, LastCallTokens;
    var view := HistoryRows(c.rows);
    if Due(view, g) {
      var k := CutPoint(view);
      var marker := MarkerFor(c.rows, view[..k]);
      CompactionCutsClosed(c.rows, g);
      PromptAdded(c, view[..k], Compacted(c, g));
      QuietRow(w, c, marker, Compacted(c, g));
    }
  }

  /** What a user may send: text, attachments and host context only. */
  predicate UserContent(content: seq<Block>) {
    forall i :: 0 <= i < |content| ==> content[i].Text? || content[i].Media? || content[i].Context?
  }

  lemma {:induction false} UserContentAnswersNothing(content: seq<Block>)
    requires UserContent(content)
    ensures Answered(content) == []
  {
    if content != [] { UserContentAnswersNothing(content[..|content| - 1]); }
  }

  lemma UserSaid(w: World, c: Chat, content: seq<Block>)
    requires AtRest(w, c) && !Open(c.rows) && UserContent(content)
    ensures var c' := c.(rows := Stored(c.rows, User, content, ""));
            AtRest(w, c') && !Open(c'.rows)
  {
    hide Uses, Answered, NextSequence, Ledger, Executions, Chain;
    UserContentAnswersNothing(content);
    NextSequenceIsLength(c.rows);
    var row := Message(NextSequence(c.rows), User, content, false, "");
    PairedSnoc(c.rows, row);
    QuietRow(w, c, row, c.(rows := c.rows + [row]));
  }

  lemma SendIsSafe(w: World, c: Chat, content: seq<Block>, g: Gauge)
    requires FreshIds(w) && AtRest(w, c) && UserContent(content)
    ensures AtRest(w, HandleSend(w, c, content, g).0) && c.ran <= HandleSend(w, c, content, g).0.ran
    ensures RowsKept(c.approvals, HandleSend(w, c, content, g).0.approvals)
  {
    hide FreshIds, Executions, Converse, Follow, Compacted, Open, Paired, Ledger, PromptsClosed, Stored, Safe;
    if !HasPending(c.approvals) {
      var asked := c.(consults := c.consults + 1);
      ConsultsDontMatter(w, c, asked);
      CompactedIsSafe(w, asked, g);
      var ready, agent := Compacted(asked, g), w.resolve(c.consults);
      UserSaid(w, ready, content);
      var said := if content == [] then ready else ready.(rows := Stored(ready.rows, User, content, ""));
      ConverseIsSafe(w, agent, said, 0);
      var (c', e) := Converse(w, agent, said, 0);
      FollowIsSafe(w, agent, c', e, 0);
    }
  }

  // ---------------------------------------------------------------- decisions

  lemma DecidedFacts(a: Approvals, id: string, v: Verdict)
    requires id in a && a[id].status == Pending
    ensures var r := Decided(a, id, v);
            && r.Keys == a.Keys
            && (forall k :: k in a && a[k].status != Pending ==> r[k] == a[k])
            && r[id].status != Pending
            && (forall k :: k in a ==> r[k].name == a[k].name && r[k].agent == a[k].agent)
            && (forall k :: k in a && r[k].status == Pending ==> r[k] == a[k])
  {
  }

  lemma LedgerDecided(w: World, n: nat, ps: seq<Proposal>, a: Approvals, id: string, v: Verdict)
    requires Ledger(w, n, ps, a) && id in a && a[id].status == Pending
    ensures Ledger(w, n, ps, Decided(a, id, v))
  {
    hide Decided, Issued, IsGated;
    DecidedFacts(a, id, v);
  }

  lemma SplitProposals(rows: seq<Row>)
    requires rows != []
    ensures Proposals(rows) == Settled(rows) + RowProposals(rows[|rows| - 1])
    ensures RowProposals(rows[|rows| - 1]) == [] || rows[|rows| - 1].Message?
  {
  }

  /** A pending call is none of those already answered. */
  lemma SettledNotPending(w: World, c: Chat, i: nat)
    requires Ledger(w, c.calls, Proposals(c.rows), c.approvals) && PendingIsOpen(c) && i < |Settled(c.rows)|
    ensures Settled(c.rows)[i].call.id in c.approvals ==> c.approvals[Settled(c.rows)[i].call.id].status != Pending
  {
    hide Uses, Answered, Issued;
    var id, n := Settled(c.rows)[i].call.id, |Settled(c.rows)|;
    SplitProposals(c.rows);
    var calls := LastUses(c.rows);
    if id in CallIds(calls) {
      var j :| 0 <= j < |calls| && CallIds(calls)[j] == id;
      assert Proposals(c.rows)[n + j].call == calls[j];
      assert Proposals(c.rows)[i] == Settled(c.rows)[i];
    }
  }

  /** Recording a decision touches nothing that already ran. */
  lemma DecisionIsSafe(w: World, c: Chat, id: string, v: Verdict)
    requires AtRest(w, c)
    ensures id in c.approvals && c.approvals[id].status == Pending ==>
              Safe(w, c.(approvals := Decided(c.approvals, id, v))) && Open(c.rows)
  {
    hide Uses, Answered, Ledger, Decided, Paired, Proposals, LastUses, Truthful;
    var a, ps := c.approvals, Settled(c.rows);
    if id in a && a[id].status == Pending {
      var r := Decided(a, id, v);
      DecidedFacts(a, id, v);
      LedgerDecided(w, c.calls, Proposals(c.rows), a, id, v);
      forall i | 0 <= i < |ps| ensures ps[i].call.id in a ==> r[ps[i].call.id] == a[ps[i].call.id] {
        SettledNotPending(w, c, i);
      }
      assert Agree(a, r, ps);
      ExecutionsAgree(a, r, ps);
      TruthAgrees(w, a, r, c.rows);
      assert forall k :: k in r && r[k].status == Pending ==> a[k].status == Pending;
    }
  }

  // ---------------------------------------------------------------- resuming

  lemma ResolvedAgrees(a: Approvals)
    requires !HasPending(a)
    ensures Resolved(a) == a
  {
  }

  /** The turn a resume finds: the suspended assistant row, so neither guard of
      `resume` ever fires. */
  lemma ResumeFindsTurn(w: World, c: Chat)
    requires Safe(w, c) && Open(c.rows)
    ensures var h := HistoryRows(c.rows);
            && h != [] && h[|h| - 1] == c.rows[|c.rows| - 1]
            && h[|h| - 1].Message? && h[|h| - 1].role == Assistant
            && Uses(h[|h| - 1].content) == LastUses(c.rows)
  {
    hide Uses, Answered, HistoryRows, Paired;
    ViewEndsInLastRow(c.rows);
  }

  lemma AnsweredTurn(w: World, c: Chat)
    requires Safe(w, c) && Open(c.rows) && !HasPending(c.approvals)
    ensures var last, calls, d := c.rows[|c.rows| - 1], LastUses(c.rows), Resolved(c.approvals);
            last.Message? &&
            var done := c.(rows := Stored(c.rows, User, Results(w, d, calls), ""),
                           ran := c.ran + Executions(d, Propose(last.speaker, calls)));
            AtRest(w, done) && !Open(done.rows)
  {
    hide Uses, Answered, Executions, Ledger, Paired, NextSequence, Results, Resolved, Proposals, Settled, Truthful, TellsAll;
    var last, calls, d := c.rows[|c.rows| - 1], LastUses(c.rows), Resolved(c.approvals);
    var done := c.(rows := Stored(c.rows, User, Results(w, d, calls), ""),
                   ran := c.ran + Executions(d, Propose(last.speaker, calls)));
    ResolvedAgrees(c.approvals);
    ResultsAnswer(w, d, calls, c.rows);
    SplitProposals(c.rows);
    ExecutionsConcat(c.approvals, Settled(c.rows), RowProposals(last));
    ResultsTell(w, d, calls);
    TruthSnoc(w, c.approvals, c.rows, done.rows[|done.rows| - 1]);
  }

  lemma ResumeIsSafe(w: World, agent: string, c: Chat)
    requires FreshIds(w) && Safe(w, c) && Open(c.rows) && !HasPending(c.approvals)
    ensures var (c', e) := Resume(w, agent, c);
            && AtRest(w, c') && c.ran <= c'.ran && e != BadHistory && e != AwaitingApproval
            && (e == Suspended <==> Open(c'.rows)) && RowsKept(c.approvals, c'.approvals)
  {
    hide Uses, Answered, Executions, Safe, Converse, FreshIds, HistoryRows, Stored, Results, Resolved, Open, LastUses;
    ResumeFindsTurn(w, c);
    AnsweredTurn(w, c);
    OpenHasCalls(c.rows);
    var last, calls, d := c.rows[|c.rows| - 1], LastUses(c.rows), Resolved(c.approvals);
    var done := c.(rows := Stored(c.rows, User, Results(w, d, calls), ""),
                   ran := c.ran + Executions(d, Propose(last.speaker, calls)));
    if ShouldReinvoke(calls, d) { ConverseIsSafe(w, agent, done, 0); }
  }

  lemma {:induction false} ConverseCallsModel(w: World, agent: string, c: Chat, iteration: nat)
    requires iteration <= MAX_TOOL_ITERATIONS
    ensures Converse(w, agent, c, iteration).0.calls >= c.calls + (if iteration < MAX_TOOL_ITERATIONS then 1 else 0)
    decreases MAX_TOOL_ITERATIONS - iteration
  {
    hide Uses, HistoryRows, Results, Executions, Stored, AddPending, AddTextToLastAssistant, AskForWords, HasWords;
    if iteration < MAX_TOOL_ITERATIONS {
      var calls, told := Uses(w.reply(c.calls).blocks), Told(w, agent, c);
      if calls != [] && !NeedsApproval(w, agent, calls) && !EndsTurn(w, agent, map[], calls) {
        var done := told.(rows := Stored(told.rows, User, Results(w, map[], calls), ""),
                          ran := c.ran + Executions(map[], Propose(agent, calls)));
        ConverseCallsModel(w, agent, done, iteration + 1);
      }
    }
  }

  /** A resumed turn calls no model if and only if every one of its calls was
      rejected without a reason. */
  lemma SilentRejectionEndsTheTurn(w: World, agent: string, c: Chat)
    requires Safe(w, c) && Open(c.rows) && !HasPending(c.approvals)
    ensures Resume(w, agent, c).0.calls == c.calls <==>
            forall i :: 0 <= i < |LastUses(c.rows)| ==>
              IsRejected(c.approvals, LastUses(c.rows)[i].id) && c.approvals[LastUses(c.rows)[i].id].reason == ""
  {
    hide Uses, Answered, Executions, Safe, Converse, HistoryRows, Stored, Results, Resolved, Open, LastUses;
    ResumeFindsTurn(w, c);
    OpenHasCalls(c.rows);
    ResolvedAgrees(c.approvals);
    var last, calls, d := c.rows[|c.rows| - 1], LastUses(c.rows), Resolved(c.approvals);
    var done := c.(rows := Stored(c.rows, User, Results(w, d, calls), ""),
                   ran := c.ran + Executions(d, Propose(last.speaker, calls)));
    ConverseCallsModel(w, agent, done, 0);
  }

  lemma OpenHasCalls(rows: seq<Row>)
    requires Open(rows)
    ensures rows != [] && LastUses(rows) != []
  {
    hide Uses;
  }

  /** The resumed turn with its handoffs, once nothing is pending. */
  lemma GoOnIsSafe(w: World, c: Chat, proposer: string)
    requires FreshIds(w) && Safe(w, c) && Open(c.rows) && !HasPending(c.approvals)
    ensures var (c', e) := GoOn(w, c, proposer);
            AtRest(w, c') && c.ran <= c'.ran && e != BadHistory && e != AwaitingApproval && RowsKept(c.approvals, c'.approvals)
  {
    hide FreshIds, Executions, Resume, Follow, Open, Paired, Ledger, PromptsClosed, AtRest, Safe, RowsKept;
    var keeps := proposer != "" && w.known(proposer);
    var agent := if keeps then proposer else w.resolve(c.consults);
    var ready := if keeps then c else c.(consults := c.consults + 1);
    ConsultsDontMatter(w, c, ready);
    ResumeIsSafe(w, agent, ready);
    var (c', e) := Resume(w, agent, ready);
    FollowIsSafe(w, agent, c', e, 0);
    KeptTwice(c.approvals, c'.approvals, Follow(w, agent, c', e, 0).0.approvals);
  }

  lemma SameRowsKept(a: Approvals)
    ensures RowsKept(a, a)
  {
  }

  lemma KeptTwice(a: Approvals, b: Approvals, c: Approvals)
    requires RowsKept(a, b) && RowsKept(b, c)
    ensures RowsKept(a, c)
  {
  }

  /** A decision is recorded as given and for good, its correction reaches
      every pending sibling, and the turn resumes exactly when nothing is left
      pending; until then no row of the transcript changes and nothing runs. */
  lemma DecideIsSafe(w: World, c: Chat, id: string, v: Verdict)
    requires FreshIds(w) && AtRest(w, c)
    ensures var (c', e) := HandleDecide(w, c, id, v);
            && AtRest(w, c') && c.ran <= c'.ran && e != BadHistory
            && DecisionsKept(c.approvals, c'.approvals)
            && (id in c.approvals && c.approvals[id].status == Pending ==>
                  && RowsKept(Decided(c.approvals, id, v), c'.approvals)
                  && (e == AwaitingApproval <==> HasPending(Decided(c.approvals, id, v)))
                  && (e == AwaitingApproval ==> c'.rows == c.rows && c'.ran == c.ran && c'.calls == c.calls))
  {
    hide FreshIds, Executions, GoOn, Open, Paired, Ledger, PromptsClosed, Decided, Safe, Proposals, Settled;
    if id in c.approvals && c.approvals[id].status == Pending {
      DecisionIsSafe(w, c, id, v);
      DecidedFacts(c.approvals, id, v);
      var settled := c.(approvals := Decided(c.approvals, id, v));
      if HasPending(settled.approvals) {
        assert Open(settled.rows);
      } else {
        GoOnIsSafe(w, settled, c.approvals[id].agent);
      }
    }
  }

  lemma NotBlank(s: string)
    ensures Blank(s) <==> !(exists i :: 0 <= i < |s| && s[i] !in " \t\n\r")
  {
  }

  /** A whole decision request, through resume and handoffs: the decided row
      ends as the verdict says; a correction leaves every sibling that was
      pending rejected with the same reason, and the turn resumed; any other
      verdict leaves each sibling as it was. */
  lemma DecisionIsAsGiven(w: World, c: Chat, id: string, v: Verdict, k: string)
    requires FreshIds(w) && AtRest(w, c)
    ensures id in c.approvals && c.approvals[id].status == Pending && k in c.approvals ==>
              var (c', e) := HandleDecide(w, c, id, v);
              var a, r := c.approvals, c'.approvals;
              && id in r && k in r && r[k].name == a[k].name && r[k].agent == a[k].agent
              && (v.Approve? ==> r[id].status == Approved && r[id].reason == v.reason
                                 && r[id].input == if v.input.Some? then v.input.value else a[id].input)
              && (v.Reject? ==> r[id].status == Rejected && r[id].reason == v.reason && r[id].input == a[id].input)
              && var corrects := v.Reject? && exists i :: 0 <= i < |v.reason| && v.reason[i] !in " \t\n\r";
              && (corrects ==> e != AwaitingApproval)
              && (corrects && a[k].status == Pending ==> r[k] == a[k].(status := Rejected, reason := v.reason))
              && (k != id && (a[k].status != Pending || !corrects) ==> r[k] == a[k])
  {
    hide AtRest, FreshIds, HandleDecide;
    DecideIsSafe(w, c, id, v);
    if id in c.approvals && c.approvals[id].status == Pending && k in c.approvals {
      NotBlank(v.reason);
      hide Blank;
      var r := Decided(c.approvals, id, v);
      assert id in r && k in r;
    }
  }

  // ---------------------------------------------------------------- every run

  predicate Admissible(r: Request) {
    r.Send? ==> UserContent(r.content)
  }

  lemma EmptyIsAtRest(w: World)
    ensures AtRest(w, EMPTY)
  {
  }

  /** Whatever the model, the tools, the resolver and the user do: after every
      request the conversation is at rest, and nothing that ran is forgotten. */
  lemma {:induction false} RunsStayAtRest(w: World, requests: seq<Request>)
    requires FreshIds(w)
    requires forall i :: 0 <= i < |requests| ==> Admissible(requests[i])
    ensures AtRest(w, ChatAfter(w, requests))
    ensures requests != [] ==> ChatAfter(w, requests[..|requests| - 1]).ran <= ChatAfter(w, requests).ran
  {
    hide FreshIds, AtRest, HandleSend, HandleDecide;
    if requests == [] {
      EmptyIsAtRest(w);
    } else {
      var init, last := requests[..|requests| - 1], requests[|requests| - 1];
      RunsStayAtRest(w, init);
      match last
      case Send(content, g) => SendIsSafe(w, ChatAfter(w, init), content, g);
      case Decide(id, v) => DecideIsSafe(w, ChatAfter(w, init), id, v);
    }
  }

  /** A gated handler ran only if its row is approved, with that row's inputs
      when they are non-empty; every other handler ran with its own. */
  lemma OnlyApprovedCallsRan(w: World, requests: seq<Request>)
    requires FreshIds(w)
    requires forall i :: 0 <= i < |requests| ==> Admissible(requests[i])
    ensures var c := ChatAfter(w, requests);
            forall k :: 0 <= k < |c.ran| ==> RanAsDecided(w, c.approvals, c.ran[k])
  {
    hide FreshIds, ChatAfter, Paired, PromptsClosed, Executions, Proposals, Settled, RanAsDecided;
    RunsStayAtRest(w, requests);
    var c := ChatAfter(w, requests);
    ExecutionsSound(c.approvals, Settled(c.rows));
    SettledIsPrefix(c.rows);
    forall k | 0 <= k < |c.ran| ensures RanAsDecided(w, c.approvals, c.ran[k]) {
      var i :| 0 <= i < |Settled(c.rows)| && Settled(c.rows)[i] == c.ran[k].proposal;
      assert Proposals(c.rows)[i] == c.ran[k].proposal;
      SettledNotPending(w, c, i);
      SettledRanAsDecided(w, c.approvals, c.ran[k]);
    }
  }

  ghost predicate RanAsDecided(w: World, a: Approvals, e: Execution) {
    var call := e.proposal.call;
    && (IsGated(w, e.proposal) ==>
          && call.id in a && a[call.id].status == Approved
          && e.input == if a[call.id].input != map[] then a[call.id].input else call.input)
    && (!IsGated(w, e.proposal) ==> call.id !in a && e.input == call.input)
  }

  lemma SettledRanAsDecided(w: World, a: Approvals, e: Execution)
    requires IsGated(w, e.proposal) <==> e.proposal.call.id in a
    requires e.proposal.call.id in a ==> a[e.proposal.call.id].status != Pending
    requires !IsRejected(a, e.proposal.call.id) && e.input == RunInput(a, e.proposal.call)
    ensures RanAsDecided(w, a, e)
  {
  }

  /** Every call with a row after it is answered there, at its own position, and
      told what became of it: that it was not run, and why, exactly when it was
      rejected; otherwise what its handler said, with the inputs exactly when
      the user corrected them. */
  lemma AnswersAreTrue(w: World, requests: seq<Request>, i: nat, k: nat)
    requires FreshIds(w)
    requires forall n :: 0 <= n < |requests| ==> Admissible(requests[n])
    requires var rows := ChatAfter(w, requests).rows; i + 1 < |rows| && k < |RowUses(rows[i])|
    ensures var c := ChatAfter(w, requests);
            var answers := c.rows[i + 1];
            && answers.Message? && answers.role == User && |answers.content| == |RowUses(c.rows[i])|
            && Tells(w, c.approvals, RowUses(c.rows[i])[k], answers.content[k])
  {
    hide FreshIds, ChatAfter, Paired, Tells, Uses, Answered;
    RunsStayAtRest(w, requests);
    var c := ChatAfter(w, requests);
    TruthAt(w, c.approvals, c.rows, i);
    assert Chain(c.rows) by { assert Paired(c.rows); PairedIsChained(c.rows); }
    ChainAt(c.rows, i);
  }

  lemma PairedIsChained(rows: seq<Row>)
    requires Paired(rows)
    ensures Chain(rows)
  {
  }

  lemma {:induction false} TruthAt(w: World, a: Approvals, rows: seq<Row>, i: nat)
    requires Truthful(w, a, rows) && i + 1 < |rows|
    ensures AnswersTell(w, a, RowUses(rows[i]), rows[i + 1])
    decreases |rows|
  {
    hide AnswersTell, RowUses;
    if i + 2 < |rows| { TruthAt(w, a, rows[..|rows| - 1], i); }
  }

  /** A pending row and its call, at the end of the transcript. */
  lemma PendingIsACall(w: World, c: Chat, id: string)
    requires AtRest(w, c)
    ensures id in c.approvals && c.approvals[id].status == Pending ==> WaitsAs(w, c, id)
  {
    hide Uses, Answered, Paired, Truthful, PromptsClosed, Issued, Executions;
    if id in c.approvals && c.approvals[id].status == Pending {
      var calls, n := LastUses(c.rows), |Settled(c.rows)|;
      SplitProposals(c.rows);
      assert id in CallIds(calls);
      var k :| 0 <= k < |calls| && CallIds(calls)[k] == id;
      var p := Proposals(c.rows)[n + k];
      assert p == Proposal(c.rows[|c.rows| - 1].speaker, calls[k]);
      assert IsGated(w, p) && AsAsked(p, c.approvals[id]);
    }
  }

  /** Row `id` is that of a gated call of the last turn, as it was proposed. */
  ghost predicate WaitsAs(w: World, c: Chat, id: string) {
    && id in c.approvals && c.rows != [] && c.rows[|c.rows| - 1].Message?
    && var agent := c.rows[|c.rows| - 1].speaker;
    exists k :: 0 <= k < |LastUses(c.rows)| &&
      var call := LastUses(c.rows)[k];
      && call.id == id && call.name in w.gated(agent)
      && c.approvals[id] == Approval(call.name, call.input, agent, Pending, "")
  }

  /** What waits for the user is a call of the last turn, shown as proposed. */
  lemma PendingShowsItsCall(w: World, requests: seq<Request>, id: string)
    requires FreshIds(w)
    requires forall n :: 0 <= n < |requests| ==> Admissible(requests[n])
    ensures var c := ChatAfter(w, requests);
            id in c.approvals && c.approvals[id].status == Pending ==> WaitsAs(w, c, id)
  {
    hide FreshIds, ChatAfter, AtRest, WaitsAs;
    RunsStayAtRest(w, requests);
    PendingIsACall(w, ChatAfter(w, requests), id);
  }

  /** Decisions are final: a resolved row is the same after any further
      requests, so a call the user rejected never runs, whatever follows. */
  lemma {:induction false} DecisionsAreFinal(w: World, requests: seq<Request>, more: seq<Request>)
    requires FreshIds(w)
    requires forall i :: 0 <= i < |requests| ==> Admissible(requests[i])
    requires forall i :: 0 <= i < |more| ==> Admissible(more[i])
    ensures var c, later := ChatAfter(w, requests), ChatAfter(w, requests + more);
            && DecisionsKept(c.approvals, later.approvals) && c.ran <= later.ran
            && forall id, k :: IsRejected(c.approvals, id) && 0 <= k < |later.ran| ==> later.ran[k].proposal.call.id != id
    decreases |more|
  {
    hide FreshIds, AtRest, HandleSend, HandleDecide, DecisionsKept;
    var c, later := ChatAfter(w, requests), ChatAfter(w, requests + more);
    if more == [] {
      assert requests + more == requests;
      KeptByItself(c.approvals);
    } else {
      var init, last := more[..|more| - 1], more[|more| - 1];
      assert (requests + more)[..|requests + more| - 1] == requests + init;
      DecisionsAreFinal(w, requests, init);
      RunsStayAtRest(w, requests + init);
      OneMoreRequest(w, ChatAfter(w, requests + init), last);
      DecisionsKeptTwice(c.approvals, ChatAfter(w, requests + init).approvals, later.approvals);
    }
    forall id, k | IsRejected(c.approvals, id) && 0 <= k < |later.ran| ensures later.ran[k].proposal.call.id != id {
      StaysRejected(c.approvals, later.approvals, id);
      RejectedNeverRan(w, requests + more, id);
    }
  }

  lemma KeptByItself(a: Approvals)
    ensures DecisionsKept(a, a)
  {
  }

  lemma StaysRejected(a: Approvals, b: Approvals, id: string)
    requires DecisionsKept(a, b) && IsRejected(a, id)
    ensures IsRejected(b, id)
  {
  }

  lemma RejectedNeverRan(w: World, requests: seq<Request>, id: string)
    requires FreshIds(w)
    requires forall i :: 0 <= i < |requests| ==> Admissible(requests[i])
    ensures var c := ChatAfter(w, requests);
            IsRejected(c.approvals, id) ==> forall k :: 0 <= k < |c.ran| ==> c.ran[k].proposal.call.id != id
  {
    hide FreshIds, ChatAfter;
    OnlyApprovedCallsRan(w, requests);
    forall k | 0 <= k < |ChatAfter(w, requests).ran| && IsRejected(ChatAfter(w, requests).approvals, id)
      ensures ChatAfter(w, requests).ran[k].proposal.call.id != id
    {
      assert RanAsDecided(w, ChatAfter(w, requests).approvals, ChatAfter(w, requests).ran[k]);
    }
  }

  lemma DecisionsKeptTwice(a: Approvals, b: Approvals, c: Approvals)
    requires DecisionsKept(a, b) && DecisionsKept(b, c)
    ensures DecisionsKept(a, c)
  {
  }

  lemma OneMoreRequest(w: World, c: Chat, r: Request)
    requires FreshIds(w) && AtRest(w, c) && Admissible(r)
    ensures var c' := Handle(w, c, r).0; AtRest(w, c') && c.ran <= c'.ran && DecisionsKept(c.approvals, c'.approvals)
  {
    hide FreshIds, AtRest, HandleSend, HandleDecide;
    match r
    case Send(content, g) => SendIsSafe(w, c, content, g);
    case Decide(id, v) => DecideIsSafe(w, c, id, v);
  }

  lemma SettledIsPrefix(rows: seq<Row>)
    ensures Settled(rows) <= Proposals(rows)
  {
  }

  /** No tool-use id ever runs twice; a call that is still waiting has not run;
      and every answered call that was not rejected did run. */
  lemma EachCallRunsOnce(w: World, requests: seq<Request>)
    requires FreshIds(w)
    requires forall i :: 0 <= i < |requests| ==> Admissible(requests[i])
    ensures var c := ChatAfter(w, requests);
            && (forall i, j :: 0 <= i < j < |c.ran| ==> c.ran[i].proposal.call.id != c.ran[j].proposal.call.id)
            && (forall i, id :: 0 <= i < |c.ran| && id in CallIds(LastUses(c.rows)) ==> c.ran[i].proposal.call.id != id)
            && (forall i :: 0 <= i < |Settled(c.rows)| && !IsRejected(c.approvals, Settled(c.rows)[i].call.id) ==>
                  Execution(Settled(c.rows)[i], RunInput(c.approvals, Settled(c.rows)[i].call)) in c.ran)
  {
    hide FreshIds, ChatAfter, Paired, PromptsClosed, Executions, Proposals, Settled, LastUses;
    RunsStayAtRest(w, requests);
    var c := ChatAfter(w, requests);
    var ps := Settled(c.rows);
    SettledIsPrefix(c.rows);
    assert forall i :: 0 <= i < |ps| ==> Proposals(c.rows)[i] == ps[i];
    ExecutionsDistinct(c.approvals, ps);
    ExecutionsSound(c.approvals, ps);
    forall i, id | 0 <= i < |c.ran| && id in CallIds(LastUses(c.rows)) ensures c.ran[i].proposal.call.id != id {
      var j :| 0 <= j < |ps| && ps[j] == c.ran[i].proposal;
      WaitingIsNotSettled(w, c, j, id);
    }
  }

  lemma WaitingIsNotSettled(w: World, c: Chat, i: nat, id: string)
    requires Ledger(w, c.calls, Proposals(c.rows), c.approvals) && i < |Settled(c.rows)|
    requires id in CallIds(LastUses(c.rows))
    ensures Settled(c.rows)[i].call.id != id
  {
    hide Uses, Answered, Issued;
    var n, calls := |Settled(c.rows)|, LastUses(c.rows);
    SplitProposals(c.rows);
    var j :| 0 <= j < |calls| && CallIds(calls)[j] == id;
    assert Proposals(c.rows)[n + j].call == calls[j];
    assert Proposals(c.rows)[i] == Settled(c.rows)[i];
  }

  /** Every list ever sent to a model, and the transcript between requests, is
      well paired; the one exception is the last turn while it is suspended. */
  lemma TranscriptStaysPaired(w: World, requests: seq<Request>)
    requires FreshIds(w)
    requires forall i :: 0 <= i < |requests| ==> Admissible(requests[i])
    ensures var c := ChatAfter(w, requests);
            && Chain(c.rows) && (Open(c.rows) <==> HasPending(c.approvals))
            && (forall id :: id in c.approvals && c.approvals[id].status == Pending ==> id in CallIds(LastUses(c.rows)))
            && forall i :: 0 <= i < |c.prompts| ==> Closed(c.prompts[i])
  {
    hide FreshIds, ChatAfter;
    RunsStayAtRest(w, requests);
  }
}
