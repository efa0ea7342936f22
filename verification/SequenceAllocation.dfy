/** Optimistic sequence allocation: several sessions read MAX + 1, insert, and
    start over when another session took the number first. An operation is one
    emit or one message save; any number of them interleave step by step. */
module SequenceAllocation {
  import opened Sequences
  import opened Wrappers

  const MAX_RETRIES := 32

  /** A committed row: which operation wrote it and the number it took. */
  datatype Entry = Entry(op: nat, number: nat)

  datatype Phase =
    | Idle
    | Reading(dbMax: nat)
    | Holding(number: nat)
    | Committed(number: nat)
    | Failed

  /** `tried` lists the numbers lost so far; `start` is how many rows were
      committed when the operation began; `mark` is the high-water mark its
      latest attempt read. */
  datatype Op = Op(phase: Phase, tried: seq<nat>, start: nat, mark: nat)

  /** `log` holds the rows of one scope in commit order. `mark` is the Redis
      high-water mark, 0 when absent; a message save never reads it. */
  datatype State = State(log: seq<Entry>, mark: nat, ops: seq<Op>)

  datatype Step =
    | Begin
    | ReadDb(op: nat)
    | ReadMark(op: nat)
    | Insert(op: nat)
    | SetMark(value: nat)

  function DbMax(log: seq<Entry>): nat {
    if log == [] then 0
    else
      var rest, last := DbMax(log[..|log| - 1]), log[|log| - 1].number;
      if last > rest then last else rest
  }

  predicate Taken(log: seq<Entry>, number: nat) {
    exists k :: 0 <= k < |log| && log[k].number == number
  }

  /** What an insert does to its operation: the unique constraint decides. */
  function Inserted(log: seq<Entry>, op: Op): Op
    requires op.phase.Holding?
  {
    var n := op.phase.number;
    if !Taken(log, n) then op.(phase := Committed(n))
    else op.(tried := op.tried + [n], phase := if |op.tried| + 1 == MAX_RETRIES then Failed else Idle)
  }

  /** A step of an operation not in the right phase changes nothing. */
  function Apply(s: State, step: Step): State {
    match step
    case Begin => s.(ops := s.ops + [Op(Idle, [], |s.log|, 0)])
    case SetMark(m) => s.(mark := m)
    case ReadDb(i) =>
      if i < |s.ops| && s.ops[i].phase.Idle?
      then s.(ops := s.ops[i := s.ops[i].(phase := Reading(DbMax(s.log)))]) else s
    case ReadMark(i) =>
      if i < |s.ops| && s.ops[i].phase.Reading?
      then s.(ops := s.ops[i := s.ops[i].(phase := Holding(Max(s.ops[i].phase.dbMax, s.mark) + 1), mark := s.mark)]) else s
    case Insert(i) =>
      if i < |s.ops| && s.ops[i].phase.Holding? then
        var op := Inserted(s.log, s.ops[i]);
        State(if op.phase.Committed? then s.log + [Entry(i, op.phase.number)] else s.log, s.mark, s.ops[i := op])
      else s
  }

  const EMPTY := State([], 0, [])

  function RunFrom(s: State, steps: seq<Step>): State {
    if steps == [] then s
    else Apply(RunFrom(s, steps[..|steps| - 1]), steps[|steps| - 1])
  }

  lemma {:induction false} RunFromConcat(s: State, a: seq<Step>, b: seq<Step>)
    ensures RunFrom(s, a + b) == RunFrom(RunFrom(s, a), b)
    decreases |b|
  {
    if b == [] {
      assert a + b == a;
    } else {
      var init := b[..|b| - 1];
      RunFromConcat(s, a, init);
      assert (a + b)[..|a + b| - 1] == a + init;
    }
  }

  // ---------------------------------------------------------------- what every step keeps

  ghost predicate Unique(log: seq<Entry>) {
    forall i, j :: 0 <= i < j < |log| ==> log[i].number != log[j].number
  }

  /** Number `t` was committed by another operation, at or after `start`. */
  ghost predicate LostTo(log: seq<Entry>, start: nat, i: nat, t: nat) {
    exists k :: start <= k < |log| && log[k].number == t && log[k].op != i
  }

  /** An operation's numbers rise above everything it has already lost. */
  ghost predicate OpSound(s: State, i: nat)
    requires i < |s.ops|
  {
    var op := s.ops[i];
    && op.start <= |s.log|
    && Rising(op.tried)
    && (forall k :: 0 <= k < |op.tried| ==> LostTo(s.log, op.start, i, op.tried[k]))
    && |op.tried| <= MAX_RETRIES
    && (op.phase.Failed? <==> |op.tried| == MAX_RETRIES)
    && (op.phase.Holding? ==>
          && (forall k :: 0 <= k < |op.tried| ==> op.tried[k] < op.phase.number)
          && (forall k :: 0 <= k < op.start ==> s.log[k].number < op.phase.number))
    && (op.phase.Reading? ==>
          && (forall k :: 0 <= k < |op.tried| ==> op.tried[k] <= op.phase.dbMax)
          && (forall k :: 0 <= k < op.start ==> s.log[k].number <= op.phase.dbMax))
    && (forall k :: 0 <= k < |s.log| && s.log[k].op == i ==> op.phase == Committed(s.log[k].number))
  }

  ghost predicate Inv(s: State) {
    && Unique(s.log)
    && (forall k :: 0 <= k < |s.log| ==> s.log[k].op < |s.ops|)
    && forall i :: 0 <= i < |s.ops| ==> OpSound(s, i)
  }

  lemma {:induction false} DbMaxBounds(log: seq<Entry>, k: nat)
    requires k < |log|
    ensures log[k].number <= DbMax(log)
    decreases |log|
  {
    if k < |log| - 1 { DbMaxBounds(log[..|log| - 1], k); }
  }

  lemma ReadSound(s: State, i: nat)
    requires Inv(s) && i < |s.ops| && s.ops[i].phase.Idle?
    ensures OpSound(Apply(s, ReadDb(i)), i)
  {
    hide DbMax;
    var op := s.ops[i];
    assert OpSound(s, i);
    forall k | 0 <= k < |s.log| ensures s.log[k].number <= DbMax(s.log) { DbMaxBounds(s.log, k); }
    forall k | 0 <= k < |op.tried| ensures op.tried[k] <= DbMax(s.log) {
      assert LostTo(s.log, op.start, i, op.tried[k]);
    }
  }

  lemma LoseSound(s: State, i: nat)
    requires Inv(s) && i < |s.ops| && s.ops[i].phase.Holding? && Taken(s.log, s.ops[i].phase.number)
    ensures OpSound(Apply(s, Insert(i)), i)
  {
    var op := s.ops[i];
    assert OpSound(s, i);
    var k :| 0 <= k < |s.log| && s.log[k].number == op.phase.number;
    assert LostTo(s.log, op.start, i, op.phase.number);
  }

  lemma LostStays(log: seq<Entry>, e: Entry, start: nat, i: nat, t: nat)
    requires LostTo(log, start, i, t)
    ensures LostTo(log + [e], start, i, t)
  {
    var k :| start <= k < |log| && log[k].number == t && log[k].op != i;
    assert (log + [e])[k] == log[k];
  }

  lemma WinSound(s: State, i: nat, j: nat)
    requires Inv(s) && i < |s.ops| && s.ops[i].phase.Holding? && !Taken(s.log, s.ops[i].phase.number)
    requires j < |s.ops|
    ensures OpSound(Apply(s, Insert(i)), j)
  {
    var e := Entry(i, s.ops[i].phase.number);
    var op := s.ops[j];
    assert OpSound(s, j);
    forall k | 0 <= k < |op.tried| ensures LostTo(s.log + [e], op.start, j, op.tried[k]) {
      LostStays(s.log, e, op.start, j, op.tried[k]);
    }
  }

  lemma StepKeepsInv(s: State, step: Step)
    requires Inv(s)
    ensures Inv(Apply(s, step))
  {
    hide DbMax, Taken, LostTo, Rising;
    var t := Apply(s, step);
    if t != s {
      match step
      case Begin =>
        forall i | 0 <= i < |t.ops| ensures OpSound(t, i) {
          if i < |s.ops| { assert OpSound(s, i); } else { NewOpSound(s); }
        }
      case SetMark(_) =>
        forall i | 0 <= i < |t.ops| ensures OpSound(t, i) { assert OpSound(s, i); }
      case ReadDb(i) =>
        ReadSound(s, i);
        forall j | 0 <= j < |t.ops| ensures OpSound(t, j) { assert OpSound(s, j); }
      case ReadMark(i) =>
        forall j | 0 <= j < |t.ops| ensures OpSound(t, j) { assert OpSound(s, j); }
      case Insert(i) =>
        if Taken(s.log, s.ops[i].phase.number) {
          LoseSound(s, i);
          forall j | 0 <= j < |t.ops| ensures OpSound(t, j) { assert OpSound(s, j); }
        } else {
          forall j | 0 <= j < |t.ops| ensures OpSound(t, j) { WinSound(s, i, j); }
          WinUnique(s, i);
        }
    }
  }

  lemma NewOpSound(s: State)
    requires Inv(s)
    ensures OpSound(Apply(s, Begin), |s.ops|)
  {
  }

  lemma WinUnique(s: State, i: nat)
    requires Unique(s.log) && i < |s.ops| && s.ops[i].phase.Holding? && !Taken(s.log, s.ops[i].phase.number)
    ensures Unique(s.log + [Entry(i, s.ops[i].phase.number)])
  {
  }

  lemma {:induction false} RunKeepsInv(s: State, steps: seq<Step>)
    requires Inv(s)
    ensures Inv(RunFrom(s, steps))
  {
    if steps != [] {
      RunKeepsInv(s, steps[..|steps| - 1]);
      StepKeepsInv(RunFrom(s, steps[..|steps| - 1]), steps[|steps| - 1]);
    }
  }

  // ---------------------------------------------------------------- where a number comes from

  /** The mark the writer of row `a` read for the number it committed. */
  ghost function MarkRead(s: State, a: nat): nat
    requires a < |s.log|
  {
    if s.log[a].op < |s.ops| then s.ops[s.log[a].op].mark else 0
  }

  /** A number is one more than the mark read for it or than a number committed
      before it, and above that mark in any case. */
  ghost predicate Grounded(s: State, a: nat)
    requires a < |s.log|
  {
    && s.log[a].op < |s.ops| && s.ops[s.log[a].op].phase.Committed?
    && MarkRead(s, a) < s.log[a].number
    && (s.log[a].number - 1 == MarkRead(s, a) || Taken(s.log[..a], s.log[a].number - 1))
  }

  ghost predicate OpGrounded(s: State, i: nat)
    requires i < |s.ops|
  {
    var op := s.ops[i];
    && (op.phase.Reading? ==> op.phase.dbMax == 0 || Taken(s.log, op.phase.dbMax))
    && (op.phase.Holding? ==>
          && op.mark < op.phase.number
          && (op.phase.number - 1 == op.mark || Taken(s.log, op.phase.number - 1)))
  }

  ghost predicate AllGrounded(s: State) {
    && (forall a :: 0 <= a < |s.log| ==> Grounded(s, a))
    && forall i :: 0 <= i < |s.ops| ==> OpGrounded(s, i)
  }

  lemma {:induction false} DbMaxIsTaken(log: seq<Entry>)
    ensures DbMax(log) == 0 || Taken(log, DbMax(log))
  {
    if log != [] {
      var n := |log| - 1;
      DbMaxIsTaken(log[..n]);
      if DbMax(log) == log[n].number {
        ShowTaken(log, n);
      } else {
        TakenStays(log[..n], log[n], DbMax(log));
        assert log[..n] + [log[n]] == log;
      }
    }
  }

  lemma TakenStays(log: seq<Entry>, e: Entry, n: nat)
    requires Taken(log, n)
    ensures Taken(log + [e], n)
  {
    var k :| 0 <= k < |log| && log[k].number == n;
    assert (log + [e])[k].number == n;
  }

  lemma ShowTaken(log: seq<Entry>, k: nat)
    requires k < |log|
    ensures Taken(log, log[k].number)
  {
  }

  /** A step that commits nothing. */
  lemma QuietStepGrounded(s: State, step: Step)
    requires AllGrounded(s) && Apply(s, step).log == s.log
    ensures AllGrounded(Apply(s, step))
  {
    hide Taken, DbMax;
    var t := Apply(s, step);
    DbMaxIsTaken(s.log);
    forall a | 0 <= a < |t.log| ensures Grounded(t, a) { assert Grounded(s, a); }
    forall i | 0 <= i < |t.ops| ensures OpGrounded(t, i) {
      if i < |s.ops| { assert OpGrounded(s, i); }
    }
  }

  lemma CommitGrounded(s: State, i: nat)
    requires AllGrounded(s) && i < |s.ops| && s.ops[i].phase.Holding? && !Taken(s.log, s.ops[i].phase.number)
    ensures AllGrounded(Apply(s, Insert(i)))
  {
    hide Taken;
    var e := Entry(i, s.ops[i].phase.number);
    var t := Apply(s, Insert(i));
    assert t.log == s.log + [e] && OpGrounded(s, i);
    forall a | 0 <= a < |t.log| ensures Grounded(t, a) {
      if a < |s.log| {
        assert Grounded(s, a) && t.log[..a] == s.log[..a];
      } else {
        assert t.log[..a] == s.log;
      }
    }
    forall j | 0 <= j < |t.ops| ensures OpGrounded(t, j) {
      assert OpGrounded(s, j);
      var op := s.ops[j];
      if op.phase.Reading? && op.phase.dbMax > 0 { TakenStays(s.log, e, op.phase.dbMax); }
      if op.phase.Holding? && op.phase.number - 1 != op.mark { TakenStays(s.log, e, op.phase.number - 1); }
    }
  }

  lemma {:induction false} RunGrounded(steps: seq<Step>)
    ensures AllGrounded(RunFrom(EMPTY, steps))
  {
    hide Apply, AllGrounded;
    if steps == [] {
      assert AllGrounded(EMPTY) by { NothingToGround(); }
    } else {
      var s, step := RunFrom(EMPTY, steps[..|steps| - 1]), steps[|steps| - 1];
      RunGrounded(steps[..|steps| - 1]);
      if Apply(s, step).log == s.log {
        QuietStepGrounded(s, step);
      } else {
        OnlyInsertsCommit(s, step);
        CommitGrounded(s, step.op);
      }
    }
  }

  lemma NothingToGround()
    ensures AllGrounded(EMPTY)
  {
  }

  lemma OnlyInsertsCommit(s: State, step: Step)
    requires Apply(s, step).log != s.log
    ensures step.Insert? && step.op < |s.ops| && s.ops[step.op].phase.Holding? && !Taken(s.log, s.ops[step.op].phase.number)
  {
    hide Taken;
  }

  // ---------------------------------------------------------------- when commit order is number order

  ghost predicate Counting(log: seq<Entry>) {
    forall k :: 0 <= k < |log| ==> log[k].number == k + 1
  }

  ghost predicate InOrder(log: seq<Entry>) {
    forall a, b :: 0 <= a < b < |log| ==> log[a].number < log[b].number
  }

  /** A row above a later one goes back to a mark that had reached that later
      number: its own writer's, or one read for a row before it. */
  lemma {:induction false} MarkAhead(s: State, a: nat, b: nat) returns (c: nat)
    requires AllGrounded(s) && Unique(s.log) && a < b < |s.log| && s.log[a].number > s.log[b].number
    ensures c <= a && MarkRead(s, c) >= s.log[b].number
    decreases a
  {
    assert Grounded(s, a);
    c := a;
    if s.log[a].number - 1 != MarkRead(s, a) {
      var k :| 0 <= k < a && s.log[..a][k].number == s.log[a].number - 1;
      if s.log[k].number > s.log[b].number { c := MarkAhead(s, k, b); }
    }
  }

  /** Under every interleaving of operations and of live deltas moving the mark:
      rows commit in number order if and only if no writer had read a mark at or
      above a number committed after its own row. */
  lemma CommitOrderIffNoMarkAhead(steps: seq<Step>)
    ensures var s := RunFrom(EMPTY, steps);
            InOrder(s.log) <==> forall a, b :: 0 <= a < b < |s.log| ==> MarkRead(s, a) < s.log[b].number
  {
    hide RunFrom, Taken, MarkRead;
    RunGrounded(steps);
    EmptyInv();
    RunKeepsInv(EMPTY, steps);
    var s := RunFrom(EMPTY, steps);
    if InOrder(s.log) {
      forall a, b | 0 <= a < b < |s.log| ensures MarkRead(s, a) < s.log[b].number {
        assert Grounded(s, a);
      }
    } else {
      var a, b :| 0 <= a < b < |s.log| && s.log[a].number >= s.log[b].number;
      assert s.log[a].number != s.log[b].number;
      var c := MarkAhead(s, a, b);
    }
  }

  lemma EmptyInv()
    ensures Inv(EMPTY)
  {
  }

  /** And they are numbered exactly 1..n if and only if no writer had read a mark
      above the number of rows committed before its own. */
  lemma CountsUpIffMarksBehind(steps: seq<Step>)
    ensures var s := RunFrom(EMPTY, steps);
            Counting(s.log) <==> forall a :: 0 <= a < |s.log| ==> MarkRead(s, a) <= a
  {
    hide RunFrom, Taken, MarkRead;
    RunGrounded(steps);
    EmptyInv();
    RunKeepsInv(EMPTY, steps);
    var s := RunFrom(EMPTY, steps);
    forall a | 0 <= a < |s.log| ensures MarkRead(s, a) < s.log[a].number { assert Grounded(s, a); }
    if forall a :: 0 <= a < |s.log| ==> MarkRead(s, a) <= a {
      CountsFrom(s, |s.log|);
    }
  }

  lemma {:induction false} CountsFrom(s: State, n: nat)
    requires AllGrounded(s) && Unique(s.log) && n <= |s.log|
    requires forall a :: 0 <= a < |s.log| ==> MarkRead(s, a) <= a
    ensures forall k :: 0 <= k < n ==> s.log[k].number == k + 1
  {
    hide MarkRead;
    if n > 0 {
      var a := n - 1;
      CountsFrom(s, a);
      assert Grounded(s, a);
      PastPrefix(s.log, a, a);
    }
  }

  /** Behind rows numbered 1..a, a row is numbered none of 1..m. */
  lemma {:induction false} PastPrefix(log: seq<Entry>, a: nat, m: nat)
    requires Unique(log) && a < |log| && m <= a && forall k :: 0 <= k < a ==> log[k].number == k + 1
    ensures !(0 < log[a].number <= m)
  {
    if m > 0 {
      PastPrefix(log, a, m - 1);
      assert log[m - 1].number == m;
    }
  }

  /** The mark is never set above the number of rows then committed: no live
      delta runs ahead of the table, as when only emits move the mark. */
  ghost predicate MarksBehind(steps: seq<Step>) {
    forall i :: 0 <= i < |steps| && steps[i].SetMark? ==> steps[i].value <= |RunFrom(EMPTY, steps[..i]).log|
  }

  ghost predicate MarksLow(s: State) {
    && s.mark <= |s.log|
    && (forall i :: 0 <= i < |s.ops| ==> s.ops[i].mark <= |s.log|)
    && (forall a :: 0 <= a < |s.log| ==> MarkRead(s, a) <= a)
    && forall a :: 0 <= a < |s.log| ==> s.log[a].op < |s.ops| && s.ops[s.log[a].op].phase.Committed?
  }

  lemma MarksStayLow(s: State, step: Step)
    requires MarksLow(s) && (step.SetMark? ==> step.value <= |s.log|)
    ensures MarksLow(Apply(s, step))
  {
    hide DbMax, Taken;
    var t := Apply(s, step);
    forall a | 0 <= a < |s.log| ensures MarkRead(t, a) == MarkRead(s, a) {
    }
  }

  lemma {:induction false} RunMarksLow(steps: seq<Step>)
    requires MarksBehind(steps)
    ensures MarksLow(RunFrom(EMPTY, steps))
  {
    hide Apply;
    if steps != [] {
      var init, n := steps[..|steps| - 1], |steps| - 1;
      forall i | 0 <= i < n && init[i].SetMark? ensures init[i].value <= |RunFrom(EMPTY, init[..i]).log| {
        assert init[..i] == steps[..i] && steps[i].SetMark?;
      }
      RunMarksLow(init);
      assert steps[n].SetMark? ==> steps[n].value <= |RunFrom(EMPTY, steps[..n]).log|;
      MarksStayLow(RunFrom(EMPTY, init), steps[n]);
    }
  }

  /** While no live delta runs ahead of the table, events are numbered 1..n in
      commit order, whatever the interleaving. */
  lemma EventsCountUpBehindTheTable(steps: seq<Step>)
    requires MarksBehind(steps)
    ensures Counting(RunFrom(EMPTY, steps).log)
  {
    hide RunFrom, MarkRead;
    RunMarksLow(steps);
    CountsUpIffMarksBehind(steps);
  }

  // ---------------------------------------------------------------- messages: 1..n in commit order

  predicate NoMarks(steps: seq<Step>) {
    forall i :: 0 <= i < |steps| ==> !steps[i].SetMark?
  }

  /** A message save never reads the mark. Whatever the interleaving of savers,
      the messages of a scope are numbered exactly 1..n in commit order. */
  lemma MessagesCountUp(steps: seq<Step>)
    requires NoMarks(steps)
    ensures Counting(RunFrom(EMPTY, steps).log)
  {
    hide RunFrom;
    EventsCountUpBehindTheTable(steps);
  }

  lemma {:induction false} CountingMax(log: seq<Entry>)
    requires Counting(log)
    ensures DbMax(log) == |log|
  {
    if log != [] { CountingMax(log[..|log| - 1]); }
  }

  // ---------------------------------------------------------------- running out of attempts

  function Numbers(log: seq<Entry>): set<nat> {
    set k | 0 <= k < |log| :: log[k].number
  }

  lemma {:induction false} NumbersAtMost(log: seq<Entry>)
    ensures |Numbers(log)| <= |log|
  {
    if log != [] {
      var init, last := log[..|log| - 1], log[|log| - 1].number;
      NumbersAtMost(init);
      assert Numbers(log) == Numbers(init) + {last};
    }
  }

  lemma {:induction false} RisingCount(numbers: seq<nat>, all: set<nat>)
    requires Rising(numbers) && forall k :: 0 <= k < |numbers| ==> numbers[k] in all
    ensures |all| >= |numbers|
  {
    if numbers != [] {
      var last := numbers[|numbers| - 1];
      RisingCount(numbers[..|numbers| - 1], all - {last});
    }
  }

  /** The step is operation i's insert, of a number that is taken. */
  predicate Loses(s: State, step: Step, i: nat) {
    step == Insert(i) && i < |s.ops| && s.ops[i].phase.Holding? && Taken(s.log, s.ops[i].phase.number)
  }

  /** How many steps of a schedule were such losses. */
  function Losses(steps: seq<Step>, i: nat): nat {
    if steps == [] then 0
    else
      var init, last := steps[..|steps| - 1], steps[|steps| - 1];
      Losses(init, i) + (if Loses(RunFrom(EMPTY, init), last, i) then 1 else 0)
  }

  lemma TriedStep(s: State, step: Step, i: nat)
    ensures var t := Apply(s, step);
            && |s.ops| <= |t.ops|
            && (i < |s.ops| ==> |t.ops[i].tried| == |s.ops[i].tried| + (if Loses(s, step, i) then 1 else 0))
            && (|s.ops| <= i < |t.ops| ==> t.ops[i].tried == [])
            && (i >= |s.ops| ==> !Loses(s, step, i))
  {
    hide DbMax, Taken;
  }

  lemma {:induction false} TriedCountsLosses(steps: seq<Step>, i: nat)
    ensures var s := RunFrom(EMPTY, steps);
            if i < |s.ops| then |s.ops[i].tried| == Losses(steps, i) else Losses(steps, i) == 0
  {
    hide Apply, Loses;
    if steps != [] {
      var init, last := steps[..|steps| - 1], steps[|steps| - 1];
      TriedCountsLosses(init, i);
      TriedStep(RunFrom(EMPTY, init), last, i);
    }
  }

  /** Under every interleaving and every behaviour of the mark: no number is
      used twice, an operation commits at most once, and it fails if and only if
      the schedule holds 32 inserts of its own that came when the number it held
      was taken. Each such number was committed by another operation after it
      began, and they strictly rise: 32 rivals' rows. */
  lemma GivingUpTakesThirtyTwoRivals(steps: seq<Step>, i: nat)
    requires i < |RunFrom(EMPTY, steps).ops|
    ensures var s := RunFrom(EMPTY, steps);
            var op := s.ops[i];
            && Unique(s.log)
            && (forall k :: 0 <= k < |s.log| && s.log[k].op == i ==> op.phase == Committed(s.log[k].number))
            && (op.phase.Failed? <==> Losses(steps, i) == MAX_RETRIES)
            && |op.tried| == Losses(steps, i) <= MAX_RETRIES
            && Rising(op.tried)
            && (forall k :: 0 <= k < |op.tried| ==> LostTo(s.log, op.start, i, op.tried[k]))
            && op.start + |op.tried| <= |s.log|
  {
    hide RunFrom, Losses;
    RunKeepsInv(EMPTY, steps);
    TriedCountsLosses(steps, i);
    var s := RunFrom(EMPTY, steps);
    var op := s.ops[i];
    assert OpSound(s, i);
    var later := s.log[op.start..];
    forall k | 0 <= k < |op.tried| ensures op.tried[k] in Numbers(later) {
      assert LostTo(s.log, op.start, i, op.tried[k]);
      var m :| op.start <= m < |s.log| && s.log[m].number == op.tried[k] && s.log[m].op != i;
      assert later[m - op.start].number == op.tried[k];
    }
    RisingCount(op.tried, Numbers(later));
    NumbersAtMost(later);
  }

  // ---------------------------------------------------------------- two writers are enough

  /** One round of a duel: operation 0 reads, a fresh operation `r` reads and
      commits, then operation 0's insert loses. */
  function Round(r: nat): seq<Step> {
    [ReadDb(0), ReadMark(0), Begin, ReadDb(r), ReadMark(r), Insert(r), Insert(0)]
  }

  function Duel(rounds: nat): seq<Step> {
    if rounds == 0 then [Begin] else Duel(rounds - 1) + Round(rounds)
  }

  /** Only operation 0 and the newest one are still at work. */
  ghost predicate TwoAtWork(s: State) {
    forall i :: 0 < i < |s.ops| - 1 ==> s.ops[i].phase.Committed?
  }

  ghost predicate DuelState(s: State, rounds: nat) {
    && |s.log| == rounds && Counting(s.log) && s.mark == 0
    && |s.ops| == rounds + 1
    && (forall i :: 0 < i <= rounds ==> s.ops[i].phase.Committed?)
    && s.ops[0].tried == seq(rounds, k => k + 1)
    && s.ops[0].phase == if rounds == MAX_RETRIES then Failed else Idle
  }

  /** Operation 0 and a fresh operation `r` come to hold the same number. */
  ghost predicate BothHold(s: State, r: nat) {
    && 0 < r && |s.log| == r - 1 && Counting(s.log) && s.mark == 0
    && |s.ops| == r + 1
    && (forall i :: 0 < i < r ==> s.ops[i].phase.Committed?)
    && s.ops[0].tried == seq(r - 1, k => k + 1)
    && s.ops[0].phase == Holding(r) && s.ops[r].phase == Holding(r)
  }

  lemma FirstHalf(s: State, r: nat) returns (s1: State, s2: State, s3: State, s4: State, s5: State)
    requires 0 < r <= MAX_RETRIES && DuelState(s, r - 1)
    ensures s1 == Apply(s, ReadDb(0)) && s2 == Apply(s1, ReadMark(0)) && s3 == Apply(s2, Begin)
    ensures s4 == Apply(s3, ReadDb(r)) && s5 == Apply(s4, ReadMark(r)) && BothHold(s5, r)
    ensures TwoAtWork(s1) && TwoAtWork(s2) && TwoAtWork(s3) && TwoAtWork(s4) && TwoAtWork(s5)
  {
    hide DbMax, Taken;
    CountingMax(s.log);
    s1 := Apply(s, ReadDb(0));
    s2 := Apply(s1, ReadMark(0));
    s3 := Apply(s2, Begin);
    s4 := Apply(s3, ReadDb(r));
    s5 := Apply(s4, ReadMark(r));
  }

  lemma SecondHalf(s5: State, r: nat) returns (s6: State, s7: State)
    requires r <= MAX_RETRIES && BothHold(s5, r)
    ensures s6 == Apply(s5, Insert(r)) && s7 == Apply(s6, Insert(0)) && DuelState(s7, r)
    ensures TwoAtWork(s6) && TwoAtWork(s7)
  {
    hide DbMax, Taken;
    NotTaken(s5.log, r);
    s6 := Apply(s5, Insert(r));
    assert s6.log[r - 1].number == r;
    ShowTaken(s6.log, r - 1);
    s7 := Apply(s6, Insert(0));
    assert s7.ops[0].tried == seq(r, k => k + 1);
  }

  lemma RoundResult(s: State, r: nat)
    requires 0 < r <= MAX_RETRIES && DuelState(s, r - 1) && TwoAtWork(s)
    ensures DuelState(RunFrom(s, Round(r)), r)
    ensures forall n :: 0 <= n <= |Round(r)| ==> TwoAtWork(RunFrom(s, Round(r)[..n]))
  {
    hide Apply, DuelState, TwoAtWork, RunFrom, BothHold;
    var s1, s2, s3, s4, s5 := FirstHalf(s, r);
    var s6, s7 := SecondHalf(s5, r);
    SevenSteps(s, Round(r), s1, s2, s3, s4, s5, s6, s7);
  }

  lemma NotTaken(log: seq<Entry>, n: nat)
    requires Counting(log) && n > |log|
    ensures !Taken(log, n)
  {
  }

  lemma RunStep(s: State, steps: seq<Step>, n: nat)
    requires 0 < n <= |steps|
    ensures RunFrom(s, steps[..n]) == Apply(RunFrom(s, steps[..n - 1]), steps[n - 1])
  {
    assert steps[..n][..n - 1] == steps[..n - 1];
  }

  lemma SevenSteps(s: State, steps: seq<Step>, s1: State, s2: State, s3: State, s4: State, s5: State, s6: State, s7: State)
    requires |steps| == 7
    requires s1 == Apply(s, steps[0]) && s2 == Apply(s1, steps[1]) && s3 == Apply(s2, steps[2]) && s4 == Apply(s3, steps[3])
    requires s5 == Apply(s4, steps[4]) && s6 == Apply(s5, steps[5]) && s7 == Apply(s6, steps[6])
    ensures RunFrom(s, steps) == s7
    ensures forall n :: 0 <= n <= 7 ==> RunFrom(s, steps[..n]) == [s, s1, s2, s3, s4, s5, s6, s7][n]
  {
    hide Apply;
    forall n | 0 < n <= 7 ensures RunFrom(s, steps[..n]) == Apply(RunFrom(s, steps[..n - 1]), steps[n - 1]) {
      RunStep(s, steps, n);
    }
    assert steps[..0] == [] && steps[..7] == steps;
    assert RunFrom(s, steps[..0]) == s;
    assert RunFrom(s, steps[..1]) == s1;
    assert RunFrom(s, steps[..2]) == s2;
    assert RunFrom(s, steps[..3]) == s3;
    assert RunFrom(s, steps[..4]) == s4;
    assert RunFrom(s, steps[..5]) == s5;
    assert RunFrom(s, steps[..6]) == s6;
    assert RunFrom(s, steps[..7]) == s7;
  }

  lemma DuelBegins()
    ensures DuelState(RunFrom(EMPTY, Duel(0)), 0)
    ensures TwoAtWork(RunFrom(EMPTY, [])) && TwoAtWork(RunFrom(EMPTY, [Begin]))
  {
    assert [Begin][..0] == [];
    assert RunFrom(EMPTY, [Begin]) == Apply(RunFrom(EMPTY, []), Begin);
  }

  lemma {:induction false} DuelGoesOn(rounds: nat)
    requires rounds <= MAX_RETRIES
    ensures DuelState(RunFrom(EMPTY, Duel(rounds)), rounds)
    ensures forall n :: 0 <= n <= |Duel(rounds)| ==> TwoAtWork(RunFrom(EMPTY, Duel(rounds)[..n]))
  {
    hide RunFrom, Apply, TwoAtWork, DuelState, Round;
    if rounds == 0 {
      DuelBegins();
      assert Duel(0)[..0] == [] && Duel(0)[..1] == [Begin];
    } else {
      var before, round := Duel(rounds - 1), Round(rounds);
      DuelGoesOn(rounds - 1);
      assert before[..|before|] == before;
      RoundResult(RunFrom(EMPTY, before), rounds);
      RunFromConcat(EMPTY, before, round);
      forall n | 0 <= n <= |Duel(rounds)| ensures TwoAtWork(RunFrom(EMPTY, Duel(rounds)[..n])) {
        if n <= |before| {
          assert Duel(rounds)[..n] == before[..n];
        } else {
          assert Duel(rounds)[..n] == before + round[..n - |before|];
          RunFromConcat(EMPTY, before, round[..n - |before|]);
        }
      }
    }
  }

  /** Hitting the cap needs no broken allocation: plain contention between two
      sessions, one of them writing 32 rows while the other retries, exhausts
      all 32 attempts, and never more than two operations are at work. */
  lemma TwoSessionsExhaust()
    ensures var s := RunFrom(EMPTY, Duel(MAX_RETRIES));
            s.ops != [] && s.ops[0].phase.Failed? && Counting(s.log) && |s.log| == MAX_RETRIES
    ensures forall n :: 0 <= n <= |Duel(MAX_RETRIES)| ==> TwoAtWork(RunFrom(EMPTY, Duel(MAX_RETRIES)[..n]))
  {
    hide RunFrom, Duel, TwoAtWork;
    DuelGoesOn(MAX_RETRIES);
  }

  // ---------------------------------------------------------------- events: unique, but not in commit order

  /** An event that read its number before a burst of live deltas commits below
      one that read after it: the second writer's mark was ahead. */
  function Overtaken(): seq<Step> {
    [Begin, Begin, ReadDb(0), ReadMark(0), SetMark(9), ReadDb(1), ReadMark(1), Insert(1), Insert(0)]
  }

  lemma EventsMayCommitOutOfOrder()
    ensures RunFrom(EMPTY, Overtaken()).log == [Entry(1, 10), Entry(0, 1)]
  {
    hide Taken;
    var steps := Overtaken();
    var a := Apply(Apply(EMPTY, Begin), Begin);
    var b := Apply(Apply(a, ReadDb(0)), ReadMark(0));
    var c := Apply(Apply(Apply(b, SetMark(9)), ReadDb(1)), ReadMark(1));
    assert c.ops[0].phase == Holding(1) && c.ops[1].phase == Holding(10) && c.log == [];
    assert !Taken([], 10) && !Taken([Entry(1, 10)], 1) by { FreeNumbers(); }
    var d := Apply(c, Insert(1));
    assert d.log == [Entry(1, 10)];
    var e := Apply(d, Insert(0));
    Chain9(steps, a, b, c, d, e);
  }

  lemma FreeNumbers()
    ensures !Taken([], 10) && !Taken([Entry(1, 10)], 1)
  {
  }

  lemma Chain9(steps: seq<Step>, a: State, b: State, c: State, d: State, e: State)
    requires |steps| == 9
    requires a == Apply(Apply(EMPTY, steps[0]), steps[1])
    requires b == Apply(Apply(a, steps[2]), steps[3])
    requires c == Apply(Apply(Apply(b, steps[4]), steps[5]), steps[6])
    requires d == Apply(c, steps[7]) && e == Apply(d, steps[8])
    ensures RunFrom(EMPTY, steps) == e
  {
    hide Apply;
    forall n | 0 < n <= 9 ensures RunFrom(EMPTY, steps[..n]) == Apply(RunFrom(EMPTY, steps[..n - 1]), steps[n - 1]) {
      RunStep(EMPTY, steps, n);
    }
    assert steps[..0] == [] && steps[..9] == steps;
    assert RunFrom(EMPTY, steps[..2]) == a;
    assert RunFrom(EMPTY, steps[..4]) == b;
    assert RunFrom(EMPTY, steps[..7]) == c;
    assert RunFrom(EMPTY, steps[..9]) == e;
  }

  // ---------------------------------------------------------------- one operation's retry loop

  /** The steps of one operation. */
  predicate Touches(step: Step, i: nat) {
    match step
    case Begin => false
    case SetMark(_) => false
    case ReadDb(j) => i == j
    case ReadMark(j) => i == j
    case Insert(j) => i == j
  }

  predicate Avoids(steps: seq<Step>, i: nat) {
    forall k :: 0 <= k < |steps| ==> !Touches(steps[k], i)
  }

  lemma {:induction false} OthersLeaveItAlone(s: State, steps: seq<Step>, i: nat)
    requires i < |s.ops| && Avoids(steps, i)
    ensures i < |RunFrom(s, steps).ops| && RunFrom(s, steps).ops[i] == s.ops[i]
  {
    if steps != [] { OthersLeaveItAlone(s, steps[..|steps| - 1], i); }
  }

  /** The shared table and mark. `history` records every step taken on them. */
  class Table {
    var state: State
    ghost var history: seq<Step>

    ghost predicate Valid()
      reads this
    {
      state == RunFrom(EMPTY, history)
    }

    constructor ()
      ensures Valid() && state == EMPTY
    {
      state, history := EMPTY, [];
    }

    method Take(step: Step)
      requires Valid()
      modifies this
      ensures Valid() && state == Apply(old(state), step) && history == old(history) + [step]
    {
      RunFromConcat(EMPTY, history, [step]);
      assert RunFrom(state, [step]) == Apply(RunFrom(state, []), step);
      state, history := Apply(state, step), history + [step];
    }

    /** Whatever the other sessions do in between, leaving this one alone. */
    method Elapse(others: seq<Step>, me: nat)
      requires Valid() && me < |state.ops| && Avoids(others, me)
      modifies this
      ensures Valid() && history == old(history) + others
      ensures me < |state.ops| && state.ops[me] == old(state).ops[me]
    {
      RunFromConcat(EMPTY, history, others);
      OthersLeaveItAlone(state, others, me);
      state, history := RunFrom(state, others), history + others;
    }

    /** Emits one row: `others(a, 0..2)` is what other sessions do before each
        of the three steps of attempt `a`. A number comes back exactly when
        this operation's row is in the table under it; otherwise 32 rows were
        committed past it. */
    method Emit(others: (nat, nat) -> seq<Step>) returns (number: Option<nat>)
      requires Valid() && forall a, b :: Avoids(others(a, b), |state.ops|)
      modifies this
      ensures Valid() && old(history) < history
      ensures number.Some? ==> exists k :: 0 <= k < |state.log| && state.log[k] == Entry(|old(state).ops|, number.value)
      ensures number.None? ==> |state.log| >= |old(state).log| + MAX_RETRIES
      ensures number.None? ==> forall k :: 0 <= k < |state.log| ==> state.log[k].op != |old(state).ops|
    {
      hide Inserted, RunFrom, Taken, DbMax, Avoids;
      var me := |state.ops|;
      Take(Begin);
      for attempt := 0 to MAX_RETRIES
        invariant Valid() && old(history) < history && me < |state.ops|
        invariant state.ops[me].phase == Idle || (attempt == MAX_RETRIES && state.ops[me].phase == Failed)
        invariant |state.ops[me].tried| == attempt && state.ops[me].start == |old(state).log|
      {
        Elapse(others(attempt, 0), me);
        Take(ReadDb(me));
        Elapse(others(attempt, 1), me);
        Take(ReadMark(me));
        Elapse(others(attempt, 2), me);
        var sequence := state.ops[me].phase.number;
        InsertOutcome(state, me);
        Take(Insert(me));
        if state.ops[me].phase.Committed? {
          assert state.log[|state.log| - 1] == Entry(me, sequence);
          return Some(sequence);
        }
      }
      GivingUpTakesThirtyTwoRivals(history, me);
      number := None;
    }
  }

  lemma InsertOutcome(s: State, i: nat)
    requires i < |s.ops| && s.ops[i].phase.Holding? && |s.ops[i].tried| < MAX_RETRIES
    ensures var t := Apply(s, Insert(i));
            && i < |t.ops| && t.ops[i].start == s.ops[i].start
            && (t.ops[i].phase.Committed? ==> t.log == s.log + [Entry(i, s.ops[i].phase.number)])
            && (!t.ops[i].phase.Committed? ==> |t.ops[i].tried| == |s.ops[i].tried| + 1)
            && (!t.ops[i].phase.Committed? ==>
                  t.ops[i].phase == if |s.ops[i].tried| + 1 == MAX_RETRIES then Failed else Idle)
  {
  }
}
