/** Parallel iteration over a scratchpad snapshot in `continue` mode: one task
    per record under a semaphore, in any schedule, with outside consumers and
    an abort key changing the world between steps. */
module Scratchpad {
  import opened Sequences

  datatype Stage = Starting | Agent | Dropping(removed: bool) | Completing

  datatype Outcome = Processed | SkippedMissing | SkippedAborted | Failed

  /** `Raised(at)` is a task whose exception the gather collects. */
  datatype Phase =
    | Waiting
    | Admitted
    | Checked
    | Running
    | Returned
    | Dropped
    | Done(outcome: Outcome)
    | Raised(at: Stage)

  datatype Task = Task(record: string, phase: Phase)

  /** `store` holds the collection; `returned` and `drops` log the tasks whose
      agent run returned and who removed their record; `taken` logs records an
      outside consumer or a TTL removed. */
  datatype State = State(tasks: seq<Task>, store: set<string>, aborted: bool,
                         returned: seq<nat>, drops: seq<nat>, taken: set<string>)

  datatype Step =
    | Admit(i: nat)
    | CheckAbort(i: nat, ok: bool)
    | Fetch(i: nat, ok: bool)
    | AgentEnds(i: nat, normally: bool)
    | Drop(i: nat, deleted: bool, raised: bool)
    | Complete(i: nat, emitted: bool)
    | Take(record: string)
    | Stash(record: string)
    | Abort

  predicate Holds(p: Phase) {
    p.Admitted? || p.Checked? || p.Running? || p.Returned? || p.Dropped?
  }

  function InFlight(tasks: seq<Task>): nat {
    if tasks == [] then 0
    else InFlight(tasks[..|tasks| - 1]) + (if Holds(tasks[|tasks| - 1].phase) then 1 else 0)
  }

  function Move(s: State, i: nat, p: Phase): State
    requires i < |s.tasks|
  {
    s.(tasks := s.tasks[i := s.tasks[i].(phase := p)])
  }

  predicate At(s: State, i: nat, p: Phase) {
    i < |s.tasks| && s.tasks[i].phase == p
  }

  /** A step whose moment has not come changes nothing. Any call to Redis or
      the database may raise (`ok`, `normally`, `emitted` false). A drop deletes the
      record and then its index entry, and may raise before or after either. */
  function Apply(concurrency: nat, s: State, step: Step): State {
    match step
    case Admit(i) => if At(s, i, Waiting) && InFlight(s.tasks) < concurrency then Move(s, i, Admitted) else s
    case CheckAbort(i, ok) =>
      if !At(s, i, Admitted) then s
      else Move(s, i, if !ok then Raised(Starting) else if s.aborted then Done(SkippedAborted) else Checked)
    case Fetch(i, ok) =>
      if !At(s, i, Checked) then s
      else Move(s, i, if !ok then Raised(Starting) else if s.tasks[i].record !in s.store then Done(SkippedMissing) else Running)
    case AgentEnds(i, normally) =>
      if !At(s, i, Running) then s
      else if normally then Move(s.(returned := s.returned + [i]), i, Returned) else Move(s, i, Raised(Agent))
    case Drop(i, deleted, raised) =>
      if !At(s, i, Returned) || (!deleted && !raised) then s
      else
        var t := if deleted then s.(store := s.store - {s.tasks[i].record}, drops := s.drops + [i]) else s;
        Move(t, i, if raised then Raised(Dropping(deleted)) else Dropped)
    case Complete(i, emitted) =>
      if At(s, i, Dropped) then Move(s, i, if emitted then Done(Processed) else Raised(Completing)) else s
    case Take(r) => s.(store := s.store - {r}, taken := s.taken + {r})
    case Stash(r) => s.(store := s.store + {r})
    case Abort => s.(aborted := true)
  }

  function Ids(snapshot: seq<string>): set<string> {
    set r | r in snapshot
  }

  /** The tasks of a run: one per record of the bounded snapshot. */
  function Start(snapshot: seq<string>, maxIterations: nat): State {
    var n := if |snapshot| < maxIterations then |snapshot| else maxIterations;
    State(seq(n, i requires 0 <= i < n => Task(snapshot[i], Waiting)), Ids(snapshot), false, [], [], {})
  }

  function Run(concurrency: nat, s: State, steps: seq<Step>): State {
    if steps == [] then s
    else Apply(concurrency, Run(concurrency, s, steps[..|steps| - 1]), steps[|steps| - 1])
  }

  // ---------------------------------------------------------------- the invariant

  /** The phases of a task whose record it has itself removed. */
  predicate HasDropped(p: Phase) {
    p.Dropped? || p == Done(Processed) || p == Raised(Completing) || p == Raised(Dropping(true))
  }

  predicate HasReturned(p: Phase) {
    HasDropped(p) || p.Returned? || p == Raised(Dropping(false))
  }

  ghost predicate Logs(log: seq<nat>, s: State, p: Phase -> bool) {
    && (forall k :: 0 <= k < |log| ==> log[k] < |s.tasks|)
    && (forall j, k :: 0 <= j < k < |log| ==> log[j] != log[k])
    && forall i :: 0 <= i < |s.tasks| ==> (i in log <==> p(s.tasks[i].phase))
  }

  ghost predicate DroppedByItsTask(s: State, r: string) {
    exists k :: 0 <= k < |s.drops| && s.drops[k] < |s.tasks| && s.tasks[s.drops[k]].record == r
  }

  /** Every record of the snapshot is stored, taken from outside, or dropped by
      its own task. */
  ghost predicate Kept(snapshot: set<string>, s: State) {
    forall r :: r in snapshot ==>
      || r in s.store
      || r in s.taken
      || DroppedByItsTask(s, r)
  }

  ghost predicate Inv(concurrency: nat, s: State) {
    && InFlight(s.tasks) <= concurrency
    && Logs(s.drops, s, HasDropped)
    && Logs(s.returned, s, HasReturned)
    && forall i :: 0 <= i < |s.tasks| ==> (s.tasks[i].phase.Done? ==> s.tasks[i].phase.outcome != Failed)
  }

  lemma {:induction false} InFlightMove(tasks: seq<Task>, i: nat, t: Task)
    requires i < |tasks|
    ensures InFlight(tasks[i := t]) + (if Holds(tasks[i].phase) then 1 else 0) == InFlight(tasks) + (if Holds(t.phase) then 1 else 0)
    decreases |tasks|
  {
    var n := |tasks| - 1;
    if i == n {
      assert tasks[i := t][..n] == tasks[..n];
    } else {
      InFlightMove(tasks[..n], i, t);
      assert tasks[i := t][..n] == tasks[..n][i := t];
    }
  }

  lemma SlotsKeep(concurrency: nat, s: State, step: Step)
    requires InFlight(s.tasks) <= concurrency
    ensures InFlight(Apply(concurrency, s, step).tasks) <= concurrency
  {
    hide InFlight;
    var t := Apply(concurrency, s, step);
    if t.tasks != s.tasks {
      InFlightMove(s.tasks, step.i, t.tasks[step.i]);
    }
  }

  /** Either nothing about `p` changes, or one task comes to satisfy it and is
      logged. */
  ghost predicate Grows(log: seq<nat>, s: State, log': seq<nat>, t: State, p: Phase -> bool) {
    && |t.tasks| == |s.tasks|
    && ((log' == log && forall i :: 0 <= i < |s.tasks| ==> p(t.tasks[i].phase) == p(s.tasks[i].phase)) ||
        (exists k :: 0 <= k < |s.tasks| && NewlyLogged(log, s, log', t, p, k)))
  }

  ghost predicate NewlyLogged(log: seq<nat>, s: State, log': seq<nat>, t: State, p: Phase -> bool, k: nat)
    requires |t.tasks| == |s.tasks| && k < |s.tasks|
  {
    && log' == log + [k] && !p(s.tasks[k].phase) && p(t.tasks[k].phase)
    && forall i :: 0 <= i < |s.tasks| && i != k ==> p(t.tasks[i].phase) == p(s.tasks[i].phase)
  }

  lemma GrowingLog(log: seq<nat>, s: State, log': seq<nat>, t: State, p: Phase -> bool)
    requires Logs(log, s, p) && Grows(log, s, log', t, p)
    ensures Logs(log', t, p)
  {
    if log' != log {
      var k :| 0 <= k < |s.tasks| && NewlyLogged(log, s, log', t, p, k);
      assert k !in log;
      assert forall i :: i in log' <==> i in log || i == k;
    }
  }

  lemma DropsGrow(concurrency: nat, s: State, step: Step)
    ensures var t := Apply(concurrency, s, step); Grows(s.drops, s, t.drops, t, HasDropped)
  {
    hide InFlight;
    var t := Apply(concurrency, s, step);
    if t.drops != s.drops {
      assert NewlyLogged(s.drops, s, t.drops, t, HasDropped, step.i);
    }
  }

  /** Only an agent run that ends normally makes its task a returned one. */
  lemma OthersReturnNothing(concurrency: nat, s: State, step: Step, i: nat)
    requires i < |s.tasks| && !step.AgentEnds?
    ensures i < |Apply(concurrency, s, step).tasks| == |s.tasks|
    ensures HasReturned(Apply(concurrency, s, step).tasks[i].phase) == HasReturned(s.tasks[i].phase)
  {
    hide InFlight;
  }

  lemma ReturnsGrow(concurrency: nat, s: State, step: Step)
    ensures var t := Apply(concurrency, s, step); Grows(s.returned, s, t.returned, t, HasReturned)
  {
    hide InFlight;
    var t := Apply(concurrency, s, step);
    if step.AgentEnds? {
      if t.returned != s.returned {
        assert NewlyLogged(s.returned, s, t.returned, t, HasReturned, step.i);
      }
    } else {
      assert t.returned == s.returned && |t.tasks| == |s.tasks|;
      hide HasReturned, Apply;
      forall i | 0 <= i < |s.tasks| ensures HasReturned(t.tasks[i].phase) == HasReturned(s.tasks[i].phase) {
        OthersReturnNothing(concurrency, s, step, i);
      }
    }
  }

  lemma StepKeepsInv(concurrency: nat, s: State, step: Step)
    requires Inv(concurrency, s)
    ensures Inv(concurrency, Apply(concurrency, s, step))
  {
    hide InFlight, Logs, Grows;
    SlotsKeep(concurrency, s, step);
    var t := Apply(concurrency, s, step);
    DropsGrow(concurrency, s, step);
    GrowingLog(s.drops, s, t.drops, t, HasDropped);
    ReturnsGrow(concurrency, s, step);
    GrowingLog(s.returned, s, t.returned, t, HasReturned);
  }

  lemma StepFrame(concurrency: nat, s: State, step: Step)
    ensures var t := Apply(concurrency, s, step);
            && |t.tasks| == |s.tasks|
            && (forall i :: 0 <= i < |s.tasks| ==> t.tasks[i].record == s.tasks[i].record)
            && s.drops <= t.drops && s.taken <= t.taken
            && (forall r :: r in s.store && r !in t.store ==>
                  r in t.taken || (step.Drop? && step.i < |s.tasks| && s.tasks[step.i].record == r && t.drops == s.drops + [step.i]))
  {
    hide InFlight;
  }

  lemma DropStays(s: State, t: State, r: string)
    requires DroppedByItsTask(s, r) && s.drops <= t.drops && |t.tasks| == |s.tasks|
    requires forall i :: 0 <= i < |s.tasks| ==> t.tasks[i].record == s.tasks[i].record
    ensures DroppedByItsTask(t, r)
  {
    var k :| 0 <= k < |s.drops| && s.drops[k] < |s.tasks| && s.tasks[s.drops[k]].record == r;
    assert t.drops[k] == s.drops[k];
  }

  lemma StepKeepsRecords(concurrency: nat, s: State, step: Step, snapshot: set<string>)
    requires Kept(snapshot, s)
    ensures Kept(snapshot, Apply(concurrency, s, step))
  {
    hide Apply, DroppedByItsTask;
    var t := Apply(concurrency, s, step);
    StepFrame(concurrency, s, step);
    forall r | r in snapshot && r !in t.store && r !in t.taken ensures DroppedByItsTask(t, r) {
      if r in s.store {
        assert t.drops == s.drops + [step.i] && t.tasks[step.i].record == r;
        LastDrop(t, r);
      } else {
        DropStays(s, t, r);
      }
    }
  }

  lemma LastDrop(s: State, r: string)
    requires s.drops != [] && s.drops[|s.drops| - 1] < |s.tasks| && s.tasks[s.drops[|s.drops| - 1]].record == r
    ensures DroppedByItsTask(s, r)
  {
  }

  lemma StartFacts(concurrency: nat, snapshot: seq<string>, maxIterations: nat)
    ensures Inv(concurrency, Start(snapshot, maxIterations))
    ensures Kept(Ids(snapshot), Start(snapshot, maxIterations))
  {
    NoneInFlight(Start(snapshot, maxIterations).tasks);
  }

  lemma {:induction false} NoneInFlight(tasks: seq<Task>)
    requires forall i :: 0 <= i < |tasks| ==> tasks[i].phase == Waiting
    ensures InFlight(tasks) == 0
  {
    if tasks != [] { NoneInFlight(tasks[..|tasks| - 1]); }
  }

  lemma {:induction false} RunFacts(concurrency: nat, snapshot: seq<string>, maxIterations: nat, steps: seq<Step>)
    ensures var s := Run(concurrency, Start(snapshot, maxIterations), steps);
            && Inv(concurrency, s) && Kept(Ids(snapshot), s)
            && |s.tasks| == (if |snapshot| < maxIterations then |snapshot| else maxIterations)
            && forall i :: 0 <= i < |s.tasks| ==> s.tasks[i].record == snapshot[i]
  {
    hide Apply, Inv, Kept;
    var start := Start(snapshot, maxIterations);
    if steps == [] {
      StartFacts(concurrency, snapshot, maxIterations);
    } else {
      var init, last := steps[..|steps| - 1], steps[|steps| - 1];
      RunFacts(concurrency, snapshot, maxIterations, init);
      var s := Run(concurrency, start, init);
      StepKeepsInv(concurrency, s, last);
      StepFrame(concurrency, s, last);
      StepKeepsRecords(concurrency, s, last, Ids(snapshot));
    }
  }

  // ---------------------------------------------------------------- conservation

  /** The records dropped so far, in order. */
  function DroppedRecords(s: State): seq<string>
    requires forall k :: 0 <= k < |s.drops| ==> s.drops[k] < |s.tasks|
  {
    seq(|s.drops|, k requires 0 <= k < |s.drops| => s.tasks[s.drops[k]].record)
  }

  /** Over every schedule: never more than `concurrency` iterations at once;
      task i works on record i of the snapshot; a task drops at most once and
      only after its agent run returned, so with the distinct ids of a
      collection no record is dropped twice; a task tagged processed did drop
      its record; and no record of the snapshot disappears in any other way
      than that or an outside removal. */
  lemma ParallelIterationIsSafe(concurrency: nat, snapshot: seq<string>, maxIterations: nat, steps: seq<Step>)
    ensures var s := Run(concurrency, Start(snapshot, maxIterations), steps);
            && InFlight(s.tasks) <= concurrency
            && (forall i :: 0 <= i < |s.tasks| ==> i < |snapshot| && s.tasks[i].record == snapshot[i])
            && (forall j, k :: 0 <= j < k < |s.drops| ==> s.drops[j] != s.drops[k])
            && (forall k :: 0 <= k < |s.drops| ==> s.drops[k] < |s.tasks| && s.drops[k] in s.returned)
            && (Distinct(snapshot) ==> Distinct(DroppedRecords(s)))
            && (forall i :: 0 <= i < |s.tasks| && s.tasks[i].phase == Done(Processed) ==> i in s.drops)
            && Kept(Ids(snapshot), s)
  {
    hide Run, InFlight, Start, Kept;
    RunFacts(concurrency, snapshot, maxIterations, steps);
    var s := Run(concurrency, Start(snapshot, maxIterations), steps);
    forall k | 0 <= k < |s.drops| ensures s.drops[k] in s.returned {
      assert HasDropped(s.tasks[s.drops[k]].phase);
    }
    if Distinct(snapshot) {
      forall j, k | 0 <= j < k < |s.drops| ensures DroppedRecords(s)[j] != DroppedRecords(s)[k] {
        assert s.drops[j] != s.drops[k];
      }
    }
  }

  // ---------------------------------------------------------------- why a task is where it is

  /** The step from `s` that takes task i to the phase `p`: a slot was free; no
      abort was set at its check; its record was stored, or was not, as it was
      fetched; its agent run returned; its record was deleted, cleanly or not;
      its completed event went out; or one of these raised. */
  ghost predicate Causes(concurrency: nat, s: State, step: Step, i: nat, p: Phase) {
    match p
    case Waiting => false
    case Admitted => At(s, i, Waiting) && step == Admit(i) && InFlight(s.tasks) < concurrency
    case Checked => At(s, i, Admitted) && step == CheckAbort(i, true) && !s.aborted
    case Running => At(s, i, Checked) && step == Fetch(i, true) && s.tasks[i].record in s.store
    case Returned => At(s, i, Running) && step == AgentEnds(i, true)
    case Dropped => At(s, i, Returned) && step == Drop(i, true, false)
    case Done(outcome) =>
      || (outcome == SkippedAborted && At(s, i, Admitted) && step == CheckAbort(i, true) && s.aborted)
      || (outcome == SkippedMissing && At(s, i, Checked) && step == Fetch(i, true) && s.tasks[i].record !in s.store)
      || (outcome == Processed && At(s, i, Dropped) && step == Complete(i, true))
    case Raised(at) =>
      || (at == Starting && At(s, i, Admitted) && step == CheckAbort(i, false))
      || (at == Starting && At(s, i, Checked) && step == Fetch(i, false))
      || (at == Agent && At(s, i, Running) && step == AgentEnds(i, false))
      || (at.Dropping? && At(s, i, Returned) && step == Drop(i, at.removed, true))
      || (at == Completing && At(s, i, Dropped) && step == Complete(i, false))
  }

  predicate Over(p: Phase) {
    p.Done? || p.Raised?
  }

  predicate Concerns(step: Step, i: nat) {
    !step.Take? && !step.Stash? && !step.Abort? && step.i == i
  }

  lemma OthersStay(concurrency: nat, s: State, step: Step, i: nat)
    requires !Concerns(step, i)
    ensures |Apply(concurrency, s, step).tasks| == |s.tasks|
    ensures i < |s.tasks| ==> Apply(concurrency, s, step).tasks[i] == s.tasks[i]
  {
    hide InFlight;
  }

  lemma Arrives(concurrency: nat, s: State, step: Step, i: nat, p: Phase)
    requires Concerns(step, i) && At(Apply(concurrency, s, step), i, p) && !At(s, i, p)
    ensures Causes(concurrency, s, step, i, p)
  {
    hide InFlight;
    match step
    case Admit(_) =>
    case CheckAbort(_, _) =>
    case Fetch(_, _) =>
    case AgentEnds(_, _) =>
    case Drop(_, _, _) =>
    case Complete(_, _) =>
  }

  lemma Departs(concurrency: nat, s: State, step: Step, i: nat, p: Phase)
    requires Causes(concurrency, s, step, i, p)
    ensures At(Apply(concurrency, s, step), i, p)
  {
    hide InFlight;
  }

  lemma OverStays(concurrency: nat, s: State, step: Step, i: nat, p: Phase)
    requires Over(p) && At(s, i, p)
    ensures At(Apply(concurrency, s, step), i, p)
  {
    if !Concerns(step, i) {
      OthersStay(concurrency, s, step, i);
    } else {
      hide InFlight;
    }
  }

  lemma OneCause(concurrency: nat, s: State, step: Step, i: nat, p: Phase)
    ensures p != Waiting ==>
              At(Apply(concurrency, s, step), i, p) ==> At(s, i, p) || Causes(concurrency, s, step, i, p)
    ensures Causes(concurrency, s, step, i, p) ==> At(Apply(concurrency, s, step), i, p)
    ensures Over(p) && At(s, i, p) ==> At(Apply(concurrency, s, step), i, p)
  {
    hide Apply, Causes, Over;
    if Over(p) && At(s, i, p) { OverStays(concurrency, s, step, i, p); }
    if Causes(concurrency, s, step, i, p) { Departs(concurrency, s, step, i, p); }
    if At(Apply(concurrency, s, step), i, p) && !At(s, i, p) {
      if Concerns(step, i) { Arrives(concurrency, s, step, i, p); } else { OthersStay(concurrency, s, step, i); }
    }
  }

  ghost predicate CausedAt(concurrency: nat, s: State, steps: seq<Step>, i: nat, p: Phase, n: nat)
    requires n < |steps|
  {
    Causes(concurrency, Run(concurrency, s, steps[..n]), steps[n], i, p)
  }

  lemma CausedPrefix(concurrency: nat, s: State, steps: seq<Step>, i: nat, p: Phase, m: nat, n: nat)
    requires n < m <= |steps|
    ensures CausedAt(concurrency, s, steps[..m], i, p, n) == CausedAt(concurrency, s, steps, i, p, n)
  {
    hide Causes;
    assert steps[..m][..n] == steps[..n];
  }

  /** A task is where some step of the schedule took it. */
  lemma {:induction false} CauseOf(concurrency: nat, s: State, steps: seq<Step>, i: nat, p: Phase) returns (n: nat)
    requires p != Waiting && !At(s, i, p) && At(Run(concurrency, s, steps), i, p)
    ensures n < |steps| && CausedAt(concurrency, s, steps, i, p, n)
  {
    hide Apply, Causes, At;
    var m := |steps| - 1;
    OneCause(concurrency, Run(concurrency, s, steps[..m]), steps[m], i, p);
    if At(Run(concurrency, s, steps[..m]), i, p) {
      n := CauseOf(concurrency, s, steps[..m], i, p);
      CausedPrefix(concurrency, s, steps, i, p, m, n);
    } else {
      n := m;
    }
  }

  /** And a task that is over stays so. */
  lemma {:induction false} OverForGood(concurrency: nat, s: State, steps: seq<Step>, i: nat, p: Phase, n: nat)
    requires Over(p) && n < |steps| && CausedAt(concurrency, s, steps, i, p, n)
    ensures At(Run(concurrency, s, steps), i, p)
    decreases |steps|
  {
    hide Apply, Causes, At;
    var m := |steps| - 1;
    OneCause(concurrency, Run(concurrency, s, steps[..m]), steps[m], i, p);
    if n < m {
      CausedPrefix(concurrency, s, steps, i, p, m, n);
      OverForGood(concurrency, s, steps[..m], i, p, n);
    }
  }

  lemma AbortStep(concurrency: nat, s: State, step: Step)
    ensures Apply(concurrency, s, step).aborted <==> s.aborted || step == Abort
  {
    hide InFlight;
  }

  lemma {:induction false} AbortedIff(concurrency: nat, s: State, steps: seq<Step>)
    ensures Run(concurrency, s, steps).aborted <==> s.aborted || Abort in steps
  {
    if steps != [] {
      var init, last := steps[..|steps| - 1], steps[|steps| - 1];
      AbortedIff(concurrency, s, init);
      AbortStep(concurrency, Run(concurrency, s, init), last);
      hide Apply;
      assert steps == init + [last];
    }
  }

  lemma StartWaits(snapshot: seq<string>, maxIterations: nat, i: nat)
    ensures var s := Start(snapshot, maxIterations);
            (i < |s.tasks| ==> s.tasks[i] == Task(snapshot[i], Waiting)) && !s.aborted
  {
  }

  /** Over every schedule: how a task ends is told by one step of it. It is
      skipped as aborted exactly when the abort was set before its check, as
      missing exactly when its record was not stored as it was fetched, and
      processed, or failed, exactly at the steps that say so. */
  lemma OutcomeIff(concurrency: nat, snapshot: seq<string>, maxIterations: nat, steps: seq<Step>, i: nat, p: Phase)
    requires Over(p) && i < |Start(snapshot, maxIterations).tasks|
    ensures var start := Start(snapshot, maxIterations);
            At(Run(concurrency, start, steps), i, p) <==>
            exists n :: 0 <= n < |steps| && CausedAt(concurrency, start, steps, i, p, n)
  {
    hide Run, CausedAt, Start;
    var start := Start(snapshot, maxIterations);
    StartWaits(snapshot, maxIterations, i);
    if At(Run(concurrency, start, steps), i, p) {
      var n := CauseOf(concurrency, start, steps, i, p);
    }
    if n :| 0 <= n < |steps| && CausedAt(concurrency, start, steps, i, p, n) {
      OverForGood(concurrency, start, steps, i, p, n);
    }
  }

  lemma {:induction false} ReturnOf(concurrency: nat, s: State, steps: seq<Step>, i: nat) returns (n: nat)
    requires i < |s.tasks| == |Run(concurrency, s, steps).tasks|
    requires !HasReturned(s.tasks[i].phase) && HasReturned(Run(concurrency, s, steps).tasks[i].phase)
    ensures n < |steps| && CausedAt(concurrency, s, steps, i, Returned, n)
  {
    hide Apply, Causes;
    var m := |steps| - 1;
    var before := Run(concurrency, s, steps[..m]);
    StepFrame(concurrency, before, steps[m]);
    if HasReturned(before.tasks[i].phase) {
      n := ReturnOf(concurrency, s, steps[..m], i);
      CausedPrefix(concurrency, s, steps, i, Returned, m, n);
    } else {
      n := m;
      ReturnStep(concurrency, before, steps[m], i);
    }
  }

  lemma ReturnStep(concurrency: nat, s: State, step: Step, i: nat)
    requires i < |s.tasks| == |Apply(concurrency, s, step).tasks|
    requires !HasReturned(s.tasks[i].phase) && HasReturned(Apply(concurrency, s, step).tasks[i].phase)
    ensures Causes(concurrency, s, step, i, Returned)
  {
    if !step.AgentEnds? { OthersReturnNothing(concurrency, s, step, i); }
  }

  /** The step at which task i deleted its record: after its agent returned, and
      the record is gone. */
  ghost predicate DropsAt(concurrency: nat, s: State, steps: seq<Step>, i: nat, n: nat)
    requires n < |steps|
  {
    var before := Run(concurrency, s, steps[..n]);
    && At(before, i, Returned) && steps[n].Drop? && steps[n].i == i && steps[n].deleted
    && before.tasks[i].record !in Run(concurrency, s, steps[..n + 1]).store
  }

  lemma {:induction false} DropOf(concurrency: nat, s: State, steps: seq<Step>, i: nat)
    requires i !in s.drops
    ensures i in Run(concurrency, s, steps).drops <==> exists n :: 0 <= n < |steps| && DropsAt(concurrency, s, steps, i, n)
  {
    if steps != [] {
      hide DropsAt;
      var m := |steps| - 1;
      DropOf(concurrency, s, steps[..m], i);
      DropsLast(concurrency, s, steps[..m], steps[m], i);
      assert steps == steps[..m] + [steps[m]];
      hide Run;
      forall n | 0 <= n < m ensures DropsAt(concurrency, s, steps[..m], i, n) == DropsAt(concurrency, s, steps, i, n) {
        DropsPrefix(concurrency, s, steps, i, m, n);
      }
    }
  }

  lemma DropsPrefix(concurrency: nat, s: State, steps: seq<Step>, i: nat, m: nat, n: nat)
    requires n < m <= |steps|
    ensures DropsAt(concurrency, s, steps[..m], i, n) == DropsAt(concurrency, s, steps, i, n)
  {
    hide Run;
    assert steps[..m][..n] == steps[..n] && steps[..m][..n + 1] == steps[..n + 1];
  }

  lemma DropsLast(concurrency: nat, s: State, steps: seq<Step>, step: Step, i: nat)
    ensures i in Run(concurrency, s, steps + [step]).drops <==>
            i in Run(concurrency, s, steps).drops || DropsAt(concurrency, s, steps + [step], i, |steps|)
  {
    hide Apply;
    var all, m := steps + [step], |steps|;
    assert all[..m] == steps && all[..m + 1] == all;
    DropStep(concurrency, Run(concurrency, s, steps), step, i);
  }

  lemma DropStep(concurrency: nat, s: State, step: Step, i: nat)
    ensures var t := Apply(concurrency, s, step);
            && (i in t.drops <==> i in s.drops || (At(s, i, Returned) && step.Drop? && step.i == i && step.deleted))
            && (At(s, i, Returned) && step.Drop? && step.i == i && step.deleted ==> s.tasks[i].record !in t.store)
  {
    hide InFlight;
  }

  /** Over every schedule: a task is logged as having dropped its record exactly
      when, at some step after its agent returned, it deleted it from the store. */
  lemma DroppedIff(concurrency: nat, snapshot: seq<string>, maxIterations: nat, steps: seq<Step>, i: nat)
    ensures var start := Start(snapshot, maxIterations);
            i in Run(concurrency, start, steps).drops <==>
            exists n :: 0 <= n < |steps| && DropsAt(concurrency, start, steps, i, n)
  {
    DropOf(concurrency, Start(snapshot, maxIterations), steps, i);
  }

  /** Over every schedule: an agent run that returned was admitted while a slot
      was free, then checked with no abort so far, then given a record that was
      stored as it was fetched. */
  lemma ReturnedTookItsSteps(concurrency: nat, snapshot: seq<string>, maxIterations: nat, steps: seq<Step>, i: nat)
    requires i in Run(concurrency, Start(snapshot, maxIterations), steps).returned
    ensures var start := Start(snapshot, maxIterations);
            exists a, b, c, d ::
              && 0 <= a < b < c < d < |steps| && i < |snapshot|
              && steps[a] == Admit(i) && InFlight(Run(concurrency, start, steps[..a]).tasks) < concurrency
              && steps[b] == CheckAbort(i, true) && Abort !in steps[..b]
              && steps[c] == Fetch(i, true) && snapshot[i] in Run(concurrency, start, steps[..c]).store
              && steps[d] == AgentEnds(i, true)
  {
    hide Run, Start, InFlight, Kept;
    var start := Start(snapshot, maxIterations);
    RunFacts(concurrency, snapshot, maxIterations, steps);
    StartWaits(snapshot, maxIterations, i);
    SameTasks(concurrency, start, steps);
    var d := ReturnOf(concurrency, start, steps, i);
    var c := CauseOf(concurrency, start, steps[..d], i, Running);
    assert steps[..d][..c] == steps[..c];
    var b := CauseOf(concurrency, start, steps[..c], i, Checked);
    assert steps[..c][..b] == steps[..b];
    var a := CauseOf(concurrency, start, steps[..b], i, Admitted);
    assert steps[..b][..a] == steps[..a];
    AbortedIff(concurrency, start, steps[..b]);
    SameTasks(concurrency, start, steps[..c]);
  }

  lemma {:induction false} SameTasks(concurrency: nat, s: State, steps: seq<Step>)
    ensures var t := Run(concurrency, s, steps);
            |t.tasks| == |s.tasks| && forall i :: 0 <= i < |s.tasks| ==> t.tasks[i].record == s.tasks[i].record
  {
    hide Apply;
    if steps != [] {
      SameTasks(concurrency, s, steps[..|steps| - 1]);
      StepFrame(concurrency, Run(concurrency, s, steps[..|steps| - 1]), steps[|steps| - 1]);
    }
  }

  /** The step takes record r out of the store: an outside removal, or the drop
      of a task that works on it. */
  predicate Removes(s: State, step: Step, r: string) {
    || step == Take(r)
    || (step.Drop? && step.deleted && At(s, step.i, Returned) && s.tasks[step.i].record == r)
  }

  /** Since step n of the schedule (0 for its start) nothing has removed r. */
  ghost predicate Remains(concurrency: nat, s: State, steps: seq<Step>, r: string, n: nat) {
    forall k :: n <= k < |steps| ==> !Removes(Run(concurrency, s, steps[..k]), steps[k], r)
  }

  /** Over every schedule: a record is stored exactly when it was there at the
      start, or was stashed, and nothing has removed it since. */
  lemma {:induction false} StoredIff(concurrency: nat, s: State, steps: seq<Step>, r: string)
    ensures r in Run(concurrency, s, steps).store <==>
            || (r in s.store && Remains(concurrency, s, steps, r, 0))
            || (exists n :: 0 < n <= |steps| && steps[n - 1] == Stash(r) && Remains(concurrency, s, steps, r, n))
  {
    if steps != [] {
      hide Apply, Removes;
      var m := |steps| - 1;
      StoredIff(concurrency, s, steps[..m], r);
      StoreStep(concurrency, Run(concurrency, s, steps[..m]), steps[m], r);
      forall n | 0 <= n <= m
        ensures Remains(concurrency, s, steps, r, n) <==>
                Remains(concurrency, s, steps[..m], r, n) && !Removes(Run(concurrency, s, steps[..m]), steps[m], r)
      {
        RemainsSnoc(concurrency, s, steps, r, n);
      }
      assert Remains(concurrency, s, steps, r, m + 1);
    }
  }

  lemma RemainsSnoc(concurrency: nat, s: State, steps: seq<Step>, r: string, n: nat)
    requires n < |steps|
    ensures var m := |steps| - 1;
            Remains(concurrency, s, steps, r, n) <==>
            Remains(concurrency, s, steps[..m], r, n) && !Removes(Run(concurrency, s, steps[..m]), steps[m], r)
  {
    hide Run, Removes;
    var m := |steps| - 1;
    forall k | n <= k < m ensures steps[..m][..k] == steps[..k] && steps[..m][k] == steps[k] {
    }
  }

  lemma StoreStep(concurrency: nat, s: State, step: Step, r: string)
    ensures r in Apply(concurrency, s, step).store <==> step == Stash(r) || (r in s.store && !Removes(s, step, r))
  {
    hide InFlight;
  }

  /** The step by which a task loses its record and still fails: its drop
      raises after the deletion, or its completed event does. */
  ghost predicate FailsDropped(s: State, step: Step, i: nat) {
    || (At(s, i, Returned) && step == Drop(i, true, true))
    || (At(s, i, Dropped) && step == Complete(i, false))
  }

  /** The n-th step of the schedule is such a step. */
  ghost predicate FailsDroppedAt(concurrency: nat, s: State, steps: seq<Step>, i: nat, n: nat)
    requires n < |steps|
  {
    FailsDropped(Run(concurrency, s, steps[..n]), steps[n], i)
  }

  lemma FailsDroppedCauses(concurrency: nat, s: State, step: Step, i: nat)
    ensures FailsDropped(s, step, i) <==>
            Causes(concurrency, s, step, i, Raised(Dropping(true))) || Causes(concurrency, s, step, i, Raised(Completing))
  {
    hide InFlight;
  }

  /** "Dropped" does not mean "processed". Over every schedule, a task's record
      is gone by its own hand and the task is reported failed if and only if,
      at some point of the schedule, its drop raised after deleting the record
      or its completed event raised after a clean drop. */
  lemma DroppedButFailedIff(concurrency: nat, snapshot: seq<string>, maxIterations: nat, steps: seq<Step>, i: nat)
    requires i < |Start(snapshot, maxIterations).tasks|
    ensures var start := Start(snapshot, maxIterations);
            var s := Run(concurrency, start, steps);
            && i < |s.tasks|
            && ((i in s.drops && s.tasks[i].phase.Raised?) <==>
                exists n :: 0 <= n < |steps| && FailsDroppedAt(concurrency, start, steps, i, n))
  {
    hide Run, InFlight, Kept, Causes, FailsDropped;
    var start := Start(snapshot, maxIterations);
    RunFacts(concurrency, snapshot, maxIterations, steps);
    OutcomeIff(concurrency, snapshot, maxIterations, steps, i, Raised(Dropping(true)));
    OutcomeIff(concurrency, snapshot, maxIterations, steps, i, Raised(Completing));
    forall n | 0 <= n < |steps|
      ensures FailsDroppedAt(concurrency, start, steps, i, n) <==>
              CausedAt(concurrency, start, steps, i, Raised(Dropping(true)), n) ||
              CausedAt(concurrency, start, steps, i, Raised(Completing), n)
    {
      FailsDroppedCauses(concurrency, Run(concurrency, start, steps[..n]), steps[n], i);
    }
  }

  /** A concrete schedule of that kind. */
  lemma CompletedEventCanFailADroppedRecord()
    ensures var s := Run(1, Start(["a"], 1), [Admit(0), CheckAbort(0, true), Fetch(0, true), AgentEnds(0, true),
                                              Drop(0, true, false), Complete(0, false)]);
            |s.tasks| == 1 && s.tasks[0].phase == Raised(Completing) && s.drops == [0] && "a" !in s.store
  {
    hide Run, Apply;
    var start := Start(["a"], 1);
    var a, b, c := AgentStarts(start);
    var d, e, f := EventFails(c);
    SixSteps(start, [Admit(0), CheckAbort(0, true), Fetch(0, true), AgentEnds(0, true), Drop(0, true, false), Complete(0, false)],
             a, b, c, d, e, f);
  }

  lemma AgentStarts(start: State) returns (a: State, b: State, c: State)
    requires start == Start(["a"], 1)
    ensures a == Apply(1, start, Admit(0)) && b == Apply(1, a, CheckAbort(0, true)) && c == Apply(1, b, Fetch(0, true))
    ensures c == State([Task("a", Running)], {"a"}, false, [], [], {})
  {
    assert start == State([Task("a", Waiting)], {"a"}, false, [], [], {});
    OneFree(start.tasks);
    hide InFlight, Start;
    a := Apply(1, start, Admit(0));
    b := Apply(1, a, CheckAbort(0, true));
    c := Apply(1, b, Fetch(0, true));
  }

  lemma EventFails(c: State) returns (d: State, e: State, f: State)
    requires c == State([Task("a", Running)], {"a"}, false, [], [], {})
    ensures d == Apply(1, c, AgentEnds(0, true)) && e == Apply(1, d, Drop(0, true, false)) && f == Apply(1, e, Complete(0, false))
    ensures f == State([Task("a", Raised(Completing))], {}, false, [0], [0], {})
  {
    hide InFlight;
    d := Apply(1, c, AgentEnds(0, true));
    e := Apply(1, d, Drop(0, true, false));
    f := Apply(1, e, Complete(0, false));
  }

  lemma OneFree(tasks: seq<Task>)
    requires |tasks| == 1 && !Holds(tasks[0].phase)
    ensures InFlight(tasks) == 0
  {
    assert tasks[..0] == [] && InFlight(tasks[..0]) == 0;
  }

  lemma SixSteps(s: State, steps: seq<Step>, a: State, b: State, c: State, d: State, e: State, f: State)
    requires |steps| == 6
    requires a == Apply(1, s, steps[0]) && b == Apply(1, a, steps[1]) && c == Apply(1, b, steps[2])
    requires d == Apply(1, c, steps[3]) && e == Apply(1, d, steps[4]) && f == Apply(1, e, steps[5])
    ensures Run(1, s, steps) == f
  {
    hide Apply;
    forall n | 0 < n <= 6 ensures Run(1, s, steps[..n]) == Apply(1, Run(1, s, steps[..n - 1]), steps[n - 1]) {
      assert steps[..n][..n - 1] == steps[..n - 1];
    }
    assert steps[..6] == steps && steps[..0] == [];
    assert Run(1, s, steps[..3]) == c;
  }

  // ---------------------------------------------------------------- every schedule ends

  function Left(p: Phase): nat {
    match p
    case Waiting => 6
    case Admitted => 5
    case Checked => 4
    case Running => 3
    case Returned => 2
    case Dropped => 1
    case _ => 0
  }

  function Rank(tasks: seq<Task>): nat {
    if tasks == [] then 0 else Rank(tasks[..|tasks| - 1]) + Left(tasks[|tasks| - 1].phase)
  }

  lemma {:induction false} RankMove(tasks: seq<Task>, i: nat, t: Task)
    requires i < |tasks|
    ensures Rank(tasks[i := t]) + Left(tasks[i].phase) == Rank(tasks) + Left(t.phase)
    decreases |tasks|
  {
    var n := |tasks| - 1;
    if i == n {
      assert tasks[i := t][..n] == tasks[..n];
    } else {
      RankMove(tasks[..n], i, t);
      assert tasks[i := t][..n] == tasks[..n][i := t];
    }
  }

  predicate Finished(s: State) {
    forall i :: 0 <= i < |s.tasks| ==> s.tasks[i].phase.Done? || s.tasks[i].phase.Raised?
  }

  /** How many steps of a schedule moved some task. */
  function Effective(concurrency: nat, s: State, steps: seq<Step>): nat {
    if steps == [] then 0
    else
      var init, last := steps[..|steps| - 1], steps[|steps| - 1];
      var before := Run(concurrency, s, init);
      Effective(concurrency, s, init) + (if Apply(concurrency, before, last).tasks != before.tasks then 1 else 0)
  }

  lemma StepRanks(concurrency: nat, s: State, step: Step)
    ensures var t := Apply(concurrency, s, step); t.tasks == s.tasks || Rank(t.tasks) < Rank(s.tasks)
  {
    hide InFlight, Rank;
    var t := Apply(concurrency, s, step);
    if t.tasks != s.tasks { RankMove(s.tasks, step.i, t.tasks[step.i]); }
  }

  lemma {:induction false} EffectiveLowersRank(concurrency: nat, s: State, steps: seq<Step>)
    ensures Effective(concurrency, s, steps) + Rank(Run(concurrency, s, steps).tasks) <= Rank(s.tasks)
  {
    hide Apply, Rank;
    if steps != [] {
      EffectiveLowersRank(concurrency, s, steps[..|steps| - 1]);
      StepRanks(concurrency, Run(concurrency, s, steps[..|steps| - 1]), steps[|steps| - 1]);
    }
  }

  lemma {:induction false} RankAtMost(tasks: seq<Task>)
    ensures Rank(tasks) <= 6 * |tasks|
  {
    if tasks != [] { RankAtMost(tasks[..|tasks| - 1]); }
  }

  lemma FinishedStays(concurrency: nat, s: State, step: Step)
    requires Finished(s)
    ensures Apply(concurrency, s, step).tasks == s.tasks
  {
    hide InFlight;
  }

  /** No schedule runs forever and none deadlocks: over any schedule at most six
      steps per task move anything, and a run that no step can move any further
      is exactly one whose tasks have all finished. */
  lemma EveryScheduleEnds(concurrency: nat, snapshot: seq<string>, maxIterations: nat, steps: seq<Step>)
    requires concurrency > 0
    ensures var start := Start(snapshot, maxIterations);
            var s := Run(concurrency, start, steps);
            && Effective(concurrency, start, steps) <= 6 * |start.tasks|
            && (Finished(s) <==> forall next :: Apply(concurrency, s, next).tasks == s.tasks)
  {
    hide Apply, Run, Start, Effective, Finished, Left;
    var start := Start(snapshot, maxIterations);
    var s := Run(concurrency, start, steps);
    EffectiveLowersRank(concurrency, start, steps);
    RankAtMost(start.tasks);
    if Finished(s) {
      forall next ensures Apply(concurrency, s, next).tasks == s.tasks { FinishedStays(concurrency, s, next); }
    } else {
      var next := Enabled(concurrency, s);
      assert Apply(concurrency, s, next).tasks != s.tasks;
    }
  }

  lemma Enabled(concurrency: nat, s: State) returns (next: Step)
    requires concurrency > 0 && !Finished(s)
    ensures !next.Take? && !next.Stash? && !next.Abort? && next.i < |s.tasks|
    ensures Left(Apply(concurrency, s, next).tasks[next.i].phase) < Left(s.tasks[next.i].phase)
    ensures Apply(concurrency, s, next).tasks == s.tasks[next.i := Apply(concurrency, s, next).tasks[next.i]]
  {
    if i :| 0 <= i < |s.tasks| && Holds(s.tasks[i].phase) {
      match s.tasks[i].phase
      case Admitted => next := CheckAbort(i, true);
      case Checked => next := Fetch(i, true);
      case Running => next := AgentEnds(i, true);
      case Returned => next := Drop(i, true, false);
      case Dropped => next := Complete(i, true);
    } else {
      NoHolders(s.tasks);
      var i :| 0 <= i < |s.tasks| && !(s.tasks[i].phase.Done? || s.tasks[i].phase.Raised?);
      next := Admit(i);
    }
  }

  lemma {:induction false} NoHolders(tasks: seq<Task>)
    requires forall i :: 0 <= i < |tasks| ==> !Holds(tasks[i].phase)
    ensures InFlight(tasks) == 0
  {
    if tasks != [] { NoHolders(tasks[..|tasks| - 1]); }
  }

  // ---------------------------------------------------------------- gathering

  /** What the gather hands back for a finished task. */
  datatype Gathered = Exception(at: Stage) | Tag(outcome: Outcome)

  function Outcomes(gathered: seq<Gathered>): (r: seq<Outcome>)
    ensures |r| == |gathered|
  {
    seq(|gathered|, i requires 0 <= i < |gathered| => if gathered[i].Exception? then Failed else gathered[i].outcome)
  }

  method CollectOutcomes(gathered: seq<Gathered>) returns (outcomes: seq<Outcome>)
    ensures outcomes == Outcomes(gathered)
    ensures |outcomes| == |gathered|
    ensures forall i :: 0 <= i < |gathered| ==>
              match gathered[i] { case Exception(_) => outcomes[i] == Failed case Tag(o) => outcomes[i] == o }
  {
    outcomes := [];
    for idx := 0 to |gathered|
      invariant outcomes == Outcomes(gathered[..idx])
    {
      if gathered[idx].Exception? {
        outcomes := outcomes + [Failed];
      } else {
        outcomes := outcomes + [gathered[idx].outcome];
      }
    }
    assert gathered[..|gathered|] == gathered;
  }

  function Count(outcomes: seq<Outcome>, o: Outcome): nat {
    if outcomes == [] then 0
    else Count(outcomes[..|outcomes| - 1], o) + (if outcomes[|outcomes| - 1] == o then 1 else 0)
  }

  datatype Report = Report(processed: nat, skippedMissing: nat, skippedAborted: nat, failed: nat, snapshotSize: nat,
                           exhausted: bool)

  function Reported(outcomes: seq<Outcome>, snapshotSize: nat, maxIterations: nat): Report {
    Report(Count(outcomes, Processed), Count(outcomes, SkippedMissing), Count(outcomes, SkippedAborted),
           Count(outcomes, Failed), snapshotSize, snapshotSize <= maxIterations)
  }

  lemma {:induction false} CountersPartition(outcomes: seq<Outcome>)
    ensures Count(outcomes, Processed) + Count(outcomes, SkippedMissing) + Count(outcomes, SkippedAborted)
            + Count(outcomes, Failed) == |outcomes|
  {
    if outcomes != [] { CountersPartition(outcomes[..|outcomes| - 1]); }
  }

  function GatheredOf(tasks: seq<Task>): (r: seq<Gathered>)
    requires forall i :: 0 <= i < |tasks| ==> tasks[i].phase.Done? || tasks[i].phase.Raised?
    ensures |r| == |tasks|
  {
    seq(|tasks|, i requires 0 <= i < |tasks| =>
      if tasks[i].phase.Done? then Tag(tasks[i].phase.outcome) else Exception(tasks[i].phase.at))
  }

  /** The tasks that ended with the outcome `o`. */
  function EndedAs(tasks: seq<Task>, o: Outcome): set<nat> {
    set i | 0 <= i < |tasks| && tasks[i].phase == Done(o)
  }

  lemma CountedAs(tasks: seq<Task>, outcomes: seq<Outcome>)
    requires forall i :: 0 <= i < |tasks| ==> tasks[i].phase.Done? || tasks[i].phase.Raised?
    requires forall i :: 0 <= i < |tasks| ==> tasks[i].phase != Done(Failed)
    requires outcomes == Outcomes(GatheredOf(tasks))
    ensures Count(outcomes, Processed) == |EndedAs(tasks, Processed)|
    ensures Count(outcomes, SkippedMissing) == |EndedAs(tasks, SkippedMissing)|
    ensures Count(outcomes, SkippedAborted) == |EndedAs(tasks, SkippedAborted)|
    ensures Count(outcomes, Failed) == |set i | 0 <= i < |tasks| && tasks[i].phase.Raised?|
  {
    hide Count;
    CountIsCardinality(outcomes, Processed);
    CountIsCardinality(outcomes, SkippedMissing);
    CountIsCardinality(outcomes, SkippedAborted);
    CountIsCardinality(outcomes, Failed);
    assert Tagged(outcomes, Processed) == EndedAs(tasks, Processed);
    assert Tagged(outcomes, SkippedMissing) == EndedAs(tasks, SkippedMissing);
    assert Tagged(outcomes, SkippedAborted) == EndedAs(tasks, SkippedAborted);
    assert Tagged(outcomes, Failed) == set i | 0 <= i < |tasks| && tasks[i].phase.Raised?;
  }

  /** A finished run: each counter is the number of tasks that ended so, `failed`
      that of the tasks that raised; they sum to min(snapshot, maxIterations);
      processed ones are no more than the records dropped; and the snapshot is
      exhausted when every record of it had a task. */
  lemma CountersAreConserved(concurrency: nat, snapshot: seq<string>, maxIterations: nat, steps: seq<Step>)
    requires Finished(Run(concurrency, Start(snapshot, maxIterations), steps))
    ensures var s := Run(concurrency, Start(snapshot, maxIterations), steps);
            var outcomes := Outcomes(GatheredOf(s.tasks));
            var r := Reported(outcomes, |snapshot|, maxIterations);
            && r.processed + r.skippedMissing + r.skippedAborted + r.failed
               == (if |snapshot| < maxIterations then |snapshot| else maxIterations)
            && |outcomes| == |s.tasks|
            && (forall i :: 0 <= i < |outcomes| ==> (outcomes[i] == Failed <==> s.tasks[i].phase.Raised?))
            && r.processed == |EndedAs(s.tasks, Processed)| && r.skippedMissing == |EndedAs(s.tasks, SkippedMissing)|
            && r.skippedAborted == |EndedAs(s.tasks, SkippedAborted)|
            && r.failed == |set i | 0 <= i < |s.tasks| && s.tasks[i].phase.Raised?|
            && r.snapshotSize == |snapshot| && (r.exhausted <==> |s.tasks| == |snapshot|)
            && r.processed <= |s.drops| <= r.processed + r.failed
  {
    hide Run, InFlight, Start, Kept, Count;
    RunFacts(concurrency, snapshot, maxIterations, steps);
    var s := Run(concurrency, Start(snapshot, maxIterations), steps);
    var outcomes := Outcomes(GatheredOf(s.tasks));
    CountersPartition(outcomes);
    CountedAs(s.tasks, outcomes);
    DropsCounted(s.drops, outcomes);
  }

  function Tagged(outcomes: seq<Outcome>, o: Outcome): set<nat> {
    set i | 0 <= i < |outcomes| && outcomes[i] == o
  }

  lemma TaggedSnoc(init: seq<Outcome>, last: Outcome, o: Outcome)
    ensures Tagged(init + [last], o) == Tagged(init, o) + (if last == o then {|init|} else {})
    ensures |init| !in Tagged(init, o)
  {
  }

  lemma {:induction false} CountIsCardinality(outcomes: seq<Outcome>, o: Outcome)
    ensures Count(outcomes, o) == |Tagged(outcomes, o)|
  {
    if outcomes != [] {
      hide Tagged;
      var init, last := outcomes[..|outcomes| - 1], outcomes[|outcomes| - 1];
      CountIsCardinality(init, o);
      TaggedSnoc(init, last, o);
      assert outcomes == init + [last];
    }
  }

  function Members(log: seq<nat>): set<nat> {
    set i | i in log
  }

  lemma {:induction false} LogCardinality(log: seq<nat>)
    requires forall j, k :: 0 <= j < k < |log| ==> log[j] != log[k]
    ensures |Members(log)| == |log|
  {
    if log != [] {
      var init, last := log[..|log| - 1], log[|log| - 1];
      LogCardinality(init);
      assert forall i :: i in log <==> i in init || i == last;
      assert Members(log) == Members(init) + {last};
    }
  }

  lemma SubsetCardinality(a: set<nat>, b: set<nat>)
    requires a <= b
    ensures |a| <= |b|
  {
    assert b == a + (b - a);
  }

  /** A duplicate-free log of indices that covers every Processed one and hits
      only Processed or Failed ones has a length between the two counts. */
  lemma DropsCounted(drops: seq<nat>, outcomes: seq<Outcome>)
    requires forall j, k :: 0 <= j < k < |drops| ==> drops[j] != drops[k]
    requires forall k :: 0 <= k < |drops| ==> drops[k] < |outcomes| && outcomes[drops[k]] in {Processed, Failed}
    requires forall i :: 0 <= i < |outcomes| && outcomes[i] == Processed ==> i in drops
    ensures Count(outcomes, Processed) <= |drops| <= Count(outcomes, Processed) + Count(outcomes, Failed)
  {
    hide Count;
    var dropped := Members(drops);
    var processed, failed := Tagged(outcomes, Processed), Tagged(outcomes, Failed);
    CountIsCardinality(outcomes, Processed);
    CountIsCardinality(outcomes, Failed);
    LogCardinality(drops);
    SubsetCardinality(processed, dropped);
    SubsetCardinality(dropped, processed + failed);
  }
}
