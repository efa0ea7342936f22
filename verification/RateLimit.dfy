/** The fixed-window rate limiter: an atomic INCR/TTL pair, then an EXPIRE by
    every caller that saw no TTL, in any interleaving over real time. */
module RateLimit {
  import opened Wrappers

  /** One call, the lifetime of the key it fell in, and its verdict. */
  datatype Call = Call(time: real, life: nat, allowed: bool)

  datatype Entry = Entry(count: nat, expiry: Option<real>)

  /** `pending` counts callers that saw no TTL and have yet to send EXPIRE;
      `begun` holds the start of every lifetime of the key so far. */
  datatype State = State(key: Option<Entry>, pending: nat, now: real, begun: seq<real>, calls: seq<Call>)

  datatype Step = Incr(time: real) | Expire(time: real) | Reset(time: real)

  datatype Policy = Policy(limit: nat, window: nat)

  const EMPTY := State(None, 0, 0.0, [], [])

  /** The key as Redis shows it at `t`: gone once its expiry is reached. */
  function Shown(s: State, t: real): Option<Entry> {
    if s.key.Some? && s.key.value.expiry.Some? && s.key.value.expiry.value <= t then None else s.key
  }

  function Apply(p: Policy, s: State, step: Step): State {
    match step
    case Incr(t) =>
      var shown := Shown(s, t);
      var begun := if shown.None? then s.begun + [t] else s.begun;
      var e := if shown.None? then Entry(1, None) else shown.value.(count := shown.value.count + 1);
      State(Some(e), if e.expiry.None? then s.pending + 1 else s.pending, t, begun,
            s.calls + [Call(t, if |begun| == 0 then 0 else |begun| - 1, e.count <= p.limit)])
    case Expire(t) =>
      var shown := Shown(s, t);
      if s.pending == 0 then s.(now := t)
      else s.(pending := s.pending - 1, now := t,
              key := if shown.Some? then Some(shown.value.(expiry := Some(t + p.window as real))) else s.key)
    case Reset(t) => s.(key := None, now := t)
  }

  function Run(p: Policy, steps: seq<Step>): State {
    if steps == [] then EMPTY else Apply(p, Run(p, steps[..|steps| - 1]), steps[|steps| - 1])
  }

  ghost predicate InOrder(steps: seq<Step>) {
    && (forall i :: 0 <= i < |steps| ==> steps[i].time >= 0.0)
    && forall i, j :: 0 <= i < j < |steps| ==> steps[i].time <= steps[j].time
  }

  predicate NoResets(steps: seq<Step>) {
    forall i :: 0 <= i < |steps| ==> !steps[i].Reset?
  }

  // ---------------------------------------------------------------- counting

  function AllowedIn(calls: seq<Call>, life: nat): nat {
    if calls == [] then 0
    else
      var last := calls[|calls| - 1];
      AllowedIn(calls[..|calls| - 1], life) + (if last.allowed && last.life == life then 1 else 0)
  }

  predicate Inside(c: Call, a: real, b: real) {
    c.allowed && a <= c.time < b
  }

  function AllowedBetween(calls: seq<Call>, a: real, b: real): nat {
    if calls == [] then 0
    else
      var last := calls[|calls| - 1];
      AllowedBetween(calls[..|calls| - 1], a, b) + (if Inside(last, a, b) then 1 else 0)
  }

  lemma AllowedSnoc(calls: seq<Call>, c: Call, life: nat)
    ensures AllowedIn(calls + [c], life) == AllowedIn(calls, life) + (if c.allowed && c.life == life then 1 else 0)
  {
    assert (calls + [c])[..|calls|] == calls;
  }

  /** Calls of an interval that fall in two lifetimes number at most what those
      lifetimes allowed, less one for an allowed call outside the interval. */
  lemma {:induction false} TwoLives(calls: seq<Call>, a: real, b: real, life: nat)
    requires forall i :: 0 <= i < |calls| && Inside(calls[i], a, b) ==> calls[i].life in {life, life + 1}
    ensures AllowedBetween(calls, a, b) <= AllowedIn(calls, life) + AllowedIn(calls, life + 1)
    ensures (exists j :: 0 <= j < |calls| && calls[j].allowed && calls[j].life == life && calls[j].time < a) ==>
              AllowedBetween(calls, a, b) < AllowedIn(calls, life) + AllowedIn(calls, life + 1)
  {
    if calls != [] {
      var init := calls[..|calls| - 1];
      TwoLives(init, a, b, life);
      if j :| 0 <= j < |calls| && calls[j].allowed && calls[j].life == life && calls[j].time < a {
        if j < |init| { assert init[j] == calls[j]; }
      }
    }
  }

  // ---------------------------------------------------------------- the invariant

  /** Lifetimes start a window apart at least, and every call lies in its own. */
  ghost predicate LivesSound(p: Policy, s: State) {
    && (forall l :: 0 <= l < |s.begun| ==> s.begun[l] <= s.now)
    && (forall l :: 0 < l < |s.begun| ==> s.begun[l - 1] + p.window as real <= s.begun[l])
    && forall i :: 0 <= i < |s.calls| ==>
         var c := s.calls[i];
         && c.life < |s.begun| && s.begun[c.life] <= c.time <= s.now
         && (c.life + 1 < |s.begun| ==> c.time <= s.begun[c.life + 1])
  }

  /** No lifetime allows more than the limit, and the counter keeps up with
      what the current one allowed. */
  ghost predicate CountsSound(p: Policy, s: State) {
    && (forall l: nat :: AllowedIn(s.calls, l) <= p.limit)
    && (forall l: nat :: l >= |s.begun| ==> AllowedIn(s.calls, l) == 0)
    && (forall l: nat :: s.key.Some? && l + 1 == |s.begun| ==> AllowedIn(s.calls, l) <= s.key.value.count)
  }

  ghost predicate OpeningsSound(p: Policy, s: State) {
    p.limit > 0 ==> forall l :: 0 <= l < |s.begun| ==> Opened(s.calls, l, s.begun[l])
  }

  /** The call that opened a lifetime was allowed. */
  ghost predicate Opened(calls: seq<Call>, life: nat, t: real) {
    exists i :: 0 <= i < |calls| && calls[i] == Call(t, life, true)
  }

  ghost predicate KeySound(p: Policy, s: State) {
    && (s.key.None? <==> s.begun == [])
    && (s.key.Some? ==> s.key.value.count > 0)
    && (s.key.Some? && s.key.value.expiry.Some? ==>
          s.begun[|s.begun| - 1] + p.window as real <= s.key.value.expiry.value <= s.now + p.window as real)
  }

  ghost predicate Inv(p: Policy, s: State) {
    LivesSound(p, s) && CountsSound(p, s) && OpeningsSound(p, s) && KeySound(p, s)
  }

  lemma IncrCounts(p: Policy, s: State, t: real)
    requires CountsSound(p, s) && KeySound(p, s)
    ensures CountsSound(p, Apply(p, s, Incr(t)))
  {
    hide AllowedIn;
    var g := Apply(p, s, Incr(t));
    var c := g.calls[|s.calls|];
    forall l: nat ensures AllowedIn(g.calls, l) == AllowedIn(s.calls, l) + (if c.allowed && c.life == l then 1 else 0) {
      AllowedSnoc(s.calls, c, l);
    }
  }

  lemma IncrOpens(p: Policy, s: State, t: real)
    requires OpeningsSound(p, s) && KeySound(p, s)
    ensures OpeningsSound(p, Apply(p, s, Incr(t)))
  {
    var g := Apply(p, s, Incr(t));
    if p.limit > 0 {
      forall l | 0 <= l < |g.begun| ensures Opened(g.calls, l, g.begun[l]) {
        if l < |s.begun| {
          assert Opened(s.calls, l, s.begun[l]);
          var i :| 0 <= i < |s.calls| && s.calls[i] == Call(s.begun[l], l, true);
          assert g.calls[i] == s.calls[i];
        } else {
          assert g.calls[|s.calls|] == Call(t, l, true);
        }
      }
    }
  }

  /** A call logged at the end, in the latest lifetime. */
  lemma LogCall(p: Policy, s: State, g: State, t: real)
    requires LivesSound(p, s) && t >= s.now && s.begun != []
    requires g.begun == s.begun && g.now == t
    requires |g.calls| == |s.calls| + 1 && g.calls[..|s.calls|] == s.calls
    requires g.calls[|s.calls|].time == t && g.calls[|s.calls|].life == |s.begun| - 1
    ensures LivesSound(p, g)
  {
    forall i | 0 <= i < |s.calls| ensures g.calls[i] == s.calls[i] {
      assert g.calls[..|s.calls|][i] == s.calls[i];
    }
  }

  /** A lifetime that begins at `t`, a window after the one before at least. */
  lemma BeginLife(p: Policy, s: State, t: real)
    requires LivesSound(p, s) && t >= s.now
    requires s.begun != [] ==> s.begun[|s.begun| - 1] + p.window as real <= t
    ensures LivesSound(p, s.(begun := s.begun + [t], now := t))
  {
    var g := s.(begun := s.begun + [t], now := t);
    forall i | 0 <= i < |g.calls| && g.calls[i].life + 1 < |g.begun| ensures g.calls[i].time <= g.begun[g.calls[i].life + 1] {
      if g.calls[i].life + 1 == |s.begun| { assert g.begun[|s.begun|] == t; }
    }
  }

  /** A call in the current lifetime. */
  lemma IncrLives(p: Policy, s: State, t: real)
    requires LivesSound(p, s) && KeySound(p, s) && t >= s.now && Shown(s, t).Some?
    ensures LivesSound(p, Apply(p, s, Incr(t))) && KeySound(p, Apply(p, s, Incr(t)))
  {
    hide LivesSound;
    LogCall(p, s, Apply(p, s, Incr(t)), t);
  }

  /** A call that opens a lifetime. */
  lemma IncrBegins(p: Policy, s: State, t: real)
    requires LivesSound(p, s) && KeySound(p, s) && t >= s.now && Shown(s, t).None?
    ensures LivesSound(p, Apply(p, s, Incr(t))) && KeySound(p, Apply(p, s, Incr(t)))
  {
    hide LivesSound;
    BeginLife(p, s, t);
    LogCall(p, s.(begun := s.begun + [t], now := t), Apply(p, s, Incr(t)), t);
  }

  lemma StepKeepsInv(p: Policy, s: State, step: Step)
    requires Inv(p, s) && step.time >= s.now && !step.Reset?
    ensures Inv(p, Apply(p, s, step))
  {
    hide AllowedIn, Opened;
    if step.Incr? {
      hide CountsSound, OpeningsSound, LivesSound, KeySound, Apply;
      IncrCounts(p, s, step.time);
      IncrOpens(p, s, step.time);
      if Shown(s, step.time).Some? { IncrLives(p, s, step.time); } else { IncrBegins(p, s, step.time); }
    }
  }

  lemma EmptyInv(p: Policy)
    ensures Inv(p, EMPTY)
  {
  }

  lemma {:induction false} RunKeepsInv(p: Policy, steps: seq<Step>)
    requires InOrder(steps) && NoResets(steps)
    ensures Inv(p, Run(p, steps))
    ensures Run(p, steps).now <= if steps == [] then 0.0 else steps[|steps| - 1].time
  {
    hide AllowedIn, Opened;
    if steps == [] {
      EmptyInv(p);
    } else {
      RunKeepsInv(p, steps[..|steps| - 1]);
      StepKeepsInv(p, Run(p, steps[..|steps| - 1]), steps[|steps| - 1]);
    }
  }

  // ---------------------------------------------------------------- the bounds

  /** One lifetime of the key never allows more than the limit, however INCRs
      and late EXPIREs interleave. */
  lemma LifetimeBound(p: Policy, steps: seq<Step>, life: nat)
    requires InOrder(steps) && NoResets(steps)
    ensures AllowedIn(Run(p, steps).calls, life) <= p.limit
  {
    hide AllowedIn, Run;
    RunKeepsInv(p, steps);
  }

  /** Where two lifetimes meet, a window-long interval holds at most
      2 * limit - 1 allowed calls: the call that opened the earlier lifetime
      lies before it. (And none at all under a zero limit.) */
  lemma SlidingWindowBound(p: Policy, steps: seq<Step>, a: real)
    requires InOrder(steps) && NoResets(steps)
    ensures var n := AllowedBetween(Run(p, steps).calls, a, a + p.window as real);
            if p.limit == 0 then n == 0 else n <= 2 * p.limit - 1
  {
    hide AllowedIn, AllowedBetween, Run, LivesSound, CountsSound, Opened;
    RunKeepsInv(p, steps);
    var s, b := Run(p, steps), a + p.window as real;
    var i := EarliestLife(s.calls, a, b);
    if i == -1 {
      NoneAllowed(s.calls, a, b);
    } else {
      WindowOfLife(p, s, a, i);
    }
  }

  lemma WindowOfLife(p: Policy, s: State, a: real, i: nat)
    requires Inv(p, s) && i < |s.calls| && Inside(s.calls[i], a, a + p.window as real)
    requires forall j :: 0 <= j < |s.calls| && Inside(s.calls[j], a, a + p.window as real) ==> s.calls[j].life >= s.calls[i].life
    ensures var n := AllowedBetween(s.calls, a, a + p.window as real);
            if p.limit == 0 then n == 0 else n <= 2 * p.limit - 1
  {
    hide AllowedIn, AllowedBetween;
    var b, life := a + p.window as real, s.calls[i].life;
    WithinTwoLives(p, s, a, i);
    TwoLives(s.calls, a, b, life);
    if p.limit > 0 {
      assert Opened(s.calls, life, s.begun[life]);
      if s.begun[life] >= a { AloneInWindow(p, s, a, life); }
    }
  }

  lemma WithinTwoLives(p: Policy, s: State, a: real, i: nat)
    requires LivesSound(p, s) && i < |s.calls| && a <= s.calls[i].time
    ensures forall j :: 0 <= j < |s.calls| && s.calls[j].time < a + p.window as real ==>
              s.calls[j].life <= s.calls[i].life + 1
  {
    var life := s.calls[i].life;
    forall j | 0 <= j < |s.calls| && s.calls[j].life > life + 1 ensures s.calls[j].time >= a + p.window as real {
      LivesApart(p, s, life + 2, s.calls[j].life);
      assert s.begun[life + 1] + p.window as real <= s.begun[life + 2];
    }
  }

  lemma {:induction false} LivesApart(p: Policy, s: State, l: nat, m: nat)
    requires LivesSound(p, s) && l <= m < |s.begun|
    ensures s.begun[l] <= s.begun[m]
    decreases m - l
  {
    if l < m {
      LivesApart(p, s, l, m - 1);
      assert s.begun[m - 1] + p.window as real <= s.begun[m];
    }
  }

  /** A lifetime that began inside the window has it to itself. */
  lemma AloneInWindow(p: Policy, s: State, a: real, life: nat)
    requires LivesSound(p, s) && CountsSound(p, s) && life < |s.begun| && s.begun[life] >= a
    requires forall j :: 0 <= j < |s.calls| && Inside(s.calls[j], a, a + p.window as real) ==> s.calls[j].life in {life, life + 1}
    ensures AllowedBetween(s.calls, a, a + p.window as real) <= p.limit
  {
    hide AllowedIn;
    var b := a + p.window as real;
    assert life + 1 < |s.begun| ==> s.begun[life + 1] >= b by {
      assert life + 1 < |s.begun| ==> s.begun[life + 1 - 1] + p.window as real <= s.begun[life + 1];
    }
    OneLife(s.calls, a, b, life);
  }

  lemma {:induction false} OneLife(calls: seq<Call>, a: real, b: real, life: nat)
    requires forall i :: 0 <= i < |calls| && Inside(calls[i], a, b) ==> calls[i].life == life
    ensures AllowedBetween(calls, a, b) <= AllowedIn(calls, life)
  {
    if calls != [] { OneLife(calls[..|calls| - 1], a, b, life); }
  }

  lemma {:induction false} NoneAllowed(calls: seq<Call>, a: real, b: real)
    requires forall i :: 0 <= i < |calls| ==> !Inside(calls[i], a, b)
    ensures AllowedBetween(calls, a, b) == 0
  {
    if calls != [] { NoneAllowed(calls[..|calls| - 1], a, b); }
  }

  /** An allowed call of the interval in its earliest lifetime, or -1. */
  lemma {:induction false} EarliestLife(calls: seq<Call>, a: real, b: real) returns (i: int)
    ensures i == -1 ==> forall j :: 0 <= j < |calls| ==> !Inside(calls[j], a, b)
    ensures i != -1 ==> 0 <= i < |calls| && Inside(calls[i], a, b)
    ensures i != -1 ==> forall j :: 0 <= j < |calls| && Inside(calls[j], a, b) ==> calls[j].life >= calls[i].life
  {
    if calls == [] {
      i := -1;
    } else {
      var n := |calls| - 1;
      i := EarliestLife(calls[..n], a, b);
      assert forall j :: 0 <= j < n ==> calls[..n][j] == calls[j];
      if Inside(calls[n], a, b) && (i == -1 || calls[n].life < calls[i].life) {
        i := n;
      }
    }
  }

  // ---------------------------------------------------------------- the bound is reached

  function Burst(n: nat, t: real): (steps: seq<Step>)
    ensures |steps| == n && forall i :: 0 <= i < n ==> steps[i] == Incr(t)
  {
    seq(n, _ => Incr(t))
  }

  lemma CallPasses(p: Policy, s: State, t: real, a: real, b: real)
    requires Shown(s, t).Some? && Shown(s, t).value.count < p.limit && a <= t < b
    ensures var after := Apply(p, s, Incr(t));
            && Shown(after, t) == Some(Shown(s, t).value.(count := Shown(s, t).value.count + 1))
            && AllowedBetween(after.calls, a, b) == AllowedBetween(s.calls, a, b) + 1
  {
    hide AllowedBetween;
    BetweenSnoc(s.calls, Apply(p, s, Incr(t)).calls[|s.calls|], a, b);
  }

  /** A burst of calls that stays within the limit of a lifetime passes whole. */
  lemma {:induction false} BurstPasses(p: Policy, base: seq<Step>, n: nat, t: real, a: real, b: real)
    requires Shown(Run(p, base), t).Some? && Shown(Run(p, base), t).value.count + n <= p.limit && a <= t < b
    ensures var s, after := Run(p, base), Run(p, base + Burst(n, t));
            && Shown(after, t) == Some(Shown(s, t).value.(count := Shown(s, t).value.count + n))
            && AllowedBetween(after.calls, a, b) == AllowedBetween(s.calls, a, b) + n
    decreases n
  {
    hide Run, AllowedBetween, Shown, Apply;
    if n == 0 {
      assert base + Burst(0, t) == base;
    } else {
      var before := base + Burst(n - 1, t);
      BurstPasses(p, base, n - 1, t, a, b);
      assert base + Burst(n, t) == before + [Incr(t)];
      Extends(p, before, Incr(t));
      CallPasses(p, Run(p, before), t, a, b);
    }
  }

  lemma BetweenSnoc(calls: seq<Call>, c: Call, a: real, b: real)
    ensures AllowedBetween(calls + [c], a, b) == AllowedBetween(calls, a, b) + (if Inside(c, a, b) then 1 else 0)
  {
    assert (calls + [c])[..|calls|] == calls;
  }

  /** One call at the start, the rest of the limit half a window later, and a
      fresh limit as the first lifetime ends. */
  function FullBursts(p: Policy): seq<Step>
    requires p.limit > 0
  {
    var w := p.window as real;
    ([Incr(0.0), Expire(0.0)] + Burst(p.limit - 1, w / 2.0) + [Incr(w)]) + Burst(p.limit - 1, w)
  }

  lemma OpeningPair(p: Policy, a: real, b: real)
    requires p.limit > 0 && a > 0.0
    ensures var s := Run(p, [Incr(0.0), Expire(0.0)]);
            s.key == Some(Entry(1, Some(p.window as real))) && AllowedBetween(s.calls, a, b) == 0
  {
    hide AllowedBetween;
    var one := Apply(p, EMPTY, Incr(0.0));
    var two := Apply(p, one, Expire(0.0));
    assert two.calls == [] + [Call(0.0, 0, true)];
    BetweenSnoc([], Call(0.0, 0, true), a, b);
    assert AllowedBetween([], a, b) == 0 by { NoneAllowed([], a, b); }
    assert [Incr(0.0), Expire(0.0)] == ([] + [Incr(0.0)]) + [Expire(0.0)];
    Extends(p, [], Incr(0.0));
    Extends(p, [Incr(0.0)], Expire(0.0));
    assert [] + [Incr(0.0)] == [Incr(0.0)];
  }

  ghost predicate UpToTime(steps: seq<Step>, t: real) {
    forall i :: 0 <= i < |steps| ==> steps[i].time <= t && !steps[i].Reset?
  }

  lemma AppendInOrder(steps: seq<Step>, more: seq<Step>, t: real)
    requires InOrder(steps) && UpToTime(steps, t) && t >= 0.0
    requires forall i :: 0 <= i < |more| ==> more[i].time == t && !more[i].Reset?
    ensures InOrder(steps + more) && UpToTime(steps + more, t)
  {
  }

  lemma FullBurstsInOrder(p: Policy)
    requires p.limit > 0 && p.window > 0
    ensures InOrder(FullBursts(p)) && NoResets(FullBursts(p))
  {
    hide InOrder;
    var w := p.window as real;
    assert InOrder([Incr(0.0), Expire(0.0)]) by { PairInOrder(); }
    AppendInOrder([Incr(0.0), Expire(0.0)], Burst(p.limit - 1, w / 2.0), w / 2.0);
    AppendInOrder([Incr(0.0), Expire(0.0)] + Burst(p.limit - 1, w / 2.0), [Incr(w)], w);
    AppendInOrder([Incr(0.0), Expire(0.0)] + Burst(p.limit - 1, w / 2.0) + [Incr(w)], Burst(p.limit - 1, w), w);
    assert UpToTime(FullBursts(p), w);
  }

  lemma PairInOrder()
    ensures InOrder([Incr(0.0), Expire(0.0)])
  {
  }

  /** The bound is reached under every policy: some trace passes 2 * limit - 1
      calls within one window. */
  lemma BoundIsReached(p: Policy)
    requires p.limit > 0 && p.window > 0
    ensures var a := p.window as real / 2.0;
            && InOrder(FullBursts(p)) && NoResets(FullBursts(p))
            && AllowedBetween(Run(p, FullBursts(p)).calls, a, a + p.window as real) == 2 * p.limit - 1
  {
    hide Run, AllowedBetween, InOrder, NoResets;
    var w, a := p.window as real, p.window as real / 2.0;
    var b := a + w;
    FullBurstsInOrder(p);
    OpeningPair(p, a, b);
    var first := [Incr(0.0), Expire(0.0)];
    var second := first + Burst(p.limit - 1, a);
    BurstPasses(p, first, p.limit - 1, a, a, b);
    var s := Run(p, second);
    assert s.key.value.expiry == Some(w);
    Extends(p, second, Incr(w));
    var t := Apply(p, s, Incr(w));
    BetweenSnoc(s.calls, t.calls[|s.calls|], a, b);
    BurstPasses(p, second + [Incr(w)], p.limit - 1, w, a, b);
  }

  // ---------------------------------------------------------------- one caller

  datatype RateLimitResult = RateLimitResult(allowed: bool, remaining: nat, retryAfter: nat)

  /** The counter as one caller sees it, its pair and its EXPIRE back to back. */
  class Limiter {
    const policy: Policy
    var state: State
    ghost var taken: seq<Step>

    ghost predicate Valid()
      reads this
    {
      state == Run(policy, taken) && InOrder(taken) && NoResets(taken)
      && (taken != [] ==> taken[|taken| - 1].time == state.now) && (taken == [] ==> state.now == 0.0)
    }

    constructor (p: Policy)
      ensures Valid() && policy == p && state == EMPTY
    {
      policy, state, taken := p, EMPTY, [];
    }

    /** Counts this call and answers for it: allowed up to the limit, what is
        left, and a whole number of seconds within the window to wait. */
    method Check(now: real) returns (r: RateLimitResult)
      requires Valid() && now >= state.now && policy.window > 0
      modifies this
      ensures Valid() && state.now == now && old(taken) < taken
      ensures |state.calls| == |old(state).calls| + 1 && old(state).calls <= state.calls
      ensures state.calls[|old(state).calls|].time == now && state.calls[|old(state).calls|].allowed == r.allowed
      ensures state.key.Some? && state.key.value.expiry.Some?
      ensures var key := old(state).key;
              var alive := key.Some? && !(key.value.expiry.Some? && key.value.expiry.value <= now);
              && state.key.value.count == (if alive then key.value.count + 1 else 1)
              && state.key.value.expiry == Some(if alive && key.value.expiry.Some? then key.value.expiry.value else now + policy.window as real)
              && var ttl := (state.key.value.expiry.value - now + 0.5).Floor;
              r.retryAfter == if ttl > 0 then ttl else policy.window
      ensures r.allowed <==> state.key.value.count <= policy.limit
      ensures r.remaining == if r.allowed then policy.limit - state.key.value.count else 0
      ensures 0 < r.retryAfter <= policy.window
    {
      hide Run, LivesSound, CountsSound, OpeningsSound;
      RunKeepsInv(policy, taken);
      Extends(policy, taken, Incr(now));
      state, taken := Apply(policy, state, Incr(now)), taken + [Incr(now)];
      RunKeepsInv(policy, taken);
      var entry := state.key.value;
      var ttl: int;
      if entry.expiry.Some? {
        ttl := (entry.expiry.value - now + 0.5).Floor;
      } else {
        Extends(policy, taken, Expire(now));
        state, taken := Apply(policy, state, Expire(now)), taken + [Expire(now)];
        ttl := policy.window;
      }
      var remaining := if policy.limit > entry.count then policy.limit - entry.count else 0;
      var retryAfter := if ttl > 0 then ttl else policy.window;
      r := RateLimitResult(entry.count <= policy.limit, remaining, retryAfter);
    }
  }

  lemma Extends(p: Policy, steps: seq<Step>, step: Step)
    ensures Run(p, steps + [step]) == Apply(p, Run(p, steps), step)
  {
    assert (steps + [step])[..|steps|] == steps;
  }
}
