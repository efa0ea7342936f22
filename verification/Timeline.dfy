/** The published order of one run's timeline. Persisted events take the number
    above both the table and the Redis mark; a turn's live deltas count up from
    its started event; every publication overwrites the mark with a plain SET. */
module Timeline {
  import opened Sequences

  datatype Turn = Turn(base: nat, deltas: nat)

  datatype State = State(dbMax: nat, mark: nat, turns: seq<Turn>, published: seq<nat>)

  /** `Start` is the persisted event that opens the next turn; `Delta(t)` is a
      live frame of turn `t`. Emits do not overlap. */
  datatype Step = Emit | Start | Delta(turn: nat)

  const EMPTY := State(0, 0, [], [])

  function Persist(s: State): State {
    var n := Max(s.dbMax, s.mark) + 1;
    s.(dbMax := n, mark := n, published := s.published + [n])
  }

  function Apply(s: State, step: Step): State {
    match step
    case Emit => Persist(s)
    case Start =>
      var t := Persist(s);
      t.(turns := t.turns + [Turn(t.mark, 0)])
    case Delta(i) =>
      if i < |s.turns| then
        var n := s.turns[i].base + s.turns[i].deltas + 1;
        s.(turns := s.turns[i := s.turns[i].(deltas := s.turns[i].deltas + 1)], mark := n, published := s.published + [n])
      else s
  }

  function Run(steps: seq<Step>): State {
    if steps == [] then EMPTY else Apply(Run(steps[..|steps| - 1]), steps[|steps| - 1])
  }

  function Starts(steps: seq<Step>): nat {
    if steps == [] then 0
    else Starts(steps[..|steps| - 1]) + (if steps[|steps| - 1].Start? then 1 else 0)
  }

  /** A delta belongs to a turn that has started. */
  ghost predicate Begun(steps: seq<Step>) {
    steps != [] ==>
      var init, last := steps[..|steps| - 1], steps[|steps| - 1];
      Begun(init) && (last.Delta? ==> last.turn < Starts(init))
  }

  /** The turn whose started event or delta came last, if any. */
  ghost predicate Speaking(steps: seq<Step>, turn: nat) {
    steps != [] &&
    var last := steps[|steps| - 1];
    (last == Delta(turn) || (last.Start? && turn + 1 == Starts(steps)))
  }

  /** A turn's started event and deltas follow one another with nothing in
      between: no other turn streams and nothing is persisted meanwhile. */
  ghost predicate Contiguous(steps: seq<Step>) {
    steps != [] ==>
      var init, last := steps[..|steps| - 1], steps[|steps| - 1];
      Contiguous(init) && (last.Delta? ==> Speaking(init, last.turn))
  }

  /** While the order holds, the mark is the last number, and the turn that
      spoke last is the only one whose next number would be free. */
  ghost predicate Level(s: State, steps: seq<Step>) {
    && |s.turns| == Starts(steps)
    && (s.published == [] <==> steps == [])
    && (steps == [] ==> s.mark == 0)
    && (s.published != [] ==> s.published[|s.published| - 1] == s.mark)
    && (forall i :: 0 <= i < |s.published| ==> s.published[i] <= s.mark)
    && s.dbMax <= s.mark
    && forall t :: 0 <= t < |s.turns| ==>
         && s.turns[t].base + s.turns[t].deltas <= s.mark
         && (s.turns[t].base + s.turns[t].deltas == s.mark <==> Speaking(steps, t))
  }

  lemma SpeakingSnoc(init: seq<Step>, last: Step, turn: nat)
    ensures Speaking(init + [last], turn) <==> last == Delta(turn) || (last.Start? && turn == Starts(init))
    ensures Starts(init + [last]) == Starts(init) + (if last.Start? then 1 else 0)
  {
    assert (init + [last])[..|init|] == init;
  }

  lemma RisingSnoc(numbers: seq<nat>, n: nat)
    requires Rising(numbers) && forall i :: 0 <= i < |numbers| ==> numbers[i] < n
    ensures Rising(numbers + [n])
  {
  }

  /** A persisted event goes above everything, and only it speaks. */
  lemma LevelPersists(s: State, init: seq<Step>, last: Step)
    requires Level(s, init) && Rising(s.published) && !last.Delta?
    ensures Level(Apply(s, last), init + [last]) && Rising(Apply(s, last).published)
  {
    hide Speaking, Starts, Rising;
    var t := Apply(s, last);
    SpeakingSnoc(init, last, 0);
    RisingSnoc(s.published, t.mark);
    forall j | 0 <= j < |t.turns|
      ensures t.turns[j].base + t.turns[j].deltas <= t.mark
      ensures t.turns[j].base + t.turns[j].deltas == t.mark <==> Speaking(init + [last], j)
    {
      SpeakingSnoc(init, last, j);
    }
  }

  /** A delta of the turn that spoke last goes above everything too. */
  lemma LevelContinues(s: State, init: seq<Step>, i: nat)
    requires Level(s, init) && Rising(s.published) && i < |s.turns| && Speaking(init, i)
    ensures Level(Apply(s, Delta(i)), init + [Delta(i)]) && Rising(Apply(s, Delta(i)).published)
  {
    hide Speaking, Starts, Rising;
    var t := Apply(s, Delta(i));
    SpeakingSnoc(init, Delta(i), 0);
    RisingSnoc(s.published, t.mark);
    forall j | 0 <= j < |t.turns|
      ensures t.turns[j].base + t.turns[j].deltas <= t.mark
      ensures t.turns[j].base + t.turns[j].deltas == t.mark <==> Speaking(init + [Delta(i)], j)
    {
      SpeakingSnoc(init, Delta(i), j);
    }
  }

  /** A delta of any other turn does not. */
  lemma LevelBreaks(s: State, init: seq<Step>, i: nat)
    requires Level(s, init) && i < |s.turns| && !Speaking(init, i)
    ensures !Rising(Apply(s, Delta(i)).published)
  {
    hide Speaking, Starts;
    var published, n := Apply(s, Delta(i)).published, |s.published|;
    assert s.turns[i].base + s.turns[i].deltas < s.mark;
    assert n > 0 by { SomethingPublished(s, init); }
    assert published[n] <= published[n - 1];
  }

  lemma SomethingPublished(s: State, init: seq<Step>)
    requires Level(s, init) && s.mark > 0
    ensures s.published != []
  {
    hide Speaking, Starts;
  }

  /** For sequential emits with the mark alive, the published numbers strictly
      increase over the whole run — so every persisted event is above every
      earlier delta — if and only if each turn's deltas are contiguous. */
  lemma {:induction false} OrderHoldsIffTurnsAreContiguous(steps: seq<Step>)
    requires Begun(steps)
    ensures Rising(Run(steps).published) <==> Contiguous(steps)
    ensures Contiguous(steps) ==> Level(Run(steps), steps)
  {
    if steps != [] {
      hide Level, Apply, Rising, Speaking;
      var init, last := steps[..|steps| - 1], steps[|steps| - 1];
      assert steps == init + [last];
      OrderHoldsIffTurnsAreContiguous(init);
      PublishedGrows(init);
      var s := Run(init);
      if !Contiguous(init) {
        ApplyPublishes(s, last);
        if Rising(Run(steps).published) { KeepsRising(s.published, Run(steps).published); }
      } else if !last.Delta? {
        LevelPersists(s, init, last);
      } else if Speaking(init, last.turn) {
        LevelContinues(s, init, last.turn);
      } else {
        LevelBreaks(s, init, last.turn);
      }
    }
  }

  lemma ApplyPublishes(s: State, step: Step)
    ensures s.published <= Apply(s, step).published
  {
  }

  lemma {:induction false} PublishedGrows(steps: seq<Step>)
    requires Begun(steps)
    ensures |Run(steps).turns| == Starts(steps)
    ensures |Run(steps).published| == |steps|
  {
    if steps != [] { PublishedGrows(steps[..|steps| - 1]); }
  }

  lemma KeepsRising(short: seq<nat>, long: seq<nat>)
    requires short <= long && Rising(long)
    ensures Rising(short)
  {
    assert forall i :: 0 <= i < |short| ==> short[i] == long[i];
  }

  /** Two turns that interleave publish the same number twice, and the plain
      SET then takes the mark back below the second turn's next event. */
  lemma InterleavedTurnsCollide()
    ensures Run([Start, Start, Delta(0)]).published == [1, 2, 2]
    ensures Run([Start, Start, Delta(1), Delta(0)]).mark < 3
  {
    var two := [Start, Start];
    assert two[..1] == [Start] && two[..1][..0] == [];
    assert Run([Start]) == Apply(Run([]), Start);
    assert Run(two) == Apply(Run([Start]), Start);
    assert [Start, Start, Delta(0)][..2] == two;
    assert Run([Start, Start, Delta(0)]) == Apply(Run(two), Delta(0));
    assert [Start, Start, Delta(1)][..2] == two;
    assert [Start, Start, Delta(1), Delta(0)][..3] == [Start, Start, Delta(1)];
    assert Run([Start, Start, Delta(1), Delta(0)]) == Apply(Apply(Run(two), Delta(1)), Delta(0));
  }

  /** The run's counters as the emitter and the streaming turn keep them. */
  class Stream {
    var dbMax: nat
    var mark: nat
    var turns: seq<Turn>
    ghost var published: seq<nat>
    ghost var taken: seq<Step>

    ghost function Abstract(): State
      reads this
    {
      State(dbMax, mark, turns, published)
    }

    ghost predicate Valid()
      reads this
    {
      Abstract() == Run(taken) && Begun(taken) && |turns| == Starts(taken)
    }

    constructor ()
      ensures Valid() && taken == []
    {
      dbMax, mark, turns, published, taken := 0, 0, [], [], [];
    }

    method EmitEvent(step: Step) returns (sequence: nat)
      requires Valid() && !step.Delta?
      modifies this
      ensures Valid() && taken == old(taken) + [step] && published == old(published) + [sequence]
      ensures sequence > old(dbMax) && sequence > old(mark) && (sequence == old(dbMax) + 1 || sequence == old(mark) + 1)
      ensures dbMax == mark == sequence
      ensures turns == if step.Start? then old(turns) + [Turn(sequence, 0)] else old(turns)
    {
      assert (taken + [step])[..|taken|] == taken;
      sequence := (if dbMax > mark then dbMax else mark) + 1;
      dbMax := sequence;
      mark := sequence;
      if step.Start? {
        turns := turns + [Turn(sequence, 0)];
      }
      published, taken := published + [sequence], taken + [step];
    }

    /** The next delta of a turn; above everything published so far whenever
        the turns have been contiguous and this one still is. */
    method PublishDelta(turn: nat) returns (sequence: nat)
      requires Valid() && turn < |turns|
      modifies this
      ensures Valid() && taken == old(taken) + [Delta(turn)] && published == old(published) + [sequence]
      ensures mark == sequence == old(turns)[turn].base + old(turns)[turn].deltas + 1 && dbMax == old(dbMax)
      ensures Contiguous(old(taken)) ==>
                (Speaking(old(taken), turn) <==> forall i :: 0 <= i < |old(published)| ==> old(published)[i] < sequence)
    {
      assert (taken + [Delta(turn)])[..|taken|] == taken;
      OrderHoldsIffTurnsAreContiguous(taken);
      PublishedGrows(taken);
      var offset := turns[turn].deltas + 1;
      turns := turns[turn := turns[turn].(deltas := offset)];
      sequence := turns[turn].base + offset;
      mark := sequence;
      published, taken := published + [sequence], taken + [Delta(turn)];
    }
  }
}
