/** The history a model is sent is a view over the stored rows; a compaction
    adds a marker row and so changes the view, never the rows. */
module Compaction {
  import opened Wrappers
  import opened Transcript

  // ---------------------------------------------------------------- the view

  function Durable(rows: seq<Row>): seq<Row> {
    if rows == [] then []
    else
      var rest, last := Durable(rows[..|rows| - 1]), rows[|rows| - 1];
      if last.IsDurable() then rest + [last] else rest
  }

  function LastMarker(rows: seq<Row>): (r: Option<Row>)
    ensures r.Some? ==> r.value.Marker?
  {
    if rows == [] then None
    else
      var last := rows[|rows| - 1];
      if last.Marker? then Some(last) else LastMarker(rows[..|rows| - 1])
  }

  /** The messages stored after `through`, in order; no marker among them. */
  function After(rows: seq<Row>, through: nat): seq<Row> {
    if rows == [] then []
    else
      var rest, last := After(rows[..|rows| - 1], through), rows[|rows| - 1];
      if last.Message? && last.sequence > through then rest + [last] else rest
  }

  function UpTo(rows: seq<Row>, through: nat): seq<Row> {
    if rows == [] then []
    else
      var rest, last := UpTo(rows[..|rows| - 1], through), rows[|rows| - 1];
      if last.Message? && last.sequence <= through then rest + [last] else rest
  }

  function Messages(rows: seq<Row>): seq<Row> {
    After(rows, 0)
  }

  /** What the model is sent. */
  function HistoryRows(rows: seq<Row>): seq<Row> {
    var durable := Durable(rows);
    match LastMarker(durable)
    case None => durable
    case Some(marker) => [marker] + After(durable, marker.through)
  }

  /** How far the latest compaction reaches; 0 before the first. */
  function Through(rows: seq<Row>): nat {
    match LastMarker(rows) case None => 0 case Some(m) => m.through
  }

  // ---------------------------------------------------------------- media

  function Plus(a: MediaCount, b: MediaCount): MediaCount {
    MediaCount(a.image + b.image, a.video + b.video)
  }

  function BlockMedia(content: seq<Block>): MediaCount {
    if content == [] then MediaCount(0, 0)
    else
      var rest, last := BlockMedia(content[..|content| - 1]), content[|content| - 1];
      if last == Media(Image) then rest.(image := rest.image + 1)
      else if last == Media(Video) then rest.(video := rest.video + 1)
      else rest
  }

  function RowMedia(row: Row): MediaCount {
    if row.Message? && row.role == User then BlockMedia(row.content) else MediaCount(0, 0)
  }

  /** Attachments up to the end of a sent history: a marker stands for all the
      ones it summarized. */
  function MediaCounts(rows: seq<Row>): MediaCount {
    if rows == [] then MediaCount(0, 0)
    else
      var last := rows[|rows| - 1];
      if last.Marker? then last.media else Plus(MediaCounts(rows[..|rows| - 1]), RowMedia(last))
  }

  /** The independent reference: every attachment of every stored durable user
      row up to `through`, markers ignored. */
  function RawMedia(rows: seq<Row>, through: nat): MediaCount {
    if rows == [] then MediaCount(0, 0)
    else
      var rest, last := RawMedia(rows[..|rows| - 1], through), rows[|rows| - 1];
      if last.IsDurable() && last.sequence <= through then Plus(rest, RowMedia(last)) else rest
  }

  method CountBlocks(content: seq<Block>) returns (counts: MediaCount)
    ensures counts == BlockMedia(content)
  {
    counts := MediaCount(0, 0);
    for k := 0 to |content|
      invariant counts == BlockMedia(content[..k])
    {
      assert content[..k + 1][..k] == content[..k];
      if content[k] == Media(Image) {
        counts := counts.(image := counts.image + 1);
      } else if content[k] == Media(Video) {
        counts := counts.(video := counts.video + 1);
      }
    }
    assert content[..|content|] == content;
  }

  lemma MediaStep(rows: seq<Row>, i: nat)
    requires i < |rows|
    ensures MediaCounts(rows[..i + 1]) ==
            if rows[i].Marker? then rows[i].media else Plus(MediaCounts(rows[..i]), RowMedia(rows[i]))
  {
    assert rows[..i + 1][..i] == rows[..i];
  }

  method CountMedia(rows: seq<Row>) returns (counts: MediaCount)
    ensures counts == MediaCounts(rows)
  {
    counts := MediaCount(0, 0);
    for i := 0 to |rows|
      invariant counts == MediaCounts(rows[..i])
    {
      var row := rows[i];
      MediaStep(rows, i);
      if row.Marker? {
        counts := row.media;
        continue;
      }
      if row.role != User {
        continue;
      }
      var own := CountBlocks(row.content);
      counts := Plus(counts, own);
    }
    assert rows[..|rows|] == rows;
  }

  // ---------------------------------------------------------------- compacting

  /** What the policy and the providers say when a turn is about to run.
      `usage` is the ledgered size of the latest call; `whole` and `compacted`
      are the counted prompts; `summarized` is whether the provider answered. */
  datatype Gauge = Gauge(compactAt: nat, minGain: int, usage: nat,
                         whole: Option<int>, compacted: Option<int>, summarized: bool)

  /** The size of the last call that wrote a message of the sent history since
      its marker; a kept reply was billed at the old length and does not count. */
  function LastCallTokens(view: seq<Row>, usage: nat): nat {
    var since := if view != [] && view[0].Marker? then view[0].sequence else 0;
    if exists r :: r in view && r.Message? && r.role == Assistant && r.sequence > since then usage else 0
  }

  function CutPoint(view: seq<Row>): (n: nat)
    requires view != []
    ensures n <= |view|
  {
    var last := view[|view| - 1];
    if last.Message? && last.role == Assistant then |view| - 1 else |view|
  }

  predicate Spares(g: Gauge) {
    g.whole.Some? ==>
      && g.whole.value >= g.compactAt
      && (g.compacted.Some? ==> g.whole.value - g.compacted.value >= g.minGain)
  }

  predicate Due(view: seq<Row>, g: Gauge) {
    && g.compactAt > 0
    && |view| >= 3
    && LastCallTokens(view, g.usage) >= g.compactAt
    && Spares(g)
    && g.summarized
  }

  /** The policy in what was measured: a reply written since the marker whose
      call reached the size, on at least three rows; and when the agent's own
      prompt was counted, that it reaches the size too, and when the compacted
      one was, that enough is gained. The provider has to answer. */
  ghost predicate WorthIt(view: seq<Row>, g: Gauge) {
    && |view| >= 3 && g.compactAt > 0 && g.usage >= g.compactAt && g.summarized
    && (exists i :: 0 <= i < |view| && view[i].Message? && view[i].role == Assistant
                    && forall k :: 0 <= k < |view| && view[k].Marker? ==> view[k].sequence < view[i].sequence)
    && (g.whole.Some? ==> g.whole.value >= g.compactAt)
    && (g.whole.Some? && g.compacted.Some? ==> g.whole.value - g.compacted.value >= g.minGain)
  }

  function NextSequence(rows: seq<Row>): nat {
    if rows == [] then 1
    else
      var rest, last := NextSequence(rows[..|rows| - 1]), rows[|rows| - 1].sequence;
      if last + 1 > rest then last + 1 else rest
  }

  function MarkerFor(rows: seq<Row>, summarized: seq<Row>): Row
    requires summarized != []
  {
    Marker(NextSequence(rows), summarized[|summarized| - 1].sequence, MediaCounts(summarized))
  }

  // ---------------------------------------------------------------- the store and its runs

  /** `summaries` logs what each compaction was asked to summarize. */
  datatype Store = Store(rows: seq<Row>, summaries: seq<seq<Row>>)

  datatype Step =
    | Say(role: Role, content: seq<Block>, partial: bool, speaker: string)
    | Compact(gauge: Gauge)
    | FinalizePartials

  /** Partial rows are interrupted assistant turns. */
  predicate Sayable(step: Step) {
    step.Say? && step.partial ==> step.role == Assistant
  }

  function Promote(rows: seq<Row>): (r: seq<Row>)
    ensures |r| == |rows|
    ensures forall i :: 0 <= i < |rows| ==> r[i] == if rows[i].Message? then rows[i].(partial := false) else rows[i]
  {
    seq(|rows|, i requires 0 <= i < |rows| => if rows[i].Message? then rows[i].(partial := false) else rows[i])
  }

  function Apply(s: Store, step: Step): Store {
    match step
    case Say(role, content, partial, speaker) =>
      s.(rows := s.rows + [Message(NextSequence(s.rows), role, content, partial, speaker)])
    case Compact(g) =>
      var view := HistoryRows(s.rows);
      if Due(view, g) then
        var summarized := view[..CutPoint(view)];
        Store(s.rows + [MarkerFor(s.rows, summarized)], s.summaries + [summarized])
      else s
    case FinalizePartials => s.(rows := Promote(s.rows))
  }

  function Run(steps: seq<Step>): Store {
    if steps == [] then Store([], [])
    else Apply(Run(steps[..|steps| - 1]), steps[|steps| - 1])
  }

  /** Messages the compactions summarized, in the order they did. */
  function Summarized(summaries: seq<seq<Row>>): seq<Row> {
    if summaries == [] then []
    else Summarized(summaries[..|summaries| - 1]) + Messages(summaries[|summaries| - 1])
  }

  /** Every durable message was summarized exactly once or is sent exactly
      once, and the two parts together are the transcript in order. */
  ghost predicate Conserved(s: Store) {
    Messages(Durable(s.rows)) == Summarized(s.summaries) + Messages(HistoryRows(s.rows))
  }

  /** No interrupted row lies at or below the latest marker's reach. */
  predicate NothingHidden(rows: seq<Row>) {
    forall i :: 0 <= i < |rows| && !rows[i].IsDurable() ==> rows[i].sequence > Through(rows)
  }

  predicate Careful(steps: seq<Step>) {
    forall i :: 0 <= i < |steps| && steps[i].FinalizePartials? ==> NothingHidden(Run(steps[..i]).rows)
  }

  // ---------------------------------------------------------------- invariants of the rows

  ghost predicate Sequenced(rows: seq<Row>) {
    forall i :: 0 <= i < |rows| ==> rows[i].sequence == i + 1
  }

  /** Every marker reaches back to an earlier row, each further than the one
      before, and counts exactly the attachments up to there. */
  ghost predicate MarkersSound(rows: seq<Row>) {
    && (forall i :: 0 <= i < |rows| && rows[i].Marker? ==>
          && 0 < rows[i].through <= i
          && rows[i].media == RawMedia(rows, rows[i].through))
    && (forall i, j :: 0 <= i < j < |rows| && rows[i].Marker? && rows[j].Marker? ==>
          rows[i].through < rows[j].through)
  }

  ghost predicate PartialsAreReplies(rows: seq<Row>) {
    forall i :: 0 <= i < |rows| && !rows[i].IsDurable() ==> rows[i].role == Assistant
  }

  ghost predicate Sound(rows: seq<Row>) {
    Sequenced(rows) && MarkersSound(rows) && PartialsAreReplies(rows)
  }

  lemma {:induction false} NextSequenceIsLength(rows: seq<Row>)
    requires Sequenced(rows)
    ensures NextSequence(rows) == |rows| + 1
  {
    if rows != [] {
      NextSequenceIsLength(rows[..|rows| - 1]);
    }
  }

  // ---------------------------------------------------------------- appending

  lemma AppendDurable(rows: seq<Row>, row: Row)
    ensures Durable(rows + [row]) == Durable(rows) + (if row.IsDurable() then [row] else [])
  {
    assert (rows + [row])[..|rows|] == rows;
  }

  lemma AppendMarker(rows: seq<Row>, row: Row)
    ensures LastMarker(rows + [row]) == if row.Marker? then Some(row) else LastMarker(rows)
  {
    assert (rows + [row])[..|rows|] == rows;
  }

  lemma AppendAfter(rows: seq<Row>, row: Row, t: nat)
    ensures After(rows + [row], t) == After(rows, t) + (if row.Message? && row.sequence > t then [row] else [])
  {
    assert (rows + [row])[..|rows|] == rows;
  }

  lemma AppendUpTo(rows: seq<Row>, row: Row, t: nat)
    ensures UpTo(rows + [row], t) == UpTo(rows, t) + (if row.Message? && row.sequence <= t then [row] else [])
  {
    assert (rows + [row])[..|rows|] == rows;
  }

  lemma AppendRaw(rows: seq<Row>, row: Row, t: nat)
    ensures RawMedia(rows + [row], t) ==
            if row.IsDurable() && row.sequence <= t then Plus(RawMedia(rows, t), RowMedia(row)) else RawMedia(rows, t)
  {
    assert (rows + [row])[..|rows|] == rows;
  }

  lemma AppendMedia(rows: seq<Row>, row: Row)
    ensures MediaCounts(rows + [row]) == if row.Marker? then row.media else Plus(MediaCounts(rows), RowMedia(row))
  {
    assert (rows + [row])[..|rows|] == rows;
  }

  /** Every row's number lies in `lo < n <= hi`. */
  ghost predicate Between(rows: seq<Row>, lo: int, hi: int) {
    forall i :: 0 <= i < |rows| ==> lo < rows[i].sequence <= hi
  }

  ghost predicate AllMessages(rows: seq<Row>) {
    forall i :: 0 <= i < |rows| ==> rows[i].Message?
  }

  lemma {:induction false} DurableBounds(rows: seq<Row>, lo: int, hi: int)
    requires Between(rows, lo, hi)
    ensures Between(Durable(rows), lo, hi)
  {
    if rows != [] { DurableBounds(rows[..|rows| - 1], lo, hi); }
  }

  lemma {:induction false} AfterBounds(rows: seq<Row>, t: nat, lo: int, hi: int)
    requires Between(rows, lo, hi)
    ensures Between(After(rows, t), lo, hi) && Between(After(rows, t), t, hi)
  {
    if rows != [] { AfterBounds(rows[..|rows| - 1], t, lo, hi); }
  }

  lemma {:induction false} AfterMessages(rows: seq<Row>, t: nat)
    ensures AllMessages(After(rows, t))
  {
    if rows != [] { AfterMessages(rows[..|rows| - 1], t); }
  }

  lemma {:induction false} DurableMarkers(rows: seq<Row>)
    ensures LastMarker(Durable(rows)) == LastMarker(rows)
  {
    if rows != [] {
      var init, last := rows[..|rows| - 1], rows[|rows| - 1];
      DurableMarkers(init);
      if last.IsDurable() { AppendMarker(Durable(init), last); }
    }
  }

  ghost predicate Ascending(rows: seq<Row>) {
    rows != [] ==>
      var init, last := rows[..|rows| - 1], rows[|rows| - 1];
      Ascending(init) && forall i :: 0 <= i < |init| ==> init[i].sequence < last.sequence
  }

  lemma {:induction false} SequencedAscends(rows: seq<Row>)
    requires Sequenced(rows)
    ensures Ascending(rows)
  {
    if rows != [] { SequencedAscends(rows[..|rows| - 1]); }
  }

  lemma AscendingSnoc(rows: seq<Row>, row: Row)
    requires Ascending(rows) && forall i :: 0 <= i < |rows| ==> rows[i].sequence < row.sequence
    ensures Ascending(rows + [row])
  {
    assert (rows + [row])[..|rows|] == rows;
  }

  lemma {:induction false} AfterAscending(rows: seq<Row>, t: nat)
    requires Ascending(rows)
    ensures Ascending(After(rows, t))
  {
    if rows != [] {
      var init, last := rows[..|rows| - 1], rows[|rows| - 1];
      AfterAscending(init, t);
      AfterBounds(init, t, -1, last.sequence - 1);
      AscendingSnoc(After(init, t), last);
    }
  }

  lemma {:induction false} DurableAscending(rows: seq<Row>)
    requires Ascending(rows)
    ensures Ascending(Durable(rows))
  {
    if rows != [] {
      var init, last := rows[..|rows| - 1], rows[|rows| - 1];
      DurableAscending(init);
      DurableBounds(init, -1, last.sequence - 1);
      AscendingSnoc(Durable(init), last);
    }
  }

  lemma {:induction false} DurableOfDurable(rows: seq<Row>)
    requires forall i :: 0 <= i < |rows| ==> rows[i].IsDurable()
    ensures Durable(rows) == rows
  {
    if rows != [] { DurableOfDurable(rows[..|rows| - 1]); }
  }

  /** Splitting the messages at a sequence number loses and reorders nothing. */
  lemma {:induction false} SplitAt(rows: seq<Row>, t: nat, hi: int)
    requires Ascending(rows) && Between(rows, 0, hi)
    ensures UpTo(rows, t) + After(rows, t) == Messages(rows)
  {
    if rows != [] {
      var init, last := rows[..|rows| - 1], rows[|rows| - 1];
      SplitAt(init, t, hi);
      if last.sequence <= t {
        NoneAfter(init, t);
      }
    }
  }

  lemma {:induction false} NoneAfter(rows: seq<Row>, t: nat)
    requires Between(rows, -1, t)
    ensures After(rows, t) == []
  {
    if rows != [] { NoneAfter(rows[..|rows| - 1], t); }
  }

  lemma {:induction false} AfterAfter(rows: seq<Row>, t: nat, u: nat)
    requires t <= u
    ensures After(After(rows, t), u) == After(rows, u)
  {
    if rows != [] {
      var init, last := rows[..|rows| - 1], rows[|rows| - 1];
      AfterAfter(init, t, u);
      if last.Message? && last.sequence > t { AppendAfter(After(init, t), last, u); }
    }
  }

  /** Cutting an ascending message list at its own k-th element leaves the rest. */
  lemma {:induction false} AfterCut(ms: seq<Row>, k: nat)
    requires Ascending(ms) && AllMessages(ms) && 0 < k <= |ms|
    ensures After(ms, ms[k - 1].sequence) == ms[k..]
    ensures UpTo(ms, ms[k - 1].sequence) == ms[..k]
    decreases |ms|
  {
    var t := ms[k - 1].sequence;
    if k == |ms| {
      AllBelow(ms, t);
      assert ms[k..] == [] && ms[..k] == ms;
    } else {
      var init, last := ms[..|ms| - 1], ms[|ms| - 1];
      AfterCut(init, k);
      assert init[k - 1] == ms[k - 1];
      assert ms[k..] == init[k..] + [last];
      assert ms[..k] == init[..k];
    }
  }

  lemma {:induction false} AllBelow(ms: seq<Row>, t: nat)
    requires AllMessages(ms) && Between(ms, -1, t)
    ensures After(ms, t) == [] && UpTo(ms, t) == ms
  {
    if ms != [] { AllBelow(ms[..|ms| - 1], t); }
  }
}
