/** What any number of compactions keeps: the returned list is a re-read, the
    markers chain, no message is lost or repeated, labels keep counting. */
module CompactionProofs {
  import opened Wrappers
  import opened Transcript
  import opened Compaction

  // ---------------------------------------------------------------- the view in two parts

  function ViewHead(rows: seq<Row>): seq<Row> {
    match LastMarker(rows) case None => [] case Some(m) => [m]
  }

  function ViewTail(rows: seq<Row>): seq<Row> {
    After(Durable(rows), Through(rows))
  }

  lemma SequencedFacts(rows: seq<Row>)
    requires Sequenced(rows)
    ensures Ascending(Durable(rows)) && Between(Durable(rows), 0, |rows|)
  {
    SequencedAscends(rows);
    DurableAscending(rows);
    DurableBounds(rows, 0, |rows|);
  }

  lemma {:induction false} NoMarkerNoFilter(rows: seq<Row>, hi: int)
    requires LastMarker(rows) == None && Between(rows, 0, hi)
    ensures After(rows, 0) == rows
  {
    if rows != [] { NoMarkerNoFilter(rows[..|rows| - 1], hi); }
  }

  lemma TailFacts(rows: seq<Row>)
    requires Sequenced(rows)
    ensures Ascending(ViewTail(rows)) && AllMessages(ViewTail(rows))
    ensures Between(ViewTail(rows), Through(rows), |rows|)
  {
    SequencedFacts(rows);
    AfterAscending(Durable(rows), Through(rows));
    AfterMessages(Durable(rows), Through(rows));
    AfterBounds(Durable(rows), Through(rows), 0, |rows|);
  }

  /** A sent history is at most one marker, then messages in sequence order,
      all of them beyond the marker's reach. */
  lemma ViewParts(rows: seq<Row>)
    requires Sequenced(rows)
    ensures HistoryRows(rows) == ViewHead(rows) + ViewTail(rows)
    ensures Messages(HistoryRows(rows)) == ViewTail(rows)
  {
    DurableMarkers(rows);
    if LastMarker(rows).None? {
      SequencedFacts(rows);
      NoMarkerNoFilter(Durable(rows), |rows|);
    }
    TailFacts(rows);
    DropHead(ViewHead(rows), ViewTail(rows), |rows|);
  }

  lemma CatSnoc<T>(head: seq<T>, init: seq<T>, last: T)
    ensures head + (init + [last]) == (head + init) + [last]
  {
  }

  lemma AfterCat(head: seq<Row>, init: seq<Row>, last: Row)
    requires last.Message? && last.sequence > 0
    ensures Messages(head + (init + [last])) == Messages(head + init) + [last]
  {
    hide Compaction.After;
    CatSnoc(head, init, last);
    AppendAfter(head + init, last, 0);
  }

  lemma JustHead(head: seq<Row>)
    requires |head| <= 1 && (head != [] ==> head[0].Marker?)
    ensures Messages(head) == []
  {
    if head != [] {
      assert head == [] + [head[0]];
      AppendAfter([], head[0], 0);
    }
  }

  lemma {:induction false} DropHead(head: seq<Row>, ms: seq<Row>, hi: int)
    requires |head| <= 1 && (head != [] ==> head[0].Marker?)
    requires AllMessages(ms) && Between(ms, 0, hi)
    ensures Messages(head + ms) == ms
  {
    hide Compaction.Messages;
    if ms == [] {
      assert head + ms == head;
      JustHead(head);
    } else {
      var init, last := ms[..|ms| - 1], ms[|ms| - 1];
      DropHead(head, init, hi);
      assert ms == init + [last];
      AfterCat(head, init, last);
    }
  }

  // ---------------------------------------------------------------- one compaction

  lemma {:induction false} LastMarkerIndex(rows: seq<Row>) returns (i: nat)
    requires LastMarker(rows).Some?
    ensures i < |rows| && rows[i] == LastMarker(rows).value
    ensures forall j :: i < j < |rows| ==> !rows[j].Marker?
  {
    if rows[|rows| - 1].Marker? {
      i := |rows| - 1;
    } else {
      i := LastMarkerIndex(rows[..|rows| - 1]);
    }
  }

  lemma Split<T>(head: seq<T>, ms: seq<T>, j: nat)
    requires j <= |ms|
    ensures (head + ms)[..|head| + j] == head + ms[..j]
    ensures (head + ms)[|head| + j..] == ms[j..]
  {
  }

  /** Cutting `head + ms`, where `ms` is what `d` holds beyond `t`. */
  lemma CutList(head: seq<Row>, ms: seq<Row>, d: seq<Row>, t: nat, hi: int, j: int)
    requires |head| <= 1 && |head + ms| >= 3 && CutPoint(head + ms) == |head| + j
    requires ms == After(d, t) && Ascending(ms) && AllMessages(ms) && Between(ms, t, hi)
    ensures 0 < j <= |ms| && t < ms[j - 1].sequence <= hi
    ensures After(d, ms[j - 1].sequence) == ms[j..]
    ensures UpTo(ms, ms[j - 1].sequence) == ms[..j]
  {
    AfterCut(ms, j);
    AfterAfter(d, t, ms[j - 1].sequence);
  }

  /** A due compaction: the summarized part ends in a message beyond the old
      marker's reach, and what is kept is exactly what lies beyond its own. */
  lemma CompactionCut(rows: seq<Row>, g: Gauge) returns (head: seq<Row>, ms: seq<Row>, j: nat)
    requires Sequenced(rows) && Due(HistoryRows(rows), g)
    ensures head == ViewHead(rows) && ms == ViewTail(rows) && HistoryRows(rows) == head + ms
    ensures 0 < j <= |ms| && CutPoint(HistoryRows(rows)) == |head| + j
    ensures Through(rows) < ms[j - 1].sequence <= |rows|
    ensures After(Durable(rows), ms[j - 1].sequence) == ms[j..]
    ensures UpTo(ms, ms[j - 1].sequence) == ms[..j]
  {
    head, ms := ViewHead(rows), ViewTail(rows);
    ViewParts(rows);
    TailFacts(rows);
    j := CutPoint(head + ms) - |head|;
    CutList(head, ms, Durable(rows), Through(rows), |rows|, j);
  }

  lemma MarkerReach(rows: seq<Row>, head: seq<Row>, ms: seq<Row>, j: nat)
    requires 0 < j <= |ms|
    ensures (head + ms)[..|head| + j] == head + ms[..j]
    ensures (head + ms)[|head| + j..] == ms[j..]
    ensures MarkerFor(rows, head + ms[..j]).through == ms[j - 1].sequence
    ensures MarkerFor(rows, head + ms[..j]).media == MediaCounts(head + ms[..j])
  {
    hide Compaction.MediaCounts, Compaction.NextSequence;
    Split(head, ms, j);
    LastOfCat(head, ms, j);
  }

  lemma LastOfCat<T>(head: seq<T>, ms: seq<T>, j: nat)
    requires 0 < j <= |ms|
    ensures |head + ms[..j]| == |head| + j && (head + ms[..j])[|head| + j - 1] == ms[j - 1]
  {
  }

  /** The list the turn runs over equals what the next read of the stored rows
      computes, and each compaction reaches strictly further than the last. */
  lemma CompactionRefinesReread(rows: seq<Row>, g: Gauge)
    requires Sequenced(rows) && Due(HistoryRows(rows), g)
    ensures var view := HistoryRows(rows);
            var k := CutPoint(view);
            var marker := MarkerFor(rows, view[..k]);
            && HistoryRows(rows + [marker]) == [marker] + view[k..]
            && marker.through > Through(rows)
  {
    hide Compaction.Durable, Compaction.After, Compaction.LastMarker, Compaction.NextSequence, Compaction.Sequenced;
    hide Compaction.MediaCounts, Compaction.HistoryRows, Compaction.Due, Compaction.CutPoint, Compaction.UpTo;
    var head, ms, j := CompactionCut(rows, g);
    MarkerReach(rows, head, ms, j);
    RereadAfterMarker(rows, MarkerFor(rows, head + ms[..j]));
  }

  lemma RereadAfterMarker(rows: seq<Row>, marker: Row)
    requires marker.Marker?
    ensures HistoryRows(rows + [marker]) == [marker] + After(Durable(rows), marker.through)
    ensures Through(rows + [marker]) == marker.through
  {
    AppendMarker(rows, marker);
    AppendDurable(rows, marker);
    DurableMarkers(rows + [marker]);
    AppendAfter(Durable(rows), marker, marker.through);
  }

  // ---------------------------------------------------------------- media

  function MediaBetween(rows: seq<Row>, t: nat, u: nat): MediaCount {
    MediaCounts(UpTo(After(Durable(rows), t), u))
  }

  lemma BetweenSnoc(rows: seq<Row>, row: Row, t: nat, u: nat)
    ensures MediaBetween(rows + [row], t, u) ==
            if row.Message? && row.IsDurable() && t < row.sequence <= u
            then Plus(MediaBetween(rows, t, u), RowMedia(row)) else MediaBetween(rows, t, u)
  {
    AppendDurable(rows, row);
    if row.IsDurable() {
      AppendAfter(Durable(rows), row, t);
      if row.Message? && row.sequence > t {
        AppendUpTo(After(Durable(rows), t), row, u);
        if row.sequence <= u { AppendMedia(UpTo(After(Durable(rows), t), u), row); }
      }
    }
  }

  lemma NothingBetween(rows: seq<Row>, t: nat, u: nat)
    requires rows == []
    ensures MediaBetween(rows, t, u) == MediaCount(0, 0) && RawMedia(rows, t) == RawMedia(rows, u) == MediaCount(0, 0)
  {
    assert Durable(rows) == [] && After([], t) == [] && UpTo([], u) == [];
  }

  lemma {:induction false} RawMediaSplit(rows: seq<Row>, t: nat, u: nat)
    requires t <= u
    ensures RawMedia(rows, u) == Plus(RawMedia(rows, t), MediaBetween(rows, t, u))
  {
    hide RawMedia, MediaBetween, BlockMedia;
    if rows == [] {
      NothingBetween(rows, t, u);
    } else {
      var init, last := rows[..|rows| - 1], rows[|rows| - 1];
      RawMediaSplit(init, t, u);
      assert rows == init + [last];
      AppendRaw(init, last, t);
      AppendRaw(init, last, u);
      BetweenSnoc(init, last, t, u);
    }
  }

  lemma {:induction false} RawMediaNone(rows: seq<Row>, hi: int)
    requires Between(rows, 0, hi)
    ensures RawMedia(rows, 0) == MediaCount(0, 0)
  {
    if rows != [] { RawMediaNone(rows[..|rows| - 1], hi); }
  }

  lemma MediaCat(head: seq<Row>, init: seq<Row>, last: Row)
    requires last.Message?
    ensures MediaCounts(head + (init + [last])) == Plus(MediaCounts(head + init), RowMedia(last))
    ensures MediaCounts(init + [last]) == Plus(MediaCounts(init), RowMedia(last))
  {
    hide Compaction.MediaCounts;
    CatSnoc(head, init, last);
    AppendMedia(head + init, last);
    AppendMedia(init, last);
  }

  lemma NoMedia(head: seq<Row>)
    ensures MediaCounts(head) == Plus(MediaCounts(head), MediaCounts([]))
  {
  }

  lemma {:induction false} MediaOfHeadAndTail(head: seq<Row>, ms: seq<Row>)
    requires AllMessages(ms)
    ensures MediaCounts(head + ms) == Plus(MediaCounts(head), MediaCounts(ms))
  {
    hide Compaction.MediaCounts, Compaction.RowMedia, Compaction.Plus;
    if ms == [] {
      assert head + ms == head;
      NoMedia(head);
    } else {
      var init, last := ms[..|ms| - 1], ms[|ms| - 1];
      MediaOfHeadAndTail(head, init);
      MediaCat(head, init, last);
      assert ms == init + [last];
      PlusAssociates(MediaCounts(head), MediaCounts(init), RowMedia(last));
    }
  }

  lemma PlusAssociates(a: MediaCount, b: MediaCount, c: MediaCount)
    ensures Plus(Plus(a, b), c) == Plus(a, Plus(b, c))
  {
  }

  lemma HeadMedia(rows: seq<Row>)
    requires Sound(rows)
    ensures MediaCounts(ViewHead(rows)) == RawMedia(rows, Through(rows))
    ensures Through(rows) <= |rows|
  {
    if LastMarker(rows).None? {
      RawMediaNone(rows, |rows|);
    } else {
      var i := LastMarkerIndex(rows);
    }
  }

  /** Labels survive: counting over what is sent, with the markers standing in,
      gives the raw count over everything stored. */
  lemma MediaSurvives(rows: seq<Row>)
    requires Sound(rows)
    ensures MediaCounts(HistoryRows(rows)) == RawMedia(rows, |rows|)
  {
    HeadMedia(rows);
    ViewParts(rows);
    TailFacts(rows);
    var ms := ViewTail(rows);
    MediaOfHeadAndTail(ViewHead(rows), ms);
    RawMediaSplit(rows, Through(rows), |rows|);
    AllBelow(ms, |rows|);
  }

  /** What a new marker records is sound: it reaches further, and counts the
      raw attachments up to where it reaches. */
  lemma MarkerIsSound(rows: seq<Row>, g: Gauge)
    requires Sound(rows) && Due(HistoryRows(rows), g)
    ensures var view := HistoryRows(rows);
            var marker := MarkerFor(rows, view[..CutPoint(view)]);
            && Through(rows) < marker.through <= |rows|
            && marker.media == RawMedia(rows, marker.through)
  {
    hide Compaction.Durable, Compaction.After, Compaction.UpTo, Compaction.LastMarker, Compaction.NextSequence;
    hide Compaction.MediaCounts, Compaction.RawMedia, Compaction.HistoryRows, Compaction.Due, Compaction.CutPoint;
    hide Compaction.Sequenced, Compaction.MarkersSound, Compaction.PartialsAreReplies;
    var head, ms, j := CompactionCut(rows, g);
    MarkerReach(rows, head, ms, j);
    PartMedia(rows, ms, j);
  }

  lemma PartMedia(rows: seq<Row>, ms: seq<Row>, j: nat)
    requires Sound(rows) && ms == ViewTail(rows) && 0 < j <= |ms|
    requires Through(rows) < ms[j - 1].sequence && UpTo(ms, ms[j - 1].sequence) == ms[..j]
    ensures MediaCounts(ViewHead(rows) + ms[..j]) == RawMedia(rows, ms[j - 1].sequence)
  {
    HeadMedia(rows);
    TailFacts(rows);
    MediaOfHeadAndTail(ViewHead(rows), ms[..j]);
    RawMediaSplit(rows, Through(rows), ms[j - 1].sequence);
  }

  // ---------------------------------------------------------------- preservation

  lemma SoundAppend(rows: seq<Row>, row: Row)
    requires Sound(rows) && row.sequence == |rows| + 1
    requires !row.IsDurable() ==> row.role == Assistant
    requires row.Marker? ==> 0 < row.through <= |rows| && row.through > Through(rows)
                             && row.media == RawMedia(rows, row.through)
    ensures Sound(rows + [row])
  {
    var all := rows + [row];
    forall i | 0 <= i < |all| && all[i].Marker?
      ensures 0 < all[i].through <= i && all[i].media == RawMedia(all, all[i].through)
    {
      AppendRaw(rows, row, all[i].through);
      if i < |rows| { assert all[i] == rows[i]; }
    }
    forall i, j | 0 <= i < j < |all| && all[i].Marker? && all[j].Marker?
      ensures all[i].through < all[j].through
    {
      if j == |rows| {
        BelowThrough(rows, i);
      } else {
        assert all[i] == rows[i] && all[j] == rows[j];
      }
    }
  }

  lemma BelowThrough(rows: seq<Row>, i: nat)
    requires MarkersSound(rows) && i < |rows| && rows[i].Marker?
    ensures LastMarker(rows).Some? && rows[i].through <= Through(rows)
  {
    HasLastMarker(rows, i);
    var k := LastMarkerIndex(rows);
  }

  lemma {:induction false} HasLastMarker(rows: seq<Row>, i: nat)
    requires i < |rows| && rows[i].Marker?
    ensures LastMarker(rows).Some?
    decreases |rows|
  {
    if i < |rows| - 1 { HasLastMarker(rows[..|rows| - 1], i); }
  }

  lemma PromoteSnoc(rows: seq<Row>, row: Row)
    ensures Promote(rows + [row]) == Promote(rows) + [if row.Message? then row.(partial := false) else row]
  {
  }

  lemma {:induction false} PromoteKeeps(rows: seq<Row>, t: nat)
    requires PartialsAreReplies(rows)
    ensures LastMarker(Promote(rows)) == LastMarker(rows)
    ensures RawMedia(Promote(rows), t) == RawMedia(rows, t)
  {
    if rows != [] {
      var init, last := rows[..|rows| - 1], rows[|rows| - 1];
      var row := if last.Message? then last.(partial := false) else last;
      assert rows == init + [last];
      PromoteKeeps(init, t);
      PromoteSnoc(init, last);
      AppendMarker(Promote(init), row);
      AppendRaw(Promote(init), row, t);
    }
  }

  lemma SoundPromote(rows: seq<Row>)
    requires Sound(rows)
    ensures Sound(Promote(rows))
  {
    var p := Promote(rows);
    forall i | 0 <= i < |p| && p[i].Marker?
      ensures 0 < p[i].through <= i && p[i].media == RawMedia(p, p[i].through)
    {
      assert p[i] == rows[i];
      PromoteKeeps(rows, p[i].through);
    }
  }

  lemma SoundCompact(rows: seq<Row>, g: Gauge)
    requires Sound(rows) && Due(HistoryRows(rows), g)
    ensures var view := HistoryRows(rows);
            Sound(rows + [MarkerFor(rows, view[..CutPoint(view)])])
  {
    MarkerIsSound(rows, g);
    NextSequenceIsLength(rows);
    var view := HistoryRows(rows);
    SoundAppend(rows, MarkerFor(rows, view[..CutPoint(view)]));
  }

  lemma SoundStep(s: Store, step: Step)
    requires Sound(s.rows) && Sayable(step)
    ensures Sound(Apply(s, step).rows)
  {
    match step
    case Say(role, content, partial, speaker) =>
      NextSequenceIsLength(s.rows);
      SoundAppend(s.rows, Message(NextSequence(s.rows), role, content, partial, speaker));
    case Compact(g) =>
      if Due(HistoryRows(s.rows), g) { SoundCompact(s.rows, g); }
    case FinalizePartials => SoundPromote(s.rows);
  }

  /** Over every run: rows numbered 1..n, the reach of the markers strictly
      increasing, each marker's media the raw count up to its reach, and the
      sent history's media the raw count over everything. */
  lemma {:induction false} RunsStaySound(steps: seq<Step>)
    requires forall i :: 0 <= i < |steps| ==> Sayable(steps[i])
    ensures Sound(Run(steps).rows)
    ensures MediaCounts(HistoryRows(Run(steps).rows)) == RawMedia(Run(steps).rows, |Run(steps).rows|)
  {
    if steps != [] {
      var init, last := steps[..|steps| - 1], steps[|steps| - 1];
      RunsStaySound(init);
      SoundStep(Run(init), last);
    }
    MediaSurvives(Run(steps).rows);
  }

  // ---------------------------------------------------------------- conservation

  lemma SequencedSnoc(rows: seq<Row>, row: Row)
    requires Sequenced(rows) && row.sequence == |rows| + 1
    ensures Sequenced(rows + [row])
  {
  }

  lemma ConserveAppend(rows: seq<Row>, row: Row)
    requires Sequenced(rows) && row.Message? && row.sequence == |rows| + 1 && Through(rows) <= |rows|
    ensures row.partial ==> Durable(rows + [row]) == Durable(rows)
    ensures !row.partial ==> Messages(Durable(rows + [row])) == Messages(Durable(rows)) + [row]
    ensures Messages(HistoryRows(rows + [row])) ==
            Messages(HistoryRows(rows)) + (if row.partial then [] else [row])
  {
    hide Compaction.Durable, Compaction.After, Compaction.LastMarker, Compaction.HistoryRows, Compaction.Sequenced;
    SequencedSnoc(rows, row);
    ViewParts(rows);
    ViewParts(rows + [row]);
    AppendDurable(rows, row);
    AppendMarker(rows, row);
    if !row.partial {
      AppendAfter(Durable(rows), row, 0);
      AppendAfter(Durable(rows), row, Through(rows));
    }
  }

  lemma ConserveSay(s: Store, step: Step)
    requires Sound(s.rows) && Conserved(s) && step.Say? && Sayable(step)
    ensures Conserved(Apply(s, step))
  {
    NextSequenceIsLength(s.rows);
    HeadMedia(s.rows);
    ConserveAppend(s.rows, Message(NextSequence(s.rows), step.role, step.content, step.partial, step.speaker));
  }

  lemma MarkerKeepsMessages(rows: seq<Row>, marker: Row)
    requires marker.Marker?
    ensures Messages(Durable(rows + [marker])) == Messages(Durable(rows))
  {
    AppendDurable(rows, marker);
    AppendAfter(Durable(rows), marker, 0);
  }

  /** A compaction moves the front of the sent messages into the summary. */
  lemma CompactionMoves(rows: seq<Row>, g: Gauge)
    requires Sequenced(rows) && Due(HistoryRows(rows), g)
    ensures var view := HistoryRows(rows);
            var summarized := view[..CutPoint(view)];
            var all := rows + [MarkerFor(rows, summarized)];
            Messages(view) == Messages(summarized) + Messages(HistoryRows(all))
  {
    hide Compaction.Durable, Compaction.After, Compaction.UpTo, Compaction.LastMarker, Compaction.NextSequence;
    hide Compaction.MediaCounts, Compaction.LastCallTokens, Compaction.HistoryRows, Compaction.Due, Compaction.Ascending;
    var head, ms, j := CompactionCut(rows, g);
    var marker := MarkerFor(rows, head + ms[..j]);
    MarkerReach(rows, head, ms, j);
    RereadAfterMarker(rows, marker);
    TailFacts(rows);
    DropHead(head, ms, |rows|);
    DropHead(head, ms[..j], |rows|);
    DropHead([marker], ms[j..], |rows|);
    assert ms == ms[..j] + ms[j..];
  }

  lemma ConserveCompact(s: Store, g: Gauge)
    requires Sound(s.rows) && Conserved(s) && Due(HistoryRows(s.rows), g)
    ensures Conserved(Apply(s, Compact(g)))
  {
    hide Compaction.Durable, Compaction.After, Compaction.UpTo, Compaction.LastMarker, Compaction.NextSequence;
    hide Compaction.MediaCounts, Compaction.LastCallTokens, Compaction.Spares, Compaction.HistoryRows;
    hide Compaction.Messages, Compaction.Summarized;
    hide Compaction.Sequenced, Compaction.MarkersSound, Compaction.PartialsAreReplies;
    var view := HistoryRows(s.rows);
    var summarized := view[..CutPoint(view)];
    var marker := MarkerFor(s.rows, summarized);
    CompactionMoves(s.rows, g);
    MarkerKeepsMessages(s.rows, marker);
    SummarizedSnoc(s.summaries, summarized);
  }

  lemma SummarizedSnoc(summaries: seq<seq<Row>>, last: seq<Row>)
    ensures Summarized(summaries + [last]) == Summarized(summaries) + Messages(last)
  {
    assert (summaries + [last])[..|summaries|] == summaries;
  }

  ghost predicate NonePartialBelow(rows: seq<Row>, t: nat) {
    forall i :: 0 <= i < |rows| && !rows[i].IsDurable() ==> rows[i].sequence > t
  }

  lemma NonePartialSnoc(rows: seq<Row>, last: Row, t: nat)
    ensures NonePartialBelow(rows + [last], t) <==> NonePartialBelow(rows, t) && (last.IsDurable() || last.sequence > t)
  {
    assert forall i :: 0 <= i < |rows| ==> (rows + [last])[i] == rows[i];
    assert (rows + [last])[|rows|] == last;
  }

  lemma {:induction false} PromotedBelow(rows: seq<Row>, t: nat)
    ensures |UpTo(Promote(rows), t)| >= |UpTo(Durable(rows), t)|
    ensures NonePartialBelow(rows, t) ==> UpTo(Promote(rows), t) == UpTo(Durable(rows), t)
    ensures !NonePartialBelow(rows, t) ==> |UpTo(Promote(rows), t)| > |UpTo(Durable(rows), t)|
  {
    if rows != [] {
      hide Compaction.UpTo, Compaction.Durable, Compaction.Promote, NonePartialBelow;
      var init, last := rows[..|rows| - 1], rows[|rows| - 1];
      var row := if last.Message? then last.(partial := false) else last;
      assert rows == init + [last];
      PromotedBelow(init, t);
      NonePartialSnoc(init, last, t);
      PromoteSnoc(init, last);
      AppendUpTo(Promote(init), row, t);
      AppendDurable(init, last);
      if last.IsDurable() { AppendUpTo(Durable(init), last, t); }
    }
  }

  /** Finalizing interrupted rows loses none of them if and only if none lies
      at or below the latest marker's reach. */
  lemma PromotionConservesIff(s: Store)
    requires Sound(s.rows) && Conserved(s)
    ensures Conserved(Apply(s, FinalizePartials)) <==> NothingHidden(s.rows)
  {
    hide Compaction.Durable, Compaction.After, Compaction.UpTo, Compaction.LastMarker, Compaction.HistoryRows;
    hide Compaction.MarkersSound, Compaction.Summarized, Compaction.Messages;
    var rows, t, p, sum := s.rows, Through(s.rows), Promote(s.rows), Summarized(s.summaries);
    SoundPromote(rows);
    PromoteKeeps(rows, t);
    DurableOfDurable(p);
    MessagesSplit(rows);
    MessagesSplit(p);
    PromotedBelow(rows, t);
    CancelSuffix(UpTo(Durable(rows), t), sum, After(Durable(rows), t));
    if UpTo(p, t) + After(p, t) == sum + After(p, t) {
      CancelSuffix(UpTo(p, t), sum, After(p, t));
    }
  }

  /** Messages are those up to the marker's reach, then those the view sends. */
  lemma MessagesSplit(rows: seq<Row>)
    requires Sequenced(rows)
    ensures Messages(Durable(rows)) == UpTo(Durable(rows), Through(rows)) + After(Durable(rows), Through(rows))
    ensures Messages(HistoryRows(rows)) == After(Durable(rows), Through(rows))
  {
    SequencedFacts(rows);
    ViewParts(rows);
    SplitAt(Durable(rows), Through(rows), |rows|);
  }

  lemma CancelSuffix<T>(a: seq<T>, b: seq<T>, c: seq<T>)
    requires a + c == b + c
    ensures a == b
  {
    assert |a| == |b|;
    assert (a + c)[..|a|] == a && (b + c)[..|b|] == b;
  }

  /** Every durable message is summarized by exactly one compaction or appears
      exactly once in what is sent, in order, however many compactions run. */
  lemma {:induction false} RunsConserve(steps: seq<Step>)
    requires forall i :: 0 <= i < |steps| ==> Sayable(steps[i])
    requires Careful(steps)
    ensures Conserved(Run(steps))
  {
    if steps != [] {
      var init, last := steps[..|steps| - 1], steps[|steps| - 1];
      forall i | 0 <= i < |init| && init[i].FinalizePartials? ensures NothingHidden(Run(init[..i]).rows) {
        assert init[..i] == steps[..i] && init[i] == steps[i];
      }
      RunsConserve(init);
      RunsStaySound(init);
      var s := Run(init);
      match last
      case Say(_, _, _, _) => ConserveSay(s, last);
      case Compact(g) => if Due(HistoryRows(s.rows), g) { ConserveCompact(s, g); }
      case FinalizePartials => PromotionConservesIff(s);
    }
  }

  const GAUGE := Gauge(1, 0, 1, None, None, true)

  function Talk(): seq<Step> {
    [Say(User, [], false, ""), Say(Assistant, [], true, ""), Say(User, [], false, ""), Say(Assistant, [], false, "")]
  }

  function TalkRows(): seq<Row> {
    [Message(1, User, [], false, ""), Message(2, Assistant, [], true, ""),
     Message(3, User, [], false, ""), Message(4, Assistant, [], false, "")]
  }

  lemma RunSnoc(steps: seq<Step>, step: Step)
    ensures Run(steps + [step]) == Apply(Run(steps), step)
  {
    assert (steps + [step])[..|steps|] == steps;
  }

  lemma DueOnThree(view: seq<Row>)
    requires |view| == 3 && AllMessages(view) && view[2].role == Assistant && view[2].sequence > 0
    ensures Due(view, GAUGE) && CutPoint(view) == 2
  {
    assert view[2] in view;
  }

  lemma LateCompaction() returns (rows: seq<Row>)
    ensures rows == Run(Talk() + [Compact(GAUGE)]).rows
    ensures |rows| == 5 && rows[1] == TalkRows()[1] && Through(rows) == 3
  {
    hide Compaction.Durable, Compaction.After, Compaction.LastMarker, Compaction.NextSequence, Compaction.Run;
    hide Compaction.MediaCounts, Compaction.LastCallTokens, Compaction.HistoryRows, Compaction.Due;
    var talk := TalkRows();
    SayAll(talk);
    assert Sayings(talk) == Talk();
    ViewOfFour(talk);
    RunSnoc(Talk(), Compact(GAUGE));
    var view := [talk[0], talk[2], talk[3]];
    DueOnThree(view);
    RereadAfterMarker(talk, MarkerFor(talk, view[..2]));
    rows := talk + [MarkerFor(talk, view[..2])];
  }

  /** Without care the promise fails: a reply interrupted before a compaction
      and finalized after it is neither summarized nor sent. */
  lemma LateFinalizeLosesARow()
    ensures !Conserved(Run(Talk() + [Compact(GAUGE)] + [FinalizePartials]))
  {
    hide Compaction.Run, Compaction.Apply, Compaction.Conserved, Compaction.Sound, Compaction.Through;
    var compacted := Talk() + [Compact(GAUGE)];
    var rows := LateCompaction();
    RunsStaySound(compacted);
    RunsConserve(compacted);
    assert !rows[1].IsDurable() && !NothingHidden(rows);
    PromotionConservesIff(Run(compacted));
    RunSnoc(compacted, FinalizePartials);
  }

  ghost function Sayings(rows: seq<Row>): (steps: seq<Step>)
    requires AllMessages(rows)
    ensures |steps| == |rows|
  {
    seq(|rows|, i requires 0 <= i < |rows| => Say(rows[i].role, rows[i].content, rows[i].partial, rows[i].speaker))
  }

  lemma SayOne(talk: seq<Step>, rows: seq<Row>, row: Row)
    requires Run(talk) == Store(rows, []) && Sequenced(rows) && row.Message? && row.sequence == |rows| + 1
    ensures Run(talk + [Say(row.role, row.content, row.partial, row.speaker)]) == Store(rows + [row], [])
  {
    hide Compaction.Run, Compaction.NextSequence, Compaction.Sequenced;
    NextSequenceIsLength(rows);
    RunSnoc(talk, Say(row.role, row.content, row.partial, row.speaker));
  }

  lemma SayingsSnoc(init: seq<Row>, last: Row)
    requires AllMessages(init + [last]) && AllMessages(init) && last.Message?
    ensures Sayings(init + [last]) == Sayings(init) + [Say(last.role, last.content, last.partial, last.speaker)]
  {
    assert forall i :: 0 <= i < |init| ==> (init + [last])[i] == init[i];
  }

  lemma SequencedInit(init: seq<Row>, last: Row)
    requires Sequenced(init + [last])
    ensures Sequenced(init) && last.sequence == |init| + 1
  {
    assert forall i :: 0 <= i < |init| ==> (init + [last])[i] == init[i];
    assert (init + [last])[|init|] == last;
  }

  /** Saying messages one by one stores them as they are. */
  lemma {:induction false} SayAll(rows: seq<Row>)
    requires Sequenced(rows) && AllMessages(rows)
    ensures Run(Sayings(rows)) == Store(rows, [])
  {
    if rows != [] {
      hide Compaction.Run, Compaction.Apply, Compaction.Sequenced, Sayings;
      var init, last := rows[..|rows| - 1], rows[|rows| - 1];
      assert rows == init + [last];
      SequencedInit(init, last);
      SayAll(init);
      SayOne(Sayings(init), init, last);
      SayingsSnoc(init, last);
    }
  }

  lemma ViewOfFour(rows: seq<Row>)
    requires |rows| == 4 && Sequenced(rows)
    requires AllMessages(rows)
    requires rows[0].IsDurable() && !rows[1].IsDurable() && rows[2].IsDurable() && rows[3].IsDurable()
    ensures HistoryRows(rows) == [rows[0], rows[2], rows[3]] && LastMarker(rows) == None
  {
    var a, b, c, d := rows[0], rows[1], rows[2], rows[3];
    assert rows == [] + [a] + [b] + [c] + [d];
    DurableStep([], a);
    DurableStep([a], b);
    DurableStep([a, b], c);
    DurableStep([a, b, c], d);
    DurableMarkers(rows);
  }

  lemma DurableStep(rows: seq<Row>, row: Row)
    requires row.Message?
    ensures Durable(rows + [row]) == Durable(rows) + (if row.IsDurable() then [row] else [])
    ensures LastMarker(rows + [row]) == LastMarker(rows)
  {
    AppendDurable(rows, row);
    AppendMarker(rows, row);
  }

  // ---------------------------------------------------------------- when it is worth it

  /** Only the first row of what is sent can be a marker. */
  lemma MarkerInFront(rows: seq<Row>)
    ensures var view := HistoryRows(rows);
            forall k :: 0 <= k < |view| && view[k].Marker? ==> k == 0 && LastMarker(rows) == Some(view[0])
  {
    DurableMarkers(rows);
    if LastMarker(rows).None? {
      UnmarkedDurable(rows);
    } else {
      AfterMessages(Durable(rows), Through(rows));
    }
  }

  lemma {:induction false} UnmarkedDurable(rows: seq<Row>)
    requires LastMarker(rows).None?
    ensures AllMessages(Durable(rows))
  {
    if rows != [] { UnmarkedDurable(rows[..|rows| - 1]); }
  }

  lemma SentNumbers(rows: seq<Row>)
    requires Sequenced(rows)
    ensures forall k :: 0 <= k < |HistoryRows(rows)| && HistoryRows(rows)[k].Message? ==> HistoryRows(rows)[k].sequence > 0
  {
    DurableBounds(rows, 0, |rows|);
    AfterBounds(Durable(rows), Through(rows), 0, |rows|);
    DurableMarkers(rows);
  }

  lemma DueWhenWorthIt(rows: seq<Row>, g: Gauge)
    requires Sequenced(rows)
    ensures Due(HistoryRows(rows), g) <==> WorthIt(HistoryRows(rows), g)
  {
    hide HistoryRows;
    MarkerInFront(rows);
    SentNumbers(rows);
    var view := HistoryRows(rows);
    if WorthIt(view, g) {
      var i :| 0 <= i < |view| && view[i].Message? && view[i].role == Assistant
               && forall k :: 0 <= k < |view| && view[k].Marker? ==> view[k].sequence < view[i].sequence;
      assert view[i] in view;
      if view[0].Marker? { assert view[0].sequence < view[i].sequence; }
    }
    if Due(view, g) {
      var since := if view[0].Marker? then view[0].sequence else 0;
      var r :| r in view && r.Message? && r.role == Assistant && r.sequence > since;
      var i :| 0 <= i < |view| && view[i] == r;
      assert forall k :: 0 <= k < |view| && view[k].Marker? ==> k == 0;
    }
  }

  /** A compaction writes its marker only over a reply stored since the one
      before: without a new reply nothing is compacted again. */
  lemma CompactionNeedsAReply(steps: seq<Step>, g: Gauge)
    requires forall i :: 0 <= i < |steps| ==> Sayable(steps[i])
    ensures var s := Run(steps);
            Apply(s, Compact(g)) != s ==>
              exists i :: 0 <= i < |s.rows| && s.rows[i].Message? && s.rows[i].role == Assistant && !s.rows[i].partial
                          && forall k :: i <= k < |s.rows| ==> !s.rows[k].Marker?
  {
    hide HistoryRows, Run, Due, MarkersSound;
    var s := Run(steps);
    var view := HistoryRows(s.rows);
    if Apply(s, Compact(g)) != s {
      RunsStaySound(steps);
      DueWhenWorthIt(s.rows, g);
      var j :| 0 <= j < |view| && view[j].Message? && view[j].role == Assistant
               && forall k :: 0 <= k < |view| && view[k].Marker? ==> view[k].sequence < view[j].sequence;
      var i := SentIsStored(s.rows, j);
      forall k | i <= k < |s.rows| ensures !s.rows[k].Marker? {
        if s.rows[k].Marker? { LaterMarkerIsSent(s.rows, k); }
      }
    }
  }

  /** What is sent is stored, and never partial. */
  lemma SentIsStored(rows: seq<Row>, j: nat) returns (i: nat)
    requires j < |HistoryRows(rows)| && HistoryRows(rows)[j].Message?
    ensures i < |rows| && rows[i] == HistoryRows(rows)[j] && !rows[i].partial
  {
    var row := HistoryRows(rows)[j];
    if LastMarker(Durable(rows)).Some? {
      assert row in After(Durable(rows), LastMarker(Durable(rows)).value.through);
      AfterStored(Durable(rows), LastMarker(Durable(rows)).value.through, row);
    }
    DurableStored(rows, row);
    i :| 0 <= i < |rows| && rows[i] == row;
  }

  lemma {:induction false} AfterStored(rows: seq<Row>, t: nat, row: Row)
    requires row in After(rows, t)
    ensures row in rows
  {
    if rows[|rows| - 1] != row { AfterStored(rows[..|rows| - 1], t, row); }
  }

  lemma {:induction false} DurableStored(rows: seq<Row>, row: Row)
    requires row in Durable(rows)
    ensures row in rows && row.IsDurable()
  {
    if row in Durable(rows[..|rows| - 1]) { DurableStored(rows[..|rows| - 1], row); }
  }

  /** The marker in front is no earlier than any stored one. */
  lemma LaterMarkerIsSent(rows: seq<Row>, k: nat)
    requires Sequenced(rows) && k < |rows| && rows[k].Marker?
    ensures var view := HistoryRows(rows); view != [] && view[0].Marker? && view[0].sequence >= rows[k].sequence
  {
    DurableMarkers(rows);
    LatestMarker(rows, k);
  }

  lemma {:induction false} LatestMarker(rows: seq<Row>, k: nat)
    requires Sequenced(rows) && k < |rows| && rows[k].Marker?
    ensures LastMarker(rows).Some? && LastMarker(rows).value.sequence >= rows[k].sequence
    decreases |rows|
  {
    if !rows[|rows| - 1].Marker? { LatestMarker(rows[..|rows| - 1], k); }
  }

  // ---------------------------------------------------------------- what is sent and what is counted, row by row

  /** A row is sent exactly when it is the latest marker, or a message that is
      not partial and lies beyond that marker's reach, if there is one; and what
      is sent is in number order, the marker in front. */
  lemma SentIff(rows: seq<Row>, i: nat)
    requires Sequenced(rows) && i < |rows|
    ensures rows[i] in HistoryRows(rows) <==>
            if rows[i].Marker? then forall k :: i < k < |rows| ==> !rows[k].Marker?
            else !rows[i].partial &&
                 forall m :: 0 <= m < |rows| && rows[m].Marker? && (forall k :: m < k < |rows| ==> !rows[k].Marker?) ==>
                   rows[i].sequence > rows[m].through
    ensures Ascending(MessagesOf(HistoryRows(rows)))
  {
    DurableMarkers(rows);
    DurableIff(rows, rows[i]);
    if LastMarker(rows).None? {
      NoMarkers(rows);
      UnmarkedDurable(rows);
      SequencedAscends(rows);
      DurableAscending(rows);
      AllStay(Durable(rows));
    } else {
      var m := MarkerAt(rows);
      AfterIff(Durable(rows), rows[m].through, rows[i]);
      OrderedTail(rows, rows[m]);
      if rows[i].Marker? {
        assert rows[i] in HistoryRows(rows) <==> rows[i] == rows[m];
        assert rows[i] == rows[m] <==> i == m;
      }
    }
  }

  function MessagesOf(rows: seq<Row>): seq<Row> {
    if rows == [] then []
    else
      var rest, last := MessagesOf(rows[..|rows| - 1]), rows[|rows| - 1];
      if last.Message? then rest + [last] else rest
  }

  lemma {:induction false} AllStay(rows: seq<Row>)
    requires AllMessages(rows)
    ensures MessagesOf(rows) == rows
  {
    if rows != [] { AllStay(rows[..|rows| - 1]); }
  }

  lemma {:induction false} MessagesBehind(head: Row, rows: seq<Row>)
    requires head.Marker? && AllMessages(rows)
    ensures MessagesOf([head] + rows) == rows
    decreases |rows|
  {
    if rows == [] {
      assert [head] + rows == [head] && [head][..0] == [];
    } else {
      var init, last := rows[..|rows| - 1], rows[|rows| - 1];
      MessagesBehind(head, init);
      assert ([head] + rows)[..|rows|] == [head] + init;
    }
  }

  lemma OrderedTail(rows: seq<Row>, marker: Row)
    requires Sequenced(rows) && LastMarker(rows) == Some(marker)
    ensures Ascending(MessagesOf(HistoryRows(rows)))
  {
    DurableMarkers(rows);
    SequencedAscends(rows);
    DurableAscending(rows);
    AfterAscending(Durable(rows), marker.through);
    AfterMessages(Durable(rows), marker.through);
    MessagesBehind(marker, After(Durable(rows), marker.through));
  }

  lemma {:induction false} NoMarkers(rows: seq<Row>)
    requires LastMarker(rows).None?
    ensures AllMessages(rows)
  {
    if rows != [] { NoMarkers(rows[..|rows| - 1]); }
  }

  lemma {:induction false} MarkerAt(rows: seq<Row>) returns (m: nat)
    requires LastMarker(rows).Some?
    ensures m < |rows| && rows[m] == LastMarker(rows).value && forall k :: m < k < |rows| ==> !rows[k].Marker?
  {
    if rows[|rows| - 1].Marker? { m := |rows| - 1; } else { m := MarkerAt(rows[..|rows| - 1]); }
  }

  lemma {:induction false} DurableIff(rows: seq<Row>, row: Row)
    ensures row in Durable(rows) <==> row in rows && (row.Message? ==> !row.partial)
  {
    if rows != [] {
      DurableIff(rows[..|rows| - 1], row);
      assert rows == rows[..|rows| - 1] + [rows[|rows| - 1]];
    }
  }

  lemma {:induction false} AfterIff(rows: seq<Row>, t: nat, row: Row)
    ensures row in After(rows, t) <==> row in rows && row.Message? && row.sequence > t
  {
    if rows != [] {
      AfterIff(rows[..|rows| - 1], t, row);
      assert rows == rows[..|rows| - 1] + [rows[|rows| - 1]];
    }
  }

  function PlacesOf(content: seq<Block>, kind: MediaKind): set<nat> {
    set j | 0 <= j < |content| && content[j] == Media(kind)
  }

  /** The attachments of a kind in the durable user rows up to `t`: which row,
      and where in it. */
  ghost function Attached(rows: seq<Row>, t: nat, kind: MediaKind): set<(nat, nat)> {
    set i, j | 0 <= i < |rows| && rows[i].Message? && rows[i].role == User && !rows[i].partial && rows[i].sequence <= t
               && 0 <= j < |rows[i].content| && rows[i].content[j] == Media(kind) :: (i, j)
  }

  lemma {:induction false} BlockMediaIsCounted(content: seq<Block>)
    ensures BlockMedia(content) == MediaCount(|PlacesOf(content, Image)|, |PlacesOf(content, Video)|)
  {
    if content != [] {
      var init, last := content[..|content| - 1], content[|content| - 1];
      BlockMediaIsCounted(init);
      PlacesSnoc(init, last, Image);
      PlacesSnoc(init, last, Video);
      hide PlacesOf;
      assert content == init + [last];
    }
  }

  lemma PlacesSnoc(init: seq<Block>, last: Block, kind: MediaKind)
    ensures PlacesOf(init + [last], kind) == PlacesOf(init, kind) + (if last == Media(kind) then {|init|} else {})
    ensures |init| !in PlacesOf(init, kind)
  {
  }

  /** The raw count is the number of those attachments, kind by kind. */
  lemma {:induction false} RawMediaIsCounted(rows: seq<Row>, t: nat)
    ensures RawMedia(rows, t) == MediaCount(|Attached(rows, t, Image)|, |Attached(rows, t, Video)|)
  {
    if rows == [] {
      assert Attached(rows, t, Image) == {} && Attached(rows, t, Video) == {};
    } else {
      var init, last := rows[..|rows| - 1], rows[|rows| - 1];
      RawMediaIsCounted(init, t);
      AttachedSnoc(init, last, t, Image);
      AttachedSnoc(init, last, t, Video);
      if last.Message? { BlockMediaIsCounted(last.content); }
      hide Attached, PlacesOf;
      assert rows == init + [last];
    }
  }

  lemma AttachedSnoc(init: seq<Row>, last: Row, t: nat, kind: MediaKind)
    ensures var counts := last.Message? && last.role == User && !last.partial && last.sequence <= t;
            |Attached(init + [last], t, kind)| == |Attached(init, t, kind)| + if counts then |PlacesOf(last.content, kind)| else 0
  {
    var rows := init + [last];
    var counts := last.Message? && last.role == User && !last.partial && last.sequence <= t;
    var own := if counts then PlacesOf(last.content, kind) else {};
    var added := InRow(|init|, own);
    InRowCardinality(|init|, own);
    hide Attached, PlacesOf, InRow;
    forall p: (nat, nat)
      ensures p in Attached(rows, t, kind) <==> p in Attached(init, t, kind) || p in added
      ensures p in Attached(init, t, kind) ==> p !in added
    {
      AttachedGrows(init, last, t, kind, p);
    }
    DisjointUnion(Attached(init, t, kind), added, Attached(rows, t, kind));
  }

  lemma DisjointUnion<T>(a: set<T>, b: set<T>, c: set<T>)
    requires forall p :: p in c <==> p in a || p in b
    requires forall p :: p in a ==> p !in b
    ensures |c| == |a| + |b|
  {
    assert c == a + b && a !! b;
  }

  lemma AttachedGrows(init: seq<Row>, last: Row, t: nat, kind: MediaKind, p: (nat, nat))
    ensures var counts := last.Message? && last.role == User && !last.partial && last.sequence <= t;
            var added := InRow(|init|, if counts then PlacesOf(last.content, kind) else {});
            && (p in Attached(init + [last], t, kind) <==> p in Attached(init, t, kind) || p in added)
            && !(p in Attached(init, t, kind) && p in added)
  {
    var counts := last.Message? && last.role == User && !last.partial && last.sequence <= t;
    AttachedAt(init, t, kind, p);
    AttachedAt(init + [last], t, kind, p);
    InRowAt(|init|, if counts then PlacesOf(last.content, kind) else {}, p);
    hide Attached, InRow;
  }

  lemma AttachedAt(rows: seq<Row>, t: nat, kind: MediaKind, p: (nat, nat))
    ensures p in Attached(rows, t, kind) <==>
            && p.0 < |rows| && rows[p.0].Message? && rows[p.0].role == User && !rows[p.0].partial && rows[p.0].sequence <= t
            && p.1 < |rows[p.0].content| && rows[p.0].content[p.1] == Media(kind)
  {
    assert p == (p.0, p.1);
  }

  function InRow(n: nat, places: set<nat>): set<(nat, nat)> {
    set j | j in places :: (n, j)
  }

  lemma InRowAt(n: nat, places: set<nat>, p: (nat, nat))
    ensures p in InRow(n, places) <==> p.0 == n && p.1 in places
  {
    assert p == (p.0, p.1);
  }

  lemma {:induction false} InRowCardinality(n: nat, places: set<nat>)
    ensures |InRow(n, places)| == |places|
  {
    if places != {} {
      var j :| j in places;
      var fewer := places - {j};
      InRowCardinality(n, fewer);
      assert InRow(n, places) == InRow(n, fewer) + {(n, j)};
      assert (n, j) !in InRow(n, fewer);
    }
  }

  /** Over every run: what is said is stored at the end, word for word, and the
      rows before it stay as they are. */
  lemma SayingStores(steps: seq<Step>, role: Role, content: seq<Block>, partial: bool, speaker: string)
    requires forall i :: 0 <= i < |steps| ==> Sayable(steps[i])
    ensures var rows := Run(steps).rows;
            Run(steps + [Say(role, content, partial, speaker)]).rows ==
            rows + [Message(|rows| + 1, role, content, partial, speaker)]
  {
    hide Run, MarkersSound, NextSequence;
    RunsStaySound(steps);
    NextSequenceIsLength(Run(steps).rows);
    RunSnoc(steps, Say(role, content, partial, speaker));
  }
}
