/** What the model is sent is always well paired: dropping markers and cutting
    at a compaction leaves no call without its result and no result without
    its call. */
module ViewPairing {
  import opened Transcript
  import opened Compaction
  import opened CompactionProofs

  ghost predicate AllDurable(rows: seq<Row>) {
    forall i :: 0 <= i < |rows| ==> rows[i].IsDurable()
  }

  /** The latest compaction was cut where no call was waiting. */
  ghost predicate CutClosed(rows: seq<Row>) {
    Through(rows) <= |rows| && LastUses(rows[..Through(rows)]) == []
  }

  ghost predicate Paired(rows: seq<Row>) {
    Sequenced(rows) && AllDurable(rows) && Chain(rows) && CutClosed(rows)
  }

  function Strip(rows: seq<Row>): seq<Row> {
    if rows == [] then []
    else
      var rest, last := Strip(rows[..|rows| - 1]), rows[|rows| - 1];
      if last.Message? then rest + [last] else rest
  }

  /** Dropping the markers keeps a transcript paired. */
  lemma {:induction false} StripKeepsChain(rows: seq<Row>)
    requires Chain(rows)
    ensures Chain(Strip(rows)) && LastUses(Strip(rows)) == LastUses(rows)
  {
    hide Uses, Answered, RowAnswers;
    if rows != [] {
      var init, last := rows[..|rows| - 1], rows[|rows| - 1];
      StripKeepsChain(init);
      if last.Message? { ChainSnoc(Strip(init), last); }
    }
  }

  /** In numbered rows, "after sequence t" is "from index t on". */
  lemma {:induction false} AfterIsSuffix(rows: seq<Row>, t: nat)
    requires Sequenced(rows) && t <= |rows|
    ensures After(rows, t) == Strip(rows[t..])
  {
    if t == |rows| {
      NoneAfter(rows, t);
      assert rows[t..] == [];
    } else {
      var init, last := rows[..|rows| - 1], rows[|rows| - 1];
      AfterIsSuffix(init, t);
      assert rows[t..] == init[t..] + [last];
      assert rows[t..][..|rows| - t - 1] == init[t..];
    }
  }

  lemma TailIsSuffix(rows: seq<Row>)
    requires Sequenced(rows) && AllDurable(rows) && Through(rows) <= |rows|
    ensures ViewTail(rows) == Strip(rows[Through(rows)..])
  {
    DurableOfDurable(rows);
    AfterIsSuffix(rows, Through(rows));
  }

  lemma {:induction false} StripLast(rows: seq<Row>)
    requires rows != [] && rows[|rows| - 1].Message?
    ensures Strip(rows) != [] && Strip(rows)[|Strip(rows)| - 1] == rows[|rows| - 1]
  {
  }

  lemma TailIsPaired(rows: seq<Row>)
    requires Paired(rows)
    ensures Chain(ViewTail(rows)) && LastUses(ViewTail(rows)) == LastUses(rows)
  {
    hide Uses, Answered, RowUses, RowAnswers;
    var t := Through(rows);
    TailIsSuffix(rows);
    if t == |rows| {
      assert rows[..t] == rows && rows[t..] == [];
    } else {
      ChainSuffix(rows, t);
      StripKeepsChain(rows[t..]);
    }
  }

  /** The view is paired and leaves waiting exactly what the stored rows do. */
  lemma ViewIsPaired(rows: seq<Row>)
    requires Paired(rows)
    ensures Chain(HistoryRows(rows)) && LastUses(HistoryRows(rows)) == LastUses(rows)
  {
    hide Uses, Answered, HistoryRows, Durable, After, LastMarker;
    var head, tail := ViewHead(rows), ViewTail(rows);
    ViewParts(rows);
    TailIsPaired(rows);
    if head != [] {
      ChainCons(head[0], tail);
      assert head == [head[0]];
    } else {
      assert head + tail == tail;
    }
  }

  lemma ViewEndsInLastRow(rows: seq<Row>)
    requires Paired(rows) && Open(rows)
    ensures HistoryRows(rows) != []
    ensures HistoryRows(rows)[|HistoryRows(rows)| - 1] == rows[|rows| - 1]
  {
    hide Uses, Answered, HistoryRows;
    var t := Through(rows);
    assert rows[..|rows|] == rows;
    ViewParts(rows);
    TailIsSuffix(rows);
    var tail := rows[t..];
    StripLast(tail);
  }

  lemma {:induction false} AfterElements(rows: seq<Row>, t: nat, k: nat)
    requires Sequenced(rows) && k < |After(rows, t)|
    ensures 0 < After(rows, t)[k].sequence <= |rows| && After(rows, t)[k] == rows[After(rows, t)[k].sequence - 1]
  {
    var init := rows[..|rows| - 1];
    if k < |After(init, t)| { AfterElements(init, t, k); }
  }

  /** Both sides of the cut a compaction makes are closed: what it summarizes
      has no call waiting, and what is kept answers nothing before it. */
  lemma CompactionCutsClosed(rows: seq<Row>, g: Gauge)
    requires Paired(rows) && !Open(rows) && Due(HistoryRows(rows), g)
    ensures var view := HistoryRows(rows);
            var k := CutPoint(view);
            && Closed(view[..k])
            && Paired(rows + [MarkerFor(rows, view[..k])])
            && LastUses(rows + [MarkerFor(rows, view[..k])]) == []
  {
    hide Uses, Answered, RowAnswers, Durable, After, UpTo, LastMarker, NextSequence, MediaCounts, LastCallTokens;
    hide Ascending, HistoryRows;
    var view := HistoryRows(rows);
    var k := CutPoint(view);
    ViewIsPaired(rows);
    ChainPrefix(view, k);
    if k == |view| {
      assert view[..k] == view;
    } else {
      ChainAt(view, k);
    }
    assert LastUses(view[..k]) == [];
    MarkedIsPaired(rows, g);
  }

  lemma MarkedIsPaired(rows: seq<Row>, g: Gauge)
    requires Paired(rows) && !Open(rows) && Due(HistoryRows(rows), g)
    requires LastUses(HistoryRows(rows)[..CutPoint(HistoryRows(rows))]) == []
    ensures Paired(rows + [MarkerFor(rows, HistoryRows(rows)[..CutPoint(HistoryRows(rows))])])
  {
    hide Durable, After, UpTo, LastMarker, MediaCounts, Chain, RowUses, CutPoint, NextSequence, CutClosed;
    hide Ascending, HistoryRows, Due;
    var head, ms, j := CompactionCut(rows, g);
    MarkerReach(rows, head, ms, j);
    var marker := MarkerFor(rows, head + ms[..j]);
    DurableOfDurable(rows);
    AfterElements(rows, Through(rows), j - 1);
    assert (head + ms[..j])[|head| + j - 1] == ms[j - 1];
    NextSequenceIsLength(rows);
    RereadAfterMarker(rows, marker);
    MarkerPaired(rows, marker);
  }

  /** A marker after a closed transcript, reaching back to a row without calls. */
  lemma MarkerPaired(rows: seq<Row>, marker: Row)
    requires Sequenced(rows) && AllDurable(rows) && Chain(rows) && !Open(rows)
    requires marker.Marker? && marker.sequence == |rows| + 1 && 0 < marker.through <= |rows|
    requires RowUses(rows[marker.through - 1]) == [] && Through(rows + [marker]) == marker.through
    ensures Paired(rows + [marker])
  {
    hide Chain, LastMarker;
    ChainSnoc(rows, marker);
    var upTo := (rows + [marker])[..marker.through];
    assert upTo[marker.through - 1] == rows[marker.through - 1];
  }

  lemma PairedSnoc(rows: seq<Row>, row: Row)
    requires Paired(rows) && row.Message? && !row.partial && row.sequence == |rows| + 1
    requires Answers(LastUses(rows), row)
    ensures Paired(rows + [row])
  {
    hide Uses, Answered, Chain, LastMarker, RowUses, Answers;
    ChainSnoc(rows, row);
    AppendMarker(rows, row);
    assert (rows + [row])[..Through(rows)] == rows[..Through(rows)];
  }

  lemma {:induction false} AddTextMarkers(rows: seq<Row>, text: string)
    ensures LastMarker(AddTextToLastAssistant(rows, text)) == LastMarker(rows)
  {
    if rows != [] {
      var init, last := rows[..|rows| - 1], rows[|rows| - 1];
      if last.Message? && last.role == Assistant {
        AppendMarker(init, last.(content := InsertWords(last.content, text)));
      } else {
        AddTextMarkers(init, text);
        AppendMarker(AddTextToLastAssistant(init, text), last);
      }
    }
  }

  /** Words put beside an approval keep everything paired. */
  lemma AddTextKeepsPaired(rows: seq<Row>, text: string)
    requires Paired(rows)
    ensures Paired(AddTextToLastAssistant(rows, text))
    ensures LastUses(AddTextToLastAssistant(rows, text)) == LastUses(rows)
  {
    hide Uses, Answered, RowUses, RowAnswers, AddTextToLastAssistant, Chain, LastMarker;
    AddTextKeepsPairing(rows, text);
    AddTextMarkers(rows, text);
    SameNumbers(rows, AddTextToLastAssistant(rows, text));
    SameCut(rows, AddTextToLastAssistant(rows, text), Through(rows));
  }

  lemma SameNumbers(a: seq<Row>, b: seq<Row>)
    requires |a| == |b| && forall i :: 0 <= i < |a| ==> SameButWords(a[i], b[i])
    requires Sequenced(a) && AllDurable(a)
    ensures Sequenced(b) && AllDurable(b)
  {
    hide RowUses, RowAnswers;
    forall i | 0 <= i < |b| ensures b[i].sequence == i + 1 && b[i].IsDurable() {
      assert SameButWords(a[i], b[i]);
    }
  }

  lemma SameCut(a: seq<Row>, b: seq<Row>, t: nat)
    requires |a| == |b| && (forall i :: 0 <= i < |a| ==> SameButWords(a[i], b[i]))
    requires t <= |a|
    ensures LastUses(b[..t]) == LastUses(a[..t])
  {
    hide RowUses, RowAnswers;
    if t > 0 {
      assert SameButWords(a[t - 1], b[t - 1]);
    }
  }

  /** A durable message stored last is sent last. */
  lemma ViewSnoc(rows: seq<Row>, row: Row)
    requires row.Message? && !row.partial && row.sequence > Through(rows)
    ensures HistoryRows(rows + [row]) == HistoryRows(rows) + [row]
  {
    AppendDurable(rows, row);
    AppendMarker(Durable(rows), row);
    AppendAfter(Durable(rows), row, Through(rows));
    DurableMarkers(rows);
  }

  /** The marker a due compaction writes, and the list kept beside it. */
  lemma CompactionWrites(rows: seq<Row>, g: Gauge)
    requires Sequenced(rows) && AllDurable(rows) && Due(HistoryRows(rows), g)
    ensures var view := HistoryRows(rows);
            var k := CutPoint(view);
            0 < k &&
            var all := rows + [MarkerFor(rows, view[..k])];
            && HistoryRows(all) == [MarkerFor(rows, view[..k])] + view[k..]
            && Sequenced(all) && AllDurable(all) && Through(all) <= |all|
  {
    hide HistoryRows, Due, NextSequence, MediaCounts;
    CompactionRefinesReread(rows, g);
    NextSequenceIsLength(rows);
    var head, ms, j := CompactionCut(rows, g);
    MarkerReach(rows, head, ms, j);
    RereadAfterMarker(rows, MarkerFor(rows, head + ms[..j]));
  }
}
