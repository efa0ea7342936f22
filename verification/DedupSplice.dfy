/** A dedup checker bound to a node: records are projected onto the checker's
    own fields, the checkable ones forwarded, and its verdicts spliced back. */
module DedupSplice {
  import opened Wrappers

  type Fields = map<string, string>

  /** One record of the agent's batch. */
  datatype Record = NotAnObject | Object(fields: Fields)

  datatype Verdict = InvalidShape | MissingFields(sources: seq<string>) | Duplicate(existing: string)

  /** One entry of the field map, in the fieldMaps order: canonical name, source
      name, and whether the checker can do without it. */
  datatype Field = Field(canonical: string, source: string, isOptional: bool)

  datatype Projection = Slim(fields: Fields) | Unusable(verdict: Verdict)

  // ---------------------------------------------------------------- projecting one record

  function Missing(fieldMap: seq<Field>, record: Fields): seq<string> {
    if fieldMap == [] then []
    else
      var rest, last := Missing(fieldMap[..|fieldMap| - 1], record), fieldMap[|fieldMap| - 1];
      if last.source !in record && !last.isOptional then rest + [last.source] else rest
  }

  function Slimmed(fieldMap: seq<Field>, record: Fields): Fields {
    if fieldMap == [] then map[]
    else
      var rest, last := Slimmed(fieldMap[..|fieldMap| - 1], record), fieldMap[|fieldMap| - 1];
      if last.source in record then rest[last.canonical := record[last.source]] else rest
  }

  function Project(fieldMap: seq<Field>, record: Record): Projection {
    if record.NotAnObject? then Unusable(InvalidShape)
    else if Missing(fieldMap, record.fields) != [] then Unusable(MissingFields(Missing(fieldMap, record.fields)))
    else Slim(Slimmed(fieldMap, record.fields))
  }

  /** A record is usable if and only if it is an object with every field the
      checker requires; otherwise its verdict names exactly the missing ones. */
  lemma {:induction false} MissingNamesTheGaps(fieldMap: seq<Field>, record: Fields, source: string)
    ensures source in Missing(fieldMap, record) <==>
            exists i :: 0 <= i < |fieldMap| && fieldMap[i].source == source && !fieldMap[i].isOptional && source !in record
  {
    if fieldMap != [] {
      var init, n := fieldMap[..|fieldMap| - 1], |fieldMap| - 1;
      MissingNamesTheGaps(init, record, source);
      assert forall i :: 0 <= i < n ==> init[i] == fieldMap[i];
    }
  }

  predicate DistinctNames(fieldMap: seq<Field>) {
    forall i, j :: 0 <= i < j < |fieldMap| ==> fieldMap[i].canonical != fieldMap[j].canonical
  }

  /** The projection holds, under each canonical name, the source's value, and
      nothing else. */
  lemma {:induction false} SlimmedReadsThrough(fieldMap: seq<Field>, record: Fields, name: string)
    requires DistinctNames(fieldMap)
    ensures name in Slimmed(fieldMap, record) <==>
            exists i :: 0 <= i < |fieldMap| && fieldMap[i].canonical == name && fieldMap[i].source in record
    ensures forall i :: 0 <= i < |fieldMap| && fieldMap[i].canonical == name && fieldMap[i].source in record ==>
              name in Slimmed(fieldMap, record) && Slimmed(fieldMap, record)[name] == record[fieldMap[i].source]
  {
    if fieldMap != [] {
      var init, n := fieldMap[..|fieldMap| - 1], |fieldMap| - 1;
      SlimmedReadsThrough(init, record, name);
      assert forall i :: 0 <= i < n ==> init[i] == fieldMap[i];
    }
  }

  method ProjectRecord(fieldMap: seq<Field>, record: Record) returns (p: Projection)
    ensures p == Project(fieldMap, record)
  {
    if record.NotAnObject? {
      return Unusable(InvalidShape);
    }
    var slim, missing := map[], [];
    for i := 0 to |fieldMap|
      invariant slim == Slimmed(fieldMap[..i], record.fields) && missing == Missing(fieldMap[..i], record.fields)
    {
      assert fieldMap[..i + 1][..i] == fieldMap[..i];
      var field := fieldMap[i];
      if field.source !in record.fields {
        if field.isOptional {
          continue;
        }
        missing := missing + [field.source];
        continue;
      }
      slim := slim[field.canonical := record.fields[field.source]];
    }
    assert fieldMap[..|fieldMap|] == fieldMap;
    if missing != [] {
      return Unusable(MissingFields(missing));
    }
    p := Slim(slim);
  }

  // ---------------------------------------------------------------- forwarding and splicing

  function Forwarded(projected: seq<Projection>): seq<Fields> {
    if projected == [] then []
    else
      var rest, last := Forwarded(projected[..|projected| - 1]), projected[|projected| - 1];
      if last.Slim? then rest + [last.fields] else rest
  }

  function Projections(fieldMap: seq<Field>, records: seq<Record>): (r: seq<Projection>)
    ensures |r| == |records|
  {
    seq(|records|, i requires 0 <= i < |records| => Project(fieldMap, records[i]))
  }

  lemma {:induction false} ForwardedLength(projected: seq<Projection>, i: nat)
    requires i < |projected|
    ensures |Forwarded(projected[..i])| <= |Forwarded(projected)|
    ensures projected[i].Slim? ==>
              |Forwarded(projected[..i])| < |Forwarded(projected)| &&
              Forwarded(projected)[|Forwarded(projected[..i])|] == projected[i].fields
    decreases |projected|
  {
    var n := |projected| - 1;
    if i < n {
      ForwardedLength(projected[..n], i);
      assert projected[..n][..i] == projected[..i];
    }
  }

  datatype Outcome = Verdicts(verdicts: seq<Option<Verdict>>) | WrongLength

  function Splice(projected: seq<Projection>, results: seq<Option<Verdict>>): (out: seq<Option<Verdict>>)
    requires |results| == |Forwarded(projected)|
    ensures |out| == |projected|
  {
    if projected == [] then []
    else
      var init, last := projected[..|projected| - 1], projected[|projected| - 1];
      match last
      case Unusable(v) => Splice(init, results) + [Some(v)]
      case Slim(_) => Splice(init, results[..|results| - 1]) + [results[|results| - 1]]
  }

  /** The bound checker on a batch. Its own checker must judge as many records
      as it was sent; an empty batch never reaches it. */
  function Bound(fieldMap: seq<Field>, handler: seq<Fields> -> seq<Option<Verdict>>, records: seq<Record>): Outcome {
    var projected := Projections(fieldMap, records);
    var forwarded := Forwarded(projected);
    if forwarded == [] then Verdicts(Splice(projected, []))
    else if |handler(forwarded)| != |forwarded| then WrongLength
    else Verdicts(Splice(projected, handler(forwarded)))
  }

  method ForwardUsable(projected: seq<Projection>) returns (forwardRecords: seq<Fields>)
    ensures forwardRecords == Forwarded(projected)
  {
    forwardRecords := [];
    for i := 0 to |projected|
      invariant forwardRecords == Forwarded(projected[..i])
    {
      assert projected[..i + 1][..i] == projected[..i];
      if projected[i].Slim? {
        forwardRecords := forwardRecords + [projected[i].fields];
      }
    }
    assert projected[..|projected|] == projected;
  }

  method SpliceResults(projected: seq<Projection>, forwardResults: seq<Option<Verdict>>) returns (out: seq<Option<Verdict>>)
    requires |forwardResults| == |Forwarded(projected)|
    ensures out == Splice(projected, forwardResults)
  {
    out := [];
    var next := 0;
    for i := 0 to |projected|
      invariant next == |Forwarded(projected[..i])| <= |forwardResults|
      invariant out == Splice(projected[..i], forwardResults[..next])
    {
      ForwardedLength(projected, i);
      assert projected[..i + 1][..i] == projected[..i];
      match projected[i]
      case Unusable(v) => out := out + [Some(v)];
      case Slim(_) =>
        assert forwardResults[..next + 1][..next] == forwardResults[..next];
        out := out + [forwardResults[next]];
        next := next + 1;
    }
    assert projected[..|projected|] == projected && forwardResults[..|forwardResults|] == forwardResults;
  }

  method CheckBatch(fieldMap: seq<Field>, handler: seq<Fields> -> seq<Option<Verdict>>, records: seq<Record>)
    returns (r: Outcome)
    ensures r == Bound(fieldMap, handler, records)
  {
    hide Project, Splice, Forwarded;
    var projected := [];
    for i := 0 to |records|
      invariant projected == Projections(fieldMap, records[..i])
    {
      var p := ProjectRecord(fieldMap, records[i]);
      projected := projected + [p];
    }
    assert records[..|records|] == records;
    var forwardRecords := ForwardUsable(projected);
    var forwardResults := [];
    if forwardRecords != [] {
      forwardResults := handler(forwardRecords);
      if |forwardResults| != |forwardRecords| {
        return WrongLength;
      }
    }
    var out := SpliceResults(projected, forwardResults);
    r := Verdicts(out);
  }

  // ---------------------------------------------------------------- what the splice promises

  /** Position by position: an unusable record keeps its own verdict, a usable
      one gets the verdict on its own projection. */
  lemma {:induction false} SpliceAt(projected: seq<Projection>, results: seq<Option<Verdict>>, i: nat)
    requires |results| == |Forwarded(projected)| && i < |projected|
    ensures projected[i].Unusable? ==> Splice(projected, results)[i] == Some(projected[i].verdict)
    ensures projected[i].Slim? ==>
              var k := |Forwarded(projected[..i])|;
              k < |results| && Forwarded(projected)[k] == projected[i].fields && Splice(projected, results)[i] == results[k]
    decreases |projected|
  {
    var n := |projected| - 1;
    ForwardedLength(projected, i);
    if i < n {
      var rest := if projected[n].Slim? then results[..|results| - 1] else results;
      SpliceAt(projected[..n], rest, i);
      assert projected[..n][..i] == projected[..i];
    }
  }

  /** An object with every field the checker cannot do without. */
  predicate Usable(fieldMap: seq<Field>, record: Record) {
    record.Object? && forall k :: 0 <= k < |fieldMap| && !fieldMap[k].isOptional ==> fieldMap[k].source in record.fields
  }

  lemma UsableIffSlim(fieldMap: seq<Field>, record: Record)
    ensures Usable(fieldMap, record) <==> Project(fieldMap, record).Slim?
    ensures Usable(fieldMap, record) ==> Project(fieldMap, record) == Slim(Slimmed(fieldMap, record.fields))
  {
    if record.Object? {
      NothingMissing(fieldMap, record.fields);
    }
  }

  lemma NothingMissing(fieldMap: seq<Field>, record: Fields)
    ensures Missing(fieldMap, record) == [] <==>
            forall k :: 0 <= k < |fieldMap| && !fieldMap[k].isOptional ==> fieldMap[k].source in record
  {
    hide Missing;
    var missing := Missing(fieldMap, record);
    if missing != [] {
      MissingNamesTheGaps(fieldMap, record, missing[0]);
    }
    if k :| 0 <= k < |fieldMap| && !fieldMap[k].isOptional && fieldMap[k].source !in record {
      MissingNamesTheGaps(fieldMap, record, fieldMap[k].source);
    }
  }

  /** The usable records' projections, in batch order. */
  function UsableOnes(fieldMap: seq<Field>, records: seq<Record>): seq<Fields> {
    if records == [] then []
    else
      var rest, last := UsableOnes(fieldMap, records[..|records| - 1]), records[|records| - 1];
      if Usable(fieldMap, last) then rest + [Slimmed(fieldMap, last.fields)] else rest
  }

  lemma {:induction false} ForwardedAreUsable(fieldMap: seq<Field>, records: seq<Record>)
    ensures Forwarded(Projections(fieldMap, records)) == UsableOnes(fieldMap, records)
  {
    if records != [] {
      hide Project, Usable;
      var n := |records| - 1;
      ForwardedAreUsable(fieldMap, records[..n]);
      assert Projections(fieldMap, records)[..n] == Projections(fieldMap, records[..n]);
      UsableIffSlim(fieldMap, records[n]);
    }
  }

  /** One verdict per record: an entry that is no object is told its shape is
      invalid, an object without a required field which ones are missing, and
      neither reaches the checker; an error exactly when the checker answered a
      non-empty batch with the wrong number of verdicts. */
  lemma OneVerdictPerRecord(fieldMap: seq<Field>, handler: seq<Fields> -> seq<Option<Verdict>>, records: seq<Record>)
    ensures var r, sent := Bound(fieldMap, handler, records), UsableOnes(fieldMap, records);
            && (r.WrongLength? <==> sent != [] && |handler(sent)| != |sent|)
            && (r.Verdicts? ==> |r.verdicts| == |records|)
            && (r.Verdicts? ==> forall i :: 0 <= i < |records| && !Usable(fieldMap, records[i]) ==>
                  r.verdicts[i] == Some(if records[i].NotAnObject? then InvalidShape
                                        else MissingFields(Missing(fieldMap, records[i].fields))))
  {
    hide Usable, Missing, Slimmed;
    var projected := Projections(fieldMap, records);
    var r, sent := Bound(fieldMap, handler, records), Forwarded(projected);
    ForwardedAreUsable(fieldMap, records);
    if r.Verdicts? {
      forall i | 0 <= i < |records| && !Usable(fieldMap, records[i])
        ensures r.verdicts[i] == Some(if records[i].NotAnObject? then InvalidShape
                                      else MissingFields(Missing(fieldMap, records[i].fields)))
      {
        UsableIffSlim(fieldMap, records[i]);
        SpliceAt(projected, if sent == [] then [] else handler(sent), i);
      }
    }
  }

  ghost predicate Pointwise(handler: seq<Fields> -> seq<Option<Verdict>>, judge: Fields -> Option<Verdict>) {
    forall batch: seq<Fields> ::
      |handler(batch)| == |batch| && forall i :: 0 <= i < |batch| ==> handler(batch)[i] == judge(batch[i])
  }

  /** When the checker judges each record by itself, so does the bound one:
      batching, forwarding and splicing are invisible. */
  lemma PointwiseCheckerStaysPointwise(fieldMap: seq<Field>, handler: seq<Fields> -> seq<Option<Verdict>>,
                                       judge: Fields -> Option<Verdict>, records: seq<Record>, i: nat)
    requires Pointwise(handler, judge) && i < |records|
    ensures var r := Bound(fieldMap, handler, records);
            && r.Verdicts? && |r.verdicts| == |records|
            && r.verdicts[i] ==
               if Usable(fieldMap, records[i]) then judge(Slimmed(fieldMap, records[i].fields))
               else if records[i].NotAnObject? then Some(InvalidShape)
               else Some(MissingFields(Missing(fieldMap, records[i].fields)))
  {
    hide Usable, Missing, Slimmed;
    UsableIffSlim(fieldMap, records[i]);
    var projected := Projections(fieldMap, records);
    var sent := Forwarded(projected);
    assert |handler(sent)| == |sent|;
    SpliceAt(projected, if sent == [] then [] else handler(sent), i);
  }
}
