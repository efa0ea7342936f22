/** A streaming turn's chunk cache. The live publisher appends each chunk to
    the cache, then publishes it; a reconnecting client is sent the cache read
    back as frames that must carry the live frames' own identities. */
module InflightCache {

  import opened Wrappers

  /** One cached list element: undecodable JSON, or an object whose `text` is
      None when it is not a string. */
  datatype Raw = Malformed | Entry(kind: string, text: Option<string>)

  datatype Kind = Words | Thoughts

  /** `index` counts within the kind and, with it, makes the frame's id;
      `offset` is the 1-based place in the cache. */
  datatype Chunk = Chunk(kind: Kind, text: string, index: nat, offset: nat)

  function KindOf(raw: Raw): Option<Kind> {
    if raw.Entry? && raw.text.Some? then
      if raw.kind == "text" then Some(Words)
      else if raw.kind == "thinking" then Some(Thoughts)
      else None
    else None
  }

  /** How many elements of the cache are chunks of `kind`. */
  function Count(cache: seq<Raw>, kind: Kind): nat {
    if cache == [] then 0
    else Count(cache[..|cache| - 1], kind) + (if KindOf(cache[|cache| - 1]) == Some(kind) then 1 else 0)
  }

  function Inflight(cache: seq<Raw>): seq<Chunk> {
    if cache == [] then []
    else
      var init, last := cache[..|cache| - 1], cache[|cache| - 1];
      match KindOf(last)
      case None => Inflight(init)
      case Some(kind) => Inflight(init) + [Chunk(kind, last.text.value, Count(init, kind), |cache|)]
  }

  /** A well-formed element of the given kind. */
  predicate Is(raw: Raw, kind: Kind) {
    raw.Entry? && raw.text.Some? && raw.kind == (match kind case Words => "text" case Thoughts => "thinking")
  }

  /** The chunk stands for the element at its place, counted among those of its
      kind before it. */
  ghost predicate StandsFor(c: Chunk, cache: seq<Raw>) {
    && 0 < c.offset <= |cache| && Is(cache[c.offset - 1], c.kind) && cache[c.offset - 1].text == Some(c.text)
    && c.index == |Places(cache[..c.offset - 1], c.kind)|
  }

  /** The chunks are the well-formed elements, each once and in their order. */
  ghost predicate ReadsOff(chunks: seq<Chunk>, cache: seq<Raw>) {
    && (forall k :: 0 <= k < |chunks| ==> StandsFor(chunks[k], cache))
    && (forall j, k :: 0 <= j < k < |chunks| ==> chunks[j].offset < chunks[k].offset)
    && (forall i, kind :: 0 <= i < |cache| && Is(cache[i], kind) ==> exists k :: 0 <= k < |chunks| && chunks[k].offset == i + 1)
  }

  function Places(cache: seq<Raw>, kind: Kind): set<nat> {
    set j | 0 <= j < |cache| && Is(cache[j], kind)
  }

  lemma PlacesSnoc(init: seq<Raw>, last: Raw, kind: Kind)
    ensures Places(init + [last], kind) == Places(init, kind) + (if Is(last, kind) then {|init|} else {})
    ensures |init| !in Places(init, kind)
  {
  }

  lemma {:induction false} CountIsCardinality(cache: seq<Raw>, kind: Kind)
    ensures Count(cache, kind) == |Places(cache, kind)|
  {
    if cache != [] {
      hide Places;
      var n := |cache| - 1;
      CountIsCardinality(cache[..n], kind);
      PlacesSnoc(cache[..n], cache[n], kind);
      assert cache == cache[..n] + [cache[n]];
    } else {
      assert Places(cache, kind) == {};
    }
  }

  lemma {:induction false} InflightReadsOff(cache: seq<Raw>)
    ensures ReadsOff(Inflight(cache), cache)
  {
    if cache != [] {
      hide ReadsOff;
      var n := |cache| - 1;
      InflightReadsOff(cache[..n]);
      assert cache == cache[..n] + [cache[n]];
      if KindOf(cache[n]).None? {
        ReadsPast(Inflight(cache[..n]), cache[..n], cache[n]);
      } else {
        NewStands(cache);
        ReadsOne(Inflight(cache[..n]), cache[..n], cache[n], Inflight(cache)[|Inflight(cache[..n])|]);
      }
    }
  }

  lemma ReadsPast(chunks: seq<Chunk>, init: seq<Raw>, last: Raw)
    requires ReadsOff(chunks, init) && KindOf(last).None?
    ensures ReadsOff(chunks, init + [last])
  {
    hide StandsFor;
    var cache := init + [last];
    forall k | 0 <= k < |chunks| ensures StandsFor(chunks[k], cache) {
      StillStands(chunks[k], init, cache);
    }
    forall i, kind | 0 <= i < |cache| && Is(cache[i], kind) ensures i < |init| && Is(init[i], kind) {
    }
  }

  lemma ReadsOne(chunks: seq<Chunk>, init: seq<Raw>, last: Raw, c: Chunk)
    requires ReadsOff(chunks, init) && StandsFor(c, init + [last]) && c.offset == |init| + 1
    ensures ReadsOff(chunks + [c], init + [last])
  {
    hide StandsFor;
    var cache, all := init + [last], chunks + [c];
    forall k | 0 <= k < |chunks| ensures StandsFor(chunks[k], cache) && chunks[k].offset <= |init| {
      StillStands(chunks[k], init, cache);
    }
    forall i, kind | 0 <= i < |cache| && Is(cache[i], kind) ensures exists k :: 0 <= k < |all| && all[k].offset == i + 1 {
      if i < |init| {
        assert Is(init[i], kind);
        var k :| 0 <= k < |chunks| && chunks[k].offset == i + 1;
        assert all[k] == chunks[k];
      } else {
        assert all[|chunks|].offset == i + 1;
      }
    }
  }

  lemma StillStands(c: Chunk, init: seq<Raw>, cache: seq<Raw>)
    requires StandsFor(c, init) && init <= cache
    ensures StandsFor(c, cache) && c.offset <= |init|
  {
    assert cache[..c.offset - 1] == init[..c.offset - 1];
  }

  lemma NewStands(cache: seq<Raw>)
    requires cache != [] && KindOf(cache[|cache| - 1]).Some?
    ensures var last := cache[|cache| - 1];
            StandsFor(Chunk(KindOf(last).value, last.text.value, Count(cache[..|cache| - 1], KindOf(last).value), |cache|), cache)
  {
    var n, kind := |cache| - 1, KindOf(cache[|cache| - 1]).value;
    CountIsCardinality(cache[..n], kind);
  }

  method ReadInflightChunks(raw: seq<Raw>) returns (chunks: seq<Chunk>)
    ensures chunks == Inflight(raw)
    ensures ReadsOff(chunks, raw)
  {
    InflightReadsOff(raw);
    hide ReadsOff;
    chunks := [];
    var textCount, thinkingCount := 0, 0;
    for index := 0 to |raw|
      invariant chunks == Inflight(raw[..index])
      invariant textCount == Count(raw[..index], Words) && thinkingCount == Count(raw[..index], Thoughts)
    {
      assert raw[..index + 1][..index] == raw[..index];
      var entry := raw[index];
      if entry.Malformed? || entry.text.None? {
        continue;
      }
      var chunkIndex: nat;
      var kind: Kind;
      if entry.kind == "text" {
        chunkIndex, kind := textCount, Words;
        textCount := textCount + 1;
      } else if entry.kind == "thinking" {
        chunkIndex, kind := thinkingCount, Thoughts;
        thinkingCount := thinkingCount + 1;
      } else {
        continue;
      }
      chunks := chunks + [Chunk(kind, entry.text.value, chunkIndex, index + 1)];
    }
    assert raw[..|raw|] == raw;
  }

  /** A later read of the cache gives the same chunks first, ids included. */
  lemma {:induction false} ReadsAreStable(cache: seq<Raw>, more: seq<Raw>)
    ensures Inflight(cache) <= Inflight(cache + more)
    decreases |more|
  {
    if more == [] {
      assert cache + more == cache;
    } else {
      var init := more[..|more| - 1];
      ReadsAreStable(cache, init);
      assert (cache + more)[..|cache + more| - 1] == cache + init;
    }
  }

  lemma {:induction false} IndexBelowCount(cache: seq<Raw>, k: nat)
    requires k < |Inflight(cache)|
    ensures Inflight(cache)[k].index < Count(cache, Inflight(cache)[k].kind)
  {
    var init := cache[..|cache| - 1];
    if k < |Inflight(init)| { IndexBelowCount(init, k); }
  }

  /** Two chunks of a turn never share an id, so removing duplicates by id
      never drops a chunk. */
  lemma {:induction false} IdsAreDistinct(cache: seq<Raw>, j: nat, k: nat)
    requires j < k < |Inflight(cache)|
    ensures Inflight(cache)[j].kind != Inflight(cache)[k].kind || Inflight(cache)[j].index != Inflight(cache)[k].index
  {
    var init := cache[..|cache| - 1];
    if k < |Inflight(init)| {
      IdsAreDistinct(init, j, k);
    } else {
      IndexBelowCount(init, j);
    }
  }

  // ---------------------------------------------------------------- the live publisher

  /** What a streaming turn does: a chunk, or a live frame about built-in tool
      activity, which takes a sequence number and is never cached. */
  datatype Action = Say(kind: Kind, text: string) | Builtin

  datatype Frame = Frame(kind: Kind, text: string, index: nat, sequence: nat)

  /** `incr` is the per-stream counter both kinds of frame draw from. */
  datatype Turn = Turn(base: nat, cache: seq<Raw>, words: nat, thoughts: nat, incr: nat, deltas: seq<Frame>)

  function Encode(kind: Kind, text: string): Raw {
    Entry(if kind.Words? then "text" else "thinking", Some(text))
  }

  function Publish(t: Turn, a: Action): Turn {
    match a
    case Builtin => t.(incr := t.incr + 1)
    case Say(kind, text) =>
      var index := if kind.Words? then t.words else t.thoughts;
      t.(cache := t.cache + [Encode(kind, text)], incr := t.incr + 1,
         words := if kind.Words? then t.words + 1 else t.words,
         thoughts := if kind.Words? then t.thoughts else t.thoughts + 1,
         deltas := t.deltas + [Frame(kind, text, index, t.base + t.incr + 1)])
  }

  function Stream(base: nat, actions: seq<Action>): Turn {
    if actions == [] then Turn(base, [], 0, 0, 0, [])
    else Publish(Stream(base, actions[..|actions| - 1]), actions[|actions| - 1])
  }

  /** Built-in activity before the k-th chunk. */
  function BuiltinsBefore(actions: seq<Action>, k: nat): nat {
    if actions == [] then 0
    else
      var init, last := actions[..|actions| - 1], actions[|actions| - 1];
      BuiltinsBefore(init, k) + (if last.Builtin? && Says(init) <= k then 1 else 0)
  }

  function Says(actions: seq<Action>): nat {
    if actions == [] then 0
    else Says(actions[..|actions| - 1]) + (if actions[|actions| - 1].Say? then 1 else 0)
  }

  /** The frame a snapshot makes of a cached chunk. */
  function Synthetic(base: nat, c: Chunk): Frame {
    Frame(c.kind, c.text, c.index, base + c.offset)
  }

  ghost predicate Mirrors(t: Turn, actions: seq<Action>) {
    var chunks := Inflight(t.cache);
    && |chunks| == |t.deltas| == |t.cache| == Says(actions)
    && t.incr == |actions|
    && t.words == Count(t.cache, Words) && t.thoughts == Count(t.cache, Thoughts)
    && forall k :: 0 <= k < |chunks| ==>
         var s := Synthetic(t.base, chunks[k]);
         t.deltas[k] == s.(sequence := s.sequence + BuiltinsBefore(actions, k))
  }

  lemma {:induction false} BuiltinsTotal(actions: seq<Action>)
    ensures Says(actions) + BuiltinsBefore(actions, Says(actions)) == |actions|
    ensures forall k: nat :: k >= Says(actions) ==> BuiltinsBefore(actions, k) == BuiltinsBefore(actions, Says(actions))
  {
    if actions != [] {
      var init := actions[..|actions| - 1];
      BuiltinsTotal(init);
    }
  }

  lemma CacheSnoc(cache: seq<Raw>, kind: Kind, text: string)
    ensures Inflight(cache + [Encode(kind, text)]) == Inflight(cache) + [Chunk(kind, text, Count(cache, kind), |cache| + 1)]
    ensures forall k :: Count(cache + [Encode(kind, text)], k) == Count(cache, k) + (if k == kind then 1 else 0)
  {
    assert (cache + [Encode(kind, text)])[..|cache|] == cache;
    assert KindOf(Encode(kind, text)) == Some(kind);
  }

  lemma BuiltinsSnoc(init: seq<Action>, last: Action, k: nat)
    ensures BuiltinsBefore(init + [last], k) == BuiltinsBefore(init, k) + (if last.Builtin? && Says(init) <= k then 1 else 0)
    ensures Says(init + [last]) == Says(init) + (if last.Say? then 1 else 0)
  {
    assert (init + [last])[..|init|] == init;
  }

  lemma BuiltinMirrors(t: Turn, init: seq<Action>)
    requires Mirrors(t, init)
    ensures Mirrors(Publish(t, Builtin), init + [Builtin])
  {
    hide Inflight, Count, BuiltinsBefore, Says;
    BuiltinsSnoc(init, Builtin, 0);
    forall k | 0 <= k < |Inflight(t.cache)| ensures BuiltinsBefore(init + [Builtin], k) == BuiltinsBefore(init, k) {
      BuiltinsSnoc(init, Builtin, k);
    }
  }

  lemma SayMirrors(t: Turn, init: seq<Action>, kind: Kind, text: string)
    requires Mirrors(t, init)
    ensures Mirrors(Publish(t, Say(kind, text)), init + [Say(kind, text)])
  {
    hide Inflight, Count, BuiltinsBefore, Says, Encode;
    CacheSnoc(t.cache, kind, text);
    BuiltinsTotal(init);
    forall k: nat ensures BuiltinsBefore(init + [Say(kind, text)], k) == BuiltinsBefore(init, k) {
      BuiltinsSnoc(init, Say(kind, text), k);
    }
    BuiltinsSnoc(init, Say(kind, text), 0);
  }

  lemma {:induction false} SnapshotMirrorsLive(base: nat, actions: seq<Action>)
    ensures Stream(base, actions).base == base
    ensures Mirrors(Stream(base, actions), actions)
  {
    if actions != [] {
      hide Mirrors;
      var init, last := actions[..|actions| - 1], actions[|actions| - 1];
      SnapshotMirrorsLive(base, init);
      assert actions == init + [last];
      match last
      case Builtin => BuiltinMirrors(Stream(base, init), init);
      case Say(kind, text) => SayMirrors(Stream(base, init), init, kind, text);
    }
  }

  /** Read mid-turn, the snapshot is the live deltas one for one: same kind,
      text and id. Its sequence is the live one exactly while no built-in
      activity came before that chunk, and lags by that many otherwise. */
  lemma SnapshotEqualsLive(base: nat, actions: seq<Action>, k: nat)
    requires k < Says(actions)
    ensures var t := Stream(base, actions);
            var chunks := Inflight(t.cache);
            |chunks| == |t.deltas| == Says(actions) &&
            var snapshot := Synthetic(base, chunks[k]);
            && snapshot.(sequence := t.deltas[k].sequence) == t.deltas[k]
            && (snapshot.sequence == t.deltas[k].sequence <==> BuiltinsBefore(actions, k) == 0)
            && t.deltas[k].sequence == snapshot.sequence + BuiltinsBefore(actions, k)
  {
    SnapshotMirrorsLive(base, actions);
  }

  /** After one built-in frame the first chunk's snapshot frame already carries
      a smaller sequence than the live one. */
  lemma BuiltinShiftsTheSnapshot(base: nat)
    ensures var t := Stream(base, [Builtin, Say(Words, "a")]);
            && Inflight(t.cache) == [Chunk(Words, "a", 0, 1)] && t.deltas == [Frame(Words, "a", 0, base + 2)]
            && Synthetic(base, Inflight(t.cache)[0]) == Frame(Words, "a", 0, base + 1)
  {
    var say := Say(Words, "a");
    assert [Builtin, say][..1] == [Builtin] && [Builtin][..0] == [];
    assert Stream(base, [Builtin]) == Publish(Stream(base, []), Builtin);
    assert Stream(base, [Builtin, say]) == Publish(Stream(base, [Builtin]), say);
    CacheSnoc([], Words, "a");
    assert [] + [Encode(Words, "a")] == [Encode(Words, "a")];
  }
}
