/** Paths such as `work[*].title`: the tokenizer, which halts only on some
    inputs, and the walk that projects over lists. */
module Paths {

  const EACH := "[*]"

  /** A value a path is walked over. `Other` stands for anything that is no
      dict, list or None; its attributes are given by the host language. */
  datatype Json =
    | Null
    | Str(text: string)
    | List(items: seq<Json>)
    | Dict(entries: map<string, Json>)
    | Other(id: nat)

  // ---------------------------------------------------------------- walking

  function Get(attr: (Json, string) -> Json, v: Json, name: string): Json {
    match v
    case Null => Null
    case List(_) => Null
    case Dict(entries) => if name in entries then entries[name] else Null
    case _ => attr(v, name)
  }

  function Each(items: seq<Json>, f: Json -> Json): (r: seq<Json>)
    ensures |r| == |items|
    ensures forall i :: 0 <= i < |items| ==> r[i] == f(items[i])
  {
    seq(|items|, i requires 0 <= i < |items| => f(items[i]))
  }

  /** The value of a segment list, one segment at a time. */
  function Walk(attr: (Json, string) -> Json, v: Json, segments: seq<string>): Json
    decreases |segments|
  {
    if segments == [] then v
    else if segments[0] != EACH then Walk(attr, Get(attr, v, segments[0]), segments[1..])
    else if v.List? then List(Each(v.items, item => Walk(attr, item, segments[1..])))
    else Null
  }

  lemma {:induction false} WalkNull(attr: (Json, string) -> Json, segments: seq<string>)
    ensures Walk(attr, Null, segments) == Null
  {
    if segments != [] && segments[0] != EACH { WalkNull(attr, segments[1..]); }
  }

  /** The loop over segments with its recursive projection. */
  method WalkPath(attr: (Json, string) -> Json, value: Json, segments: seq<string>) returns (r: Json)
    ensures r == Walk(attr, value, segments)
    decreases |segments|
  {
    var cursor := value;
    for index := 0 to |segments|
      invariant Walk(attr, cursor, segments[index..]) == Walk(attr, value, segments)
    {
      var seg, rest := segments[index], segments[index + 1..];
      assert segments[index..][1..] == rest;
      if cursor.Null? {
        WalkNull(attr, segments[index..]);
        return Null;
      }
      if seg == EACH {
        if !cursor.List? {
          return Null;
        }
        if rest == [] {
          assert Each(cursor.items, item => Walk(attr, item, rest)) == cursor.items;
          return cursor;
        }
        var projected := [];
        for i := 0 to |cursor.items|
          invariant |projected| == i
          invariant forall k :: 0 <= k < i ==> projected[k] == Walk(attr, cursor.items[k], rest)
        {
          var item := WalkPath(attr, cursor.items[i], rest);
          projected := projected + [item];
        }
        assert projected == Each(cursor.items, item => Walk(attr, item, rest));
        return List(projected);
      }
      cursor := Get(attr, cursor, seg);
    }
    r := cursor;
  }

  /** One more segment in front: a name reads an entry of a dict, an attribute of
      a plain value, and nothing of a list or of None; `[*]` walks the rest from
      every item of a list, in order, and reads nothing of anything else. */
  lemma WalkReads(attr: (Json, string) -> Json, v: Json, seg: string, q: seq<string>)
    ensures var r := Walk(attr, v, [seg] + q);
            && (seg != "[*]" && v.Dict? ==> r == if seg in v.entries then Walk(attr, v.entries[seg], q) else Null)
            && (seg != "[*]" && (v.Null? || v.List?) ==> r == Null)
            && (seg != "[*]" && (v.Str? || v.Other?) ==> r == Walk(attr, attr(v, seg), q))
            && (seg == "[*]" && v.List? ==>
                  && r.List? && |r.items| == |v.items|
                  && forall i :: 0 <= i < |v.items| ==> r.items[i] == Walk(attr, v.items[i], q))
            && (seg == "[*]" && !v.List? ==> r == Null)
    ensures Walk(attr, v, []) == v
  {
    assert ([seg] + q)[1..] == q;
    WalkNull(attr, q);
  }

  /** How many lists deep a path projects. */
  function Depth(segments: seq<string>): nat {
    if segments == [] then 0 else (if segments[0] == EACH then 1 else 0) + Depth(segments[1..])
  }

  /** `q` walked `depth` lists down; None wherever a list is missing. */
  function Lift(attr: (Json, string) -> Json, depth: nat, v: Json, q: seq<string>): Json
    decreases depth
  {
    if depth == 0 then Walk(attr, v, q)
    else if v.List? then List(Each(v.items, item => Lift(attr, depth - 1, item, q)))
    else Null
  }

  /** Walking `p` then `q` is walking `p` and then `q` at the depth of `p`. */
  lemma {:induction false} WalkComposes(attr: (Json, string) -> Json, v: Json, p: seq<string>, q: seq<string>)
    ensures Walk(attr, v, p + q) == Lift(attr, Depth(p), Walk(attr, v, p), q)
    decreases |p|
  {
    if p == [] {
      assert p + q == q;
    } else {
      assert (p + q)[1..] == p[1..] + q;
      if p[0] != EACH {
        WalkComposes(attr, Get(attr, v, p[0]), p[1..], q);
      } else if v.List? {
        forall i | 0 <= i < |v.items|
          ensures Walk(attr, v.items[i], p[1..] + q) == Lift(attr, Depth(p) - 1, Walk(attr, v.items[i], p[1..]), q)
        {
          WalkComposes(attr, v.items[i], p[1..], q);
        }
        var inner := Each(v.items, item => Walk(attr, item, p[1..]));
        assert Each(v.items, item => Walk(attr, item, p[1..] + q)) == Each(inner, item => Lift(attr, Depth(p) - 1, item, q));
      }
    }
  }

  /** Down to `depth`, `b` has the lists of `a`, item for item. */
  ghost predicate SameShape(depth: nat, a: Json, b: Json)
    decreases depth
  {
    depth > 0 ==>
      if a.List? then b.List? && |a.items| == |b.items|
                      && forall i :: 0 <= i < |a.items| ==> SameShape(depth - 1, a.items[i], b.items[i])
      else b == Null
  }

  lemma {:induction false} LiftKeepsShape(attr: (Json, string) -> Json, depth: nat, v: Json, q: seq<string>)
    ensures SameShape(depth, v, Lift(attr, depth, v, q))
    decreases depth
  {
    if depth > 0 && v.List? {
      forall i | 0 <= i < |v.items| ensures SameShape(depth - 1, v.items[i], Lift(attr, depth - 1, v.items[i], q)) {
        LiftKeepsShape(attr, depth - 1, v.items[i], q);
      }
    }
  }

  /** Projection keeps the length of every list the path has opened. */
  lemma WalkKeepsLengths(attr: (Json, string) -> Json, v: Json, p: seq<string>, q: seq<string>)
    ensures SameShape(Depth(p), Walk(attr, v, p), Walk(attr, v, p + q))
  {
    WalkComposes(attr, v, p, q);
    LiftKeepsShape(attr, Depth(p), Walk(attr, v, p), q);
  }

  // ---------------------------------------------------------------- tokenizing

  predicate StartsEach(s: string) {
    |s| >= 3 && s[..3] == EACH
  }

  /** Where the first '[' stands; |s| when there is none. */
  function Bracket(s: string): (k: nat)
    ensures k <= |s| && (k < |s| ==> s[k] == '[')
    ensures forall i :: 0 <= i < k ==> s[i] != '['
  {
    if s == "" || s[0] == '[' then 0 else 1 + Bracket(s[1..])
  }

  /** Every '[' opens "[*]". */
  predicate Bracketed(s: string) {
    forall i :: 0 <= i < |s| && s[i] == '[' ==> StartsEach(s[i..])
  }

  lemma BracketedDrop(s: string, k: nat)
    requires Bracketed(s) && k <= |s|
    ensures Bracketed(s[k..])
  {
    forall i | 0 <= i < |s| - k && s[k..][i] == '[' ensures StartsEach(s[k..][i..]) {
      assert s[k..][i..] == s[k + i..];
    }
  }

  /** What one turn of the tokenizer's inner loop leaves of the cursor. */
  function Turn(cursor: string): string {
    if cursor == "" then ""
    else if StartsEach(cursor) then cursor[3..]
    else cursor[Bracket(cursor)..]
  }

  function Spin(cursor: string, turns: nat): string {
    if turns == 0 then cursor else Spin(Turn(cursor), turns - 1)
  }

  lemma {:induction false} EmptySpins(turns: nat)
    ensures Spin("", turns) == ""
  {
    if turns > 0 { EmptySpins(turns - 1); }
  }

  lemma TurnShrinks(chunk: string)
    requires chunk != "" && Bracketed(chunk)
    ensures |Turn(chunk)| < |chunk| && Bracketed(Turn(chunk))
  {
    assert chunk[0..] == chunk;
    var k := if StartsEach(chunk) then 3 else Bracket(chunk);
    hide StartsEach;
    BracketedDrop(chunk, k);
  }

  lemma {:induction false} BracketedHalts(chunk: string) returns (turns: nat)
    requires Bracketed(chunk)
    ensures Spin(chunk, turns) == ""
    decreases |chunk|
  {
    hide Bracketed, Turn;
    turns := 0;
    if chunk != "" {
      TurnShrinks(chunk);
      turns := BracketedHalts(Turn(chunk));
      turns := turns + 1;
    }
  }

  lemma TurnKeepsStray(chunk: string)
    requires !Bracketed(chunk)
    ensures chunk != "" && !Bracketed(Turn(chunk))
  {
    var i :| 0 <= i < |chunk| && chunk[i] == '[' && !StartsEach(chunk[i..]);
    assert chunk[0..] == chunk;
    var k := if StartsEach(chunk) then 3 else Bracket(chunk);
    if StartsEach(chunk) { EachAt(chunk); }
    assert k <= i;
    assert chunk[k..][i - k] == '[' && chunk[k..][i - k..] == chunk[i..];
  }

  lemma EachAt(chunk: string)
    requires StartsEach(chunk)
    ensures chunk[1] != '[' && chunk[2] != '['
  {
    assert chunk[1] == chunk[..3][1] && chunk[2] == chunk[..3][2];
  }

  lemma {:induction false} StrayBracketSpins(chunk: string, turns: nat)
    requires !Bracketed(chunk)
    ensures Spin(chunk, turns) != ""
    decreases turns
  {
    hide Bracketed, Turn;
    TurnKeepsStray(chunk);
    if turns > 0 { StrayBracketSpins(Turn(chunk), turns - 1); }
  }

  /** The inner loop ends on a chunk if and only if every '[' of it opens
      "[*]"; otherwise it turns forever, as on "items[0]". */
  lemma TokenizerHaltsIff(chunk: string)
    ensures (exists turns: nat :: Spin(chunk, turns) == "") <==> Bracketed(chunk)
  {
    if Bracketed(chunk) {
      var turns := BracketedHalts(chunk);
    } else {
      forall turns: nat ensures Spin(chunk, turns) != "" {
        StrayBracketSpins(chunk, turns);
      }
    }
  }

  lemma IndexingNeverHalts(turns: nat)
    ensures Spin("items[0]", turns) != ""
  {
    var chunk := "items[0]";
    assert chunk[5] == '[' && chunk[5..] == "[0]" && chunk[5..][..3] == "[0]" && "[0]"[1] != EACH[1];
    StrayBracketSpins(chunk, turns);
  }

  function ChunkTokens(cursor: string): seq<string>
    requires Bracketed(cursor)
    decreases |cursor|
  {
    if cursor == "" then []
    else
      assert cursor[0..] == cursor;
      if StartsEach(cursor) then
        BracketedDrop(cursor, 3);
        [EACH] + ChunkTokens(cursor[3..])
      else
        var k := Bracket(cursor);
        BracketedDrop(cursor, k);
        [cursor[..k]] + ChunkTokens(cursor[k..])
  }

  function Dot(s: string): (k: nat)
    ensures k <= |s| && (k < |s| ==> s[k] == '.')
    ensures forall i :: 0 <= i < k ==> s[i] != '.'
  {
    if s == "" || s[0] == '.' then 0 else 1 + Dot(s[1..])
  }

  function Split(path: string): (chunks: seq<string>)
    ensures chunks != [] && |chunks[0]| <= |path|
    decreases |path|
  {
    var k := Dot(path);
    if k == |path| then [path] else [path[..k]] + Split(path[k + 1..])
  }

  predicate Halts(path: string) {
    forall i :: 0 <= i < |Split(path)| ==> Bracketed(Split(path)[i])
  }

  function Concat(chunks: seq<string>): seq<string>
    requires forall i :: 0 <= i < |chunks| ==> Bracketed(chunks[i])
  {
    if chunks == [] then [] else ChunkTokens(chunks[0]) + Concat(chunks[1..])
  }

  function Tokens(path: string): seq<string>
    requires Halts(path)
  {
    Concat(Split(path))
  }

  lemma {:induction false} ConcatSnoc(chunks: seq<string>, i: nat)
    requires i < |chunks| && forall k :: 0 <= k < |chunks| ==> Bracketed(chunks[k])
    ensures Concat(chunks[..i + 1]) == Concat(chunks[..i]) + ChunkTokens(chunks[i])
    decreases i
  {
    if i == 0 {
      assert chunks[..1][1..] == [];
    } else {
      ConcatSnoc(chunks[1..], i - 1);
      assert chunks[..i + 1][1..] == chunks[1..][..i] && chunks[..i][1..] == chunks[1..][..i - 1];
    }
  }

  /** The chunk a list of tokens was read from. */
  function Glued(tokens: seq<string>): string {
    if tokens == [] then "" else tokens[0] + Glued(tokens[1..])
  }

  function Joined(groups: seq<seq<string>>): string
    requires groups != []
  {
    if |groups| == 1 then Glued(groups[0]) else Glued(groups[0]) + "." + Joined(groups[1..])
  }

  function Flat(groups: seq<seq<string>>): seq<string> {
    if groups == [] then [] else groups[0] + Flat(groups[1..])
  }

  predicate IsName(token: string) {
    token != "" && forall i :: 0 <= i < |token| ==> token[i] != '[' && token[i] != '.'
  }

  /** Names and `[*]`, no two names in a row. */
  predicate WellCut(tokens: seq<string>) {
    && (forall i :: 0 <= i < |tokens| ==> tokens[i] == "[*]" || IsName(tokens[i]))
    && forall i :: 0 <= i < |tokens| - 1 ==> !(IsName(tokens[i]) && IsName(tokens[i + 1]))
  }

  /** The first token of a chunk and what is behind it. */
  lemma HeadOf(cursor: string) returns (head: string, rest: string)
    requires Bracketed(cursor) && '.' !in cursor && cursor != ""
    ensures head + rest == cursor && head != "" && Bracketed(rest) && '.' !in rest
    ensures ChunkTokens(cursor) == [head] + ChunkTokens(rest)
    ensures if cursor[0] == '[' then head == EACH else IsName(head) && (rest != "" ==> rest[0] == '[')
  {
    assert cursor[0..] == cursor;
    var k := if StartsEach(cursor) then 3 else Bracket(cursor);
    BracketedDrop(cursor, k);
    head, rest := cursor[..k], cursor[k..];
    assert StartsEach(cursor) ==> head == EACH && head[0] == '[';
  }

  lemma {:induction false} ChunkIsGlued(cursor: string)
    requires Bracketed(cursor) && '.' !in cursor
    ensures Glued(ChunkTokens(cursor)) == cursor && WellCut(ChunkTokens(cursor))
    ensures cursor != "" && cursor[0] == '[' ==> ChunkTokens(cursor) != [] && ChunkTokens(cursor)[0] == EACH
    ensures cursor == "" ==> ChunkTokens(cursor) == []
    decreases |cursor|
  {
    if cursor != "" {
      hide ChunkTokens, Bracketed, WellCut, IsName, Glued;
      var head, rest := HeadOf(cursor);
      ChunkIsGlued(rest);
      CutInFront(head, ChunkTokens(rest));
      GlueInFront(head, ChunkTokens(rest));
    }
  }

  lemma GlueInFront(head: string, tokens: seq<string>)
    ensures Glued([head] + tokens) == head + Glued(tokens)
  {
    assert ([head] + tokens)[1..] == tokens;
  }

  lemma CutInFront(head: string, tokens: seq<string>)
    requires WellCut(tokens) && (head == EACH || IsName(head))
    requires head != EACH && tokens != [] ==> tokens[0] == EACH
    ensures WellCut([head] + tokens)
  {
    var all := [head] + tokens;
    assert !IsName(EACH) by { assert EACH[0] == '['; }
    forall i | 0 <= i < |all| - 1 ensures !(IsName(all[i]) && IsName(all[i + 1])) {
      if i > 0 { assert all[i] == tokens[i - 1] && all[i + 1] == tokens[i]; }
    }
  }

  lemma SplitFirst(path: string) returns (first: string, others: seq<string>)
    requires Halts(path)
    ensures Split(path) == [first] + others && Bracketed(first) && '.' !in first
    ensures others == [] ==> path == first
    ensures others != [] ==> |first| < |path| && path == first + "." + path[|first| + 1..] && others == Split(path[|first| + 1..])
    ensures others != [] ==> Halts(path[|first| + 1..])
  {
    hide Bracketed;
    var k := Dot(path);
    first := path[..k];
    others := if k == |path| then [] else Split(path[k + 1..]);
    assert k == |path| ==> first == path;
    assert Split(path) == [first] + others;
    hide Split, Dot;
    ChunksHalt(path, first, others);
    assert forall i :: 0 <= i < |first| ==> first[i] == path[i];
    if k < |path| { CutAtDot(path, k); }
  }

  lemma ChunksHalt(path: string, first: string, others: seq<string>)
    requires Halts(path) && Split(path) == [first] + others
    ensures Bracketed(first) && forall i :: 0 <= i < |others| ==> Bracketed(others[i])
  {
    hide Bracketed, Split;
    assert Split(path)[0] == first;
    assert forall i :: 0 <= i < |others| ==> others[i] == Split(path)[i + 1];
  }

  lemma CutAtDot(path: string, k: nat)
    requires k < |path| && path[k] == '.'
    ensures path == path[..k] + "." + path[k + 1..]
  {
  }

  /** On every path it halts on, tokenizing loses nothing: the tokens fall into
      groups that, glued and joined by dots, are the path again; a token is
      `[*]` or a name, and a name is as long as it can be. */
  lemma {:induction false} TokensAreLossless(path: string) returns (groups: seq<seq<string>>)
    requires Halts(path)
    ensures groups != [] && Flat(groups) == Tokens(path) && Joined(groups) == path
    ensures forall i :: 0 <= i < |groups| ==> WellCut(groups[i])
    decreases |path|
  {
    hide ChunkTokens, WellCut, Bracketed, Flat, Joined, Concat, Split, Glued;
    var first, others := SplitFirst(path);
    ChunkIsGlued(first);
    if others == [] {
      groups := [ChunkTokens(first)];
      LoneGroup(first);
      assert [first] + others == [first];
    } else {
      var rest := TokensAreLossless(path[|first| + 1..]);
      groups := [ChunkTokens(first)] + rest;
      OneMoreGroup(first, others, rest);
    }
  }

  lemma LoneGroup(chunk: string)
    requires Bracketed(chunk)
    ensures Flat([ChunkTokens(chunk)]) == ChunkTokens(chunk) == Concat([chunk])
    ensures Joined([ChunkTokens(chunk)]) == Glued(ChunkTokens(chunk))
  {
    hide ChunkTokens;
    assert [ChunkTokens(chunk)][1..] == [] && [chunk][1..] == [];
    assert Flat([]) == [] && Concat([]) == [];
  }

  lemma OneMoreGroup(first: string, others: seq<string>, rest: seq<seq<string>>)
    requires Bracketed(first) && (forall i :: 0 <= i < |others| ==> Bracketed(others[i])) && rest != []
    ensures var groups := [ChunkTokens(first)] + rest;
            && Flat(groups) == ChunkTokens(first) + Flat(rest)
            && Joined(groups) == Glued(ChunkTokens(first)) + "." + Joined(rest)
    ensures Concat([first] + others) == ChunkTokens(first) + Concat(others)
  {
    hide ChunkTokens, Glued;
    assert ([ChunkTokens(first)] + rest)[1..] == rest && ([first] + others)[1..] == others;
  }

  method TokenizePath(path: string) returns (segments: seq<string>)
    requires Halts(path)
    ensures segments == Tokens(path)
  {
    segments := [];
    var chunks := Split(path);
    for n := 0 to |chunks|
      invariant segments == Concat(chunks[..n])
    {
      ConcatSnoc(chunks, n);
      var cursor := chunks[n];
      while cursor != ""
        invariant Bracketed(cursor)
        invariant segments + ChunkTokens(cursor) == Concat(chunks[..n + 1])
        decreases |cursor|
      {
        assert cursor[0..] == cursor;
        if StartsEach(cursor) {
          segments := segments + [EACH];
          BracketedDrop(cursor, 3);
          cursor := cursor[3..];
          continue;
        }
        var bracket := Bracket(cursor);
        BracketedDrop(cursor, bracket);
        if bracket == |cursor| {
          segments := segments + [cursor];
          assert cursor[..bracket] == cursor && cursor[bracket..] == "";
          cursor := "";
        } else {
          assert bracket > 0;
          segments := segments + [cursor[..bracket]];
          cursor := cursor[bracket..];
        }
      }
    }
    assert chunks[..|chunks|] == chunks;
  }

  // ---------------------------------------------------------------- the documented grammar

  datatype Segment = Name(name: string) | NameEach(name: string) | Star

  predicate Plain(s: string) {
    s != "" && forall i :: 0 <= i < |s| ==> s[i] != '.' && s[i] != '['
  }

  predicate InGrammar(path: seq<Segment>) {
    path != [] && forall i :: 0 <= i < |path| ==> path[i].Star? || Plain(path[i].name)
  }

  function PrintSegment(s: Segment): string {
    match s
    case Name(n) => n
    case NameEach(n) => n + EACH
    case Star => EACH
  }

  function Print(path: seq<Segment>): string
    requires path != []
  {
    if |path| == 1 then PrintSegment(path[0]) else PrintSegment(path[0]) + "." + Print(path[1..])
  }

  function Meant(path: seq<Segment>): seq<string> {
    if path == [] then []
    else (match path[0] case Name(n) => [n] case NameEach(n) => [n, EACH] case Star => [EACH]) + Meant(path[1..])
  }

  lemma {:induction false} DotAt(s: string, k: nat)
    requires k <= |s| && (forall i :: 0 <= i < k ==> s[i] != '.') && (k < |s| ==> s[k] == '.')
    ensures Dot(s) == k
  {
    if k > 0 { DotAt(s[1..], k - 1); }
  }

  lemma EachChunk()
    ensures Bracketed(EACH) && ChunkTokens(EACH) == [EACH]
    ensures Bracketed("") && ChunkTokens("") == []
  {
    assert EACH[0..] == EACH && EACH[..3] == EACH && EACH[3..] == "";
  }

  lemma NameChunk(name: string, tail: string)
    requires Plain(name) && (tail == "" || tail == EACH)
    ensures Bracketed(name + tail) && ChunkTokens(name + tail) == [name] + ChunkTokens(tail)
  {
    hide ChunkTokens;
    EachChunk();
    var t := name + tail;
    forall i | 0 <= i < |t| && t[i] == '[' ensures StartsEach(t[i..]) {
      if i == |name| { assert t[i..] == EACH && EACH[..3] == EACH; }
    }
    assert Bracket(t) == |name| by { BracketAt(t, |name|); }
    assert t[..|name|] == name && t[|name|..] == tail;
    assert t[0] != '[' && !StartsEach(t) by { NotEach(t); }
    OneName(t);
  }

  lemma {:induction false} BracketAt(s: string, k: nat)
    requires k <= |s| && (forall i :: 0 <= i < k ==> s[i] != '[') && (k < |s| ==> s[k] == '[')
    ensures Bracket(s) == k
  {
    if k > 0 { BracketAt(s[1..], k - 1); }
  }

  lemma NotEach(s: string)
    requires s != "" && s[0] != '['
    ensures !StartsEach(s)
  {
    assert |s| >= 3 ==> s[..3][0] == s[0];
  }

  lemma OneName(s: string)
    requires s != "" && Bracketed(s) && !StartsEach(s)
    ensures Bracketed(s[Bracket(s)..]) && ChunkTokens(s) == [s[..Bracket(s)]] + ChunkTokens(s[Bracket(s)..])
  {
    BracketedDrop(s, Bracket(s));
  }

  lemma PrintedChunk(s: Segment)
    requires s.Star? || Plain(s.name)
    ensures Bracketed(PrintSegment(s)) && ChunkTokens(PrintSegment(s)) == Meant([s])
    ensures forall i :: 0 <= i < |PrintSegment(s)| ==> PrintSegment(s)[i] != '.'
  {
    hide ChunkTokens, Bracketed;
    EachChunk();
    assert [s][1..] == [];
    match s
    case Name(n) =>
      NameChunk(n, "");
      assert n + "" == n;
    case NameEach(n) => NameChunk(n, EACH);
    case Star =>
  }

  lemma SplitPrinted(path: seq<Segment>)
    requires InGrammar(path)
    ensures Split(Print(path)) ==
            [PrintSegment(path[0])] + (if |path| == 1 then [] else Split(Print(path[1..])))
  {
    hide PrintSegment;
    var t, whole := PrintSegment(path[0]), Print(path);
    PrintedChunk(path[0]);
    assert forall i :: 0 <= i < |t| ==> whole[i] == t[i];
    DotAt(whole, |t|);
    assert whole[..|t|] == t;
    if |path| > 1 { assert whole[|t| + 1..] == Print(path[1..]); }
  }

  /** Every path of the documented grammar halts, and its tokens are exactly
      its segments: the tokenizer inverts printing. */
  lemma {:induction false} TokenizeInvertsPrint(path: seq<Segment>)
    requires InGrammar(path)
    ensures Halts(Print(path)) && Tokens(Print(path)) == Meant(path)
    decreases |path|
  {
    hide Split, Bracketed, ChunkTokens, PrintSegment, Print;
    PrintedChunk(path[0]);
    SplitPrinted(path);
    var chunks := Split(Print(path));
    MeantCons(path);
    if |path| == 1 {
      assert chunks == [PrintSegment(path[0])] && chunks[1..] == [];
      assert path == [path[0]];
      assert Concat(chunks) == ChunkTokens(chunks[0]) + Concat([]);
    } else {
      TokenizeInvertsPrint(path[1..]);
      var rest := Split(Print(path[1..]));
      assert chunks[1..] == rest;
      assert forall i :: 0 < i < |chunks| ==> chunks[i] == rest[i - 1];
    }
  }

  lemma MeantCons(path: seq<Segment>)
    requires path != []
    ensures Meant(path) == Meant([path[0]]) + Meant(path[1..])
  {
    assert [path[0]][1..] == [];
  }

  function ResolvePath(attr: (Json, string) -> Json, state: Json, path: string): Json
    requires Halts(path)
  {
    if path == "" then state else Walk(attr, state, Tokens(path))
  }
}
