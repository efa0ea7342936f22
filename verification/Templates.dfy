/** `${path}` substitution: the engine's in-place rewriter and its preview twin. */
module Templates {
  import opened Paths

  // ---------------------------------------------------------------- one pass over the original text

  /** Where "${" first stands at or after the start; |s| when nowhere. */
  function Opening(s: string): (k: nat)
    ensures k <= |s| && (k < |s| ==> k + 2 <= |s| && s[k] == '$' && s[k + 1] == '{')
  {
    if |s| < 2 then |s| else if s[0] == '$' && s[1] == '{' then 0 else 1 + Opening(s[1..])
  }

  function Closing(s: string): (k: nat)
    ensures k <= |s| && (k < |s| ==> s[k] == '}')
  {
    if s == "" || s[0] == '}' then 0 else 1 + Closing(s[1..])
  }

  lemma {:induction false} BeforeClosing(s: string, i: nat)
    requires i < Closing(s)
    ensures s[i] != '}'
  {
    if i > 0 { BeforeClosing(s[1..], i - 1); }
  }

  /** Literal text, or the path of a marker. */
  datatype Piece = Literal(text: string) | Marker(path: string)

  /** The text up to its first complete marker, that marker's path, the rest. */
  predicate HasMarker(s: string) {
    Opening(s) < |s| && Closing(s[Opening(s)..]) < |s| - Opening(s)
  }

  function Rest(s: string): string
    requires HasMarker(s)
  {
    s[Opening(s) + Closing(s[Opening(s)..]) + 1..]
  }

  function MarkerPath(s: string): string
    requires HasMarker(s)
  {
    var k := Opening(s);
    assert s[k..][0] == '$' && s[k..][1] == '{';
    s[k + 2..k + Closing(s[k..])]
  }

  /** The template read once, left to right. */
  function Parse(s: string): seq<Piece>
    decreases |s|
  {
    if !HasMarker(s) then [Literal(s)]
    else [Literal(s[..Opening(s)]), Marker(MarkerPath(s))] + Parse(Rest(s))
  }

  function Source(p: Piece): string {
    match p case Literal(t) => t case Marker(path) => "${" + path + "}"
  }

  function Unparse(pieces: seq<Piece>): string {
    if pieces == [] then "" else Source(pieces[0]) + Unparse(pieces[1..])
  }

  function Filled(p: Piece, value: string -> string): string {
    match p case Literal(t) => t case Marker(path) => value(path)
  }

  function Fill(pieces: seq<Piece>, value: string -> string): string {
    if pieces == [] then "" else Filled(pieces[0], value) + Fill(pieces[1..], value)
  }

  /** A marker's own two characters lie between its ends. */
  lemma MarkerRoom(s: string)
    requires Opening(s) < |s|
    ensures var k, c := Opening(s), Closing(s[Opening(s)..]);
            && 2 <= c && k + c <= |s| && s[k] == '$' && s[k + 1] == '{'
            && (HasMarker(s) <==> k + c < |s|)
            && (k + c < |s| ==> s[k + c] == '}')
  {
    hide Opening, Closing;
    var k, rest := Opening(s), s[Opening(s)..];
    StartsWith(s, k);
    ClosingPast(rest);
    var c := Closing(rest);
    assert k + c < |s| ==> s[k + c] == rest[c];
  }

  lemma StartsWith(s: string, k: nat)
    requires k + 2 <= |s|
    ensures s[k..][0] == s[k] && s[k..][1] == s[k + 1]
  {
  }

  lemma ClosingPast(s: string)
    requires |s| >= 2 && s[0] != '}' && s[1] != '}'
    ensures 2 <= Closing(s)
  {
  }

  lemma MarkerParts(s: string)
    requires HasMarker(s)
    ensures s == s[..Opening(s)] + ("${" + MarkerPath(s) + "}") + Rest(s)
  {
    hide Opening, Closing;
    MarkerRoom(s);
    PartsAt(s, Opening(s), Closing(s[Opening(s)..]));
    assert MarkerPath(s) == s[Opening(s) + 2..Opening(s) + Closing(s[Opening(s)..])];
  }

  lemma PartsAt(s: string, k: nat, c: nat)
    requires 2 <= c && k + c < |s| && s[k] == '$' && s[k + 1] == '{' && s[k + c] == '}'
    ensures s == s[..k] + ("${" + s[k + 2..k + c] + "}") + s[k + c + 1..]
  {
    Framed(s[k..k + c + 1]);
    Slice(s, k, k + c + 1, 2, c);
    Thirds(s, k, k + c + 1);
  }

  lemma Framed(m: string)
    requires |m| >= 3 && m[0] == '$' && m[1] == '{' && m[|m| - 1] == '}'
    ensures m == "${" + m[2..|m| - 1] + "}"
  {
  }

  lemma Thirds(s: string, i: nat, j: nat)
    requires i <= j <= |s|
    ensures s == s[..i] + s[i..j] + s[j..]
  {
  }

  lemma Slice(s: string, i: nat, j: nat, a: nat, b: nat)
    requires i <= j <= |s| && a <= b <= j - i
    ensures s[i..j][a..b] == s[i + a..i + b]
  {
    assert forall k :: 0 <= k < b - a ==> s[i..j][a..b][k] == s[i + a + k];
  }

  lemma Tail(s: string, i: nat, a: nat)
    requires i <= |s| && a <= |s| - i
    ensures s[i..][a..] == s[i + a..]
  {
  }

  lemma FillTwo(a: Piece, b: Piece, rest: seq<Piece>, value: string -> string)
    ensures Fill([a, b] + rest, value) == Filled(a, value) + Filled(b, value) + Fill(rest, value)
  {
    hide Filled;
    var all := [a, b] + rest;
    assert all[1..] == [b] + rest && all[1..][1..] == rest;
    assert Fill(all, value) == Filled(a, value) + (Filled(b, value) + Fill(rest, value));
  }

  lemma UnparseTwo(a: Piece, b: Piece, rest: seq<Piece>)
    ensures Unparse([a, b] + rest) == Source(a) + Source(b) + Unparse(rest)
  {
    hide Source;
    var all := [a, b] + rest;
    assert all[1..] == [b] + rest && all[1..][1..] == rest;
    assert Unparse(all) == Source(a) + (Source(b) + Unparse(rest));
  }

  lemma {:induction false} OpeningOfPrefix(s: string)
    ensures Opening(s[..Opening(s)]) == Opening(s)
  {
    var k := Opening(s);
    if 0 < k < |s| {
      OpeningOfPrefix(s[1..]);
      assert s[..k][1..] == s[1..][..k - 1];
    } else if k == |s| {
      assert s[..k] == s;
    }
  }

  /** Nothing of the template is lost by reading it. */
  lemma {:induction false} ParseIsLossless(s: string)
    ensures Unparse(Parse(s)) == s
    decreases |s|
  {
    if HasMarker(s) {
      ParseIsLossless(Rest(s));
      MarkerParts(s);
      UnparseTwo(Literal(s[..Opening(s)]), Marker(MarkerPath(s)), Parse(Rest(s)));
    } else {
      assert [Literal(s)][1..] == [];
    }
  }

  /** No marker's path holds a '}', and no literal holds a complete marker. */
  lemma {:induction false} PiecesAreMaximal(s: string, i: nat)
    requires i < |Parse(s)|
    ensures Parse(s)[i].Marker? ==> '}' !in Parse(s)[i].path
    ensures Parse(s)[i].Literal? ==> !HasMarker(Parse(s)[i].text)
    decreases |s|
  {
    if HasMarker(s) {
      var k := Opening(s);
      if i >= 2 {
        PiecesAreMaximal(Rest(s), i - 2);
      } else if i == 1 {
        forall j | 0 <= j < |MarkerPath(s)| ensures MarkerPath(s)[j] != '}' {
          assert s[k..][0] == '$' && s[k..][1] == '{';
          BeforeClosing(s[k..], j + 2);
          assert MarkerPath(s)[j] == s[k..][j + 2];
        }
      } else {
        OpeningOfPrefix(s);
      }
    }
  }

  // ---------------------------------------------------------------- rewriting in place

  /** The one rewriting step the loop makes on `result` at `cursor`. */
  lemma StepKeepsMeaning(result: string, cursor: nat, value: string -> string)
    requires cursor <= |result| && HasMarker(result[cursor..])
    ensures var rest := result[cursor..];
            Fill(Parse(rest), value) == rest[..Opening(rest)] + value(MarkerPath(rest)) + Fill(Parse(Rest(rest)), value)
  {
    var rest := result[cursor..];
    var a, b := Literal(rest[..Opening(rest)]), Marker(MarkerPath(rest));
    FillTwo(a, b, Parse(Rest(rest)), value);
  }

  /** What the loop's two searches find from `cursor` on. */
  lemma Located(result: string, cursor: nat)
    requires cursor <= |result|
    ensures var rest := result[cursor..];
            var start := cursor + Opening(rest);
            && start <= |result|
            && (start == |result| ==> !HasMarker(rest))
            && (start < |result| ==>
                  var end := start + Closing(result[start..]);
                  && start + 2 <= end <= |result|
                  && (end == |result| <==> !HasMarker(rest))
                  && (end < |result| ==> result[start + 2..end] == MarkerPath(rest) && result[end + 1..] == Rest(rest)))
  {
    hide Opening, Closing, MarkerPath, Rest;
    var rest := result[cursor..];
    Tail(result, cursor, Opening(rest));
    if Opening(rest) < |rest| {
      MarkerRoom(rest);
      hide HasMarker;
      if HasMarker(rest) { SameParts(result, cursor); }
    }
  }

  lemma SameParts(result: string, cursor: nat)
    requires cursor <= |result| && HasMarker(result[cursor..])
    ensures var rest := result[cursor..];
            var start, end := cursor + Opening(rest), cursor + Opening(rest) + Closing(rest[Opening(rest)..]);
            start + 2 <= end < |result| && result[start + 2..end] == MarkerPath(rest) && result[end + 1..] == Rest(rest)
  {
    hide Opening, Closing;
    var rest := result[cursor..];
    MarkerRoom(rest);
    Shifted(result, cursor, Opening(rest) + 2, Opening(rest) + Closing(rest[Opening(rest)..]));
  }

  lemma Shifted(s: string, i: nat, a: nat, b: nat)
    requires i <= |s| && a <= b < |s| - i
    ensures s[i..][a..b] == s[i + a..i + b] && s[i..][b + 1..] == s[i + b + 1..]
  {
    assert s[i..|s|] == s[i..];
    Slice(s, i, |s|, a, b);
  }

  /** One turn of the loop: the marker found is replaced, the cursor passes
      what was put in, and the meaning of the whole is unchanged. */
  lemma TurnKeepsMeaning(result: string, cursor: nat, start: nat, end: nat, next: string, value: string -> string)
    requires cursor <= start < |result| && start == cursor + Opening(result[cursor..])
    requires end < |result| && end == start + Closing(result[start..]) && start + 2 <= end
    requires next == result[..start] + value(result[start + 2..end]) + result[end + 1..]
    ensures var past := start + |value(result[start + 2..end])|;
            && past <= |next|
            && next[..past] + Fill(Parse(next[past..]), value) == result[..cursor] + Fill(Parse(result[cursor..]), value)
            && |next| - past < |result| - cursor
  {
    hide Parse, Fill, Opening, Closing, HasMarker, Rest, MarkerPath;
    Located(result, cursor);
    StepKeepsMeaning(result, cursor, value);
    var rest, put := result[cursor..], value(result[start + 2..end]);
    var done := result[..start] + put;
    assert next == done + Rest(rest);
    CutAt(done, Rest(rest));
    SplitTake(result, cursor, start);
    assert |Rest(rest)| < |rest|;
    Reassociate(result[..cursor], rest[..start - cursor], put, Fill(Parse(Rest(rest)), value));
  }

  lemma CutAt(a: string, b: string)
    ensures (a + b)[..|a|] == a && (a + b)[|a|..] == b
  {
  }

  lemma SplitTake(s: string, i: nat, j: nat)
    requires i <= j <= |s|
    ensures s[..j] == s[..i] + s[i..][..j - i]
  {
  }

  lemma Reassociate(a: string, b: string, c: string, d: string)
    ensures ((a + b) + c) + d == a + ((b + c) + d)
  {
  }

  /** `result` and `cursor` are rewritten until no marker is left; what was put
      in is never read again, so the outcome is the one-pass filling. */
  method Rewrite(text: string, value: string -> string) returns (result: string)
    ensures result == Fill(Parse(text), value)
  {
    hide Parse, Fill, HasMarker, Opening, Closing;
    result := text;
    var cursor := 0;
    assert result[0..] == text;
    while true
      invariant 0 <= cursor <= |result|
      invariant result[..cursor] + Fill(Parse(result[cursor..]), value) == Fill(Parse(text), value)
      decreases |result| - cursor
    {
      Located(result, cursor);
      var start := cursor + Opening(result[cursor..]);
      if start == |result| {
        NothingLeft(result, cursor, value);
        return;
      }
      var end := start + Closing(result[start..]);
      if end == |result| {
        NothingLeft(result, cursor, value);
        return;
      }
      var replacement := value(result[start + 2..end]);
      var next := result[..start] + replacement + result[end + 1..];
      TurnKeepsMeaning(result, cursor, start, end, next, value);
      result, cursor := next, start + |replacement|;
    }
  }

  lemma NothingLeft(result: string, cursor: nat, value: string -> string)
    requires cursor <= |result| && !HasMarker(result[cursor..])
    ensures result[..cursor] + Fill(Parse(result[cursor..]), value) == result
  {
    NoMarkerFill(result[cursor..], value);
    assert result[..cursor] + result[cursor..] == result;
  }

  lemma NoMarkerFill(s: string, value: string -> string)
    requires !HasMarker(s)
    ensures Fill(Parse(s), value) == s
  {
    assert [Literal(s)][1..] == [];
  }

  // ---------------------------------------------------------------- engine and preview

  /** Every path of the template is one the tokenizer finishes on. */
  predicate AllHalt(pieces: seq<Piece>) {
    forall i :: 0 <= i < |pieces| && pieces[i].Marker? ==> Halts(pieces[i].path)
  }

  /** `str()` of a value; a string is its own. */
  function Stringify(show: Json -> string, v: Json): string {
    match v case Null => "" case Str(t) => t case _ => show(v)
  }

  function EngineText(attr: (Json, string) -> Json, show: Json -> string, state: Json, path: string): string {
    if Halts(path) then Stringify(show, ResolvePath(attr, state, path)) else ""
  }

  const PREFIX := "context."

  predicate IsContextRef(path: string) {
    |path| >= 8 && path[..8] == PREFIX
  }

  /** The source a reference names: what follows the prefix, up to a dot. */
  function SourceName(path: string): string
    requires IsContextRef(path)
  {
    path[8..][..Dot(path[8..])]
  }

  predicate Loaded(loaded: map<string, Json>, path: string) {
    IsContextRef(path) ==> SourceName(path) in loaded
  }

  function PreviewText(attr: (Json, string) -> Json, show: Json -> string, state: Json, loaded: map<string, Json>,
                       path: string): string {
    if !Loaded(loaded, path) then "[unresolved " + SourceName(path) + "]"
    else EngineText(attr, show, state, path)
  }

  method FormatTemplate(attr: (Json, string) -> Json, show: Json -> string, text: string, state: Json) returns (r: string)
    requires AllHalt(Parse(text))
    ensures r == Fill(Parse(text), path => EngineText(attr, show, state, path))
  {
    r := Rewrite(text, path => EngineText(attr, show, state, path));
  }

  /** The preview tokenizes no reference to a source that is not loaded. */
  predicate LoadedHalt(pieces: seq<Piece>, loaded: map<string, Json>) {
    forall i :: 0 <= i < |pieces| && pieces[i].Marker? && Loaded(loaded, pieces[i].path) ==> Halts(pieces[i].path)
  }

  method RenderTemplate(attr: (Json, string) -> Json, show: Json -> string, text: string, state: Json,
                        loaded: map<string, Json>) returns (r: string)
    requires LoadedHalt(Parse(text), loaded)
    ensures r == Fill(Parse(text), path => PreviewText(attr, show, state, loaded, path))
  {
    r := Rewrite(text, path => PreviewText(attr, show, state, loaded, path));
  }

  /** The state a template sees: its `context` is the loaded sources, each a dict. */
  predicate ContextState(state: Json, loaded: map<string, Json>) {
    && state.Dict? && "context" in state.entries && state.entries["context"] == Dict(loaded)
    && forall name :: name in loaded ==> loaded[name].Dict?
  }

  predicate NamesSource(path: string) {
    IsContextRef(path) ==> SourceName(path) != ""
  }

  /** Where the preview warns, the engine writes nothing. */
  lemma UnloadedIsEmpty(attr: (Json, string) -> Json, show: Json -> string, state: Json, loaded: map<string, Json>, path: string)
    requires ContextState(state, loaded) && Halts(path) && NamesSource(path) && !Loaded(loaded, path)
    ensures EngineText(attr, show, state, path) == ""
  {
    hide Walk, ChunkTokens, Split, Concat;
    var source := SourceName(path);
    RefTokens(path);
    var tokens := Tokens(path);
    FirstTokens(source);
    assert tokens[0] == "context" && tokens[1..][0] == ChunkTokens(source)[0];
    WalkContext(attr, state, loaded, tokens, source);
  }

  /** The first tokens of a non-empty chunk: itself, or "[*]", or a shorter
      name with "[*]" right behind it. */
  lemma FirstTokens(chunk: string)
    requires chunk != "" && Bracketed(chunk)
    ensures var t := ChunkTokens(chunk);
            t != [] && (t[0] == chunk || t[0] == EACH || (|t| > 1 && t[1] == EACH))
  {
    assert chunk[0..] == chunk;
    if !StartsEach(chunk) && Bracket(chunk) < |chunk| {
      var k := Bracket(chunk);
      BracketedDrop(chunk, k);
      assert chunk[k..][0] == '[' && chunk[k..][0..] == chunk[k..];
      OneName(chunk);
      assert StartsEach(chunk[k..]);
    }
  }

  /** A context reference splits into "context", its source, and the rest. */
  lemma RefTokens(path: string)
    requires IsContextRef(path) && Halts(path) && SourceName(path) != ""
    ensures Bracketed(SourceName(path))
    ensures exists more :: Tokens(path) == ["context"] + ChunkTokens(SourceName(path)) + more
  {
    hide ChunkTokens;
    var tail := path[8..];
    assert path[7] == path[..8][7] == '.';
    assert forall i :: 0 <= i < 7 ==> path[i] == PREFIX[i] by { assert forall i :: 0 <= i < 8 ==> path[..8][i] == path[i]; }
    DotAt(path, 7);
    assert path[..7] == "context" by { assert path[..7] == path[..8][..7]; }
    var chunks := Split(path);
    assert chunks == ["context"] + Split(tail) && chunks[1..] == Split(tail);
    assert chunks[1] == SourceName(path) by { assert Split(tail)[0] == tail[..Dot(tail)]; }
    ContextChunk();
    assert Concat(chunks) == ChunkTokens("context") + (ChunkTokens(chunks[1]) + Concat(chunks[1..][1..]));
    assert Tokens(path) == ["context"] + ChunkTokens(SourceName(path)) + Concat(chunks[1..][1..]);
  }

  lemma ContextChunk()
    ensures Bracketed("context") && ChunkTokens("context") == ["context"]
  {
    assert Plain("context");
    NameChunk("context", "");
    EachChunk();
    assert "context" + "" == "context";
  }

  lemma WalkContext(attr: (Json, string) -> Json, state: Json, loaded: map<string, Json>, tokens: seq<string>, source: string)
    requires ContextState(state, loaded) && source !in loaded && |tokens| >= 2 && tokens[0] == "context"
    requires tokens[1] == source || tokens[1] == EACH || (|tokens| > 2 && tokens[2] == EACH)
    ensures Walk(attr, state, tokens) == Null
  {
    assert "context" != EACH by { assert "context"[0] != EACH[0]; }
    var rest := tokens[1..];
    assert Walk(attr, state, tokens) == Walk(attr, Dict(loaded), rest);
    if rest[0] != EACH {
      var v := Get(attr, Dict(loaded), rest[0]);
      assert Walk(attr, Dict(loaded), rest) == Walk(attr, v, rest[1..]);
      if v == Null { WalkNull(attr, rest[1..]); } else { assert rest[1..][0] == EACH; }
    }
  }

  predicate AllLoaded(pieces: seq<Piece>, loaded: map<string, Json>) {
    forall i :: 0 <= i < |pieces| && pieces[i].Marker? ==> Loaded(loaded, pieces[i].path)
  }

  lemma {:induction false} FillsAgree(pieces: seq<Piece>, attr: (Json, string) -> Json, show: Json -> string,
                                     state: Json, loaded: map<string, Json>)
    requires ContextState(state, loaded) && AllHalt(pieces)
    requires forall i :: 0 <= i < |pieces| && pieces[i].Marker? ==> NamesSource(pieces[i].path)
    ensures var engine := Fill(pieces, path => EngineText(attr, show, state, path));
            var preview := Fill(pieces, path => PreviewText(attr, show, state, loaded, path));
            if AllLoaded(pieces, loaded) then preview == engine else |preview| > |engine|
  {
    hide EngineText;
    if pieces != [] {
      FillsAgree(pieces[1..], attr, show, state, loaded);
      assert AllLoaded(pieces, loaded) <==>
             (pieces[0].Marker? ==> Loaded(loaded, pieces[0].path)) && AllLoaded(pieces[1..], loaded) by {
        assert forall i :: 0 < i < |pieces| ==> pieces[i] == pieces[1..][i - 1];
      }
      if pieces[0].Marker? && !Loaded(loaded, pieces[0].path) {
        UnloadedIsEmpty(attr, show, state, loaded, pieces[0].path);
      }
    }
  }

  /** The preview shows what the engine will produce exactly when every source
      the template references is loaded; otherwise it shows strictly more, the
      warnings in place of what the engine leaves out. */
  lemma PreviewAgreesIffLoaded(text: string, attr: (Json, string) -> Json, show: Json -> string,
                               state: Json, loaded: map<string, Json>)
    requires ContextState(state, loaded) && AllHalt(Parse(text))
    requires forall i :: 0 <= i < |Parse(text)| && Parse(text)[i].Marker? ==> NamesSource(Parse(text)[i].path)
    ensures Fill(Parse(text), path => PreviewText(attr, show, state, loaded, path)) ==
            Fill(Parse(text), path => EngineText(attr, show, state, path))
            <==> AllLoaded(Parse(text), loaded)
  {
    FillsAgree(Parse(text), attr, show, state, loaded);
  }

  lemma {:induction false} ClosingAt(s: string, k: nat)
    requires k < |s| && s[k] == '}' && forall i :: 0 <= i < k ==> s[i] != '}'
    ensures Closing(s) == k
  {
    if k > 0 { ClosingAt(s[1..], k - 1); }
  }

  lemma ParseOne(path: string)
    requires '}' !in path
    ensures Parse("${" + path + "}") == [Literal(""), Marker(path), Literal("")]
  {
    var s := "${" + path + "}";
    assert s[0] == '$' && s[1] == '{' && Opening(s) == 0;
    Tail(s, 0, 0);
    ClosingAt(s, |path| + 2);
    hide Closing, Opening;
    assert HasMarker(s) && MarkerPath(s) == path && Rest(s) == "";
    ParseNothing();
    assert s[..0] == "";
  }

  lemma ParseNothing()
    ensures Parse("") == [Literal("")]
  {
  }

  lemma FillOne(path: string, value: string -> string)
    ensures Fill([Literal(""), Marker(path), Literal("")], value) == value(path)
  {
    var all := [Literal(""), Marker(path), Literal("")];
    assert all == [Literal(""), Marker(path)] + [Literal("")];
    FillTwo(Literal(""), Marker(path), [Literal("")], value);
    assert [Literal("")][1..] == [];
  }

  lemma RefFacts(source: string)
    requires Plain(source)
    ensures IsContextRef(PREFIX + source) && SourceName(PREFIX + source) == source && Halts(PREFIX + source)
  {
    var path, segments := PREFIX + source, [Name("context"), Name(source)];
    assert path[..8] == PREFIX && path[8..] == source;
    DotAt(source, |source|);
    assert source[..|source|] == source;
    assert segments[1..] == [Name(source)];
    assert Print(segments) == "context" + "." + source && path == "context" + "." + source;
    TokenizeInvertsPrint(segments);
  }

  /** For any source that is not loaded, the template naming it is nothing to the
      engine and a warning in the preview. */
  lemma UnloadedSourceDiffers(attr: (Json, string) -> Json, show: Json -> string, state: Json, loaded: map<string, Json>,
                              source: string)
    requires ContextState(state, loaded) && Plain(source) && '}' !in source && source !in loaded
    ensures var pieces := Parse("${" + (PREFIX + source) + "}");
            && Fill(pieces, path => EngineText(attr, show, state, path)) == ""
            && Fill(pieces, path => PreviewText(attr, show, state, loaded, path)) == "[unresolved " + source + "]"
  {
    hide EngineText, Parse, Fill, Halts, SourceName, Plain;
    var path := PREFIX + source;
    assert '}' !in PREFIX;
    ParseOne(path);
    RefFacts(source);
    NotEmpty(source);
    UnloadedIsEmpty(attr, show, state, loaded, path);
    FillOne(path, p => EngineText(attr, show, state, p));
    FillOne(path, p => PreviewText(attr, show, state, loaded, p));
  }

  lemma NotEmpty(s: string)
    requires Plain(s)
    ensures s != ""
  {
  }

  /** `${context.profile}` with nothing loaded. */
  lemma ProfileIsUnresolved(attr: (Json, string) -> Json, show: Json -> string)
    ensures var state, pieces := Dict(map["context" := Dict(map[])]), Parse("${" + (PREFIX + "profile") + "}");
            && Fill(pieces, path => EngineText(attr, show, state, path)) == ""
            && Fill(pieces, path => PreviewText(attr, show, state, map[], path)) == "[unresolved " + "profile" + "]"
  {
    hide EngineText, PreviewText, Parse, Fill;
    UnloadedSourceDiffers(attr, show, Dict(map["context" := Dict(map[])]), map[], "profile");
  }

  /** What a reference to a field of a loaded source is replaced by, in the
      engine and in the preview: nothing when the field is absent or None, a
      string as it is, any other value as `str()` shows it. */
  lemma LoadedFieldIsShown(attr: (Json, string) -> Json, show: Json -> string, state: Json, loaded: map<string, Json>,
                           source: string, field: string)
    requires ContextState(state, loaded) && Plain(source) && Plain(field) && source in loaded
    ensures var path := "context." + source + "." + field;
            var fields := loaded[source].entries;
            var text := if field !in fields || fields[field].Null? then ""
                        else if fields[field].Str? then fields[field].text else show(fields[field]);
            EngineText(attr, show, state, path) == text && PreviewText(attr, show, state, loaded, path) == text
  {
    hide Walk, Tokens, Halts, Dot, Print, Meant;
    var path := "context." + source + "." + field;
    FieldTokens(source, field);
    WalkField(attr, state, loaded, source, field);
    FieldSource(source, field);
  }

  lemma FieldTokens(source: string, field: string)
    requires Plain(source) && Plain(field)
    ensures var path := "context." + source + "." + field;
            path != "" && Halts(path) && Tokens(path) == ["context", source, field]
  {
    hide Halts, Tokens;
    var segments := [Name("context"), Name(source), Name(field)];
    assert segments[1..] == [Name(source), Name(field)] && segments[1..][1..] == [Name(field)] && [Name(field)][1..] == [];
    assert Print([Name(field)]) == field && Print(segments[1..]) == source + "." + field;
    assert Print(segments) == "context" + "." + (source + "." + field) == "context." + source + "." + field;
    assert Plain("context");
    TokenizeInvertsPrint(segments);
    assert Meant([Name(field)]) == [field];
    assert Meant(segments[1..]) == [source] + [field];
  }

  lemma FieldSource(source: string, field: string)
    requires Plain(source)
    ensures var path := "context." + source + "." + field; IsContextRef(path) && SourceName(path) == source
  {
    var path := "context." + source + "." + field;
    assert path[8..] == source + "." + field;
    DotAt(path[8..], |source|);
  }

  lemma WalkField(attr: (Json, string) -> Json, state: Json, loaded: map<string, Json>, source: string, field: string)
    requires ContextState(state, loaded) && source in loaded && Plain(source) && Plain(field)
    ensures var fields := loaded[source].entries;
            Walk(attr, state, ["context", source, field]) == if field in fields then fields[field] else Null
  {
    hide Walk;
    assert Plain("context");
    NamesAreNotEach("context");
    NamesAreNotEach(source);
    NamesAreNotEach(field);
    assert ["context", source, field] == ["context"] + [source, field] && [source, field] == [source] + [field];
    assert [field] == [field] + [];
    WalkReads(attr, state, "context", [source, field]);
    WalkReads(attr, Dict(loaded), source, [field]);
    WalkReads(attr, loaded[source], field, []);
    var fields := loaded[source].entries;
    if field in fields { WalkReads(attr, fields[field], field, []); }
  }

  lemma NamesAreNotEach(name: string)
    requires Plain(name)
    ensures name != "[*]"
  {
    assert EACH[0] == '[';
  }

  /** The empty reference is the whole state. */
  lemma EmptyReferenceIsTheState(attr: (Json, string) -> Json, show: Json -> string, state: Json, loaded: map<string, Json>)
    requires state.Dict?
    ensures EngineText(attr, show, state, "") == PreviewText(attr, show, state, loaded, "") == show(state)
  {
    EachChunk();
    assert Split("") == [""];
  }
}
