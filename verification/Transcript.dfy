/** The stored conversation: content blocks, rows, and what it means for a
    transcript to be well paired (every tool call answered, in order, by the
    very next row). */
module Transcript {

  /** The arguments of a tool call. The empty map is the falsy `{}`. */
  type Input = map<string, string>

  datatype MediaKind = Image | Video

  datatype ToolCall = ToolCall(id: string, name: string, input: Input)

  /** What a tool_result says: the handler's own text, the note a rejection
      leaves, or the text of a call the user corrected before approving it. */
  datatype Answer =
    | Plain(text: string)
    | NotRun(reason: string)
    | RanWith(input: Input, text: string)

  datatype Block =
    | Text(text: string)
    | Thinking(thought: string)
    | Context(context: string)
    | Media(kind: MediaKind)
    | Use(call: ToolCall)
    | Result(useId: string, answer: Answer, isError: bool)

  datatype Role = User | Assistant

  datatype MediaCount = MediaCount(image: nat, video: nat)

  /** One stored row. A marker is the system row a compaction leaves; no other
      row carries a compaction block. */
  datatype Row =
    | Message(sequence: nat, role: Role, content: seq<Block>, partial: bool, speaker: string)
    | Marker(sequence: nat, through: nat, media: MediaCount)
  {
    predicate IsDurable() {
      Message? ==> !partial
    }
  }

  // ---------------------------------------------------------------- tool calls

  /** The tool calls of a block list, in order. */
  function Uses(content: seq<Block>): (calls: seq<ToolCall>)
  {
    if content == [] then []
    else
      var rest := Uses(content[..|content| - 1]);
      var last := content[|content| - 1];
      if last.Use? then rest + [last.call] else rest
  }

  /** The ids answered by a block list, in order. */
  function Answered(content: seq<Block>): (ids: seq<string>)
  {
    if content == [] then []
    else
      var rest := Answered(content[..|content| - 1]);
      var last := content[|content| - 1];
      if last.Result? then rest + [last.useId] else rest
  }

  function CallIds(calls: seq<ToolCall>): (ids: seq<string>)
    ensures |ids| == |calls|
    ensures forall i :: 0 <= i < |ids| ==> ids[i] == calls[i].id
  {
    seq(|calls|, i requires 0 <= i < |calls| => calls[i].id)
  }

  function RowUses(row: Row): seq<ToolCall> {
    if row.Message? && row.role == Assistant then Uses(row.content) else []
  }

  function RowAnswers(row: Row): seq<string> {
    if row.Message? && row.role == User then Answered(row.content) else []
  }

  // ---------------------------------------------------------------- pairing

  /** `row` answers exactly `calls`: one result per call, in order, in a user
      message. With no calls, `row` carries no result at all. */
  predicate Answers(calls: seq<ToolCall>, row: Row) {
    && (calls != [] ==> row.Message? && row.role == User)
    && RowAnswers(row) == CallIds(calls)
  }

  /** The calls the last row left waiting. */
  function LastUses(rows: seq<Row>): seq<ToolCall> {
    if rows == [] then [] else RowUses(rows[|rows| - 1])
  }

  /** Every row answers exactly the calls of the row before it. Only the calls
      of the last row may still be waiting. */
  ghost predicate Chain(rows: seq<Row>) {
    rows != [] ==>
      var init, last := rows[..|rows| - 1], rows[|rows| - 1];
      Chain(init) && Answers(LastUses(init), last)
  }

  predicate Open(rows: seq<Row>) {
    LastUses(rows) != []
  }

  ghost predicate Closed(rows: seq<Row>) {
    Chain(rows) && !Open(rows)
  }

  lemma UsesAppend(content: seq<Block>, b: Block)
    ensures Uses(content + [b]) == Uses(content) + (if b.Use? then [b.call] else [])
    ensures Answered(content + [b]) == Answered(content) + (if b.Result? then [b.useId] else [])
  {
    assert (content + [b])[..|content|] == content;
  }

  /** Both projections distribute over concatenation. */
  lemma {:induction false} UsesConcat(a: seq<Block>, b: seq<Block>)
    ensures Uses(a + b) == Uses(a) + Uses(b)
    ensures Answered(a + b) == Answered(a) + Answered(b)
    decreases |b|
  {
    if b == [] {
      assert a + b == a;
    } else {
      hide Uses, Answered;
      var init, last := b[..|b| - 1], b[|b| - 1];
      UsesConcat(a, init);
      UsesAppend(a + init, last);
      UsesAppend(init, last);
      assert a + b == (a + init) + [last] && b == init + [last];
    }
  }

  lemma ChainSnoc(rows: seq<Row>, row: Row)
    ensures Chain(rows + [row]) <==> Chain(rows) && Answers(LastUses(rows), row)
    ensures LastUses(rows + [row]) == RowUses(row)
  {
    assert (rows + [row])[..|rows|] == rows;
  }

  lemma ChainUnfold(rows: seq<Row>)
    requires rows != []
    ensures var init, last := rows[..|rows| - 1], rows[|rows| - 1];
            (Chain(rows) <==> Chain(init) && Answers(LastUses(init), last)) && LastUses(rows) == RowUses(last)
  {
    hide RowUses, Answers;
  }

  /** The pairing read position by position: a row with tool calls is followed
      at once by one user message answering each call once and in order, unless
      it is the last row; and no result answers anything else. */
  lemma {:induction false} ChainAt(rows: seq<Row>, i: nat)
    requires Chain(rows) && i < |rows|
    ensures i + 1 < |rows| && RowUses(rows[i]) != [] ==>
              rows[i + 1].Message? && rows[i + 1].role == User &&
              Answered(rows[i + 1].content) == CallIds(RowUses(rows[i]))
    ensures RowAnswers(rows[i]) == CallIds(if i == 0 then [] else RowUses(rows[i - 1]))
    decreases |rows|
  {
    if i + 1 < |rows| {
      var init := rows[..|rows| - 1];
      ChainAt(init, i);
      assert init[i] == rows[i];
    }
  }

  lemma {:induction false} ChainPrefix(rows: seq<Row>, cut: nat)
    requires Chain(rows) && cut <= |rows|
    ensures Chain(rows[..cut])
    decreases |rows|
  {
    if cut == |rows| {
      assert rows[..cut] == rows;
    } else {
      ChainPrefix(rows[..|rows| - 1], cut);
      assert rows[..|rows| - 1][..cut] == rows[..cut];
    }
  }

  /** A suffix of a paired transcript is paired when the row before the cut
      left no call waiting. */
  lemma {:induction false} ChainSuffix(rows: seq<Row>, cut: nat)
    requires Chain(rows) && cut < |rows|
    requires LastUses(rows[..cut]) == []
    ensures Chain(rows[cut..]) && LastUses(rows[cut..]) == LastUses(rows)
    decreases |rows|
  {
    hide Chain, LastUses, RowUses, Answers;
    var init, last := rows[..|rows| - 1], rows[|rows| - 1];
    ChainUnfold(rows);
    assert init[..cut] == rows[..cut];
    if cut == |init| {
      EmptyChain();
      assert init[..cut] == init;
      assert rows[cut..] == [] + [last];
      ChainSnoc([], last);
    } else {
      ChainSuffix(init, cut);
      assert rows[cut..] == init[cut..] + [last];
      ChainSnoc(init[cut..], last);
    }
  }

  lemma EmptyChain()
    ensures Chain([]) && LastUses([]) == []
  {
  }

  /** A row without calls or answers in front changes nothing. */
  lemma {:induction false} ChainCons(first: Row, rows: seq<Row>)
    requires RowUses(first) == [] && RowAnswers(first) == []
    ensures Chain([first] + rows) <==> Chain(rows)
    ensures LastUses([first] + rows) == LastUses(rows)
    decreases |rows|
  {
    if rows == [] {
      assert [first] + rows == [] + [first];
      ChainSnoc([], first);
    } else {
      var init, last := rows[..|rows| - 1], rows[|rows| - 1];
      ChainCons(first, init);
      assert [first] + rows == ([first] + init) + [last];
      ChainSnoc([first] + init, last);
    }
  }

  // ---------------------------------------------------------------- words beside an approval

  /** How many leading blocks are the model's thinking. */
  function LeadingThinking(blocks: seq<Block>): (n: nat)
    ensures n <= |blocks|
    ensures forall i :: 0 <= i < n ==> blocks[i].Thinking?
    ensures n < |blocks| ==> !blocks[n].Thinking?
  {
    if blocks == [] || !blocks[0].Thinking? then 0 else 1 + LeadingThinking(blocks[1..])
  }

  function InsertWords(blocks: seq<Block>, text: string): seq<Block> {
    var at := LeadingThinking(blocks);
    blocks[..at] + [Text(text)] + blocks[at..]
  }

  lemma InsertWordsKeepsCalls(blocks: seq<Block>, text: string)
    ensures Uses(InsertWords(blocks, text)) == Uses(blocks)
    ensures Answered(InsertWords(blocks, text)) == Answered(blocks)
  {
    var at := LeadingThinking(blocks);
    UsesConcat(blocks[..at], blocks[at..]);
    assert blocks == blocks[..at] + blocks[at..];
    UsesAppend(blocks[..at], Text(text));
    UsesConcat(blocks[..at] + [Text(text)], blocks[at..]);
  }

  /** The latest assistant message gets `text`; no assistant message, no change. */
  function AddTextToLastAssistant(rows: seq<Row>, text: string): (r: seq<Row>)
    ensures |r| == |rows|
  {
    if rows == [] then []
    else
      var init, last := rows[..|rows| - 1], rows[|rows| - 1];
      if last.Message? && last.role == Assistant then
        init + [last.(content := InsertWords(last.content, text))]
      else
        AddTextToLastAssistant(init, text) + [last]
  }

  /** Adding words changes no row's calls, answers, kind or sequence: the
      pairing of the transcript is exactly what it was. */
  lemma {:induction false} AddTextKeepsPairing(rows: seq<Row>, text: string)
    ensures var r := AddTextToLastAssistant(rows, text);
            && (Chain(r) <==> Chain(rows))
            && LastUses(r) == LastUses(rows)
            && forall i :: 0 <= i < |rows| ==> SameButWords(rows[i], r[i])
  {
    hide Uses, Answered, InsertWords;
    if rows != [] {
      var init, last := rows[..|rows| - 1], rows[|rows| - 1];
      if last.Message? && last.role == Assistant {
        var row := last.(content := InsertWords(last.content, text));
        InsertWordsKeepsCalls(last.content, text);
        ChainSnoc(init, row);
      } else {
        AddTextKeepsPairing(init, text);
        ChainSnoc(AddTextToLastAssistant(init, text), last);
      }
    }
  }

  ghost predicate SameButWords(a: Row, b: Row) {
    && RowUses(a) == RowUses(b)
    && RowAnswers(a) == RowAnswers(b)
    && (a.Marker? ==> a == b)
    && (a.Message? ==> b.Message? && b == a.(content := b.content))
  }
}
