/** The history of an ai_agent node: its own messages and those it inherits,
    with every tool block that has lost its partner dropped. */
module InheritedHistory {
  import opened Transcript

  datatype Stored = Stored(node: string, role: Role, partial: bool, content: seq<Block>)

  datatype Side = CallSide | ResultSide

  /** The id a block shows on one side of a call; "" for any other block. */
  function IdOf(b: Block, side: Side): string {
    if side.CallSide? && b.Use? then b.call.id
    else if side.ResultSide? && b.Result? then b.useId
    else ""
  }

  predicate IsTool(b: Block) {
    b.Use? || b.Result?
  }

  function ToolId(b: Block): string {
    if b.Use? then b.call.id else if b.Result? then b.useId else ""
  }

  function SideIds(b: Block, side: Side): set<string> {
    if IdOf(b, side) == "" then {} else {IdOf(b, side)}
  }

  function BlockIds(content: seq<Block>, side: Side): set<string> {
    if content == [] then {} else BlockIds(content[..|content| - 1], side) + SideIds(content[|content| - 1], side)
  }

  function Ids(rows: seq<Stored>, side: Side): set<string> {
    if rows == [] then {} else Ids(rows[..|rows| - 1], side) + BlockIds(rows[|rows| - 1].content, side)
  }

  /** The node's own interrupted turns are not part of its history. */
  function Readable(rows: seq<Stored>, own: string): seq<Stored> {
    if rows == [] then []
    else
      var rest, last := Readable(rows[..|rows| - 1], own), rows[|rows| - 1];
      if last.node == own && last.partial then rest else rest + [last]
  }

  function ValidPairs(rows: seq<Stored>): set<string> {
    Ids(rows, CallSide) * Ids(rows, ResultSide)
  }

  predicate Keep(b: Block, tools: bool, valid: set<string>) {
    IsTool(b) ==> tools && ToolId(b) in valid
  }

  function Filter(content: seq<Block>, tools: bool, valid: set<string>): seq<Block> {
    if content == [] then []
    else
      var rest, last := Filter(content[..|content| - 1], tools, valid), content[|content| - 1];
      if Keep(last, tools, valid) then rest + [last] else rest
  }

  function Canonical(rows: seq<Stored>, own: string, withTools: bool, valid: set<string>): seq<Stored> {
    if rows == [] then []
    else
      var rest, last := Canonical(rows[..|rows| - 1], own, withTools, valid), rows[|rows| - 1];
      var blocks := Filter(last.content, last.node == own || withTools, valid);
      if blocks == [] then rest else rest + [last.(content := blocks)]
  }

  function History(rows: seq<Stored>, own: string, withTools: bool): seq<Stored> {
    var readable := Readable(rows, own);
    Canonical(readable, own, withTools, ValidPairs(readable))
  }

  // ---------------------------------------------------------------- the loader

  method CollectIds(content: seq<Block>, useIds: set<string>, resultIds: set<string>)
    returns (uses: set<string>, results: set<string>)
    ensures uses == useIds + BlockIds(content, CallSide)
    ensures results == resultIds + BlockIds(content, ResultSide)
  {
    uses, results := useIds, resultIds;
    for k := 0 to |content|
      invariant uses == useIds + BlockIds(content[..k], CallSide)
      invariant results == resultIds + BlockIds(content[..k], ResultSide)
    {
      assert content[..k + 1][..k] == content[..k];
      var block := content[k];
      if block.Use? {
        if block.call.id != "" {
          uses := uses + {block.call.id};
        }
      } else if block.Result? {
        if block.useId != "" {
          results := results + {block.useId};
        }
      }
    }
    assert content[..|content|] == content;
  }

  method KeepBlocks(content: seq<Block>, isOwn: bool, withTools: bool, valid: set<string>) returns (blocks: seq<Block>)
    ensures blocks == Filter(content, isOwn || withTools, valid)
  {
    blocks := [];
    for k := 0 to |content|
      invariant blocks == Filter(content[..k], isOwn || withTools, valid)
    {
      assert content[..k + 1][..k] == content[..k];
      var block := content[k];
      if block.Use? {
        if !isOwn && !withTools {
          continue;
        }
        if block.call.id !in valid {
          continue;
        }
        blocks := blocks + [block];
      } else if block.Result? {
        if !isOwn && !withTools {
          continue;
        }
        if block.useId !in valid {
          continue;
        }
        blocks := blocks + [block];
      } else {
        blocks := blocks + [block];
      }
    }
    assert content[..|content|] == content;
  }

  method LoadHistory(stored: seq<Stored>, own: string, withTools: bool) returns (canonical: seq<Stored>)
    ensures canonical == History(stored, own, withTools)
  {
    hide Filter, BlockIds;
    var rows := Readable(stored, own);
    var useIds, resultIds := {}, {};
    for i := 0 to |rows|
      invariant useIds == Ids(rows[..i], CallSide) && resultIds == Ids(rows[..i], ResultSide)
    {
      assert rows[..i + 1][..i] == rows[..i];
      useIds, resultIds := CollectIds(rows[i].content, useIds, resultIds);
    }
    assert rows[..|rows|] == rows;
    var validPairIds := useIds * resultIds;
    canonical := [];
    for i := 0 to |rows|
      invariant canonical == Canonical(rows[..i], own, withTools, validPairIds)
    {
      assert rows[..i + 1][..i] == rows[..i];
      var blocks := KeepBlocks(rows[i].content, rows[i].node == own, withTools, validPairIds);
      if blocks == [] {
        continue;
      }
      canonical := canonical + [rows[i].(content := blocks)];
    }
  }

  // ---------------------------------------------------------------- what filtering does to the ids

  /** The ids of the messages whose tool blocks may stay. */
  function AllowedIds(rows: seq<Stored>, own: string, withTools: bool, side: Side): set<string> {
    if rows == [] then {}
    else
      var rest, last := AllowedIds(rows[..|rows| - 1], own, withTools, side), rows[|rows| - 1];
      if last.node == own || withTools then rest + BlockIds(last.content, side) else rest
  }

  lemma BlockIdsSnoc(content: seq<Block>, b: Block, side: Side)
    ensures BlockIds(content + [b], side) == BlockIds(content, side) + SideIds(b, side)
  {
    assert (content + [b])[..|content|] == content;
  }

  lemma OneBlockIds(b: Block, tools: bool, valid: set<string>, side: Side)
    requires "" !in valid
    ensures (if Keep(b, tools, valid) then SideIds(b, side) else {}) == if tools then SideIds(b, side) * valid else {}
  {
  }

  lemma Distribute(a: set<string>, b: set<string>, valid: set<string>)
    ensures (a + b) * valid == a * valid + b * valid
  {
  }

  lemma {:induction false} FilterIds(content: seq<Block>, tools: bool, valid: set<string>, side: Side)
    requires "" !in valid
    ensures BlockIds(Filter(content, tools, valid), side) == if tools then BlockIds(content, side) * valid else {}
  {
    hide Keep, SideIds;
    if content != [] {
      var init, last := content[..|content| - 1], content[|content| - 1];
      FilterIds(init, tools, valid, side);
      BlockIdsSnoc(Filter(init, tools, valid), last, side);
      OneBlockIds(last, tools, valid, side);
      Distribute(BlockIds(init, side), SideIds(last, side), valid);
    }
  }

  lemma IdsSnoc(rows: seq<Stored>, row: Stored, side: Side)
    ensures Ids(rows + [row], side) == Ids(rows, side) + BlockIds(row.content, side)
  {
    assert (rows + [row])[..|rows|] == rows;
  }

  lemma {:induction false} CanonicalIds(rows: seq<Stored>, own: string, withTools: bool, valid: set<string>, side: Side)
    requires "" !in valid
    ensures Ids(Canonical(rows, own, withTools, valid), side) == AllowedIds(rows, own, withTools, side) * valid
  {
    hide Filter, BlockIds;
    if rows != [] {
      var init, last := rows[..|rows| - 1], rows[|rows| - 1];
      CanonicalIds(init, own, withTools, valid, side);
      var blocks := Filter(last.content, last.node == own || withTools, valid);
      FilterIds(last.content, last.node == own || withTools, valid, side);
      Distribute(AllowedIds(init, own, withTools, side), BlockIds(last.content, side), valid);
      if blocks == [] {
        NoBlockIds(side);
      } else {
        IdsSnoc(Canonical(init, own, withTools, valid), last.(content := blocks), side);
      }
    }
  }

  lemma NoBlockIds(side: Side)
    ensures BlockIds([], side) == {}
  {
  }

  lemma {:induction false} AllAllowed(rows: seq<Stored>, own: string, side: Side)
    ensures AllowedIds(rows, own, true, side) == Ids(rows, side)
  {
    if rows != [] { AllAllowed(rows[..|rows| - 1], own, side); }
  }

  lemma {:induction false} NoEmptyId(rows: seq<Stored>, side: Side)
    ensures "" !in Ids(rows, side)
  {
    if rows != [] {
      NoEmptyId(rows[..|rows| - 1], side);
      NoEmptyBlockId(rows[|rows| - 1].content, side);
    }
  }

  lemma {:induction false} NoEmptyBlockId(content: seq<Block>, side: Side)
    ensures "" !in BlockIds(content, side)
  {
    if content != [] { NoEmptyBlockId(content[..|content| - 1], side); }
  }

  /** What of the stored messages is read at all: everything but the node's own
      interrupted turns, in stored order. */
  lemma {:induction false} ReadableIs(stored: seq<Stored>, own: string, m: Stored)
    ensures m in Readable(stored, own) <==> m in stored && !(m.node == own && m.partial)
    ensures forall k :: 0 <= k <= |stored| ==> Readable(stored[..k], own) <= Readable(stored, own)
  {
    if stored != [] {
      var init, last := stored[..|stored| - 1], stored[|stored| - 1];
      ReadableIs(init, own, m);
      assert stored == init + [last] && stored[..|stored|] == stored;
      forall k | 0 <= k <= |init| ensures stored[..k] == init[..k] {
      }
    }
  }

  /** A tool block that stays belongs to a message whose tools may stay and has
      a partner on the other side. */
  lemma {:induction false} KeptToolsArePaired(stored: seq<Stored>, own: string, withTools: bool, m: Stored, b: Block)
    requires m in History(stored, own, withTools) && b in m.content && (b.Use? || b.Result?)
    ensures m.node == own || withTools
    ensures var id := if b.Use? then b.call.id else b.useId;
            id in Ids(Readable(stored, own), CallSide) && id in Ids(Readable(stored, own), ResultSide)
  {
    var readable := Readable(stored, own);
    RowOfCanonical(readable, own, withTools, ValidPairs(readable), m, b);
  }

  lemma {:induction false} RowOfCanonical(rows: seq<Stored>, own: string, withTools: bool, valid: set<string>, m: Stored, b: Block)
    requires m in Canonical(rows, own, withTools, valid) && b in m.content
    ensures Keep(b, m.node == own || withTools, valid)
  {
    hide Keep;
    var init, last := rows[..|rows| - 1], rows[|rows| - 1];
    var blocks := Filter(last.content, last.node == own || withTools, valid);
    if m in Canonical(init, own, withTools, valid) {
      RowOfCanonical(init, own, withTools, valid, m, b);
    } else {
      FilteredIsKept(last.content, last.node == own || withTools, valid, b);
    }
  }

  lemma {:induction false} FilteredIsKept(content: seq<Block>, tools: bool, valid: set<string>, b: Block)
    requires b in Filter(content, tools, valid)
    ensures Keep(b, tools, valid)
  {
    if b in Filter(content[..|content| - 1], tools, valid) { FilteredIsKept(content[..|content| - 1], tools, valid, b); }
  }

  /** With tool interactions included, the calls and the results of a history
      carry exactly the same ids: those that were paired to begin with. */
  lemma HistoryIsClosed(rows: seq<Stored>, own: string)
    ensures Ids(History(rows, own, true), CallSide) == ValidPairs(Readable(rows, own))
    ensures Ids(History(rows, own, true), ResultSide) == ValidPairs(Readable(rows, own))
  {
    var readable := Readable(rows, own);
    NoEmptyId(readable, CallSide);
    CanonicalIds(readable, own, true, ValidPairs(readable), CallSide);
    CanonicalIds(readable, own, true, ValidPairs(readable), ResultSide);
    AllAllowed(readable, own, CallSide);
    AllAllowed(readable, own, ResultSide);
  }

  /** A pair with one half in the node's own messages and the other inherited. */
  ghost predicate PairSpans(readable: seq<Stored>, own: string) {
    exists id :: id in ValidPairs(readable) &&
                 (id in AllowedIds(readable, own, false, CallSide)) != (id in AllowedIds(readable, own, false, ResultSide))
  }

  /** With inherited tool interactions stripped, the history is closed if and
      only if no pair spans own and inherited messages. */
  lemma StrippedHistoryIsClosedIff(rows: seq<Stored>, own: string)
    ensures Ids(History(rows, own, false), CallSide) == Ids(History(rows, own, false), ResultSide)
            <==> !PairSpans(Readable(rows, own), own)
  {
    var readable := Readable(rows, own);
    var valid := ValidPairs(readable);
    NoEmptyId(readable, CallSide);
    CanonicalIds(readable, own, false, valid, CallSide);
    CanonicalIds(readable, own, false, valid, ResultSide);
    var uses, results := AllowedIds(readable, own, false, CallSide), AllowedIds(readable, own, false, ResultSide);
    if uses * valid == results * valid {
      forall id | id in valid ensures (id in uses) == (id in results) {
        assert id in uses <==> id in uses * valid;
        assert id in results <==> id in results * valid;
      }
    }
    if !PairSpans(readable, own) {
      forall id | id in valid ensures (id in uses) == (id in results) {
      }
    }
  }

  /** The ids shown, on either side, by messages of the node itself or, with
      `ownSide` false, by the others. */
  function IdsOf(rows: seq<Stored>, own: string, ownSide: bool): set<string> {
    if rows == [] then {}
    else
      var rest, last := IdsOf(rows[..|rows| - 1], own, ownSide), rows[|rows| - 1];
      if (last.node == own) == ownSide then rest + BlockIds(last.content, CallSide) + BlockIds(last.content, ResultSide)
      else rest
  }

  lemma {:induction false} IdsSplit(rows: seq<Stored>, own: string, side: Side, id: string)
    ensures id in AllowedIds(rows, own, false, side) ==> id in IdsOf(rows, own, true)
    ensures id in Ids(rows, side) ==> id in AllowedIds(rows, own, false, side) || id in IdsOf(rows, own, false)
  {
    if rows != [] { IdsSplit(rows[..|rows| - 1], own, side, id); }
  }

  /** A call and its result are stored under one node, so a pair spans two only
      when tool-use ids collide: the node and another both show the same id. */
  lemma SpanningTakesACollision(rows: seq<Stored>, own: string)
    requires IdsOf(rows, own, true) !! IdsOf(rows, own, false)
    ensures !PairSpans(rows, own)
  {
    forall id | id in ValidPairs(rows)
      ensures (id in AllowedIds(rows, own, false, CallSide)) == (id in AllowedIds(rows, own, false, ResultSide))
    {
      IdsSplit(rows, own, CallSide, id);
      IdsSplit(rows, own, ResultSide, id);
    }
  }

  /** Such a collision: the node's own call `c0` was never answered, and an
      inherited node has a call and a result of the same id. */
  function Collision(): seq<Stored> {
    [Stored("other", Assistant, false, [Use(ToolCall("c0", "t", map[]))]),
     Stored("other", User, false, [Result("c0", Plain(""), false)]),
     Stored("own", Assistant, false, [Use(ToolCall("c0", "t", map[]))])]
  }

  lemma CollisionBlocks(side: Side)
    ensures BlockIds(Collision()[0].content, side) == BlockIds(Collision()[2].content, side) == if side.CallSide? then {"c0"} else {}
    ensures BlockIds(Collision()[1].content, side) == if side.ResultSide? then {"c0"} else {}
  {
    hide BlockIds;
    OneBlock(Use(ToolCall("c0", "t", map[])), side);
    OneBlock(Result("c0", Plain(""), false), side);
  }

  lemma CollisionIds(side: Side)
    ensures Ids(Collision(), side) == {"c0"}
    ensures AllowedIds(Collision(), "own", false, side) == if side.CallSide? then {"c0"} else {}
  {
    hide BlockIds, Ids, AllowedIds;
    CollisionBlocks(side);
    ThreeIds(Collision(), side);
    ThreeAllowed(Collision(), "own", side);
  }

  /** The stripped history then keeps a call without its result. */
  lemma CollisionLeavesAnOrphan()
    ensures Ids(History(Collision(), "own", false), CallSide) == {"c0"}
    ensures Ids(History(Collision(), "own", false), ResultSide) == {}
  {
    hide Ids, AllowedIds, Canonical, Readable;
    AlreadyReadable(Collision(), "own");
    CollisionIds(CallSide);
    CollisionIds(ResultSide);
    hide Collision;
    assert ValidPairs(Collision()) == {"c0"};
    CanonicalIds(Collision(), "own", false, {"c0"}, CallSide);
    CanonicalIds(Collision(), "own", false, {"c0"}, ResultSide);
  }

  lemma OneBlock(b: Block, side: Side)
    ensures BlockIds([b], side) == SideIds(b, side)
  {
    assert [b] == [] + [b];
    BlockIdsSnoc([], b, side);
  }

  lemma ThreeIds(rows: seq<Stored>, side: Side)
    requires |rows| == 3
    ensures Ids(rows, side) == BlockIds(rows[0].content, side) + BlockIds(rows[1].content, side) + BlockIds(rows[2].content, side)
  {
    hide BlockIds;
    assert rows[..2][..1] == rows[..1] && rows[..1][..0] == [];
    assert Ids(rows[..1], side) == BlockIds(rows[0].content, side);
    assert Ids(rows[..2], side) == Ids(rows[..1], side) + BlockIds(rows[1].content, side);
  }

  lemma ThreeAllowed(rows: seq<Stored>, own: string, side: Side)
    requires |rows| == 3 && rows[0].node != own && rows[1].node != own && rows[2].node == own
    ensures AllowedIds(rows, own, false, side) == BlockIds(rows[2].content, side)
  {
    hide BlockIds;
    assert rows[..2][..1] == rows[..1] && rows[..1][..0] == [];
    assert AllowedIds(rows[..1], own, false, side) == {};
    assert AllowedIds(rows[..2], own, false, side) == {};
  }

  // ---------------------------------------------------------------- nothing else is touched

  /** Everything said besides tool blocks, with who said it. */
  function Said(content: seq<Block>, role: Role): seq<(Role, Block)> {
    if content == [] then []
    else
      var rest, last := Said(content[..|content| - 1], role), content[|content| - 1];
      if IsTool(last) then rest else rest + [(role, last)]
  }

  function AllSaid(rows: seq<Stored>): seq<(Role, Block)> {
    if rows == [] then [] else AllSaid(rows[..|rows| - 1]) + Said(rows[|rows| - 1].content, rows[|rows| - 1].role)
  }

  lemma {:induction false} FilterKeepsSaid(content: seq<Block>, role: Role, tools: bool, valid: set<string>)
    ensures Said(Filter(content, tools, valid), role) == Said(content, role)
  {
    if content != [] {
      var init, last := content[..|content| - 1], content[|content| - 1];
      FilterKeepsSaid(init, role, tools, valid);
      if Keep(last, tools, valid) {
        assert (Filter(init, tools, valid) + [last])[..|Filter(init, tools, valid)|] == Filter(init, tools, valid);
      }
    }
  }

  lemma {:induction false} CanonicalKeepsSaid(rows: seq<Stored>, own: string, withTools: bool, valid: set<string>)
    ensures AllSaid(Canonical(rows, own, withTools, valid)) == AllSaid(rows)
  {
    hide Filter, Said;
    if rows != [] {
      var init, last := rows[..|rows| - 1], rows[|rows| - 1];
      CanonicalKeepsSaid(init, own, withTools, valid);
      var blocks := Filter(last.content, last.node == own || withTools, valid);
      FilterKeepsSaid(last.content, last.role, last.node == own || withTools, valid);
      var before := Canonical(init, own, withTools, valid);
      if blocks == [] {
        NothingSaid(last.role);
      } else {
        assert (before + [last.(content := blocks)])[..|before|] == before;
      }
    }
  }

  lemma NothingSaid(role: Role)
    ensures Said([], role) == []
  {
  }

  /** Every block of a readable message that is no tool block survives in the
      history, in order and with its role, whatever the mode. */
  lemma OtherBlocksSurvive(stored: seq<Stored>, own: string, withTools: bool)
    ensures AllSaid(History(stored, own, withTools)) == AllSaid(Readable(stored, own))
  {
    hide AllSaid, Canonical, ValidPairs;
    CanonicalKeepsSaid(Readable(stored, own), own, withTools, ValidPairs(Readable(stored, own)));
  }

  // ---------------------------------------------------------------- the greatest closed choice

  /** Any selection of blocks, position by position. */
  function Pick(content: seq<Block>, i: nat, choose: (nat, nat) -> bool): seq<Block> {
    if content == [] then []
    else
      var k := |content| - 1;
      var rest := Pick(content[..k], i, choose);
      if choose(i, k) then rest + [content[k]] else rest
  }

  function Chosen(rows: seq<Stored>, choose: (nat, nat) -> bool): seq<Stored> {
    if rows == [] then []
    else
      var i := |rows| - 1;
      Chosen(rows[..i], choose) + [rows[i].(content := Pick(rows[i].content, i, choose))]
  }

  lemma {:induction false} PickIds(content: seq<Block>, i: nat, choose: (nat, nat) -> bool, side: Side)
    ensures BlockIds(Pick(content, i, choose), side) <= BlockIds(content, side)
  {
    if content != [] {
      var k := |content| - 1;
      PickIds(content[..k], i, choose, side);
      if choose(i, k) {
        var rest := Pick(content[..k], i, choose);
        assert (rest + [content[k]])[..|rest|] == rest;
      }
    }
  }

  lemma {:induction false} ChosenIds(rows: seq<Stored>, choose: (nat, nat) -> bool, side: Side)
    ensures Ids(Chosen(rows, choose), side) <= Ids(rows, side)
    ensures |Chosen(rows, choose)| == |rows|
  {
    hide Pick, BlockIds;
    if rows != [] {
      var i := |rows| - 1;
      ChosenIds(rows[..i], choose, side);
      PickIds(rows[i].content, i, choose, side);
      IdsSnoc(Chosen(rows[..i], choose), rows[i].(content := Pick(rows[i].content, i, choose)), side);
    }
  }

  /** Ids of a row's chosen blocks are ids of the whole choice. */
  lemma {:induction false} RowInChoice(rows: seq<Stored>, choose: (nat, nat) -> bool, side: Side, i: nat)
    requires i < |rows|
    ensures BlockIds(Pick(rows[i].content, i, choose), side) <= Ids(Chosen(rows, choose), side)
    decreases |rows|
  {
    hide Pick, BlockIds;
    var n := |rows| - 1;
    IdsSnoc(Chosen(rows[..n], choose), rows[n].(content := Pick(rows[n].content, n, choose)), side);
    if i < n { RowInChoice(rows[..n], choose, side, i); }
  }

  /** `a` is `b` with some blocks left out. */
  ghost predicate SubSeq(a: seq<Block>, b: seq<Block>)
    decreases |b|
  {
    a == [] ||
    (b != [] && (SubSeq(a, b[..|b| - 1]) || (a[|a| - 1] == b[|b| - 1] && SubSeq(a[..|a| - 1], b[..|b| - 1]))))
  }

  ghost predicate PartOf(a: Stored, b: Stored) {
    a.node == b.node && a.role == b.role && a.partial == b.partial && SubSeq(a.content, b.content)
  }

  /** `a` is `b` with some messages, and some blocks of the others, left out. */
  ghost predicate Within(a: seq<Stored>, b: seq<Stored>)
    decreases |b|
  {
    a == [] ||
    (b != [] && (Within(a, b[..|b| - 1]) || (PartOf(a[|a| - 1], b[|b| - 1]) && Within(a[..|a| - 1], b[..|b| - 1]))))
  }

  function DropEmpty(rows: seq<Stored>): seq<Stored> {
    if rows == [] then []
    else
      var rest, last := DropEmpty(rows[..|rows| - 1]), rows[|rows| - 1];
      if last.content == [] then rest else rest + [last]
  }

  lemma WithinSkip(a: seq<Stored>, b: seq<Stored>, last: Stored)
    requires Within(a, b)
    ensures Within(a, b + [last])
  {
    hide PartOf;
    assert (b + [last])[..|b|] == b;
  }

  lemma WithinBoth(a: seq<Stored>, x: Stored, b: seq<Stored>, y: Stored)
    requires Within(a, b) && PartOf(x, y)
    ensures Within(a + [x], b + [y])
  {
    hide PartOf;
    assert (a + [x])[..|a|] == a && (b + [y])[..|b|] == b;
  }

  lemma SubSeqSkip(a: seq<Block>, b: seq<Block>, last: Block)
    requires SubSeq(a, b)
    ensures SubSeq(a, b + [last])
  {
    assert (b + [last])[..|b|] == b;
  }

  lemma SubSeqBoth(a: seq<Block>, b: seq<Block>, last: Block)
    requires SubSeq(a, b)
    ensures SubSeq(a + [last], b + [last])
  {
    assert (a + [last])[..|a|] == a && (b + [last])[..|b|] == b;
  }

  lemma KeptIfIdsValid(b: Block, valid: set<string>)
    requires SideIds(b, CallSide) <= valid && SideIds(b, ResultSide) <= valid
    requires IsTool(b) ==> ToolId(b) != ""
    ensures Keep(b, true, valid)
  {
    assert b.Use? ==> SideIds(b, CallSide) == {b.call.id};
    assert b.Result? ==> SideIds(b, ResultSide) == {b.useId};
  }

  /** Every tool block shows an id. */
  ghost predicate Identified(content: seq<Block>) {
    forall k :: 0 <= k < |content| && IsTool(content[k]) ==> ToolId(content[k]) != ""
  }

  /** A row's choice whose ids are all valid lies within what filtering keeps. */
  lemma {:induction false} PickWithinFilter(content: seq<Block>, i: nat, choose: (nat, nat) -> bool, valid: set<string>)
    requires BlockIds(Pick(content, i, choose), CallSide) <= valid && BlockIds(Pick(content, i, choose), ResultSide) <= valid
    requires Identified(Pick(content, i, choose))
    ensures SubSeq(Pick(content, i, choose), Filter(content, true, valid))
  {
    hide BlockIds, SideIds, Keep, SubSeq, IsTool, ToolId;
    if content == [] {
      assert SubSeq([], []) by { EmptySubSeq(); }
    } else {
      var k := |content| - 1;
      var rest, kept, last := Pick(content[..k], i, choose), Filter(content[..k], true, valid), content[k];
      if choose(i, k) {
        BlockIdsSnoc(rest, last, CallSide);
        BlockIdsSnoc(rest, last, ResultSide);
        assert forall j :: 0 <= j < |rest| ==> (rest + [last])[j] == rest[j];
        assert (rest + [last])[|rest|] == last;
        KeptIfIdsValid(last, valid);
        PickWithinFilter(content[..k], i, choose, valid);
        SubSeqBoth(rest, kept, last);
      } else {
        PickWithinFilter(content[..k], i, choose, valid);
        SubSeqSkip(rest, kept, last);
      }
    }
  }

  lemma EmptySubSeq()
    ensures SubSeq([], []) && Within([], [])
  {
  }

  lemma NothingInNothing(a: seq<Block>)
    requires SubSeq(a, [])
    ensures a == []
  {
  }

  /** Row by row, the choice lies within the filtered rows. */
  lemma {:induction false} ChosenWithinCanonical(rows: seq<Stored>, own: string, choose: (nat, nat) -> bool, valid: set<string>)
    requires forall i :: 0 <= i < |rows| ==> SubSeq(Pick(rows[i].content, i, choose), Filter(rows[i].content, true, valid))
    ensures Within(DropEmpty(Chosen(rows, choose)), Canonical(rows, own, true, valid))
  {
    hide Pick, Filter, SubSeq, Within;
    EmptySubSeq();
    if rows != [] {
      var n := |rows| - 1;
      var init, last := rows[..n], rows[n];
      assert forall i :: 0 <= i < n ==> init[i] == rows[i];
      ChosenWithinCanonical(init, own, choose, valid);
      var picked, kept := Pick(last.content, n, choose), Filter(last.content, true, valid);
      var before, after := DropEmpty(Chosen(init, choose)), Canonical(init, own, true, valid);
      DropEmptySnoc(Chosen(init, choose), last.(content := picked));
      if kept == [] {
        NothingInNothing(picked);
      } else if picked == [] {
        WithinSkip(before, after, last.(content := kept));
      } else {
        WithinBoth(before, last.(content := picked), after, last.(content := kept));
      }
    }
  }

  lemma DropEmptySnoc(rows: seq<Stored>, row: Stored)
    ensures DropEmpty(rows + [row]) == DropEmpty(rows) + (if row.content == [] then [] else [row])
  {
    assert (rows + [row])[..|rows|] == rows;
  }

  lemma {:induction false} ChosenRow(rows: seq<Stored>, choose: (nat, nat) -> bool, i: nat)
    requires i < |rows|
    ensures i < |Chosen(rows, choose)| == |rows|
    ensures Chosen(rows, choose)[i] == rows[i].(content := Pick(rows[i].content, i, choose))
    decreases |rows|
  {
    hide Pick;
    ChosenIds(rows, choose, CallSide);
    if i < |rows| - 1 { ChosenRow(rows[..|rows| - 1], choose, i); }
  }

  /** The history is the greatest closed one. Choose any blocks of the readable
      messages, position by position: if every chosen tool block has an id and
      the chosen calls and results have the same ids, the whole choice lies
      within the history, messages in order and blocks in order. */
  lemma HistoryIsGreatest(stored: seq<Stored>, own: string, choose: (nat, nat) -> bool)
    ensures var readable := Readable(stored, own);
            var chosen := Chosen(readable, choose);
            Ids(chosen, CallSide) == Ids(chosen, ResultSide) && (forall i :: 0 <= i < |chosen| ==> Identified(chosen[i].content))
            ==> Within(DropEmpty(chosen), History(stored, own, true))
  {
    hide Readable, Pick, Filter, BlockIds, Ids, Chosen, Canonical, DropEmpty, Within, SubSeq, Identified;
    var rows := Readable(stored, own);
    var chosen, valid := Chosen(rows, choose), ValidPairs(rows);
    ChosenIds(rows, choose, CallSide);
    ChosenIds(rows, choose, ResultSide);
    if Ids(chosen, CallSide) == Ids(chosen, ResultSide) && forall i :: 0 <= i < |chosen| ==> Identified(chosen[i].content) {
      forall i | 0 <= i < |rows| ensures SubSeq(Pick(rows[i].content, i, choose), Filter(rows[i].content, true, valid)) {
        ChosenRow(rows, choose, i);
        RowInChoice(rows, choose, CallSide, i);
        RowInChoice(rows, choose, ResultSide, i);
        assert Identified(chosen[i].content);
        PickWithinFilter(rows[i].content, i, choose, valid);
      }
      ChosenWithinCanonical(rows, own, choose, valid);
    }
  }

  lemma {:induction false} FilterIsSubSeq(content: seq<Block>, tools: bool, valid: set<string>)
    ensures SubSeq(Filter(content, tools, valid), content)
  {
    hide Keep, SubSeq;
    if content == [] {
      EmptySubSeq();
    } else {
      var k := |content| - 1;
      FilterIsSubSeq(content[..k], tools, valid);
      assert content == content[..k] + [content[k]];
      if Keep(content[k], tools, valid) {
        SubSeqBoth(Filter(content[..k], tools, valid), content[..k], content[k]);
      } else {
        SubSeqSkip(Filter(content[..k], tools, valid), content[..k], content[k]);
      }
    }
  }

  lemma {:induction false} CanonicalIsWithin(rows: seq<Stored>, own: string, withTools: bool, valid: set<string>)
    ensures Within(Canonical(rows, own, withTools, valid), rows)
  {
    hide Filter, SubSeq, Within;
    EmptySubSeq();
    if rows != [] {
      var n := |rows| - 1;
      var last := rows[n];
      CanonicalIsWithin(rows[..n], own, withTools, valid);
      assert rows == rows[..n] + [last];
      var blocks := Filter(last.content, last.node == own || withTools, valid);
      FilterIsSubSeq(last.content, last.node == own || withTools, valid);
      if blocks == [] {
        WithinSkip(Canonical(rows[..n], own, withTools, valid), rows[..n], last);
      } else {
        WithinBoth(Canonical(rows[..n], own, withTools, valid), last.(content := blocks), rows[..n], last);
      }
    }
  }

  /** And it is one of them: readable messages with some blocks left out. */
  lemma HistoryIsWithin(stored: seq<Stored>, own: string, withTools: bool)
    ensures Within(History(stored, own, withTools), Readable(stored, own))
  {
    hide Within, Readable, Canonical, ValidPairs;
    CanonicalIsWithin(Readable(stored, own), own, withTools, ValidPairs(Readable(stored, own)));
  }

  // ---------------------------------------------------------------- filtering again changes nothing

  lemma {:induction false} FilterTwice(content: seq<Block>, tools: bool, valid: set<string>)
    ensures Filter(Filter(content, tools, valid), tools, valid) == Filter(content, tools, valid)
  {
    if content != [] {
      var init, last := content[..|content| - 1], content[|content| - 1];
      FilterTwice(init, tools, valid);
      if Keep(last, tools, valid) {
        assert (Filter(init, tools, valid) + [last])[..|Filter(init, tools, valid)|] == Filter(init, tools, valid);
      }
    }
  }

  lemma CanonicalSnoc(rows: seq<Stored>, row: Stored, own: string, withTools: bool, valid: set<string>)
    ensures Canonical(rows + [row], own, withTools, valid) ==
            var blocks := Filter(row.content, row.node == own || withTools, valid);
            Canonical(rows, own, withTools, valid) + (if blocks == [] then [] else [row.(content := blocks)])
  {
    assert (rows + [row])[..|rows|] == rows;
  }

  lemma {:induction false} CanonicalTwice(rows: seq<Stored>, own: string, withTools: bool, valid: set<string>)
    ensures var once := Canonical(rows, own, withTools, valid);
            Canonical(once, own, withTools, valid) == once
  {
    hide Filter;
    if rows != [] {
      var init, last := rows[..|rows| - 1], rows[|rows| - 1];
      CanonicalTwice(init, own, withTools, valid);
      var blocks := Filter(last.content, last.node == own || withTools, valid);
      FilterTwice(last.content, last.node == own || withTools, valid);
      CanonicalSnoc(Canonical(init, own, withTools, valid), last.(content := blocks), own, withTools, valid);
    }
  }

  lemma {:induction false} AlreadyReadable(rows: seq<Stored>, own: string)
    requires forall i :: 0 <= i < |rows| ==> !(rows[i].node == own && rows[i].partial)
    ensures Readable(rows, own) == rows
  {
    if rows != [] { AlreadyReadable(rows[..|rows| - 1], own); }
  }

  lemma {:induction false} CanonicalReadable(rows: seq<Stored>, own: string, withTools: bool, valid: set<string>)
    requires forall i :: 0 <= i < |rows| ==> !(rows[i].node == own && rows[i].partial)
    ensures forall i :: 0 <= i < |Canonical(rows, own, withTools, valid)| ==>
              !(Canonical(rows, own, withTools, valid)[i].node == own && Canonical(rows, own, withTools, valid)[i].partial)
  {
    hide Filter;
    if rows != [] { CanonicalReadable(rows[..|rows| - 1], own, withTools, valid); }
  }

  lemma {:induction false} ReadableRows(rows: seq<Stored>, own: string)
    ensures forall i :: 0 <= i < |Readable(rows, own)| ==> !(Readable(rows, own)[i].node == own && Readable(rows, own)[i].partial)
  {
    if rows != [] { ReadableRows(rows[..|rows| - 1], own); }
  }

  /** Loading a history that was already filtered gives it back unchanged. */
  lemma HistoryIsIdempotent(rows: seq<Stored>, own: string)
    ensures History(History(rows, own, true), own, true) == History(rows, own, true)
  {
    hide Canonical, Readable, Ids;
    var readable := Readable(rows, own);
    var once := History(rows, own, true);
    HistoryIsClosed(rows, own);
    ReadableRows(rows, own);
    CanonicalReadable(readable, own, true, ValidPairs(readable));
    AlreadyReadable(once, own);
    CanonicalTwice(readable, own, true, ValidPairs(readable));
    assert ValidPairs(once) == ValidPairs(readable);
  }

  /** No message of a history is empty. */
  lemma NoEmptyMessages(stored: seq<Stored>, own: string, withTools: bool)
    ensures forall i :: 0 <= i < |History(stored, own, withTools)| ==> History(stored, own, withTools)[i].content != []
  {
    var readable := Readable(stored, own);
    CanonicalNotEmpty(readable, own, withTools, ValidPairs(readable));
  }

  lemma {:induction false} CanonicalNotEmpty(rows: seq<Stored>, own: string, withTools: bool, valid: set<string>)
    ensures forall i :: 0 <= i < |Canonical(rows, own, withTools, valid)| ==> Canonical(rows, own, withTools, valid)[i].content != []
  {
    if rows != [] { CanonicalNotEmpty(rows[..|rows| - 1], own, withTools, valid); }
  }
}
