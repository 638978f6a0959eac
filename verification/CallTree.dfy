/** The call trace of one transaction as the chain reports it, and the scan that
    recovers the event payloads one instruction emitted itself
    (src/utils/transaction.rs). */
module CallTree {
  import opened Prelude

  /** A compiled instruction: program index, account indexes, data bytes. */
  datatype Ix = Ix(program: nat, accounts: seq<byte>, data: seq<byte>)

  /** An inner instruction; the stack height may be missing from old metadata. */
  datatype Inner = Inner(ix: Ix, height: Option<nat>)

  /** All inner instructions below the top-level instruction `index`. */
  datatype Block = Block(index: nat, instrs: seq<Inner>)

  /** An event payload, from the event discriminator on. */
  type Payload = d: seq<byte> | |d| >= 8 witness seq(8, i => 0)

  /** A payload together with the position of the inner instruction that carries it. */
  datatype Emitted = Emitted(pos: nat, data: Payload)

  // ----- the scan, as the collector writes it -----

  predicate Deeper(i: Inner, tradeStack: nat) {
    i.height.None? || i.height.value > tradeStack
  }

  predicate DirectChild(i: Inner, tradeStack: nat) {
    i.height.None? || i.height.value == tradeStack + 1
  }

  /** What one instruction contributes to the scan: its data after the 8-byte emit prefix,
      when it is a self-call of `program` long enough to hold an event. */
  function EventOf(ix: Ix, pos: nat, program: nat): seq<Emitted> {
    if ix.program == program && |ix.data| >= 16 then [Emitted(pos, ix.data[8..])] else []
  }

  /** The event an inner instruction adds to the scan of a trade at `tradeStack`. */
  function OwnEvent(i: Inner, pos: nat, tradeStack: nat, program: nat): seq<Emitted> {
    if DirectChild(i, tradeStack) then EventOf(i.ix, pos, program) else []
  }

  /** The skip / take_while / filter chain over one block, from `pos` on. */
  function Scan(s: seq<Inner>, pos: nat, tradeStack: nat, program: nat): seq<Emitted>
    decreases |s| - pos
  {
    if pos >= |s| || !Deeper(s[pos], tradeStack) then []
    else OwnEvent(s[pos], pos, tradeStack, program) + Scan(s, pos + 1, tradeStack, program)
  }

  function FindBlock(blocks: seq<Block>, outer: nat): (r: seq<Inner>)
    ensures r == [] || exists b :: b in blocks && b.index == outer && b.instrs == r
  {
    if blocks == [] then []
    else if blocks[0].index == outer then blocks[0].instrs
    else FindBlock(blocks[1..], outer)
  }

  /** Stack height of the trade whose scan starts at `start`: 1 at top level,
      otherwise read from the trade's own inner instruction. */
  function TradeStack(s: seq<Inner>, start: nat): nat {
    if start == 0 || start > |s| || s[start - 1].height.None? then 1 else s[start - 1].height.value
  }

  /** Every event the instruction at (outer, start) emits itself, in order. */
  function DirectChildEvents(blocks: seq<Block>, outer: nat, start: nat, program: nat): seq<Emitted> {
    var s := FindBlock(blocks, outer);
    Scan(s, start, TradeStack(s, start), program)
  }

  // ----- call trees -----

  /** An executed instruction and the instructions it invoked, in order. */
  datatype Node = Node(ix: Ix, children: seq<Node>)

  /** Pre-order listing of a forest whose roots run at stack height `depth`. */
  function Flatten(nodes: seq<Node>, depth: nat): (r: seq<Inner>)
    ensures |r| == Size(nodes)
  {
    if nodes == [] then []
    else [Inner(nodes[0].ix, Some(depth))] + Flatten(nodes[0].children, depth + 1) + Flatten(nodes[1..], depth)
  }

  function Size(nodes: seq<Node>): nat {
    if nodes == [] then 0 else 1 + Size(nodes[0].children) + Size(nodes[1..])
  }

  datatype Placed = Placed(node: Node, height: nat)

  /** The node listed at position `j`, and its stack height. */
  function NodeAt(nodes: seq<Node>, depth: nat, j: nat): Placed
    requires j < Size(nodes)
  {
    var inside := Size(nodes[0].children);
    if j == 0 then Placed(nodes[0], depth)
    else if j <= inside then NodeAt(nodes[0].children, depth + 1, j - 1)
    else NodeAt(nodes[1..], depth, j - 1 - inside)
  }

  /** The events among the roots of a forest listed from `at` on, each at its own position. */
  function RootEvents(nodes: seq<Node>, at: nat, program: nat): seq<Emitted> {
    if nodes == [] then []
    else EventOf(nodes[0].ix, at, program) + RootEvents(nodes[1..], at + 1 + Size(nodes[0].children), program)
  }

  /** `s` holds the listing of `nodes` from position `at` on. */
  ghost predicate ListedAt(s: seq<Inner>, at: nat, nodes: seq<Node>, depth: nat)
    decreases nodes
  {
    at + Size(nodes) <= |s| &&
    (nodes == [] ||
     (&& s[at] == Inner(nodes[0].ix, Some(depth))
      && ListedAt(s, at + 1, nodes[0].children, depth + 1)
      && ListedAt(s, at + 1 + Size(nodes[0].children), nodes[1..], depth)))
  }

  lemma {:induction false} FlattenIsListed(before: seq<Inner>, nodes: seq<Node>, depth: nat, after: seq<Inner>)
    ensures ListedAt(before + Flatten(nodes, depth) + after, |before|, nodes, depth)
    decreases nodes
  {
    if nodes != [] {
      var root := [Inner(nodes[0].ix, Some(depth))];
      var kids, rest := Flatten(nodes[0].children, depth + 1), Flatten(nodes[1..], depth);
      var s := before + Flatten(nodes, depth) + after;
      assert s == (before + root) + kids + (rest + after);
      FlattenIsListed(before + root, nodes[0].children, depth + 1, rest + after);
      assert s == (before + root + kids) + rest + after;
      FlattenIsListed(before + root + kids, nodes[1..], depth, after);
    }
  }

  lemma {:induction false} ListedHeight(s: seq<Inner>, at: nat, nodes: seq<Node>, depth: nat, k: nat)
    requires ListedAt(s, at, nodes, depth) && at <= k < at + Size(nodes)
    ensures s[k].height.Some? && s[k].height.value >= depth
    decreases nodes
  {
    var next := at + 1 + Size(nodes[0].children);
    if k == at {
    } else if k < next {
      ListedHeight(s, at + 1, nodes[0].children, depth + 1, k);
    } else {
      ListedHeight(s, next, nodes[1..], depth, k);
    }
  }

  lemma {:induction false} ListedHeights(s: seq<Inner>, at: nat, nodes: seq<Node>, depth: nat)
    requires ListedAt(s, at, nodes, depth)
    ensures at + Size(nodes) <= |s|
    ensures forall k :: at <= k < at + Size(nodes) ==> s[k].height.Some? && s[k].height.value >= depth
  {
    forall k | at <= k < at + Size(nodes) ensures s[k].height.Some? && s[k].height.value >= depth {
      ListedHeight(s, at, nodes, depth, k);
    }
  }

  /** A forest at `depth` ends at `end`: nothing follows, or something no deeper than its parent. */
  ghost predicate EndsAt(s: seq<Inner>, end: nat, depth: nat) {
    end == |s| || (end < |s| && s[end].height.Some? && s[end].height.value < depth)
  }

  // ----- the scan recovers exactly the immediate children -----

  lemma {:induction false} ScanSkipsDeeper(s: seq<Inner>, at: nat, n: nat, tradeStack: nat, program: nat)
    requires at + n <= |s|
    requires forall k :: at <= k < at + n ==> s[k].height.Some? && s[k].height.value > tradeStack + 1
    ensures Scan(s, at, tradeStack, program) == Scan(s, at + n, tradeStack, program)
    decreases n
  {
    if n > 0 {
      ScanSkipsDeeper(s, at + 1, n - 1, tradeStack, program);
    }
  }

  lemma {:induction false} ScanRoot(s: seq<Inner>, at: nat, root: Node, depth: nat, program: nat)
    requires depth > 0 && at < |s| && s[at] == Inner(root.ix, Some(depth))
    requires ListedAt(s, at + 1, root.children, depth + 1)
    ensures Scan(s, at, depth - 1, program)
         == EventOf(root.ix, at, program) + Scan(s, at + 1 + Size(root.children), depth - 1, program)
  {
    ScanOne(s, at, root.ix, depth, program);
    ScanListed(s, at + 1, root.children, depth, program);
  }

  lemma {:induction false} ScanOne(s: seq<Inner>, at: nat, ix: Ix, depth: nat, program: nat)
    requires depth > 0 && at < |s| && s[at] == Inner(ix, Some(depth))
    ensures Scan(s, at, depth - 1, program) == EventOf(ix, at, program) + Scan(s, at + 1, depth - 1, program)
  {
  }

  lemma {:induction false} ScanListed(s: seq<Inner>, at: nat, nodes: seq<Node>, depth: nat, program: nat)
    requires depth > 0 && ListedAt(s, at, nodes, depth + 1)
    ensures Scan(s, at, depth - 1, program) == Scan(s, at + Size(nodes), depth - 1, program)
  {
    ListedHeights(s, at, nodes, depth + 1);
    ScanSkipsDeeper(s, at, Size(nodes), depth - 1, program);
  }

  lemma {:induction false} ScanForest(s: seq<Inner>, at: nat, nodes: seq<Node>, depth: nat, program: nat)
    requires depth > 0 && ListedAt(s, at, nodes, depth)
    ensures Scan(s, at, depth - 1, program)
         == RootEvents(nodes, at, program) + Scan(s, at + Size(nodes), depth - 1, program)
    decreases nodes
  {
    if nodes != [] {
      var root, next := nodes[0], at + 1 + Size(nodes[0].children);
      ScanRoot(s, at, root, depth, program);
      ScanForest(s, next, nodes[1..], depth, program);
    }
  }

  /** A complete listed forest: the scan at its parent's height yields its roots' events. */
  lemma {:induction false} ScanSubtree(s: seq<Inner>, at: nat, nodes: seq<Node>, height: nat, program: nat)
    requires ListedAt(s, at, nodes, height + 1) && EndsAt(s, at + Size(nodes), height + 1)
    ensures Scan(s, at, height, program) == RootEvents(nodes, at, program)
  {
    ScanForest(s, at, nodes, height + 1, program);
    assert Scan(s, at + Size(nodes), height, program) == [];
  }

  /** The node `p` is listed at position `k`, with its complete subtree right behind it. */
  ghost predicate SubtreeAt(s: seq<Inner>, k: nat, p: Placed) {
    && k < |s| && s[k] == Inner(p.node.ix, Some(p.height))
    && ListedAt(s, k + 1, p.node.children, p.height + 1)
    && EndsAt(s, k + 1 + Size(p.node.children), p.height + 1)
  }

  lemma {:induction false} FirstSubtreeEnds(s: seq<Inner>, at: nat, nodes: seq<Node>, depth: nat)
    requires ListedAt(s, at, nodes, depth) && EndsAt(s, at + Size(nodes), depth) && nodes != []
    ensures EndsAt(s, at + 1 + Size(nodes[0].children), depth + 1)
  {
  }

  lemma {:induction false} NodeIsListed(s: seq<Inner>, at: nat, nodes: seq<Node>, depth: nat, j: nat)
    requires ListedAt(s, at, nodes, depth) && EndsAt(s, at + Size(nodes), depth)
    requires j < Size(nodes)
    ensures SubtreeAt(s, at + j, NodeAt(nodes, depth, j))
    decreases nodes
  {
    var kids := nodes[0].children;
    FirstSubtreeEnds(s, at, nodes, depth);
    if 0 < j <= Size(kids) {
      NodeIsListed(s, at + 1, kids, depth + 1, j - 1);
    } else if j > Size(kids) {
      NodeIsListed(s, at + 1 + Size(kids), nodes[1..], depth, j - 1 - Size(kids));
    }
  }

  lemma {:induction false} ScanOfListedNode(s: seq<Inner>, kids: seq<Node>, j: nat, program: nat)
    requires ListedAt(s, 0, kids, 2) && |s| == Size(kids) && j < Size(kids)
    ensures var p := NodeAt(kids, 2, j);
            && s[j].ix == p.node.ix
            && Scan(s, j + 1, TradeStack(s, j + 1), program) == RootEvents(p.node.children, j + 1, program)
  {
    NodeIsListed(s, 0, kids, 2, j);
    ScanOfSubtree(s, j, NodeAt(kids, 2, j), program);
  }

  lemma {:induction false} ScanOfSubtree(s: seq<Inner>, k: nat, p: Placed, program: nat)
    requires SubtreeAt(s, k, p)
    ensures s[k].ix == p.node.ix
    ensures Scan(s, k + 1, TradeStack(s, k + 1), program) == RootEvents(p.node.children, k + 1, program)
  {
    ScanSubtree(s, k + 1, p.node.children, p.height, program);
  }

  // ----- a whole transaction -----

  ghost predicate IndexesDistinct(blocks: seq<Block>) {
    forall a, b :: 0 <= a < b < |blocks| ==> blocks[a].index != blocks[b].index
  }

  /** `blocks` is the chain's record of executing the top-level calls `tops`: one block per
      top-level call that invoked anything, top level at stack height 1. */
  ghost predicate Recorded(blocks: seq<Block>, tops: seq<Node>) {
    && IndexesDistinct(blocks)
    && (forall b :: b in blocks ==> b.index < |tops| && b.instrs == Flatten(tops[b.index].children, 2))
    && (forall i :: 0 <= i < |tops| && tops[i].children != [] ==> HasBlock(blocks, i))
  }

  ghost predicate HasBlock(blocks: seq<Block>, i: nat) {
    exists b :: b in blocks && b.index == i
  }

  lemma {:induction false} FindBlockFinds(blocks: seq<Block>, outer: nat, expected: seq<Inner>)
    requires forall b :: b in blocks && b.index == outer ==> b.instrs == expected
    requires HasBlock(blocks, outer) || expected == []
    ensures FindBlock(blocks, outer) == expected
  {
    if blocks != [] && blocks[0].index != outer {
      assert forall b :: b in blocks[1..] ==> b in blocks;
      if HasBlock(blocks, outer) {
        var b :| b in blocks && b.index == outer;
        assert b in blocks[1..];
      }
      FindBlockFinds(blocks[1..], outer, expected);
    } else if blocks != [] {
      assert blocks[0] in blocks;
    }
  }

  /** The call the collector names by (outer, start). */
  function Called(tops: seq<Node>, outer: nat, start: nat): Node
    requires outer < |tops| && start <= Size(tops[outer].children)
  {
    CalledBelow(tops[outer], start)
  }

  function CalledBelow(top: Node, start: nat): Node
    requires start <= Size(top.children)
  {
    if start == 0 then top else NodeAt(top.children, 2, start - 1).node
  }

  lemma {:induction false} ScanOfCall(s: seq<Inner>, top: Node, start: nat, program: nat)
    requires ListedAt(s, 0, top.children, 2) && |s| == Size(top.children) && start <= |s|
    ensures Scan(s, start, TradeStack(s, start), program)
         == RootEvents(CalledBelow(top, start).children, start, program)
    ensures start > 0 ==> s[start - 1].ix == CalledBelow(top, start).ix
  {
    if start == 0 {
      ScanOfTop(s, top, program);
    } else {
      ScanOfInner(s, top, start, program);
    }
  }

  lemma {:induction false} ScanOfTop(s: seq<Inner>, top: Node, program: nat)
    requires ListedAt(s, 0, top.children, 2) && |s| == Size(top.children)
    ensures Scan(s, 0, TradeStack(s, 0), program) == RootEvents(CalledBelow(top, 0).children, 0, program)
  {
    ScanSubtree(s, 0, top.children, 1, program);
  }

  lemma {:induction false} ScanOfInner(s: seq<Inner>, top: Node, start: nat, program: nat)
    requires ListedAt(s, 0, top.children, 2) && |s| == Size(top.children) && 0 < start <= |s|
    ensures Scan(s, start, TradeStack(s, start), program)
         == RootEvents(CalledBelow(top, start).children, start, program)
    ensures s[start - 1].ix == CalledBelow(top, start).ix
  {
    ScanOfListedNode(s, top.children, start - 1, program);
  }

  lemma {:induction false} BlockListsSubtree(blocks: seq<Block>, tops: seq<Node>, outer: nat)
    requires Recorded(blocks, tops) && outer < |tops|
    ensures FindBlock(blocks, outer) == Flatten(tops[outer].children, 2)
    ensures ListedAt(FindBlock(blocks, outer), 0, tops[outer].children, 2)
  {
    var s := Flatten(tops[outer].children, 2);
    FindBlockFinds(blocks, outer, s);
    FlattenIsListed([], tops[outer].children, 2, []);
    assert [] + s + [] == s;
  }

  /** For every call of every transaction, `direct_child_events` returns exactly the events
      among that call's immediate children, in execution order and each from its own
      position: nothing deeper and nothing of a sibling's subtree. */
  lemma {:induction false} DirectChildEventsAreChildren(blocks: seq<Block>, tops: seq<Node>, outer: nat, start: nat,
                                                        program: nat)
    requires Recorded(blocks, tops) && outer < |tops| && start <= Size(tops[outer].children)
    ensures DirectChildEvents(blocks, outer, start, program)
         == RootEvents(Called(tops, outer, start).children, start, program)
    ensures FindBlock(blocks, outer) == Flatten(tops[outer].children, 2)
    ensures start > 0 ==> FindBlock(blocks, outer)[start - 1].ix == Called(tops, outer, start).ix
  {
    BlockListsSubtree(blocks, tops, outer);
    ScanOfCall(FindBlock(blocks, outer), tops[outer], start, program);
  }

  // ----- an event belongs to one call only -----

  lemma {:induction false} ScanMember(s: seq<Inner>, pos: nat, tradeStack: nat, program: nat, e: Emitted)
    requires e in Scan(s, pos, tradeStack, program)
    ensures pos <= e.pos < |s| && DirectChild(s[e.pos], tradeStack)
    ensures forall k :: pos <= k <= e.pos ==> Deeper(s[k], tradeStack)
    ensures [e] == EventOf(s[e.pos].ix, e.pos, program)
    decreases |s| - pos
  {
    if e in Scan(s, pos + 1, tradeStack, program) {
      ScanMember(s, pos + 1, tradeStack, program, e);
    }
  }

  lemma {:induction false} ScanAscends(s: seq<Inner>, pos: nat, tradeStack: nat, program: nat, i: nat, j: nat)
    requires i < j < |Scan(s, pos, tradeStack, program)|
    ensures Scan(s, pos, tradeStack, program)[i].pos < Scan(s, pos, tradeStack, program)[j].pos
    decreases |s| - pos
  {
    var r, tail := Scan(s, pos, tradeStack, program), Scan(s, pos + 1, tradeStack, program);
    var own := |r| - |tail|;
    if i >= own {
      ScanAscends(s, pos + 1, tradeStack, program, i - own, j - own);
    } else {
      ScanMember(s, pos + 1, tradeStack, program, tail[j - own]);
    }
  }

  ghost predicate HeightsPresent(s: seq<Inner>) {
    forall k :: 0 <= k < |s| ==> s[k].height.Some?
  }

  /** Two different calls recorded in one block never claim the same event, whatever the
      heights are, as long as they are present. */
  lemma {:induction false} OneCallPerEvent(s: seq<Inner>, a: nat, b: nat, programA: nat, programB: nat, ea: Emitted,
                                           eb: Emitted)
    requires HeightsPresent(s) && a < b
    requires ea in Scan(s, a, TradeStack(s, a), programA) && eb in Scan(s, b, TradeStack(s, b), programB)
    ensures ea.pos != eb.pos
  {
    ScanMember(s, a, TradeStack(s, a), programA, ea);
    ScanMember(s, b, TradeStack(s, b), programB, eb);
    assert a <= b - 1 <= ea.pos ==> Deeper(s[b - 1], TradeStack(s, a));
  }

  /** Without stack heights a nested trade's event is claimed by its caller as well. */
  lemma {:induction false} HeightsAreNeeded(trade: Ix, event: Ix, program: nat)
    requires event.program == program && |event.data| >= 16
    ensures var s := [Inner(trade, None), Inner(event, None)];
            var claimed := Emitted(1, event.data[8..]);
            claimed in Scan(s, 0, TradeStack(s, 0), program) && claimed in Scan(s, 1, TradeStack(s, 1), program)
  {
    var s := [Inner(trade, None), Inner(event, None)];
    assert Scan(s, 2, 1, program) == [];
    assert Scan(s, 1, 1, program) == [Emitted(1, event.data[8..])];
    assert Scan(s, 0, 1, program) == OwnEvent(s[0], 0, 1, program) + Scan(s, 1, 1, program);
  }
}
