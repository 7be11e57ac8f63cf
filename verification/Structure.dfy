/** Structure-aware splitting (agent_service/services/chunking_service.py, lines 71-82 and 173-293). */
module Structure {
  import opened Text
  import opened FixedSize

  datatype Kind = Para | Heading | Code | Atomic

  datatype Block = Block(kind: Kind, start: nat, end: nat)

  datatype Range = Range(start: nat, end: nat)

  /** The line patterns of the source, as arbitrary predicates on a line without its trailing blanks. */
  datatype LineRules = LineRules(fence: string -> bool, heading: string -> bool, atomic: string -> bool)

  // ---- Lines ----

  function LineBreakAt(text: string, pos: nat): (r: nat)
    requires pos <= |text|
    ensures pos <= r <= |text|
  {
    var hit := Find(text, "\n", pos);
    if hit < 0 then |text| else hit
  }

  function NextLine(text: string, pos: nat): (r: nat)
    requires pos <= |text|
    ensures pos <= r <= |text| && (pos < |text| ==> pos < r)
  {
    var e := LineBreakAt(text, pos);
    if e < |text| then e + 1 else e
  }

  function TrimBlanks(line: string): string {
    if line != "" && line[|line| - 1] in " \t" then TrimBlanks(line[..|line| - 1]) else line
  }

  /** The line that starts at `pos`, without its trailing blanks. */
  function LineAt(text: string, pos: nat): string
    requires pos <= |text|
  {
    TrimBlanks(text[pos..LineBreakAt(text, pos)])
  }

  datatype LineKind = FenceLine | BlankLine | HeadingLine | AtomicLine | PlainLine

  /** How a line outside a fence is taken, in the order of the tests. */
  function Classify(rules: LineRules, line: string): LineKind {
    if rules.fence(line) then FenceLine
    else if line == "" then BlankLine
    else if rules.heading(line) then HeadingLine
    else if rules.atomic(line) then AtomicLine
    else PlainLine
  }

  /** `[a, b)` is made of whole lines, all of which satisfy `p`. */
  ghost predicate AllLines(text: string, a: nat, b: nat, p: string -> bool)
    decreases |text| - a
  {
    a == b <= |text| || (a < b <= |text| && NextLine(text, a) <= b && p(LineAt(text, a)) && AllLines(text, NextLine(text, a), b, p))
  }

  lemma {:induction false} AddLine(text: string, a: nat, b: nat, p: string -> bool)
    requires AllLines(text, a, b, p) && b < |text| && p(LineAt(text, b))
    ensures AllLines(text, a, NextLine(text, b), p)
    decreases |text| - a
  {
    if a < b {
      AddLine(text, NextLine(text, a), b, p);
    }
  }

  // ---- Segmentation ----

  ghost function Is(rules: LineRules, kind: LineKind): string -> bool {
    line => Classify(rules, line) == kind
  }

  ghost function NotFence(rules: LineRules): string -> bool {
    line => !rules.fence(line)
  }

  /** A block is exactly what its kind says. */
  ghost predicate BlockFits(rules: LineRules, text: string, b: Block) {
    && b.start < b.end <= |text|
    && match b.kind
       case Heading => b.end == NextLine(text, b.start) && Classify(rules, LineAt(text, b.start)) == HeadingLine
       case Atomic => b.end == NextLine(text, b.start) && Classify(rules, LineAt(text, b.start)) == AtomicLine
       case Para => AllLines(text, b.start, b.end, Is(rules, PlainLine))
       case Code => rules.fence(LineAt(text, b.start)) && exists close :: Fenced(rules, text, b, close)
  }

  /** A fenced block runs to the next fence line, or to the end of the text when there is none. */
  ghost predicate Fenced(rules: LineRules, text: string, b: Block, close: nat) {
    && b.start < |text|
    && AllLines(text, NextLine(text, b.start), close, NotFence(rules))
    && ( || (close < |text| && rules.fence(LineAt(text, close)) && b.end == NextLine(text, close))
         || (close == |text| == b.end))
  }

  /** The blocks account for the text up to `upTo`: blank lines between them, paragraphs maximal. */
  ghost predicate Segmented(rules: LineRules, text: string, blocks: seq<Block>, upTo: nat) {
    if blocks == [] then AllLines(text, 0, upTo, Is(rules, BlankLine))
    else
      var n := |blocks| - 1;
      && Segmented(rules, text, blocks[..n], blocks[n].start)
      && BlockFits(rules, text, blocks[n])
      && AllLines(text, blocks[n].end, upTo, Is(rules, BlankLine))
      && (blocks[n].kind == Para ==> ParaMayStart(blocks[..n], blocks[n].start))
  }

  ghost predicate ParaMayStart(blocks: seq<Block>, pos: nat) {
    blocks != [] && blocks[|blocks| - 1].kind == Para ==> blocks[|blocks| - 1].end < pos
  }

  lemma AddBlock(rules: LineRules, text: string, blocks: seq<Block>, b: Block)
    requires Segmented(rules, text, blocks, b.start) && BlockFits(rules, text, b)
    requires b.kind == Para ==> ParaMayStart(blocks, b.start)
    ensures Segmented(rules, text, blocks + [b], b.end)
  {
    assert (blocks + [b])[..|blocks|] == blocks;
  }

  lemma AddBlankLine(rules: LineRules, text: string, blocks: seq<Block>, pos: nat)
    requires Segmented(rules, text, blocks, pos) && pos < |text|
    requires Classify(rules, LineAt(text, pos)) == BlankLine
    ensures Segmented(rules, text, blocks, NextLine(text, pos))
  {
    AddLine(text, if blocks == [] then 0 else blocks[|blocks| - 1].end, pos, Is(rules, BlankLine));
  }

  /** The source's two flags and their start positions; the flags are never both set. */
  datatype Mode = Outside | InFence(start: nat) | InPara(start: nat)

  /** Where the scan stands: between blocks, in a paragraph, or behind an open fence. */
  ghost predicate Scanning(rules: LineRules, text: string, blocks: seq<Block>, pos: nat, mode: Mode) {
    && pos <= |text|
    && match mode
       case Outside => Segmented(rules, text, blocks, pos) && ParaMayStart(blocks, pos)
       case InFence(start) =>
         && start < pos && Segmented(rules, text, blocks, start)
         && rules.fence(LineAt(text, start))
         && AllLines(text, NextLine(text, start), pos, NotFence(rules))
       case InPara(start) =>
         && start < pos && Segmented(rules, text, blocks, start) && ParaMayStart(blocks, start)
         && AllLines(text, start, pos, Is(rules, PlainLine))
  }

  /** The scanning loop. */
  method SegmentToBlocks(rules: LineRules, text: string) returns (blocks: seq<Block>)
    ensures Segmented(rules, text, blocks, |text|)
  {
    blocks := [];
    var pos := 0;
    var mode := Outside;
    while pos < |text|
      invariant Scanning(rules, text, blocks, pos, mode)
      decreases |text| - pos
    {
      if mode.InFence? {
        blocks, mode := ScanFenced(rules, text, blocks, pos, mode);
      } else {
        blocks, mode := ScanOutside(rules, text, blocks, pos, mode);
      }
      pos := NextLine(text, pos);
    }
    blocks := CloseScan(rules, text, blocks, mode);
  }

  /** What is still open at the end of the text. */
  method CloseScan(rules: LineRules, text: string, blocks: seq<Block>, mode: Mode) returns (closed: seq<Block>)
    requires Scanning(rules, text, blocks, |text|, mode)
    ensures Segmented(rules, text, closed, |text|)
    ensures closed == if mode.InFence? then blocks + [Block(Code, mode.start, |text|)]
                      else if mode.InPara? then blocks + [Block(Para, mode.start, |text|)] else blocks
  {
    if mode.InFence? {
      OpenFenceIsBlock(rules, text, blocks, mode.start);
      closed := blocks + [Block(Code, mode.start, |text|)];
    } else {
      closed := ClosePara(rules, text, blocks, |text|, mode);
    }
  }

  /** A fence that is never closed reaches to the end of the text. */
  lemma OpenFenceIsBlock(rules: LineRules, text: string, blocks: seq<Block>, start: nat)
    requires Scanning(rules, text, blocks, |text|, InFence(start))
    ensures Segmented(rules, text, blocks + [Block(Code, start, |text|)], |text|)
  {
    var b := Block(Code, start, |text|);
    assert Fenced(rules, text, b, |text|);
    AddBlock(rules, text, blocks, b);
  }

  /** One line behind an open fence. */
  method ScanFenced(rules: LineRules, text: string, blocks: seq<Block>, pos: nat, mode: Mode)
    returns (after: seq<Block>, next: Mode)
    requires pos < |text| && Scanning(rules, text, blocks, pos, mode) && mode.InFence?
    ensures Scanning(rules, text, after, NextLine(text, pos), next)
  {
    if rules.fence(LineAt(text, pos)) {
      var b := Block(Code, mode.start, NextLine(text, pos));
      assert Fenced(rules, text, b, pos);
      AddBlock(rules, text, blocks, b);
      return blocks + [b], Outside;
    }
    AddLine(text, NextLine(text, mode.start), pos, NotFence(rules));
    return blocks, mode;
  }

  /** One line outside any fence. */
  method ScanOutside(rules: LineRules, text: string, blocks: seq<Block>, pos: nat, mode: Mode)
    returns (after: seq<Block>, next: Mode)
    requires pos < |text| && Scanning(rules, text, blocks, pos, mode) && !mode.InFence?
    ensures Scanning(rules, text, after, NextLine(text, pos), next)
  {
    var trimmed := LineAt(text, pos);
    if rules.fence(trimmed) {
      after := ClosePara(rules, text, blocks, pos, mode);
      return after, InFence(pos);
    }
    if trimmed == "" {
      after := ClosePara(rules, text, blocks, pos, mode);
      AddBlankLine(rules, text, after, pos);
      return after, Outside;
    }
    if rules.heading(trimmed) {
      after := ClosePara(rules, text, blocks, pos, mode);
      AddBlock(rules, text, after, Block(Heading, pos, NextLine(text, pos)));
      return after + [Block(Heading, pos, NextLine(text, pos))], Outside;
    }
    if rules.atomic(trimmed) {
      after := ClosePara(rules, text, blocks, pos, mode);
      AddBlock(rules, text, after, Block(Atomic, pos, NextLine(text, pos)));
      return after + [Block(Atomic, pos, NextLine(text, pos))], Outside;
    }
    after, next := blocks, if mode.InPara? then mode else InPara(pos);
    AddLine(text, next.start, pos, Is(rules, PlainLine));
  }

  /** Ends an open paragraph at `pos`, when there is one. */
  method ClosePara(rules: LineRules, text: string, blocks: seq<Block>, pos: nat, mode: Mode)
    returns (closed: seq<Block>)
    requires Scanning(rules, text, blocks, pos, mode) && !mode.InFence?
    ensures closed == if mode.InPara? then blocks + [Block(Para, mode.start, pos)] else blocks
    ensures Segmented(rules, text, closed, pos)
    ensures closed != [] ==> closed[|closed| - 1].end <= pos
  {
    closed := blocks;
    if mode.InPara? {
      AddBlock(rules, text, blocks, Block(Para, mode.start, pos));
      closed := blocks + [Block(Para, mode.start, pos)];
    }
  }

  lemma {:induction false} TrimmedAway(line: string, k: nat)
    requires TrimBlanks(line) == "" && k < |line|
    ensures line[k] in " \t"
  {
    if k < |line| - 1 {
      TrimmedAway(line[..|line| - 1], k);
    }
  }

  predicate BlankChar(c: char) {
    c in " \t\r\n"
  }

  predicate AllBlank(text: string, a: nat, b: nat)
    requires a <= b <= |text|
  {
    forall p | a <= p < b :: BlankChar(text[p])
  }

  lemma {:induction false} BlankLinesAreBlank(rules: LineRules, text: string, a: nat, b: nat)
    requires AllLines(text, a, b, Is(rules, BlankLine))
    ensures a <= b <= |text| && AllBlank(text, a, b)
    decreases |text| - a
  {
    if a < b {
      BlankLinesAreBlank(rules, text, NextLine(text, a), b);
      var e := LineBreakAt(text, a);
      FindIsLeftmost(text, "\n", a);
      assert e < |text| ==> text[e + 0] == "\n"[0];
      forall p | a <= p < e
        ensures BlankChar(text[p])
      {
        TrimmedAway(text[a..e], p - a);
      }
    }
  }

  /** Where the gap after block `i` ends. */
  function NextStart(blocks: seq<Block>, i: nat, upTo: nat): nat
    requires i < |blocks|
  {
    if i + 1 < |blocks| then blocks[i + 1].start else upTo
  }

  /** Blocks come in order, and between, before and after them the text is blank. */
  ghost predicate Ordered(text: string, blocks: seq<Block>, upTo: nat) {
    && upTo <= |text|
    && (forall i | 0 <= i < |blocks| :: blocks[i].start < blocks[i].end <= NextStart(blocks, i, upTo) <= |text|)
    && (forall i | 0 <= i < |blocks| :: AllBlank(text, blocks[i].end, NextStart(blocks, i, upTo)))
    && (if blocks == [] then AllBlank(text, 0, upTo) else AllBlank(text, 0, blocks[0].start))
  }

  lemma OrderedSnoc(text: string, init: seq<Block>, b: Block, upTo: nat)
    requires Ordered(text, init, b.start)
    requires b.start < b.end <= upTo <= |text| && AllBlank(text, b.end, upTo)
    ensures Ordered(text, init + [b], upTo)
  {
    var blocks, n := init + [b], |init|;
    forall i | 0 <= i < n
      ensures blocks[i] == init[i] && NextStart(blocks, i, upTo) == NextStart(init, i, b.start)
    {}
    forall i | 0 <= i < n + 1
      ensures blocks[i].start < blocks[i].end <= NextStart(blocks, i, upTo) <= |text|
      ensures AllBlank(text, blocks[i].end, NextStart(blocks, i, upTo))
    {
      if i < n {
        assert init[i].end <= NextStart(init, i, b.start);
      }
    }
  }

  /** Segmentation gives ordered, disjoint blocks, and every character outside them is blank. */
  lemma {:induction false} SegmentationIsOrdered(rules: LineRules, text: string, blocks: seq<Block>, upTo: nat)
    requires Segmented(rules, text, blocks, upTo)
    ensures Ordered(text, blocks, upTo)
  {
    if blocks == [] {
      BlankLinesAreBlank(rules, text, 0, upTo);
    } else {
      var n := |blocks| - 1;
      SegmentationIsOrdered(rules, text, blocks[..n], blocks[n].start);
      BlankLinesAreBlank(rules, text, blocks[n].end, upTo);
      OrderedSnoc(text, blocks[..n], blocks[n], upTo);
      assert blocks == blocks[..n] + [blocks[n]];
    }
  }

  // ---- Coalescing ----

  /** A block grown over the blank gap behind it; the last block stays as it is. */
  function Grown(text: string, blocks: seq<Block>, i: nat): Block
    requires i < |blocks|
    requires i + 1 < |blocks| ==> blocks[i].end <= blocks[i + 1].start <= |text|
  {
    if i + 1 < |blocks| && AllBlank(text, blocks[i].end, blocks[i + 1].start)
    then Block(blocks[i].kind, blocks[i].start, blocks[i + 1].start)
    else blocks[i]
  }

  method CoalesceTrailingBlanks(text: string, blocks: seq<Block>) returns (output: seq<Block>)
    requires forall i | 0 < i < |blocks| :: blocks[i - 1].end <= blocks[i].start <= |text|
    ensures |output| == |blocks|
    ensures forall i | 0 <= i < |blocks| :: output[i] == Grown(text, blocks, i)
  {
    if blocks == [] {
      return blocks;
    }
    output := [];
    var previous := blocks[0];
    for k := 1 to |blocks|
      invariant |output| == k - 1 && previous == blocks[k - 1]
      invariant forall i | 0 <= i < |output| :: output[i] == Grown(text, blocks, i)
    {
      var current := blocks[k];
      assert blocks[k - 1].end <= blocks[k].start;
      if AllBlank(text, previous.end, current.start) {
        previous := Block(previous.kind, previous.start, current.start);
      }
      output := output + [previous];
      previous := current;
    }
    output := output + [previous];
  }

  ghost predicate Contiguous(blocks: seq<Block>) {
    && (forall i | 0 <= i < |blocks| :: blocks[i].start < blocks[i].end)
    && (forall i, j | 0 <= i && j == i + 1 && j < |blocks| :: blocks[i].end == blocks[j].start)
  }

  /** After coalescing, the blocks of a segmented text follow each other without any gap. */
  lemma CoalescedIsContiguous(text: string, blocks: seq<Block>, output: seq<Block>)
    requires Ordered(text, blocks, |text|) && |output| == |blocks|
    requires forall i | 0 < i < |blocks| :: blocks[i - 1].end <= blocks[i].start <= |text|
    requires forall i | 0 <= i < |blocks| :: output[i] == Grown(text, blocks, i)
    ensures Contiguous(output)
    ensures forall i | 0 <= i < |blocks| :: output[i].start == blocks[i].start && output[i].kind == blocks[i].kind
    ensures blocks != [] ==> output[|output| - 1].end == blocks[|blocks| - 1].end
  {
    forall i, j | 0 <= i && j == i + 1 && j < |output|
      ensures output[i].end == output[j].start
    {
      assert NextStart(blocks, i, |text|) == blocks[j].start;
      assert output[i] == Grown(text, blocks, i) && output[j] == Grown(text, blocks, j);
    }
    forall i | 0 <= i < |output|
      ensures output[i].start == blocks[i].start < output[i].end
    {
      assert output[i] == Grown(text, blocks, i);
      assert blocks[i].start < blocks[i].end <= NextStart(blocks, i, |text|);
    }
  }

  // ---- Packing ----

  datatype Sizes = Sizes(min: nat, target: nat, max: nat)

  function Span(blocks: seq<Block>, a: nat, b: nat): int
    requires a < b <= |blocks|
  {
    blocks[b - 1].end - blocks[a].start
  }

  function RangeOf(blocks: seq<Block>, a: nat, b: nat): (int, int)
    requires a < b <= |blocks|
  {
    (blocks[a].start, blocks[b - 1].end)
  }

  /** How many blocks from `a` on fit into the maximum, the first one unconditionally. */
  ghost predicate Fits(blocks: seq<Block>, sizes: Sizes, a: nat, f: nat) {
    && a < f <= |blocks|
    && (forall j | a + 1 < j <= f :: Span(blocks, a, j) <= sizes.max)
    && (f < |blocks| ==> Span(blocks, a, f + 1) > sizes.max)
  }

  /** `[a, b)` is what the packer puts together from `a`: what fits, and one more when that is too little. */
  ghost predicate Takes(blocks: seq<Block>, sizes: Sizes, a: nat, b: nat) {
    exists f: nat :: Fits(blocks, sizes, a, f) && b == if f < |blocks| && Span(blocks, a, f) < sizes.min then f + 1 else f
  }

  /** Cut positions of the greedy packing of the first `upTo` blocks. */
  ghost predicate Greedy(blocks: seq<Block>, sizes: Sizes, cuts: seq<nat>, upTo: nat) {
    && cuts != [] && upTo <= |blocks| && cuts[|cuts| - 1] == upTo
    && if |cuts| == 1 then cuts[0] == 0
       else
         var n := |cuts| - 1;
         && Greedy(blocks, sizes, cuts[..n], cuts[n - 1])
         && Takes(blocks, sizes, cuts[n - 1], cuts[n])
  }

  /** The ranges between neighbouring cuts. */
  ghost predicate Between(blocks: seq<Block>, cuts: seq<nat>, ranges: seq<(int, int)>) {
    && |cuts| == |ranges| + 1
    && forall i | 0 <= i < |ranges| :: PartOf(blocks, cuts, ranges, i)
  }

  ghost predicate PartOf(blocks: seq<Block>, cuts: seq<nat>, ranges: seq<(int, int)>, i: nat)
    requires |cuts| == |ranges| + 1 && i < |ranges|
  {
    cuts[i] < cuts[i + 1] <= |blocks| && ranges[i] == RangeOf(blocks, cuts[i], cuts[i + 1])
  }

  /** Whether a short last range is merged into the one before it. */
  predicate Merges(ranges: seq<(int, int)>, sizes: Sizes) {
    var k := |ranges|;
    && k >= 2
    && ranges[k - 1].1 - ranges[k - 1].0 < Min(sizes.min, sizes.target / 2)
    && ranges[k - 1].1 - ranges[k - 2].0 <= sizes.max * 2
  }

  /** The packing: greedy cuts, with the last inner cut dropped when the last range is merged. */
  ghost predicate Packed(blocks: seq<Block>, sizes: Sizes, ranges: seq<(int, int)>, greedy: seq<nat>, cuts: seq<nat>) {
    && Greedy(blocks, sizes, greedy, |blocks|)
    && Between(blocks, cuts, ranges)
    && exists unmerged :: Between(blocks, greedy, unmerged) &&
         if Merges(unmerged, sizes) then cuts == greedy[..|greedy| - 2] + [|blocks|] else cuts == greedy
  }

  /** The ranges are those of the rules, whatever the cuts behind them. */
  ghost predicate IsPacking(blocks: seq<Block>, sizes: Sizes, ranges: seq<(int, int)>) {
    exists greedy, cuts :: Packed(blocks, sizes, ranges, greedy, cuts)
  }

  lemma AddCut(blocks: seq<Block>, sizes: Sizes, cuts: seq<nat>, ranges: seq<(int, int)>, a: nat, b: nat)
    requires Greedy(blocks, sizes, cuts, a) && Between(blocks, cuts, ranges)
    requires Takes(blocks, sizes, a, b) && a < b <= |blocks|
    ensures Greedy(blocks, sizes, cuts + [b], b) && Between(blocks, cuts + [b], ranges + [RangeOf(blocks, a, b)])
  {
    assert (cuts + [b])[..|cuts|] == cuts;
    var more := ranges + [RangeOf(blocks, a, b)];
    forall i | 0 <= i < |more|
      ensures PartOf(blocks, cuts + [b], more, i)
    {
      assert i < |ranges| ==> PartOf(blocks, cuts, ranges, i);
    }
  }

  method PackBlocksToChunks(blocks: seq<Block>, sizes: Sizes)
    returns (ranges: seq<(int, int)>, ghost greedy: seq<nat>, ghost cuts: seq<nat>)
    ensures Packed(blocks, sizes, ranges, greedy, cuts)
    ensures IsPacking(blocks, sizes, ranges)
  {
    ranges, greedy := [], [0];
    var index := 0;
    while index < |blocks|
      invariant index <= |blocks| && Greedy(blocks, sizes, greedy, index)
      invariant Between(blocks, greedy, ranges)
      decreases |blocks| - index
    {
      var next := TakeBlocks(blocks, sizes, index);
      AddCut(blocks, sizes, greedy, ranges, index, next);
      ranges := ranges + [RangeOf(blocks, index, next)];
      greedy := greedy + [next];
      index := next;
    }
    cuts := greedy;
    ghost var unmerged := ranges;
    if Merges(ranges, sizes) {
      var k := |ranges|;
      ranges := ranges[..k - 2] + [(ranges[k - 2].0, ranges[k - 1].1)];
      cuts := greedy[..k - 1] + [|blocks|];
      DropCut(blocks, greedy, unmerged);
    }
  }

  /** Merging the last two ranges is dropping the last inner cut. */
  lemma DropCut(blocks: seq<Block>, cuts: seq<nat>, ranges: seq<(int, int)>)
    requires Between(blocks, cuts, ranges) && |ranges| >= 2 && cuts[|cuts| - 1] == |blocks|
    ensures var k := |ranges|;
            Between(blocks, cuts[..k - 1] + [|blocks|], ranges[..k - 2] + [(ranges[k - 2].0, ranges[k - 1].1)])
  {
    var k := |ranges|;
    var fewer, merged := cuts[..k - 1] + [|blocks|], ranges[..k - 2] + [(ranges[k - 2].0, ranges[k - 1].1)];
    assert PartOf(blocks, cuts, ranges, k - 1);
    forall i | 0 <= i < |merged|
      ensures PartOf(blocks, fewer, merged, i)
    {
      assert PartOf(blocks, cuts, ranges, i);
    }
  }

  /** The inner loop: the end of the range that starts with block `index`. */
  method TakeBlocks(blocks: seq<Block>, sizes: Sizes, index: nat) returns (next: nat)
    requires index < |blocks|
    ensures Takes(blocks, sizes, index, next) && index < next <= |blocks|
  {
    var chunkStart := blocks[index].start;
    var size := blocks[index].end - chunkStart;
    next := index + 1;
    while next < |blocks|
      invariant index < next <= |blocks| && size == Span(blocks, index, next)
      invariant forall j | index + 1 < j <= next :: Span(blocks, index, j) <= sizes.max
    {
      var afterAdd := blocks[next].end - chunkStart;
      if afterAdd <= sizes.max {
        size := afterAdd;
        next := next + 1;
      } else {
        assert Fits(blocks, sizes, index, next);
        if size < sizes.min {
          next := next + 1;
        }
        return;
      }
    }
    assert Fits(blocks, sizes, index, next);
  }

  /** The first block of part `i` of a greedy packing, and what was taken from there. */
  lemma {:induction false} GreedyAt(blocks: seq<Block>, sizes: Sizes, cuts: seq<nat>, upTo: nat, i: nat)
    requires Greedy(blocks, sizes, cuts, upTo) && i + 1 < |cuts|
    ensures Takes(blocks, sizes, cuts[i], cuts[i + 1]) && cuts[0] == 0
    decreases |cuts|
  {
    var n := |cuts| - 1;
    if i + 1 < n {
      GreedyAt(blocks, sizes, cuts[..n], cuts[n - 1], i);
    } else if n > 1 {
      GreedyAt(blocks, sizes, cuts[..n], cuts[n - 1], 0);
    }
  }

  /** What a range can look like. */
  ghost predicate SizeBounded(blocks: seq<Block>, sizes: Sizes, a: nat, b: nat, last: bool)
    requires a < b <= |blocks|
  {
    || Span(blocks, a, b) <= sizes.max
    || b == a + 1
    || Span(blocks, a, b - 1) < sizes.min
    || (last && Span(blocks, a, b) <= 2 * sizes.max)
  }

  lemma TakesIsBounded(blocks: seq<Block>, sizes: Sizes, a: nat, b: nat)
    requires a < b <= |blocks| && Takes(blocks, sizes, a, b)
    ensures SizeBounded(blocks, sizes, a, b, false)
    ensures Span(blocks, a, b) > sizes.max && b > a + 1 ==> Span(blocks, a, b - 1) < sizes.min
    ensures b < |blocks| ==> Span(blocks, a, b) > sizes.max || Span(blocks, a, b + 1) > sizes.max
  {
    var f: nat :| Fits(blocks, sizes, a, f) && b == if f < |blocks| && Span(blocks, a, f) < sizes.min then f + 1 else f;
  }

  /**
   * Packing partitions the blocks into runs, never through a block, so never through a fence; and
   * every range is small, or a single block, or an undersized run plus one block, or the merged last.
   */
  lemma PackingPartitions(blocks: seq<Block>, sizes: Sizes, ranges: seq<(int, int)>, greedy: seq<nat>, cuts: seq<nat>)
    requires Packed(blocks, sizes, ranges, greedy, cuts)
    ensures cuts[0] == 0 && cuts[|cuts| - 1] == |blocks| && |cuts| == |ranges| + 1
    ensures forall i | 0 <= i < |ranges| :: PartOf(blocks, cuts, ranges, i)
    ensures forall i | 0 <= i < |ranges| :: PartBounded(blocks, sizes, cuts, i)
  {
    var unmerged :| Between(blocks, greedy, unmerged) &&
      if Merges(unmerged, sizes) then cuts == greedy[..|greedy| - 2] + [|blocks|] else cuts == greedy;
    if unmerged != [] {
      GreedyAt(blocks, sizes, greedy, |blocks|, 0);
    }
    forall i | 0 <= i < |ranges|
      ensures PartBounded(blocks, sizes, cuts, i)
    {
      assert PartOf(blocks, cuts, ranges, i) && PartOf(blocks, greedy, unmerged, i);
      GreedyAt(blocks, sizes, greedy, |blocks|, i);
      TakesIsBounded(blocks, sizes, greedy[i], greedy[i + 1]);
      if cuts[i + 1] != greedy[i + 1] {
        assert PartOf(blocks, greedy, unmerged, i + 1);
      }
    }
  }

  ghost predicate PartBounded(blocks: seq<Block>, sizes: Sizes, cuts: seq<nat>, i: nat) {
    && i + 1 < |cuts| && cuts[i] < cuts[i + 1] <= |blocks|
    && SizeBounded(blocks, sizes, cuts[i], cuts[i + 1], i == |cuts| - 2)
  }

  /** The greedy cuts are determined by the blocks and the sizes. */
  lemma {:induction false} GreedyIsUnique(blocks: seq<Block>, sizes: Sizes, v: seq<nat>, w: seq<nat>, a: nat, b: nat)
    requires Greedy(blocks, sizes, v, a) && Greedy(blocks, sizes, w, b) && |v| == |w|
    ensures v == w
  {
    var n := |v| - 1;
    if n > 0 {
      GreedyIsUnique(blocks, sizes, v[..n], w[..n], v[n - 1], w[n - 1]);
      TakesIsUnique(blocks, sizes, v[n - 1], v[n], w[n]);
      assert v == v[..n] + [v[n]] && w == w[..n] + [w[n]] && v[n - 1] == v[..n][n - 1] && w[n - 1] == w[..n][n - 1];
    }
  }

  lemma TakesIsUnique(blocks: seq<Block>, sizes: Sizes, a: nat, b: nat, c: nat)
    requires Takes(blocks, sizes, a, b) && Takes(blocks, sizes, a, c)
    ensures b == c
  {
    var f: nat :| Fits(blocks, sizes, a, f) && b == if f < |blocks| && Span(blocks, a, f) < sizes.min then f + 1 else f;
    var g: nat :| Fits(blocks, sizes, a, g) && c == if g < |blocks| && Span(blocks, a, g) < sizes.min then g + 1 else g;
  }

  // ---- Materializing ----

  /** body[-overlap:] */
  function Tail(body: string, overlap: nat): string {
    if overlap == 0 then "" else if |body| <= overlap then body else body[|body| - overlap..]
  }

  ghost predicate InText(text: string, ranges: seq<(int, int)>) {
    forall i | 0 <= i < |ranges| :: 0 <= ranges[i].0 <= ranges[i].1 <= |text|
  }

  /** The chunk for a range behind the chunks made so far: its body starts with the tail of the last one. */
  function NextChunk(text: string, made: seq<Chunk>, range: (int, int), overlap: nat): Chunk
    requires 0 <= range.0 <= range.1 <= |text|
  {
    MakeChunk(|made|, LastTail(made, overlap) + text[range.0..range.1], range.0, range.1)
  }

  function LastTail(made: seq<Chunk>, overlap: nat): string {
    if made == [] then "" else Tail(made[|made| - 1].content, overlap)
  }

  /** The chunks as the code builds them. */
  function Made(text: string, ranges: seq<(int, int)>, overlap: nat): (r: seq<Chunk>)
    requires InText(text, ranges)
    ensures |r| == |ranges|
  {
    if ranges == [] then []
    else
      var before := Made(text, ranges[..|ranges| - 1], overlap);
      before + [NextChunk(text, before, ranges[|ranges| - 1], overlap)]
  }

  lemma MadeSnoc(text: string, ranges: seq<(int, int)>, k: nat, overlap: nat)
    requires InText(text, ranges) && k < |ranges|
    ensures var before := Made(text, ranges[..k], overlap);
            Made(text, ranges[..k + 1], overlap) == before + [NextChunk(text, before, ranges[k], overlap)]
  {
    assert ranges[..k + 1][..k] == ranges[..k];
  }

  lemma MadeBehind(text: string, ranges: seq<(int, int)>, k: nat, overlap: nat, made: seq<Chunk>)
    requires InText(text, ranges) && k < |ranges| && made == Made(text, ranges[..k], overlap)
    ensures made + [NextChunk(text, made, ranges[k], overlap)] == Made(text, ranges[..k + 1], overlap)
  {
    MadeSnoc(text, ranges, k, overlap);
  }

  method MaterializeStructureChunks(text: string, ranges: seq<(int, int)>, overlap: nat) returns (chunks: seq<Chunk>)
    requires InText(text, ranges)
    ensures chunks == Made(text, ranges, overlap)
  {
    chunks := [];
    var prevTail := "";
    for k := 0 to |ranges|
      invariant chunks == Made(text, ranges[..k], overlap)
      invariant prevTail == LastTail(chunks, overlap)
    {
      MadeBehind(text, ranges, k, overlap, chunks);
      var body := text[ranges[k].0..ranges[k].1];
      if overlap > 0 && prevTail != "" {
        body := prevTail + body;
      } else {
        assert prevTail + body == body;
      }
      chunks := chunks + [MakeChunk(|chunks|, body, ranges[k].0, ranges[k].1)];
      prevTail := Tail(body, overlap);
    }
    assert ranges[..|ranges|] == ranges;
  }

  /** Ranges that follow each other without gap or overlap. */
  ghost predicate Joined(text: string, ranges: seq<(int, int)>) {
    && InText(text, ranges)
    && (forall i | 0 <= i < |ranges| :: ranges[i].0 < ranges[i].1)
    && (forall i, j | 0 <= i && j == i + 1 && j < |ranges| :: ranges[i].1 == ranges[j].0)
  }

  function Max(a: int, b: int): int {
    if a < b then b else a
  }

  /** Where chunk `i` really begins in the text. */
  function BodyStart(ranges: seq<(int, int)>, overlap: nat, i: nat): int
    requires i < |ranges|
  {
    Max(ranges[0].0, ranges[i].0 - overlap)
  }

  lemma {:induction false} JoinedIsMonotone(text: string, ranges: seq<(int, int)>, i: nat, j: nat)
    requires Joined(text, ranges) && i <= j < |ranges|
    ensures ranges[i].0 <= ranges[j].0 && (i < j ==> ranges[i].1 <= ranges[j].0)
    decreases j - i
  {
    if i < j {
      JoinedIsMonotone(text, ranges, i + 1, j);
    }
  }

  lemma TailOfSlice(text: string, from: nat, to: nat, overlap: nat)
    requires from <= to <= |text|
    ensures Tail(text[from..to], overlap) == text[Max(from, to - overlap)..to]
  {}

  /** A body built on a contiguous previous body is contiguous. */
  lemma NextIsContiguous(text: string, made: seq<Chunk>, first: int, from: int, range: (int, int), overlap: nat)
    requires made != [] && 0 <= first <= from <= range.0 < range.1 <= |text|
    requires made[|made| - 1].content == text[from..range.0]
    requires from == first || from <= range.0 - overlap
    ensures NextChunk(text, made, range, overlap) ==
            MakeChunk(|made|, text[Max(first, range.0 - overlap)..range.1], range.0, range.1)
  {
    TailOfSlice(text, from, range.0, overlap);
    SlicesJoin(text, Max(first, range.0 - overlap), range.0, range.1);
  }

  lemma SlicesJoin(text: string, a: nat, b: nat, c: nat)
    requires a <= b <= c <= |text|
    ensures text[a..b] + text[b..c] == text[a..c]
  {}

  lemma BodyStartInside(text: string, ranges: seq<(int, int)>, overlap: nat, i: nat)
    requires Joined(text, ranges) && i < |ranges|
    ensures 0 <= ranges[0].0 <= BodyStart(ranges, overlap, i) <= ranges[i].0 < ranges[i].1 <= |text|
    ensures BodyStart(ranges, overlap, i) == ranges[0].0 || BodyStart(ranges, overlap, i) == ranges[i].0 - overlap
    ensures i > 0 ==> ranges[i - 1].1 == ranges[i].0 && ranges[i - 1].0 < ranges[i].0
  {
    JoinedIsMonotone(text, ranges, 0, i);
    if i > 0 {
      JoinedIsMonotone(text, ranges, i - 1, i);
    }
  }

  /**
   * Although each body is built from the previous, already prefixed body, it is one contiguous piece
   * of the text: from `overlap` characters before its range, but not before the first block.
   */
  lemma {:induction false} BodyIsContiguous(text: string, ranges: seq<(int, int)>, overlap: nat, i: nat)
    requires Joined(text, ranges) && i < |ranges|
    ensures 0 <= BodyStart(ranges, overlap, i) <= ranges[i].0 < ranges[i].1 <= |text|
    ensures Made(text, ranges[..i + 1], overlap)[i] ==
            MakeChunk(i, text[BodyStart(ranges, overlap, i)..ranges[i].1], ranges[i].0, ranges[i].1)
  {
    BodyStartInside(text, ranges, overlap, i);
    MadeLast(text, ranges, overlap, i);
    if i > 0 {
      BodyIsContiguous(text, ranges, overlap, i - 1);
      NextBody(text, ranges, overlap, i, Made(text, ranges[..i], overlap));
    }
  }

  lemma MadeLast(text: string, ranges: seq<(int, int)>, overlap: nat, i: nat)
    requires InText(text, ranges) && i < |ranges|
    ensures Made(text, ranges[..i + 1], overlap)[i] == NextChunk(text, Made(text, ranges[..i], overlap), ranges[i], overlap)
  {
    MadeSnoc(text, ranges, i, overlap);
  }

  lemma NextBody(text: string, ranges: seq<(int, int)>, overlap: nat, i: nat, made: seq<Chunk>)
    requires Joined(text, ranges) && 0 < i < |ranges| && |made| == i
    requires 0 <= BodyStart(ranges, overlap, i - 1) <= ranges[i - 1].1 <= |text|
    requires made[i - 1].content == text[BodyStart(ranges, overlap, i - 1)..ranges[i - 1].1]
    ensures 0 <= BodyStart(ranges, overlap, i) <= ranges[i].1 <= |text|
    ensures NextChunk(text, made, ranges[i], overlap) ==
            MakeChunk(i, text[BodyStart(ranges, overlap, i)..ranges[i].1], ranges[i].0, ranges[i].1)
  {
    BodyStartInside(text, ranges, overlap, i);
    BodyStartInside(text, ranges, overlap, i - 1);
    NextIsContiguous(text, made, ranges[0].0, BodyStart(ranges, overlap, i - 1), ranges[i], overlap);
  }

  lemma {:induction false} MadePrefix(text: string, ranges: seq<(int, int)>, overlap: nat, k: nat)
    requires InText(text, ranges) && k <= |ranges|
    ensures Made(text, ranges, overlap)[..k] == Made(text, ranges[..k], overlap)
    decreases |ranges| - k
  {
    if k < |ranges| {
      MadePrefix(text, ranges, overlap, k + 1);
      MadeSnoc(text, ranges, k, overlap);
      assert Made(text, ranges, overlap)[..k] == Made(text, ranges, overlap)[..k + 1][..k];
    } else {
      assert ranges[..k] == ranges;
    }
  }

  lemma ChunkIsContiguous(text: string, ranges: seq<(int, int)>, overlap: nat, i: nat)
    requires Joined(text, ranges) && i < |ranges|
    ensures 0 <= BodyStart(ranges, overlap, i) <= ranges[i].0 < ranges[i].1 <= |text|
    ensures Made(text, ranges, overlap)[i] ==
            MakeChunk(i, text[BodyStart(ranges, overlap, i)..ranges[i].1], ranges[i].0, ranges[i].1)
  {
    BodyIsContiguous(text, ranges, overlap, i);
    MadePrefix(text, ranges, overlap, i + 1);
  }

  /** The part of a chunk that is its own: its body without the overlap in front. */
  function OwnPart(chunk: Chunk): string {
    if chunk.start <= chunk.end <= chunk.start + |chunk.content| then
      chunk.content[|chunk.content| - (chunk.end - chunk.start)..]
    else ""
  }

  function OwnParts(chunks: seq<Chunk>): string {
    if chunks == [] then "" else OwnParts(chunks[..|chunks| - 1]) + OwnPart(chunks[|chunks| - 1])
  }

  /** Dropping the prefixes and concatenating gives back the whole text from the first block to the last. */
  lemma {:induction false} ChunksReassemble(text: string, ranges: seq<(int, int)>, overlap: nat)
    requires Joined(text, ranges) && ranges != []
    ensures 0 <= ranges[0].0 <= ranges[|ranges| - 1].1 <= |text|
    ensures OwnParts(Made(text, ranges, overlap)) == text[ranges[0].0..ranges[|ranges| - 1].1]
  {
    var n := |ranges| - 1;
    BodyStartInside(text, ranges, overlap, n);
    OwnPartsSnoc(text, ranges, overlap);
    if n > 0 {
      JoinedPrefix(text, ranges, n);
      ChunksReassemble(text, ranges[..n], overlap);
      SlicesJoin(text, ranges[0].0, ranges[n].0, ranges[n].1);
    }
  }

  lemma JoinedPrefix(text: string, ranges: seq<(int, int)>, n: nat)
    requires Joined(text, ranges) && 0 < n <= |ranges|
    ensures Joined(text, ranges[..n]) && ranges[..n][0] == ranges[0] && ranges[..n][n - 1] == ranges[n - 1]
  {}

  lemma OwnPartIsRange(text: string, ranges: seq<(int, int)>, overlap: nat, i: nat)
    requires Joined(text, ranges) && i < |ranges|
    ensures 0 <= ranges[i].0 < ranges[i].1 <= |text|
    ensures OwnPart(Made(text, ranges, overlap)[i]) == text[ranges[i].0..ranges[i].1]
  {
    ChunkIsContiguous(text, ranges, overlap, i);
  }

  lemma OwnPartsSnoc(text: string, ranges: seq<(int, int)>, overlap: nat)
    requires Joined(text, ranges) && ranges != []
    ensures var n := |ranges| - 1;
            && 0 <= ranges[n].0 < ranges[n].1 <= |text|
            && OwnParts(Made(text, ranges, overlap)) ==
               (if n == 0 then "" else OwnParts(Made(text, ranges[..n], overlap))) + text[ranges[n].0..ranges[n].1]
  {
    var n := |ranges| - 1;
    OwnPartIsRange(text, ranges, overlap, n);
    MadePrefix(text, ranges, overlap, n);
    if n == 0 {
      assert Made(text, ranges, overlap)[..0] == [];
    }
  }

  // ---- The strategy ----

  datatype Config = Config(targetChars: Option<int>, maxChars: Option<int>, minChars: Option<int>, overlapChars: Option<int>)
  {
    function PackSizes(): Sizes {
      var target := PositiveInt(targetChars, 1400);
      Sizes(NonNegativeInt(minChars, 0), target, PositiveInt(maxChars, Max(target, 1800)))
    }

    function Overlap(): nat {
      NonNegativeInt(overlapChars, 0)
    }
  }

  /** text.replace("\r\n", "\n").replace("\r", "\n") */
  function UnixNewlines(text: string): (r: string)
    ensures '\r' !in r
  {
    if text == "" then ""
    else if text[0] == '\r' then "\n" + UnixNewlines(text[if |text| > 1 && text[1] == '\n' then 2 else 1..])
    else [text[0]] + UnixNewlines(text[1..])
  }

  /** Everything the strategy promises about its chunks, for the segmentation and the cuts behind them. */
  ghost predicate Faithful(rules: LineRules, text: string, config: Config, blocks: seq<Block>, cuts: seq<nat>, chunks: seq<Chunk>) {
    && |cuts| == |chunks| + 1 && cuts[0] == 0 && cuts[|chunks|] == |blocks|
    && Contiguous(blocks)
    && (forall i | 0 <= i < |chunks| :: ChunkFaithful(text, config, blocks, cuts, chunks, i))
    && blocks != [] && blocks[0].start <= blocks[|blocks| - 1].end <= |text|
    && OwnParts(chunks) == text[blocks[0].start..blocks[|blocks| - 1].end]
  }

  /** Chunk `i` holds a run of whole blocks, of an allowed size, behind its overlap. */
  ghost predicate ChunkFaithful(text: string, config: Config, blocks: seq<Block>, cuts: seq<nat>, chunks: seq<Chunk>, i: nat)
    requires |cuts| == |chunks| + 1 && i < |chunks|
  {
    && PartBounded(blocks, config.PackSizes(), cuts, i)
    && chunks[i].index == i
    && chunks[i].start == blocks[cuts[i]].start
    && chunks[i].end == blocks[cuts[i + 1] - 1].end
    && var from := Max(blocks[0].start, chunks[i].start - config.Overlap());
       0 <= from <= chunks[i].end <= |text| && chunks[i].content == text[from..chunks[i].end]
  }

  method SplitStructureAware(rules: LineRules, text: string, config: Config)
    returns (normalized: string, chunks: seq<Chunk>, ghost segments: seq<Block>, ghost blocks: seq<Block>, ghost cuts: seq<nat>)
    ensures normalized == UnixNewlines(text)
    ensures Segmented(rules, normalized, segments, |normalized|)
    ensures |blocks| == |segments|
    ensures forall i | 0 <= i < |blocks| :: blocks[i].start == segments[i].start && blocks[i].kind == segments[i].kind
    ensures if segments == [] then chunks == [MakeChunk(0, normalized, 0, |normalized|)]
            else Faithful(rules, normalized, config, blocks, cuts, chunks)
  {
    normalized := UnixNewlines(text);
    var found := SegmentToBlocks(rules, normalized);
    segments, blocks, cuts := found, found, [];
    if found == [] {
      return normalized, [MakeChunk(0, normalized, 0, |normalized|)], segments, blocks, cuts;
    }
    SegmentationIsOrdered(rules, normalized, found, |normalized|);
    BlocksFollow(normalized, found);
    var grown := CoalesceTrailingBlanks(normalized, found);
    CoalescedIsContiguous(normalized, found, grown);
    GrownInText(normalized, found, grown);
    var sizes := config.PackSizes();
    var ranges, greedy, packedCuts := PackBlocksToChunks(grown, sizes);
    PackingPartitions(grown, sizes, ranges, greedy, packedCuts);
    PartsAreJoined(normalized, grown, packedCuts, ranges);
    chunks := MaterializeStructureChunks(normalized, ranges, config.Overlap());
    blocks, cuts := grown, packedCuts;
    ChunksAreFaithful(rules, normalized, config, grown, cuts, ranges, chunks);
  }

  lemma BlocksFollow(text: string, blocks: seq<Block>)
    requires Ordered(text, blocks, |text|)
    ensures forall i | 0 < i < |blocks| :: blocks[i - 1].end <= blocks[i].start <= |text|
  {
    forall i | 0 < i < |blocks|
      ensures blocks[i - 1].end <= blocks[i].start <= |text|
    {
      assert blocks[i - 1].end <= NextStart(blocks, i - 1, |text|) == blocks[i].start;
    }
  }

  lemma GrownInText(text: string, blocks: seq<Block>, output: seq<Block>)
    requires Ordered(text, blocks, |text|) && |output| == |blocks|
    requires forall i | 0 < i < |blocks| :: blocks[i - 1].end <= blocks[i].start <= |text|
    requires forall i | 0 <= i < |blocks| :: output[i] == Grown(text, blocks, i)
    ensures forall i | 0 <= i < |output| :: output[i].end <= |text|
  {
    forall i | 0 <= i < |output|
      ensures output[i].end <= |text|
    {
      assert output[i] == Grown(text, blocks, i);
      assert blocks[i].end <= NextStart(blocks, i, |text|) <= |text|;
    }
  }

  lemma {:induction false} ContiguousIsMonotone(blocks: seq<Block>, i: nat, j: nat)
    requires Contiguous(blocks) && i <= j < |blocks|
    ensures blocks[i].start <= blocks[j].start < blocks[j].end
    decreases j - i
  {
    if i < j {
      ContiguousIsMonotone(blocks, i + 1, j);
    }
  }

  /** Parts of contiguous blocks are contiguous. */
  lemma PartsAreJoined(text: string, blocks: seq<Block>, cuts: seq<nat>, ranges: seq<(int, int)>)
    requires Contiguous(blocks) && |cuts| == |ranges| + 1
    requires forall i | 0 <= i < |blocks| :: blocks[i].end <= |text|
    requires forall i | 0 <= i < |ranges| :: PartOf(blocks, cuts, ranges, i)
    ensures Joined(text, ranges)
  {
    forall i | 0 <= i < |ranges|
      ensures 0 <= ranges[i].0 < ranges[i].1 <= |text|
    {
      assert PartOf(blocks, cuts, ranges, i);
      ContiguousIsMonotone(blocks, cuts[i], cuts[i + 1] - 1);
    }
    forall i, j | 0 <= i && j == i + 1 && j < |ranges|
      ensures ranges[i].1 == ranges[j].0
    {
      assert PartOf(blocks, cuts, ranges, i) && PartOf(blocks, cuts, ranges, j);
      assert blocks[cuts[j] - 1].end == blocks[cuts[j]].start;
    }
  }

  lemma ChunksAreFaithful(rules: LineRules, text: string, config: Config, blocks: seq<Block>, cuts: seq<nat>,
                          ranges: seq<(int, int)>, chunks: seq<Chunk>)
    requires Contiguous(blocks) && blocks != [] && |cuts| == |ranges| + 1
    requires cuts[0] == 0 && cuts[|ranges|] == |blocks| && ranges != []
    requires forall i | 0 <= i < |ranges| :: PartOf(blocks, cuts, ranges, i)
    requires forall i | 0 <= i < |ranges| :: PartBounded(blocks, config.PackSizes(), cuts, i)
    requires Joined(text, ranges) && chunks == Made(text, ranges, config.Overlap())
    ensures Faithful(rules, text, config, blocks, cuts, chunks)
  {
    var n := |ranges| - 1;
    assert PartOf(blocks, cuts, ranges, 0) && PartOf(blocks, cuts, ranges, n);
    forall i | 0 <= i < |chunks|
      ensures ChunkFaithful(text, config, blocks, cuts, chunks, i)
    {
      assert PartOf(blocks, cuts, ranges, i);
      assert PartBounded(blocks, config.PackSizes(), cuts, i);
      ChunkContent(text, ranges, config.Overlap(), chunks, i);
      ChunkIsFaithful(text, config, blocks, cuts, ranges, chunks, i);
    }
    ChunksReassemble(text, ranges, config.Overlap());
  }

  lemma ChunkIsFaithful(text: string, config: Config, blocks: seq<Block>, cuts: seq<nat>,
                        ranges: seq<(int, int)>, chunks: seq<Chunk>, i: nat)
    requires i < |ranges| && |cuts| == |ranges| + 1 && blocks != []
    requires PartOf(blocks, cuts, ranges, i) && PartBounded(blocks, config.PackSizes(), cuts, i)
    requires ranges[0].0 == blocks[0].start && |chunks| == |ranges|
    requires 0 <= BodyStart(ranges, config.Overlap(), i) <= ranges[i].1 <= |text|
    requires chunks[i] == MakeChunk(i, text[BodyStart(ranges, config.Overlap(), i)..ranges[i].1], ranges[i].0, ranges[i].1)
    ensures ChunkFaithful(text, config, blocks, cuts, chunks, i)
  {}

  lemma ChunkContent(text: string, ranges: seq<(int, int)>, overlap: nat, chunks: seq<Chunk>, i: nat)
    requires Joined(text, ranges) && i < |ranges| && chunks == Made(text, ranges, overlap)
    ensures 0 <= BodyStart(ranges, overlap, i) <= ranges[i].1 <= |text|
    ensures chunks[i] == MakeChunk(i, text[BodyStart(ranges, overlap, i)..ranges[i].1], ranges[i].0, ranges[i].1)
  {
    ChunkIsContiguous(text, ranges, overlap, i);
  }
}
