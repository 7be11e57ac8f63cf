/** Fixed-size splitting (agent_service/services/chunking_service.py, lines 34-69 and 98-127). */
module FixedSize {
  import opened Text
  import opened Normalization

  /** A produced chunk: its running number, its text, and where it lies in the normalized text. */
  datatype Chunk = Chunk(index: nat, content: string, start: nat, end: nat, charCount: nat, tokenCount: nat)

  datatype Window = Window(start: nat, end: nat)

  /** Configuration entries; None stands for a missing entry or one that is no integer. */
  datatype Config = Config(chunkSize: Option<int>, targetChars: Option<int>,
                           overlapSize: Option<int>, overlapChars: Option<int>)
  {
    function ChunkSize(): (size: int)
      ensures size > 0
    {
      var own := PositiveInt(chunkSize, 0);
      if own != 0 then own else PositiveInt(targetChars, 1400)
    }

    function Overlap(): (overlap: int)
      ensures 0 <= overlap < ChunkSize()
    {
      var asked := if NonNegativeInt(overlapSize, -1) < 0 then NonNegativeInt(overlapChars, 0)
                   else NonNegativeInt(overlapSize, -1);
      if ChunkSize() > 1 then Min(asked, ChunkSize() - 1) else 0
    }
  }

  function PositiveInt(value: Option<int>, default: int): int {
    if value.Some? && value.value > 0 then value.value else default
  }

  function NonNegativeInt(value: Option<int>, default: int): int {
    if value.Some? && value.value >= 0 then value.value else default
  }

  function Min(a: int, b: int): int {
    if a < b then a else b
  }

  function MakeChunk(index: nat, content: string, start: nat, end: nat): Chunk {
    Chunk(index, content, start, end, |content|, if |content| / 2 > 1 then |content| / 2 else 1)
  }

  // ---- Boundary search ----

  datatype Cut = LineBreak | CjkStop | Stop

  /** Whether a window may end just behind `text[pos]`. */
  predicate CutsAfter(cc: CharClass, text: string, cut: Cut, pos: nat)
    requires pos < |text|
  {
    match cut
    case LineBreak => text[pos] == '\n'
    case CjkStop => text[pos] in "。！？"
    case Stop => text[pos] in ".!?" && (pos + 1 >= |text| || cc.space(text[pos + 1]))
  }

  /** How far back from the target the search may look. */
  function Lookback(start: nat, target: nat, overlap: nat): int {
    Min(overlap, target - start)
  }

  /** The positions searched: behind the window's first character, at most one lookback before the last. */
  ghost predicate InReach(start: nat, target: nat, overlap: nat, pos: int) {
    start < pos < target && target - 1 - Lookback(start, target, overlap) <= pos
  }

  ghost predicate HasCut(cc: CharClass, text: string, start: nat, target: nat, overlap: nat, cut: Cut)
    requires target <= |text|
  {
    exists pos :: InReach(start, target, overlap, pos) && CutsAfter(cc, text, cut, pos)
  }

  /** `end` is just behind the last cut of this kind within reach. */
  ghost predicate LastCut(cc: CharClass, text: string, start: nat, target: nat, overlap: nat, cut: Cut, end: nat)
    requires target <= |text|
  {
    && end > 0 && InReach(start, target, overlap, end - 1) && CutsAfter(cc, text, cut, end - 1)
    && forall pos | end <= pos && InReach(start, target, overlap, pos) :: !CutsAfter(cc, text, cut, pos)
  }

  /** The preferred end of a window: last line break, else last CJK stop, else last stop, else the target. */
  ghost predicate BestEnd(cc: CharClass, text: string, start: nat, target: nat, overlap: nat, end: nat)
    requires target <= |text|
  {
    if Lookback(start, target, overlap) <= 0 then end == target
    else if HasCut(cc, text, start, target, overlap, LineBreak) then
      LastCut(cc, text, start, target, overlap, LineBreak, end)
    else if HasCut(cc, text, start, target, overlap, CjkStop) then
      LastCut(cc, text, start, target, overlap, CjkStop, end)
    else if HasCut(cc, text, start, target, overlap, Stop) then
      LastCut(cc, text, start, target, overlap, Stop, end)
    else end == target
  }

  method AdjustToBoundary(cc: CharClass, text: string, start: nat, target: nat, overlap: nat) returns (end: nat)
    requires start < target <= |text|
    ensures start < end <= target
    ensures BestEnd(cc, text, start, target, overlap, end)
  {
    var maxLookback := Lookback(start, target, overlap);
    if maxLookback <= 0 {
      return target;
    }
    var found := FindCut(cc, text, start, target, overlap, LineBreak);
    if found.Some? {
      return found.value;
    }
    found := FindCut(cc, text, start, target, overlap, CjkStop);
    if found.Some? {
      return found.value;
    }
    found := FindCut(cc, text, start, target, overlap, Stop);
    return if found.Some? then found.value else target;
  }

  /** One backward search for a kind of cut. */
  method FindCut(cc: CharClass, text: string, start: nat, target: nat, overlap: nat, cut: Cut)
    returns (end: Option<nat>)
    requires start < target <= |text|
    ensures end.Some? ==> LastCut(cc, text, start, target, overlap, cut, end.value) && start < end.value <= target
    ensures end.Some? <==> HasCut(cc, text, start, target, overlap, cut)
  {
    var maxLookback := Lookback(start, target, overlap);
    for offset := 0 to maxLookback + 1
      invariant forall pos | target - offset <= pos && InReach(start, target, overlap, pos) ::
                  !CutsAfter(cc, text, cut, pos)
    {
      var pos := target - offset - 1;
      if pos <= start {
        break;
      }
      if CutsAfter(cc, text, cut, pos) {
        assert InReach(start, target, overlap, pos);
        return Some(pos + 1);
      }
    }
    end := None;
  }

  // ---- The windows ----

  /** The start of the window after `w`: the asked overlap when the window is longer than it, else none. */
  function NextStart(w: Window, overlap: nat): nat {
    if w.end - overlap > w.start then w.end - overlap else w.end
  }

  /** One window of the sequence; `previousEnd` is where the one before it ended. */
  ghost predicate WindowFits(cc: CharClass, text: string, size: nat, overlap: nat, previousEnd: int, w: Window) {
    var target := Min(w.start + size, |text|);
    && w.start < w.end <= target
    && previousEnd < w.end
    && exists best: nat :: Ends(cc, text, w.start, target, overlap, previousEnd, best, w.end)
  }

  /** The best end, unless it would not get past the previous window. */
  ghost predicate Ends(cc: CharClass, text: string, start: nat, target: nat, overlap: nat, previousEnd: int, best: nat, end: nat)
    requires target <= |text|
  {
    BestEnd(cc, text, start, target, overlap, best) && end == if best <= previousEnd then target else best
  }

  function LastEnd(ws: seq<Window>): int {
    if ws == [] then -1 else ws[|ws| - 1].end
  }

  /** Where the window after `ws` starts. */
  function ExpectedStart(ws: seq<Window>, overlap: nat): nat {
    if ws == [] then 0 else NextStart(ws[|ws| - 1], overlap)
  }

  /** A sequence of windows as the splitter lays them out from the beginning of the text. */
  ghost predicate Laid(cc: CharClass, text: string, size: nat, overlap: nat, ws: seq<Window>) {
    if ws == [] then true
    else
      var before, w := ws[..|ws| - 1], ws[|ws| - 1];
      && Laid(cc, text, size, overlap, before)
      && w.start == ExpectedStart(before, overlap)
      && WindowFits(cc, text, size, overlap, LastEnd(before), w)
  }

  /** ... and as it leaves them: the last one reaches the end of the text. */
  ghost predicate Tiles(cc: CharClass, text: string, size: nat, overlap: nat, ws: seq<Window>) {
    Laid(cc, text, size, overlap, ws) && if ws == [] then text == "" else LastEnd(ws) == |text|
  }

  /** The chunks made of the windows that are not all white space. */
  function Chunks(cc: CharClass, text: string, ws: seq<Window>): (r: seq<Chunk>) {
    if ws == [] then []
    else
      var made, w := Chunks(cc, text, ws[..|ws| - 1]), ws[|ws| - 1];
      if w.start <= w.end <= |text| && !cc.Blank(text[w.start..w.end]) then
        made + [MakeChunk(|made|, text[w.start..w.end], w.start, w.end)]
      else made
  }

  /** The window that starts at `start`: up to the preferred end, or the target when that gains nothing. */
  method CutWindow(cc: CharClass, text: string, size: nat, overlap: nat, start: nat, lastEnd: int)
    returns (end: nat)
    requires start < |text| && lastEnd < Min(start + size, |text|) && size > 0
    ensures WindowFits(cc, text, size, overlap, lastEnd, Window(start, end))
  {
    var targetEnd := Min(start + size, |text|);
    var best := AdjustToBoundary(cc, text, start, targetEnd, overlap);
    end := best;
    if end <= start || end <= lastEnd {
      end := targetEnd;
    }
    assert Ends(cc, text, start, targetEnd, overlap, lastEnd, best, end);
  }

  /** The whole strategy. */
  method SplitFixedSize(cc: CharClass, text: string, config: Config)
    returns (normalized: string, chunks: seq<Chunk>, ghost ws: seq<Window>)
    ensures normalized == cc.Repaired(WithoutReturns(text), 0, false)
    ensures Tiles(cc, normalized, config.ChunkSize(), config.Overlap(), ws)
    ensures chunks == Chunks(cc, normalized, ws)
  {
    normalized := Normalize(cc, text);
    var size, overlap := config.ChunkSize(), config.Overlap();
    chunks, ws := [], [];
    var start := 0;
    var lastEnd := -1;
    while start < |normalized|
      invariant normalized != "" ==> start < |normalized| && lastEnd < Min(start + size, |normalized|)
      invariant Laid(cc, normalized, size, overlap, ws)
      invariant chunks == Chunks(cc, normalized, ws)
      invariant lastEnd == LastEnd(ws) && start == ExpectedStart(ws, overlap)
      decreases |normalized| - start
    {
      var end := CutWindow(cc, normalized, size, overlap, start, lastEnd);
      var content := normalized[start..end];
      if !cc.Blank(content) {
        chunks := chunks + [MakeChunk(|chunks|, content, start, end)];
      }
      AddWindow(cc, normalized, size, overlap, ws, Window(start, end));
      ws := ws + [Window(start, end)];
      lastEnd := end;
      if end >= |normalized| {
        break;
      }
      var nextStart := if end - overlap > 0 then end - overlap else 0;
      if nextStart <= start {
        nextStart := end;
      }
      start := nextStart;
    }
  }

  lemma AddWindow(cc: CharClass, text: string, size: nat, overlap: nat, ws: seq<Window>, w: Window)
    requires Laid(cc, text, size, overlap, ws) && w.start == ExpectedStart(ws, overlap)
    requires WindowFits(cc, text, size, overlap, LastEnd(ws), w)
    ensures Laid(cc, text, size, overlap, ws + [w])
    ensures Chunks(cc, text, ws + [w]) ==
            var made := Chunks(cc, text, ws);
            if cc.Blank(text[w.start..w.end]) then made
            else made + [MakeChunk(|made|, text[w.start..w.end], w.start, w.end)]
  {
    assert (ws + [w])[..|ws|] == ws;
  }

  // ---- What the layout means ----

  lemma {:induction false} LaidAt(cc: CharClass, text: string, size: nat, overlap: nat, ws: seq<Window>, i: nat)
    requires Laid(cc, text, size, overlap, ws) && i < |ws|
    ensures Laid(cc, text, size, overlap, ws[..i])
    ensures ws[i].start == ExpectedStart(ws[..i], overlap)
    ensures WindowFits(cc, text, size, overlap, LastEnd(ws[..i]), ws[i])
    decreases |ws|
  {
    var n := |ws| - 1;
    if i < n {
      LaidAt(cc, text, size, overlap, ws[..n], i);
      assert ws[..n][..i] == ws[..i];
    }
  }

  /** Starts and ends both grow strictly; windows are at most `size` long and overlap by `overlap` or not at all. */
  lemma {:induction false} WindowsAdvance(cc: CharClass, text: string, size: nat, overlap: nat, ws: seq<Window>, i: nat, j: nat)
    requires Laid(cc, text, size, overlap, ws) && i < j < |ws|
    ensures ws[i].start < ws[j].start && ws[i].end < ws[j].end
    ensures ws[i].end - ws[i].start <= size
    ensures j == i + 1 ==>
              ws[i].end - ws[j].start == if ws[i].end - ws[i].start > overlap then overlap else 0
    decreases j - i
  {
    LaidAt(cc, text, size, overlap, ws, i);
    LaidAt(cc, text, size, overlap, ws, i + 1);
    if i + 1 < j {
      WindowsAdvance(cc, text, size, overlap, ws, i + 1, j);
    }
  }

  /** No gap: every position up to the end of the last window lies in some window. */
  lemma {:induction false} WindowsCover(cc: CharClass, text: string, size: nat, overlap: nat, ws: seq<Window>, p: nat)
    returns (i: nat)
    requires Laid(cc, text, size, overlap, ws) && p < LastEnd(ws)
    ensures i < |ws| && ws[i].start <= p < ws[i].end
    decreases |ws|
  {
    i := |ws| - 1;
    if p < ws[i].start {
      i := WindowsCover(cc, text, size, overlap, ws[..i], p);
    }
  }

  /** A window with a character that is no white space becomes a chunk, numbered by its place. */
  lemma {:induction false} WindowIsKept(cc: CharClass, text: string, ws: seq<Window>, i: nat) returns (k: nat)
    requires i < |ws| && ws[i].start <= ws[i].end <= |text| && !cc.Blank(text[ws[i].start..ws[i].end])
    ensures var chunks := Chunks(cc, text, ws);
            k < |chunks| && chunks[k] == MakeChunk(k, text[ws[i].start..ws[i].end], ws[i].start, ws[i].end)
    decreases |ws|
  {
    var n := |ws| - 1;
    if i == n {
      k := |Chunks(cc, text, ws[..n])|;
    } else {
      k := WindowIsKept(cc, text, ws[..n], i);
    }
  }

  /** Every chunk is one of the windows, and the order of the chunks is the order of the windows. */
  lemma {:induction false} ChunkIsWindow(cc: CharClass, text: string, ws: seq<Window>, k: nat) returns (i: nat)
    requires k < |Chunks(cc, text, ws)|
    ensures var c := Chunks(cc, text, ws)[k];
            && i < |ws| && Window(c.start, c.end) == ws[i] && c.start <= c.end <= |text|
            && c.index == k && c.content == text[c.start..c.end] && !cc.Blank(c.content)
            && k == |Chunks(cc, text, ws[..i])|
    decreases |ws|
  {
    var n := |ws| - 1;
    var made := Chunks(cc, text, ws[..n]);
    if k < |made| {
      i := ChunkIsWindow(cc, text, ws[..n], k);
      SliceOfTake(ws, n, 0, i);
      assert ws[..n][..i] == ws[..i];
    } else {
      i := n;
    }
  }

  lemma {:induction false} ChunksGrow(cc: CharClass, text: string, ws: seq<Window>, i: nat)
    requires i <= |ws|
    ensures |Chunks(cc, text, ws[..i])| <= |Chunks(cc, text, ws)|
    decreases |ws| - i
  {
    if i < |ws| {
      assert ws[..i + 1][..i] == ws[..i];
      ChunksGrow(cc, text, ws, i + 1);
    } else {
      assert ws[..i] == ws;
    }
  }

  /** Chunks come with strictly growing starts and ends. */
  lemma ChunksAdvance(cc: CharClass, text: string, size: nat, overlap: nat, ws: seq<Window>, a: nat, b: nat)
    requires Laid(cc, text, size, overlap, ws) && a < b < |Chunks(cc, text, ws)|
    ensures var chunks := Chunks(cc, text, ws);
            chunks[a].start < chunks[b].start && chunks[a].end < chunks[b].end
  {
    var i := ChunkIsWindow(cc, text, ws, a);
    var j := ChunkIsWindow(cc, text, ws, b);
    if j <= i {
      assert ws[..i][..j] == ws[..j];
      ChunksGrow(cc, text, ws[..i], j);
      assert false;
    }
    WindowsAdvance(cc, text, size, overlap, ws, i, j);
  }

  /**
   * Nothing visible is lost: the visible characters of the input are, in order, those of the
   * normalized text, and each of these stands at its own place in some chunk.
   */
  lemma EveryVisibleCharacterIsKept(cc: CharClass, text: string, size: nat, overlap: nat, ws: seq<Window>, p: nat)
    returns (k: nat)
    requires cc.Sound()
    requires var normalized := cc.Repaired(WithoutReturns(text), 0, false);
             Tiles(cc, normalized, size, overlap, ws) && p < |normalized| && !cc.space(normalized[p])
    ensures var normalized := cc.Repaired(WithoutReturns(text), 0, false);
            var chunks := Chunks(cc, normalized, ws);
            && cc.Ink(normalized) == cc.Ink(text)
            && k < |chunks| && chunks[k].start <= p < chunks[k].end
            && |chunks[k].content| == chunks[k].end - chunks[k].start <= size
            && chunks[k].content[p - chunks[k].start] == normalized[p]
  {
    NormalizationKeepsInk(cc, text);
    k := VisibleCharacterIsInChunk(cc, cc.Repaired(WithoutReturns(text), 0, false), size, overlap, ws, p);
  }

  lemma VisibleCharacterIsInChunk(cc: CharClass, text: string, size: nat, overlap: nat, ws: seq<Window>, p: nat)
    returns (k: nat)
    requires Tiles(cc, text, size, overlap, ws) && p < |text| && !cc.space(text[p])
    ensures var chunks := Chunks(cc, text, ws);
            && k < |chunks| && chunks[k].start <= p < chunks[k].end
            && |chunks[k].content| == chunks[k].end - chunks[k].start <= size
            && chunks[k].content[p - chunks[k].start] == text[p]
  {
    var i := WindowsCover(cc, text, size, overlap, ws, p);
    LaidAt(cc, text, size, overlap, ws, i);
    VisibleInSlice(cc, text, ws[i].start, ws[i].end, p);
    k := WindowIsKept(cc, text, ws, i);
  }

  lemma VisibleInSlice(cc: CharClass, text: string, a: nat, b: nat, p: nat)
    requires a <= p < b <= |text| && !cc.space(text[p])
    ensures text[a..b][p - a] == text[p] && !cc.Blank(text[a..b])
  {}

  /** The preferred end is determined by the text: two answers to the search agree. */
  lemma BestEndIsUnique(cc: CharClass, text: string, start: nat, target: nat, overlap: nat, a: nat, b: nat)
    requires target <= |text|
    requires BestEnd(cc, text, start, target, overlap, a) && BestEnd(cc, text, start, target, overlap, b)
    ensures a == b
  {
    if a < b {
      BestEndsOrdered(cc, text, start, target, overlap, a, b);
    } else if b < a {
      BestEndsOrdered(cc, text, start, target, overlap, b, a);
    }
  }

  lemma BestEndsOrdered(cc: CharClass, text: string, start: nat, target: nat, overlap: nat, a: nat, b: nat)
    requires target <= |text| && a < b && BestEnd(cc, text, start, target, overlap, b)
    ensures !BestEnd(cc, text, start, target, overlap, a)
  {
    assert forall cut :: LastCut(cc, text, start, target, overlap, cut, b) ==>
             !LastCut(cc, text, start, target, overlap, cut, a) by {
      forall cut: Cut | LastCut(cc, text, start, target, overlap, cut, b)
        ensures !LastCut(cc, text, start, target, overlap, cut, a)
      {
        assert InReach(start, target, overlap, b - 1);
      }
    }
  }

  lemma FittingWindowIsUnique(cc: CharClass, text: string, size: nat, overlap: nat, before: int, v: Window, w: Window)
    requires v.start == w.start
    requires WindowFits(cc, text, size, overlap, before, v) && WindowFits(cc, text, size, overlap, before, w)
    ensures v == w
  {
    var target := Min(v.start + size, |text|);
    var a: nat :| Ends(cc, text, v.start, target, overlap, before, a, v.end);
    var b: nat :| Ends(cc, text, v.start, target, overlap, before, b, w.end);
    EndIsUnique(cc, text, v.start, target, overlap, before, a, b, v.end, w.end);
  }

  lemma EndIsUnique(cc: CharClass, text: string, start: nat, target: nat, overlap: nat, before: int, a: nat, b: nat, v: nat, w: nat)
    requires target <= |text|
    requires Ends(cc, text, start, target, overlap, before, a, v) && Ends(cc, text, start, target, overlap, before, b, w)
    ensures v == w
  {
    BestEndIsUnique(cc, text, start, target, overlap, a, b);
  }

  /** Hence the windows are a function of the text and the configuration. */
  lemma {:induction false} LayoutIsUnique(cc: CharClass, text: string, size: nat, overlap: nat, v: seq<Window>, w: seq<Window>)
    requires Laid(cc, text, size, overlap, v) && Laid(cc, text, size, overlap, w) && |v| == |w|
    ensures v == w
  {
    if v != [] {
      var n := |v| - 1;
      LayoutIsUnique(cc, text, size, overlap, v[..n], w[..n]);
      LastWindowIsUnique(cc, text, size, overlap, v, w);
      SameToTheLast(v, w);
    }
  }

  lemma SameToTheLast(v: seq<Window>, w: seq<Window>)
    requires |v| == |w| > 0 && v[..|v| - 1] == w[..|w| - 1] && v[|v| - 1] == w[|w| - 1]
    ensures v == w
  {
    assert v == v[..|v| - 1] + [v[|v| - 1]];
  }

  lemma LastWindowIsUnique(cc: CharClass, text: string, size: nat, overlap: nat, v: seq<Window>, w: seq<Window>)
    requires Laid(cc, text, size, overlap, v) && Laid(cc, text, size, overlap, w) && |v| == |w| > 0
    requires v[..|v| - 1] == w[..|w| - 1]
    ensures v[|v| - 1] == w[|w| - 1]
  {
    FittingWindowIsUnique(cc, text, size, overlap, LastEnd(v[..|v| - 1]), v[|v| - 1], w[|w| - 1]);
  }

  lemma TilingIsUnique(cc: CharClass, text: string, size: nat, overlap: nat, v: seq<Window>, w: seq<Window>)
    requires Tiles(cc, text, size, overlap, v) && Tiles(cc, text, size, overlap, w)
    ensures v == w
  {
    if |v| < |w| {
      NoEarlyEnd(cc, text, size, overlap, v, w);
    } else if |w| < |v| {
      NoEarlyEnd(cc, text, size, overlap, w, v);
    } else {
      LayoutIsUnique(cc, text, size, overlap, v, w);
    }
  }

  lemma NoEarlyEnd(cc: CharClass, text: string, size: nat, overlap: nat, v: seq<Window>, w: seq<Window>)
    requires Tiles(cc, text, size, overlap, v) && Laid(cc, text, size, overlap, w)
    ensures |w| <= |v|
  {
    if |v| < |w| {
      LaidAt(cc, text, size, overlap, w, |v|);
      LayoutIsUnique(cc, text, size, overlap, v, w[..|v|]);
    }
  }
}
