/** Query term rewriting (agent_service/rag/query_term_mapping.py). */
module TermMapping {
  import opened Text

  datatype Mapping = Mapping(source: string, target: string)

  /** One pass over `text`: the meaning of the scanning loop, on suffixes. */
  function Rewrite(text: string, source: string, target: string): string
    decreases |text|
  {
    if text == "" || source == "" || target == "" then text
    else
      var hit := Find(text, source, 0);
      if hit < 0 then text
      else text[..hit] + target + Rewrite(text[Resume(text, source, target, hit)..], source, target)
  }

  /** Where the scan goes on after a hit: an already mapped term is stepped over whole. */
  function Resume(text: string, source: string, target: string, hit: nat): (next: nat)
    requires source != "" && target != "" && hit + |source| <= |text|
    ensures hit < next <= |text|
  {
    if StartsWithAt(text, target, hit) then hit + |target| else hit + |source|
  }

  /** What one iteration of the scan, standing at `index`, contributes to the result. */
  lemma ScanStep(text: string, source: string, target: string, index: nat)
    requires index < |text| && source != "" && target != ""
    ensures var hit := Find(text, source, index);
            Rewrite(text[index..], source, target) ==
            if hit < 0 then text[index..]
            else text[index..hit] + target + Rewrite(text[Resume(text, source, target, hit)..], source, target)
  {
    FindInSuffix(text, source, index);
    var hit := Find(text, source, index);
    if hit >= 0 {
      ScanHit(text, source, target, index, hit, Resume(text, source, target, hit), text[index..]);
    }
  }

  lemma ScanHit(text: string, source: string, target: string, index: nat, hit: nat, next: nat, rest: string)
    requires index < |text| && source != "" && target != "" && index <= hit <= hit + |source| <= |text|
    requires rest == text[index..] && Find(rest, source, 0) == hit - index && next == Resume(text, source, target, hit)
    ensures Rewrite(rest, source, target) == text[index..hit] + target + Rewrite(text[next..], source, target)
  {
    ResumeInSuffix(text, source, target, index, hit - index);
    SuffixSlices(text, index, hit - index, next - index);
    RewriteAtHit(rest, source, target, hit - index, text[index..hit], text[next..]);
  }

  lemma RewriteAtHit(text: string, source: string, target: string, hit: nat, gap: string, next: string)
    requires source != "" && target != "" && text != "" && hit == Find(text, source, 0)
    requires gap == text[..hit] && next == text[Resume(text, source, target, hit)..]
    ensures Rewrite(text, source, target) == gap + target + Rewrite(next, source, target)
  {}

  lemma ResumeInSuffix(text: string, source: string, target: string, index: nat, at: nat)
    requires source != "" && target != "" && index + at + |source| <= |text|
    ensures index + Resume(text[index..], source, target, at) == Resume(text, source, target, index + at)
  {
    ShiftOccurrence(text, target, index, at);
    StartsWithIsOccurrence(text, target, index + at);
    StartsWithIsOccurrence(text[index..], target, at);
  }

  lemma SuffixSlices(text: string, index: nat, at: nat, here: nat)
    requires index + at <= |text| && index + here <= |text|
    ensures text[index..][..at] == text[index..index + at]
    ensures text[index..][here..] == text[index + here..]
  {}

  lemma JoinTwoThen(chunks: seq<string>, gap: string, target: string, rest: string)
    ensures Join(chunks + [gap] + [target]) + rest == Join(chunks) + (gap + target + rest)
  {
    JoinSnoc(chunks, gap);
    JoinSnoc(chunks + [gap], target);
    ConcatAssoc(Join(chunks), gap, target, rest);
  }

  /** What has been collected and the rewriting of the rest make the whole. */
  ghost predicate Scanned(chunks: seq<string>, rest: string, source: string, target: string, whole: string) {
    Join(chunks) + Rewrite(rest, source, target) == whole
  }

  /** One iteration adds its pieces to what has been collected; the rest is still to be rewritten. */
  lemma ScanGoesOn(chunks: seq<string>, text: string, source: string, target: string, index: nat, whole: string)
    requires index < |text| && source != "" && target != ""
    requires Scanned(chunks, text[index..], source, target, whole)
    ensures var hit := Find(text, source, index);
            && (hit < 0 ==> Join(chunks + [text[index..]]) == whole)
            && (hit >= 0 ==>
                  Scanned(chunks + [text[index..hit]] + [target], text[Resume(text, source, target, hit)..], source, target, whole))
  {
    ScanStep(text, source, target, index);
    var hit := Find(text, source, index);
    if hit < 0 {
      JoinSnoc(chunks, text[index..]);
    } else {
      JoinTwoThen(chunks, text[index..hit], target, Rewrite(text[Resume(text, source, target, hit)..], source, target));
    }
  }

  /** The scanning loop itself, index by index. */
  method ApplyMapping(text: string, source: string, target: string) returns (result: string)
    ensures result == Rewrite(text, source, target)
  {
    if text == "" || source == "" || target == "" {
      return text;
    }
    ghost var whole := Rewrite(text, source, target);
    var chunks: seq<string> := [];
    var index := 0;
    assert text[0..] == text;
    while index < |text|
      invariant index <= |text|
      invariant Scanned(chunks, text[index..], source, target, whole)
      decreases |text| - index
    {
      ScanGoesOn(chunks, text, source, target, index, whole);
      var hit := Find(text, source, index);
      if hit < 0 {
        chunks := chunks + [text[index..]];
        return Join(chunks);
      }
      chunks := chunks + [text[index..hit]];
      if StartsWithAt(text, target, hit) {
        chunks := chunks + [target];
        index := hit + |target|;
      } else {
        chunks := chunks + [target];
        index := hit + |source|;
      }
      assert index == Resume(text, source, target, hit);
    }
    result := Join(chunks);
  }

  /** Texts that agree up to `n` have the same occurrences there. */
  lemma SameBeginning(s: string, t: string, pat: string, n: nat, p: nat)
    requires n <= |s| && n <= |t| && s[..n] == t[..n] && p + |pat| <= n
    ensures OccursAt(s, pat, p) <==> OccursAt(t, pat, p)
  {
    SliceOfTake(s, n, p, p + |pat|);
    SliceOfTake(t, n, p, p + |pat|);
    SameCharacters(s, t, pat, p, p);
  }

  lemma BeginsAlike(text: string, source: string, target: string, tail: string, hit: nat)
    requires source <= target && StartsWithAt(text, source, hit)
    ensures var once, n := text[..hit] + target + tail, hit + |source|;
            n <= |once| && once[..n] == text[..n] && StartsWithAt(once, target, hit)
  {
    var once := text[..hit] + target + tail;
    assert source == target[..|source|];
    assert once[..hit + |source|] == text[..hit] + source;
    assert text[..hit + |source|] == text[..hit] + text[hit..hit + |source|];
    assert once[hit..hit + |target|] == target;
  }

  /** A target that begins with the source is found exactly where the source was. */
  lemma HitSurvives(text: string, source: string, target: string, tail: string)
    requires source != "" && source <= target
    requires Find(text, source, 0) >= 0
    ensures var hit := Find(text, source, 0);
            var once := text[..hit] + target + tail;
            Find(once, source, 0) == hit && StartsWithAt(once, target, hit)
  {
    var hit := Find(text, source, 0);
    FindIsLeftmost(text, source, 0);
    StartsWithIsOccurrence(text, source, hit);
    BeginsAlike(text, source, target, tail, hit);
    FoundAlike(text, text[..hit] + target + tail, source, hit);
  }

  lemma FoundAlike(text: string, once: string, source: string, hit: nat)
    requires hit + |source| <= |text| && hit + |source| <= |once| && once[..hit + |source|] == text[..hit + |source|]
    requires Find(text, source, 0) == hit
    ensures Find(once, source, 0) == hit
  {
    FindIsLeftmost(text, source, 0);
    forall p: nat | p <= hit
      ensures OccursAt(once, source, p) <==> OccursAt(text, source, p)
    {
      SameBeginning(once, text, source, hit + |source|, p);
    }
    FindIsUnique(once, source, 0, hit);
  }

  /** A pass whose source term begins its own target leaves its output alone the second time. */
  lemma {:induction false} RewriteIsIdempotent(text: string, source: string, target: string)
    requires source != "" && source <= target
    ensures Rewrite(Rewrite(text, source, target), source, target) == Rewrite(text, source, target)
    decreases |text|
  {
    if text != "" && Find(text, source, 0) >= 0 {
      var hit := Find(text, source, 0);
      var rest := text[Resume(text, source, target, hit)..];
      var tail := Rewrite(rest, source, target);
      var once := text[..hit] + target + tail;
      HitSurvives(text, source, target, tail);
      assert once[..hit] == text[..hit];
      assert once[hit + |target|..] == tail;
      RewriteIsIdempotent(rest, source, target);
    }
  }

  /** Without the prefix condition a second pass can find a term the first one has just formed. */
  lemma RewriteCanReformItsSource()
    ensures Rewrite("aab", "ab", "b") == "ab"
    ensures Rewrite(Rewrite("aab", "ab", "b"), "ab", "b") == "b"
  {
    assert "aab"[0..2] == "aa" && "aab"[1..3] == "ab" && "aab"[1..2] == "a" && "aab"[3..] == "";
    assert Find("aab", "ab", 0) == Find("aab", "ab", 1) == 1;
    assert Rewrite("aab", "ab", "b") == "aab"[..1] + "b" + "";
    assert "ab"[0..2] == "ab" && "ab"[0..1] == "a" && "ab"[2..] == "";
    assert Rewrite("ab", "ab", "b") == "ab"[..0] + "b" + "";
  }

  /** A term mapped to one of its own prefixes is never shortened: the pass is the identity. */
  lemma {:induction false} MappingToOwnPrefixDoesNothing(text: string, source: string, target: string)
    requires target <= source
    ensures Rewrite(text, source, target) == text
    decreases |text|
  {
    if text != "" && source != "" && target != "" && Find(text, source, 0) >= 0 {
      var hit := Find(text, source, 0);
      FindIsLeftmost(text, source, 0);
      StartsWithIsOccurrence(text, source, hit);
      PrefixIsThere(text, source, target, hit);
      MappingToOwnPrefixDoesNothing(text[hit + |target|..], source, target);
    }
  }

  /** A pass changes no text at all exactly for an empty source or target and for a target that is a prefix of its source. */
  lemma DoesNothingExactly(source: string, target: string)
    ensures (forall text :: Rewrite(text, source, target) == text) <==> source == "" || target == "" || target <= source
  {
    if source == "" || target == "" || target <= source {
      forall text
        ensures Rewrite(text, source, target) == text
      {
        if source != "" && target != "" {
          MappingToOwnPrefixDoesNothing(text, source, target);
        }
      }
    } else {
      SourceIsRewritten(source, target);
      assert Rewrite(source, source, target) != source;
    }
  }

  /** The source by itself shows that any other mapping does something. */
  lemma SourceIsRewritten(source: string, target: string)
    requires source != "" && target != "" && !(target <= source)
    ensures Rewrite(source, source, target) == target
  {
    assert source[0..|source|] == source;
    assert StartsWithAt(source, source, 0) && Find(source, source, 0) == 0;
    assert !StartsWithAt(source, target, 0) by {
      if |target| <= |source| {
        assert source[0..|target|] == source[..|target|];
      }
    }
    assert source[..0] == "" && source[|source|..] == "";
  }

  lemma PrefixIsThere(text: string, source: string, target: string, hit: nat)
    requires target <= source && StartsWithAt(text, source, hit)
    ensures StartsWithAt(text, target, hit)
    ensures text == text[..hit] + target + text[hit + |target|..]
  {
    assert text[hit..hit + |target|] == text[hit..hit + |source|][..|target|] == target;
  }

  ghost predicate Disjoint(a: string, b: string) {
    forall c | c in a :: c !in b
  }

  lemma SharedCharacter(left: string, mid: string, right: string, pat: string, p: nat, k: nat)
    requires OccursAt(left + mid + right, pat, p)
    requires |left| <= k < |left| + |mid| && p <= k < p + |pat|
    ensures !Disjoint(mid, pat)
  {
    var c := mid[k - |left|];
    assert c == (left + mid + right)[p + (k - p)] == pat[k - p];
    assert c in mid && c in pat;
  }

  /**
   * An occurrence of `pat` in `left + mid + right`, where `pat` shares no character with the
   * non-empty `mid`, lies entirely in `left` or entirely in `right`.
   */
  lemma OccurrenceAvoids(left: string, mid: string, right: string, pat: string, p: nat)
    requires mid != "" && pat != "" && Disjoint(mid, pat)
    requires OccursAt(left + mid + right, pat, p)
    ensures OccursAt(left, pat, p) || OccursAt(right, pat, p - |left| - |mid|)
  {
    var all := left + mid + right;
    var m := |left| + |mid|;
    var k := if p >= |left| then p else |left|;
    if |left| <= k < m && p <= k < p + |pat| {
      SharedCharacter(left, mid, right, pat, p, k);
      assert false;
    }
    if p + |pat| <= |left| {
      assert all[p..p + |pat|] == left[p..p + |pat|];
      SameCharacters(all, left, pat, p, p);
    } else {
      assert all[p..p + |pat|] == right[p - m..p - m + |pat|];
      SameCharacters(all, right, pat, p, p - m);
    }
  }

  ghost predicate Contains(text: string, pat: string) {
    exists p :: OccursAt(text, pat, p)
  }

  /**
   * A pass with a target made of foreign characters never creates a term: whatever term the
   * result contains, the input contained already; and the mapped term itself is gone.
   */
  lemma {:induction false} RewriteCreatesNothing(text: string, source: string, target: string, term: string)
    requires source != "" && target != "" && term != ""
    requires Disjoint(target, source) && Disjoint(target, term)
    ensures Contains(Rewrite(text, source, target), term) ==> Contains(text, term) && term != source
    decreases |text|
  {
    if text == "" || Find(text, source, 0) < 0 {
      FindIsLeftmost(text, source, 0);
    } else {
      FindIsLeftmost(text, source, 0);
      var hit := Find(text, source, 0);
      var next := Resume(text, source, target, hit);
      var rest := text[next..];
      var tail := Rewrite(rest, source, target);
      RewriteCreatesNothing(rest, source, target, term);
      var once := text[..hit] + target + tail;
      if Contains(once, term) {
        var p :| OccursAt(once, term, p);
        OccurrenceAvoids(text[..hit], target, tail, term, p);
        if OccursAt(text[..hit], term, p) {
          SliceOfTake(text, hit, p, p + |term|);
          SameCharacters(text, text[..hit], term, p, p);
          assert OccursAt(text, term, p);
        } else {
          assert Contains(tail, term);
          var q :| OccursAt(rest, term, q);
          ShiftOccurrence(text, term, next, q);
          assert OccursAt(text, term, next + q);
        }
      }
    }
  }

  predicate LongestFirst(ms: seq<Mapping>) {
    forall i, j | 0 <= i < j < |ms| :: |ms[i].source| >= |ms[j].source|
  }

  /** Insert behind every mapping whose source is at least as long: the stable descending order. */
  function InsertByLength(m: Mapping, ms: seq<Mapping>): seq<Mapping> {
    if ms == [] then [m]
    else if |ms[0].source| >= |m.source| then [ms[0]] + InsertByLength(m, ms[1..])
    else [m] + ms
  }

  lemma {:induction false} InsertKeeps(m: Mapping, ms: seq<Mapping>)
    ensures multiset(InsertByLength(m, ms)) == multiset(ms) + multiset{m}
  {
    if ms != [] && |ms[0].source| >= |m.source| {
      InsertKeeps(m, ms[1..]);
      assert ms == [ms[0]] + ms[1..];
    }
  }

  lemma {:induction false} InsertSorts(m: Mapping, ms: seq<Mapping>)
    requires LongestFirst(ms)
    ensures LongestFirst(InsertByLength(m, ms))
  {
    if ms != [] && |ms[0].source| >= |m.source| {
      InsertSorts(m, ms[1..]);
      InsertKeeps(m, ms[1..]);
      var r := InsertByLength(m, ms[1..]);
      forall j | 0 <= j < |r|
        ensures |ms[0].source| >= |r[j].source|
      {
        assert r[j] in multiset(r);
        assert r[j] == m || r[j] in ms[1..];
      }
    }
  }

  /** The mappings in the order they are applied; the input lists them in their stored order. */
  function Ordered(ms: seq<Mapping>): seq<Mapping> {
    if ms == [] then [] else InsertByLength(ms[|ms| - 1], Ordered(ms[..|ms| - 1]))
  }

  lemma {:induction false} OrderedIsLongestFirst(ms: seq<Mapping>)
    ensures LongestFirst(Ordered(ms)) && multiset(Ordered(ms)) == multiset(ms)
  {
    if ms != [] {
      var n := |ms| - 1;
      OrderedIsLongestFirst(ms[..n]);
      InsertKeeps(ms[n], Ordered(ms[..n]));
      InsertSorts(ms[n], Ordered(ms[..n]));
      assert ms == ms[..n] + [ms[n]];
    }
  }

  function RewriteAll(text: string, ms: seq<Mapping>): string {
    if ms == [] then text
    else
      var last := ms[|ms| - 1];
      Rewrite(RewriteAll(text, ms[..|ms| - 1]), last.source, last.target)
  }

  method Normalize(question: string, mappings: seq<Mapping>) returns (normalized: string)
    ensures normalized == RewriteAll(question, Ordered(mappings))
  {
    normalized := question;
    var ordered := Ordered(mappings);
    for i := 0 to |ordered|
      invariant normalized == RewriteAll(question, ordered[..i])
    {
      normalized := ApplyMapping(normalized, ordered[i].source, ordered[i].target);
      assert ordered[..i + 1][..i] == ordered[..i];
    }
    assert ordered[..|ordered|] == ordered;
  }

  ghost predicate ForeignTargets(ms: seq<Mapping>) {
    forall i, j | 0 <= i < |ms| && 0 <= j < |ms| ::
      ms[i].source != "" && ms[i].target != "" && Disjoint(ms[i].target, ms[j].source)
  }

  lemma {:induction false} PassesCreateNothing(text: string, ms: seq<Mapping>, term: string)
    requires term != ""
    requires forall m | m in ms :: m.source != "" && m.target != ""
    requires forall m | m in ms :: Disjoint(m.target, m.source) && Disjoint(m.target, term)
    ensures Contains(RewriteAll(text, ms), term) ==> Contains(text, term)
    ensures Contains(RewriteAll(text, ms), term) ==> forall m | m in ms :: m.source != term
  {
    if ms != [] {
      var n := |ms| - 1;
      PassesCreateNothing(text, ms[..n], term);
      RewriteCreatesNothing(RewriteAll(text, ms[..n]), ms[n].source, ms[n].target, term);
      assert ms == ms[..n] + [ms[n]];
    }
  }

  /** When no target shares a character with a source term, no source term survives normalization. */
  lemma NormalizationEliminatesTerms(question: string, mappings: seq<Mapping>, m: Mapping)
    requires ForeignTargets(mappings) && m in mappings
    ensures !Contains(RewriteAll(question, Ordered(mappings)), m.source)
  {
    var ordered := Ordered(mappings);
    OrderedIsLongestFirst(mappings);
    forall x | x in ordered
      ensures x in mappings
    {
      assert x in multiset(ordered);
    }
    assert m in multiset(mappings);
    PassesCreateNothing(question, ordered, m.source);
  }
}
