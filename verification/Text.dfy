/** String operations that the modelled code takes from its host language, and a fact about sets. */
module Text {

  datatype Option<+T> = None | Some(value: T)

  ghost predicate OccursAt(s: string, pat: string, i: int) {
    0 <= i && i + |pat| <= |s| && forall k | 0 <= k < |pat| :: s[i + k] == pat[k]
  }

  /** One wrong character rules an occurrence out. */
  lemma NotHere(s: string, pat: string, i: nat, k: nat)
    requires k < |pat|
    requires i + |pat| <= |s| ==> s[i + k] != pat[k]
    ensures !OccursAt(s, pat, i)
  {}

  predicate StartsWithAt(s: string, pat: string, i: nat) {
    i + |pat| <= |s| && s[i..i + |pat|] == pat
  }

  lemma StartsWithIsOccurrence(s: string, pat: string, i: nat)
    ensures StartsWithAt(s, pat, i) <==> OccursAt(s, pat, i)
  {
    if OccursAt(s, pat, i) {
      forall k | 0 <= k < |pat|
        ensures s[i..i + |pat|][k] == pat[k]
      {
        assert s[i + k] == pat[k];
      }
    }
    if StartsWithAt(s, pat, i) {
      forall k | 0 <= k < |pat|
        ensures s[i + k] == pat[k]
      {
        assert s[i..i + |pat|][k] == pat[k];
      }
    }
  }

  /** The leftmost occurrence of `pat` at or after `start`, or -1. */
  function Find(s: string, pat: string, start: nat): (r: int)
    requires start <= |s|
    ensures r == -1 || start <= r <= r + |pat| <= |s|
    decreases |s| - start
  {
    if start + |pat| > |s| then -1
    else if StartsWithAt(s, pat, start) then start
    else Find(s, pat, start + 1)
  }

  lemma {:induction false} FindIsLeftmost(s: string, pat: string, start: nat)
    requires start <= |s|
    ensures var r := Find(s, pat, start);
            && (r < 0 ==> forall p | start <= p :: !OccursAt(s, pat, p))
            && (r >= 0 ==> OccursAt(s, pat, r))
            && (r >= 0 ==> forall p | start <= p < r :: !OccursAt(s, pat, p))
    decreases |s| - start
  {
    StartsWithIsOccurrence(s, pat, start);
    if start + |pat| <= |s| && !StartsWithAt(s, pat, start) {
      FindIsLeftmost(s, pat, start + 1);
    }
  }

  /** Being leftmost determines the answer. */
  lemma FindIsUnique(s: string, pat: string, start: nat, r: int)
    requires start <= |s|
    requires r == -1 || (start <= r && OccursAt(s, pat, r))
    requires r == -1 ==> forall p | start <= p :: !OccursAt(s, pat, p)
    requires r >= 0 ==> forall p | start <= p < r :: !OccursAt(s, pat, p)
    ensures Find(s, pat, start) == r
  {
    FindIsLeftmost(s, pat, start);
  }

  lemma ShiftOccurrence(s: string, pat: string, start: nat, p: nat)
    requires start <= |s|
    ensures OccursAt(s, pat, start + p) <==> OccursAt(s[start..], pat, p)
  {
    if OccursAt(s, pat, start + p) {
      forall k | 0 <= k < |pat|
        ensures s[start..][p + k] == pat[k]
      {
        assert s[start + p + k] == pat[k];
      }
    }
    if OccursAt(s[start..], pat, p) {
      forall k | 0 <= k < |pat|
        ensures s[start + p + k] == pat[k]
      {
        assert s[start..][p + k] == pat[k];
      }
    }
  }

  /** Whether a pattern occurs at a place depends only on the characters there. */
  lemma SameCharacters(s: string, t: string, pat: string, i: nat, j: nat)
    requires i + |pat| <= |s| && j + |pat| <= |t|
    requires s[i..i + |pat|] == t[j..j + |pat|]
    ensures OccursAt(s, pat, i) <==> OccursAt(t, pat, j)
  {
    StartsWithIsOccurrence(s, pat, i);
    StartsWithIsOccurrence(t, pat, j);
  }

  /** Searching from `start` is searching the suffix that begins there. */
  lemma FindInSuffix(s: string, pat: string, start: nat)
    requires start <= |s|
    ensures var r := Find(s[start..], pat, 0);
            Find(s, pat, start) == if r < 0 then -1 else start + r
  {
    var t := s[start..];
    forall p: nat
      ensures OccursAt(s, pat, start + p) <==> OccursAt(t, pat, p)
    {
      ShiftOccurrence(s, pat, start, p);
    }
    FindIsLeftmost(t, pat, 0);
    var r := Find(t, pat, 0);
    forall q: nat | start <= q && (r < 0 || q < start + r)
      ensures !OccursAt(s, pat, q)
    {
      assert !OccursAt(t, pat, q - start);
      assert OccursAt(s, pat, start + (q - start)) <==> OccursAt(t, pat, q - start);
    }
    FindIsUnique(s, pat, start, if r < 0 then -1 else start + r);
  }

  /** "".join(parts) */
  function Join(parts: seq<string>): string {
    if parts == [] then "" else Join(parts[..|parts| - 1]) + parts[|parts| - 1]
  }

  lemma JoinSnoc(parts: seq<string>, part: string)
    ensures Join(parts + [part]) == Join(parts) + part
  {
    assert (parts + [part])[..|parts|] == parts;
  }

  lemma SliceOfTake<T>(s: seq<T>, n: nat, i: nat, j: nat)
    requires i <= j <= n <= |s|
    ensures s[..n][i..j] == s[i..j]
  {}

  lemma ConcatAssoc(a: string, b: string, c: string, d: string)
    ensures ((a + b) + c) + d == a + ((b + c) + d)
  {}

  lemma {:induction false} JoinConcat(a: seq<string>, b: seq<string>)
    ensures Join(a + b) == Join(a) + Join(b)
  {
    if b == [] {
      assert a + b == a;
    } else {
      var n := |b| - 1;
      JoinConcat(a, b[..n]);
      JoinConcatSnoc(a, b[..n], b[n]);
      assert b == b[..n] + [b[n]];
    }
  }

  lemma JoinConcatSnoc(a: seq<string>, b: seq<string>, last: string)
    requires Join(a + b) == Join(a) + Join(b)
    ensures Join(a + (b + [last])) == Join(a) + Join(b + [last])
  {
    JoinSnoc(a + b, last);
    JoinSnoc(b, last);
    assert a + (b + [last]) == (a + b) + [last];
  }

  lemma SmallerSet<T>(a: set<T>, b: set<T>)
    requires a <= b
    ensures |a| <= |b|
  {
    assert b == a + (b - a);
  }
}
