/**
 * Character classes and the whitespace repair that precedes fixed-size splitting
 * (agent_service/services/chunking_service.py).
 */
module Normalization {

  /** The host's Unicode classes, as parameters. */
  datatype CharClass = CharClass(space: char -> bool, alpha: char -> bool, digit: char -> bool, alnum: char -> bool)
  {
    ghost predicate Sound() {
      space(' ') && space('\t') && space('\r') && space('\n')
    }

    predicate UrlChar(c: char) {
      alnum(c) || c in "-._~:/?#[]@!$&'()*+,;=%"
    }

    predicate CjkWordChar(c: char) {
      && !space(c) && c !in "。，、；：！？（）【】《》“”‘’"
      && ( || 0x4E00 <= c as int <= 0x9FFF
           || 0x3400 <= c as int <= 0x4DBF
           || 0x20000 <= c as int <= 0x2A6DF
           || 0xF900 <= c as int <= 0xFAFF
           || 0xFF00 <= c as int <= 0xFFEF)
    }

    predicate ListItemStart(s: string, i: nat)
      requires i <= |s|
    {
      var start := SkipBlanks(s, i);
      var pos := SkipDigits(s, start);
      pos > start && pos < |s| && s[pos] in ".）)"
    }

    function SkipBlanks(s: string, i: nat): (r: nat)
      requires i <= |s|
      ensures i <= r <= |s|
      decreases |s| - i
    {
      if i < |s| && s[i] in " \t" then SkipBlanks(s, i + 1) else i
    }

    function SkipDigits(s: string, i: nat): (r: nat)
      requires i <= |s|
      ensures i <= r <= |s|
      decreases |s| - i
    {
      if i < |s| && digit(s[i]) then SkipDigits(s, i + 1) else i
    }

    /** The end of the run of white space that starts at `i`. */
    function SkipSpaces(s: string, i: nat): (r: nat)
      requires i <= |s|
      ensures i <= r <= |s|
      ensures i < |s| && space(s[i]) ==> i < r
      ensures r < |s| ==> !space(s[r])
      ensures forall k | i <= k < r :: space(s[k])
      decreases |s| - i
    {
      if i < |s| && space(s[i]) then SkipSpaces(s, i + 1) else i
    }

    /** A line break inside a URL is dropped when the text around it clearly continues the URL. */
    predicate JoinsBrokenUrl(s: string, i: nat, next: nat)
      requires i <= next < |s|
    {
      && !ListItemStart(s, next)
      && ( || (i > 0 && s[i - 1] == '.' && alpha(s[next]))
           || (i > 0 && s[i - 1] in "/?&=#%-_:")
           || s[next] in "/?&=#")
    }

    /** One scanning step at `i`: the text it keeps, where it goes on, and whether inside a URL. */
    function Step(s: string, i: nat, inUrl: bool): (r: (string, nat, bool))
      requires i < |s|
      ensures i < r.1 <= |s|
    {
      var url := inUrl || UrlStart(s, i);
      if url && space(s[i]) then
        var next := SkipSpaces(s, i);
        if '\n' in s[i..next] && next < |s| && JoinsBrokenUrl(s, i, next) then ("", next, true)
        else (s[i..next], next, false)
      else if url then ([s[i]], i + 1, UrlChar(s[i]))
      else if SoftBreak(s, i) then ("", i + 1, false)
      else ([s[i]], i + 1, false)
    }

    /** The repaired form of `s[i..]`, given whether the scan stands inside a URL. */
    function Repaired(s: string, i: nat, inUrl: bool): string
      requires i <= |s|
      decreases |s| - i
    {
      if i == |s| then ""
      else
        var (kept, next, url) := Step(s, i, inUrl);
        kept + Repaired(s, next, url)
    }

    predicate SoftBreak(s: string, i: nat)
      requires i < |s|
    {
      s[i] == '\n' && 0 < i && i + 1 < |s| && CjkWordChar(s[i - 1]) && CjkWordChar(s[i + 1])
    }

    /** The characters that are no white space, in order. */
    function Ink(s: string): string {
      if s == "" then "" else Ink(s[..|s| - 1]) + if space(s[|s| - 1]) then "" else [s[|s| - 1]]
    }

    predicate Blank(s: string) {
      forall i | 0 <= i < |s| :: space(s[i])
    }
  }

  predicate UrlStart(s: string, i: nat) {
    (i + 7 <= |s| && s[i..i + 7] == "http://") || (i + 8 <= |s| && s[i..i + 8] == "https://")
  }

  function WithoutReturns(s: string): (r: string)
    ensures '\r' !in r
  {
    if s == "" then ""
    else WithoutReturns(s[..|s| - 1]) + if s[|s| - 1] == '\r' then "" else [s[|s| - 1]]
  }

  /** The repairing scan. */
  method Normalize(cc: CharClass, text: string) returns (output: string)
    ensures output == cc.Repaired(WithoutReturns(text), 0, false)
  {
    var source := WithoutReturns(text);
    output := "";
    var inUrl := false;
    var index := 0;
    while index < |source|
      invariant index <= |source|
      invariant output + cc.Repaired(source, index, inUrl) == cc.Repaired(source, 0, false)
      decreases |source| - index
    {
      var kept, next, url := NormalizeStep(cc, source, index, inUrl);
      Regroup(output, kept, cc.Repaired(source, next, url));
      output := output + kept;
      index, inUrl := next, url;
    }
  }

  /** The body of the scanning loop; a dropped character is an empty `kept`. */
  method NormalizeStep(cc: CharClass, source: string, index: nat, wasInUrl: bool)
    returns (kept: string, next: nat, inUrl: bool)
    requires index < |source|
    ensures (kept, next, inUrl) == cc.Step(source, index, wasInUrl)
  {
    inUrl := wasInUrl;
    if !inUrl && UrlStart(source, index) {
      inUrl := true;
    }
    var c := source[index];
    if inUrl {
      if cc.space(c) {
        next := index;
        var sawNewline := false;
        while next < |source| && cc.space(source[next])
          invariant index <= next <= |source|
          invariant cc.SkipSpaces(source, next) == cc.SkipSpaces(source, index)
          invariant sawNewline <==> '\n' in source[index..next]
        {
          assert source[index..next + 1] == source[index..next] + [source[next]];
          sawNewline := sawNewline || source[next] == '\n';
          next := next + 1;
        }
        if sawNewline && next < |source| && cc.JoinsBrokenUrl(source, index, next) {
          return "", next, true;
        }
        return source[index..next], next, false;
      }
      return [c], index + 1, cc.UrlChar(c);
    }
    if c == '\n' {
      if 0 < index && index + 1 < |source| && cc.CjkWordChar(source[index - 1]) && cc.CjkWordChar(source[index + 1]) {
        return "", index + 1, false;
      }
    }
    return [c], index + 1, false;
  }

  lemma Regroup(a: string, b: string, c: string)
    ensures (a + b) + c == a + (b + c)
  {}

  lemma {:induction false} InkConcat(cc: CharClass, a: string, b: string)
    ensures cc.Ink(a + b) == cc.Ink(a) + cc.Ink(b)
  {
    if b == "" {
      assert a + b == a;
    } else {
      var n := |b| - 1;
      assert (a + b)[..|a| + n] == a + b[..n];
      InkConcat(cc, a, b[..n]);
    }
  }

  lemma {:induction false} InkOfBlank(cc: CharClass, s: string)
    requires cc.Blank(s)
    ensures cc.Ink(s) == ""
  {
    if s != "" {
      InkOfBlank(cc, s[..|s| - 1]);
    }
  }

  lemma InkOfOne(cc: CharClass, c: char)
    ensures cc.Ink([c]) == if cc.space(c) then "" else [c]
  {
    assert [c][..0] == "";
  }

  /** A step drops white space only. */
  lemma StepKeepsInk(cc: CharClass, s: string, i: nat, inUrl: bool)
    requires cc.Sound() && i < |s|
    ensures var (kept, next, _) := cc.Step(s, i, inUrl); cc.Ink(kept) == cc.Ink(s[i..next])
  {
    var (kept, next, _) := cc.Step(s, i, inUrl);
    if kept != s[i..next] {
      assert cc.Blank(s[i..next]);
      InkOfBlank(cc, s[i..next]);
    }
  }

  lemma InkOfSuffix(cc: CharClass, s: string, i: nat, next: nat)
    requires i <= next <= |s|
    ensures cc.Ink(s[i..]) == cc.Ink(s[i..next]) + cc.Ink(s[next..])
  {
    assert s[i..] == s[i..next] + s[next..];
    InkConcat(cc, s[i..next], s[next..]);
  }

  /** The repair deletes white space only. */
  lemma {:induction false} RepairKeepsInk(cc: CharClass, s: string, i: nat, inUrl: bool)
    requires cc.Sound() && i <= |s|
    ensures cc.Ink(cc.Repaired(s, i, inUrl)) == cc.Ink(s[i..])
    decreases |s| - i
  {
    if i < |s| {
      var (kept, next, url) := cc.Step(s, i, inUrl);
      StepKeepsInk(cc, s, i, inUrl);
      RepairKeepsInk(cc, s, next, url);
      InkConcat(cc, kept, cc.Repaired(s, next, url));
      InkOfSuffix(cc, s, i, next);
    }
  }

  lemma {:induction false} ReturnsCarryNoInk(cc: CharClass, s: string)
    requires cc.Sound()
    ensures cc.Ink(WithoutReturns(s)) == cc.Ink(s)
  {
    if s != "" {
      var n := |s| - 1;
      ReturnsCarryNoInk(cc, s[..n]);
      InkOfOne(cc, s[n]);
      InkConcat(cc, WithoutReturns(s[..n]), if s[n] == '\r' then "" else [s[n]]);
    }
  }

  /** Normalization keeps every character that is no white space, in order. */
  lemma NormalizationKeepsInk(cc: CharClass, text: string)
    requires cc.Sound()
    ensures cc.Ink(cc.Repaired(WithoutReturns(text), 0, false)) == cc.Ink(text)
  {
    var source := WithoutReturns(text);
    RepairKeepsInk(cc, source, 0, false);
    assert source[0..] == source;
    ReturnsCarryNoInk(cc, text);
  }

  /** Only line breaks trigger a deletion: a text of one line is left exactly as it is. */
  lemma {:induction false} OneLineIsUntouched(cc: CharClass, s: string, i: nat, inUrl: bool)
    requires i <= |s| && '\n' !in s[i..]
    ensures cc.Repaired(s, i, inUrl) == s[i..]
    decreases |s| - i
  {
    if i < |s| {
      var (kept, next, url) := cc.Step(s, i, inUrl);
      assert s[i..] == s[i..next] + s[next..];
      assert s[i] in s[i..];
      forall c | c in s[i..next]
        ensures c != '\n'
      {
        assert c in s[i..];
      }
      assert kept == s[i..next];
      OneLineIsUntouched(cc, s, next, url);
    }
  }

  /**
   * Where no URL starts, the repair is exactly the removal of the line breaks between two CJK word
   * characters.
   */
  lemma {:induction false} SoftBreaksOnly(cc: CharClass, s: string, i: nat)
    requires i <= |s| && forall k | i <= k < |s| :: !UrlStart(s, k)
    ensures cc.Repaired(s, i, false) == WithoutSoftBreaks(cc, s, i)
    decreases |s| - i
  {
    if i < |s| {
      SoftBreaksOnly(cc, s, i + 1);
    }
  }

  function WithoutSoftBreaks(cc: CharClass, s: string, i: nat): string
    requires i <= |s|
    decreases |s| - i
  {
    if i == |s| then ""
    else (if cc.SoftBreak(s, i) then "" else [s[i]]) + WithoutSoftBreaks(cc, s, i + 1)
  }
}
