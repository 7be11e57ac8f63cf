/**
 * Server-sent event framing: the printer of agent_service/services/stream_chat_service.py and the
 * incremental reader of frontend/chat.html. Strings are sequences of decoded characters.
 */
module Sse {
  import opened Text

  datatype Event<J> = Event(name: string, data: J)

  /** JSON printing and parsing, and the host's notion of white space, as parameters. */
  datatype Codec<!J(!new)> = Codec(dumps: J -> string, parse: string -> Option<J>, ws: char -> bool)
  {
    /** What the framing relies on: objects print on one line between braces and read back. */
    ghost predicate Sound() {
      && (forall d: J :: Printed(d))
      && ws(' ') && ws('\n') && !ws('{') && !ws('}')
    }

    ghost predicate Printed(d: J) {
      var body := dumps(d);
      && |body| >= 2 && body[0] == '{' && body[|body| - 1] == '}' && '\n' !in body
      && parse(body) == Some(d)
      && forall k | 0 <= k < |body| :: parse(body[..k]) == None
    }

    predicate GoodName(name: string) {
      name != "" && '\n' !in name && !ws(name[0]) && !ws(name[|name| - 1])
    }

    function TrimLeft(s: string): string {
      if s != "" && ws(s[0]) then TrimLeft(s[1..]) else s
    }

    function TrimRight(s: string): string {
      if s != "" && ws(s[|s| - 1]) then TrimRight(s[..|s| - 1]) else s
    }

    function Trim(s: string): string {
      TrimRight(TrimLeft(s))
    }

    /** The frame of one event without its closing blank line. */
    function FrameText(e: Event<J>): string {
      ("event: " + e.name) + "\n" + ("data: " + dumps(e.data))
    }

    function EncodeEvent(e: Event<J>): string {
      FrameText(e) + "\n\n"
    }

    function EncodeAll(es: seq<Event<J>>): string {
      if es == [] then "" else EncodeEvent(es[0]) + EncodeAll(es[1..])
    }

    /** The fields of a frame, line by line: the last event name wins, data lines accumulate. */
    function ReadLines(lines: seq<string>, name: string, data: seq<string>): (string, seq<string>) {
      if lines == [] then (name, data)
      else
        var line := lines[0];
        ReadLines(lines[1..],
                  if StartsWithAt(line, "event:", 0) then Trim(line[6..]) else name,
                  if StartsWithAt(line, "data:", 0) then data + [Trim(line[5..])] else data)
    }

    function Handle(text: string): Option<Event<J>> {
      var (name, data) := ReadLines(Split(text, "\n"), "message", []);
      if data == [] then None
      else
        match parse(JoinLines(data))
        case None => None
        case Some(d) => Some(Event(name, d))
    }

    function HandleAll(texts: seq<string>): seq<Event<J>> {
      if texts == [] then []
      else
        HandleAll(texts[..|texts| - 1]) +
        match Handle(texts[|texts| - 1]) { case None => [] case Some(e) => [e] }
    }

    /** What a reader that saw the whole text at once would deliver. */
    function Decode(text: string): seq<Event<J>> {
      var parts := Split(text, "\n\n");
      HandleAll(Init(parts) + if Trim(Last(parts)) != "" then [Last(parts)] else [])
    }
  }

  function JoinLines(lines: seq<string>): string {
    if lines == [] then ""
    else if |lines| == 1 then lines[0]
    else lines[0] + "\n" + JoinLines(lines[1..])
  }

  /** String.prototype.split with a non-empty separator. */
  function Split(s: string, sep: string): (parts: seq<string>)
    requires sep != ""
    ensures parts != []
    decreases |s|
  {
    var hit := Find(s, sep, 0);
    if hit < 0 then [s] else [s[..hit]] + Split(s[hit + |sep|..], sep)
  }

  function Init(parts: seq<string>): seq<string>
    requires parts != []
  {
    parts[..|parts| - 1]
  }

  function Last(parts: seq<string>): string
    requires parts != []
  {
    parts[|parts| - 1]
  }

  /** The reading loop: every read is split against what the earlier reads left over. */
  method ConsumeStream<J(!new)>(codec: Codec<J>, pieces: seq<string>) returns (events: seq<Event<J>>)
    ensures events == codec.Decode(Join(pieces))
  {
    var buffer := "";
    events := [];
    FindIsUnique("", "\n\n", 0, -1);
    assert Init([""]) == [];
    for i := 0 to |pieces|
      invariant Last(Split(Join(pieces[..i]), "\n\n")) == buffer
      invariant events == codec.HandleAll(Init(Split(Join(pieces[..i]), "\n\n")))
    {
      ghost var before := Split(Join(pieces[..i]), "\n\n");
      SplitResumes(Join(pieces[..i]), pieces[i], "\n\n");
      assert pieces[..i + 1] == pieces[..i] + [pieces[i]];
      JoinSnoc(pieces[..i], pieces[i]);
      buffer := buffer + pieces[i];
      var texts := Split(buffer, "\n\n");
      buffer := Last(texts);
      var delivered := HandleEach(codec, Init(texts));
      events := events + delivered;
      InitLastConcat(Init(before), texts);
      HandleAllConcat(codec, Init(before), Init(texts));
    }
    assert pieces[..|pieces|] == pieces;
    ghost var parts := Split(Join(pieces), "\n\n");
    if codec.Trim(buffer) != "" {
      var delivered := HandleEach(codec, [buffer]);
      events := events + delivered;
    }
    HandleAllConcat(codec, Init(parts), if codec.Trim(buffer) != "" then [buffer] else []);
  }

  lemma InitLastConcat(a: seq<string>, b: seq<string>)
    requires b != []
    ensures Init(a + b) == a + Init(b) && Last(a + b) == Last(b)
  {}

  /** texts.forEach(handleStreamEvent) */
  method HandleEach<J(!new)>(codec: Codec<J>, texts: seq<string>) returns (events: seq<Event<J>>)
    ensures events == codec.HandleAll(texts)
  {
    events := [];
    for k := 0 to |texts|
      invariant events == codec.HandleAll(texts[..k])
    {
      var event := HandleStreamEvent(codec, texts[k]);
      events := if event.Some? then events + [event.value] else events;
      assert texts[..k + 1][..k] == texts[..k];
    }
    assert texts[..|texts|] == texts;
  }

  method HandleStreamEvent<J(!new)>(codec: Codec<J>, eventText: string) returns (event: Option<Event<J>>)
    ensures event == codec.Handle(eventText)
  {
    var eventName := "message";
    var dataLines: seq<string> := [];
    var lines := Split(eventText, "\n");
    assert lines[0..] == lines;
    for i := 0 to |lines|
      invariant codec.ReadLines(lines[i..], eventName, dataLines) == codec.ReadLines(lines, "message", [])
    {
      var line := lines[i];
      assert lines[i..][1..] == lines[i + 1..];
      if StartsWithAt(line, "event:", 0) {
        eventName := codec.Trim(line[6..]);
      }
      if StartsWithAt(line, "data:", 0) {
        dataLines := dataLines + [codec.Trim(line[5..])];
      }
    }
    if dataLines == [] {
      return None;
    }
    var data := codec.parse(JoinLines(dataLines));
    event := if data.None? then None else Some(Event(eventName, data.value));
  }

  /** The first separator of `a` is the first one of `a + b` too. */
  lemma SplitOfBoth(a: string, b: string, sep: string)
    requires sep != "" && Find(a, sep, 0) >= 0
    ensures var hit := Find(a, sep, 0); Split(a + b, sep) == [a[..hit]] + Split(a[hit + |sep|..] + b, sep)
  {
    var hit := Find(a, sep, 0);
    FindInPrefix(a, b, sep);
    SplitAtHit(a + b, sep);
    assert (a + b)[..hit] == a[..hit];
    assert (a + b)[hit + |sep|..] == a[hit + |sep|..] + b;
  }

  /** Cutting a text anywhere: splitting goes on from the part that the first piece left open. */
  lemma {:induction false} SplitResumes(a: string, b: string, sep: string)
    requires sep != ""
    ensures Split(a + b, sep) == Init(Split(a, sep)) + Split(Last(Split(a, sep)) + b, sep)
    decreases |a|
  {
    var hit := Find(a, sep, 0);
    if hit >= 0 {
      var rest := a[hit + |sep|..];
      SplitResumes(rest, b, sep);
      SplitOfBoth(a, b, sep);
      SplitAtHit(a, sep);
      InitLastConcat([a[..hit]], Split(rest, sep));
      ConsConcat(a[..hit], Init(Split(rest, sep)), Split(Last(Split(rest, sep)) + b, sep));
    } else {
      assert Split(a, sep) == [a] && Init([a]) == [];
    }
  }

  lemma ConsConcat(x: string, ys: seq<string>, zs: seq<string>)
    ensures [x] + (ys + zs) == ([x] + ys) + zs
  {}

  lemma SplitAtHit(s: string, sep: string)
    requires sep != "" && Find(s, sep, 0) >= 0
    ensures var hit := Find(s, sep, 0); Split(s, sep) == [s[..hit]] + Split(s[hit + |sep|..], sep)
  {}

  lemma FindInPrefix(a: string, b: string, sep: string)
    requires sep != "" && Find(a, sep, 0) >= 0
    ensures Find(a + b, sep, 0) == Find(a, sep, 0)
  {
    FindIsLeftmost(a, sep, 0);
    var hit := Find(a, sep, 0);
    forall p: nat | p <= hit
      ensures OccursAt(a + b, sep, p) <==> OccursAt(a, sep, p)
    {
      assert (a + b)[p..p + |sep|] == a[p..p + |sep|];
      SameCharacters(a + b, a, sep, p, p);
    }
    FindIsUnique(a + b, sep, 0, hit);
  }

  /** The first newline of a text whose parts hold none is the one that joins them. */
  lemma NewlineBetween(head: string, tail: string, p: nat)
    requires '\n' !in head
    requires p <= |head| + |tail|
    ensures p <= |head| ==> ((head + "\n" + tail)[p] == '\n' <==> p == |head|)
    ensures '\n' !in tail ==> ((head + "\n" + tail)[p] == '\n' <==> p == |head|)
  {
    assert (head + "\n" + tail)[p] ==
           if p < |head| then head[p] else if p == |head| then '\n' else tail[p - |head| - 1];
  }

  /** A line ends at its newline. */
  lemma SplitLine(line: string, rest: string)
    requires '\n' !in line
    ensures Split(line + "\n" + rest, "\n") == [line] + Split(rest, "\n")
    ensures Split(line, "\n") == [line]
  {
    var s := line + "\n" + rest;
    forall p: nat | p < |line|
      ensures !OccursAt(s, "\n", p)
    {
      NewlineBetween(line, rest, p);
      NotHere(s, "\n", p, 0);
    }
    assert OccursAt(s, "\n", |line|);
    FindIsUnique(s, "\n", 0, |line|);
    assert s[..|line|] == line && s[|line| + 1..] == rest;
    SplitAtHit(s, "\n");
    forall p | 0 <= p
      ensures !OccursAt(line, "\n", p)
    {
      assert p < |line| ==> line[p] in line;
      NotHere(line, "\n", p, 0);
    }
    FindIsUnique(line, "\n", 0, -1);
  }

  lemma FrameLinesHaveNoNewline<J(!new)>(codec: Codec<J>, e: Event<J>)
    requires codec.Sound() && codec.GoodName(e.name)
    ensures '\n' !in "event: " + e.name && '\n' !in "data: " + codec.dumps(e.data)
  {
    assert codec.Printed(e.data);
    assert forall c | c in "event: " :: c != '\n';
    assert forall c | c in "data: " :: c != '\n';
  }

  /** Inside a frame no two newlines touch, and its last character is no newline. */
  lemma FrameHasNoBlankLine<J(!new)>(codec: Codec<J>, e: Event<J>, p: nat)
    requires codec.Sound() && codec.GoodName(e.name)
    ensures var text := codec.FrameText(e);
            p < |text| && text[p] == '\n' ==> p + 1 < |text| && text[p + 1] != '\n'
  {
    var head, tail := "event: " + e.name, "data: " + codec.dumps(e.data);
    var text := codec.FrameText(e);
    assert text == head + "\n" + tail;
    FrameLinesHaveNoNewline(codec, e);
    if p < |text| {
      NewlineBetween(head, tail, p);
      if p == |head| {
        assert text[p + 1] == tail[0] == 'd';
      }
    }
  }

  /** The first blank line of a frame followed by anything is the one that closes the frame. */
  lemma SplitFrame<J(!new)>(codec: Codec<J>, e: Event<J>, rest: string)
    requires codec.Sound() && codec.GoodName(e.name)
    ensures Split(codec.EncodeEvent(e) + rest, "\n\n") == [codec.FrameText(e)] + Split(rest, "\n\n")
  {
    var text := codec.FrameText(e);
    var s := codec.EncodeEvent(e) + rest;
    forall p | 0 <= p < |text|
      ensures !OccursAt(s, "\n\n", p)
    {
      FrameHasNoBlankLine(codec, e, p);
      assert s[p] == text[p] && (p + 1 < |text| ==> s[p + 1] == text[p + 1]);
      NotHere(s, "\n\n", p, if s[p] == '\n' then 1 else 0);
    }
    assert OccursAt(s, "\n\n", |text|);
    FindIsUnique(s, "\n\n", 0, |text|);
    assert s[..|text|] == text && s[|text| + 2..] == rest;
    SplitAtHit(s, "\n\n");
  }

  /** A frame cut before its closing newline holds no blank line at all. */
  lemma CutFrameIsOpen<J(!new)>(codec: Codec<J>, e: Event<J>, n: nat)
    requires codec.Sound() && codec.GoodName(e.name)
    requires n < |codec.EncodeEvent(e)|
    ensures Split(codec.EncodeEvent(e)[..n], "\n\n") == [codec.EncodeEvent(e)[..n]]
  {
    var text, s := codec.FrameText(e), codec.EncodeEvent(e)[..n];
    forall p | 0 <= p
      ensures !OccursAt(s, "\n\n", p)
    {
      FrameHasNoBlankLine(codec, e, p);
      if p + 2 <= n {
        assert s[p] == text[p] && (p + 1 < |text| ==> s[p + 1] == text[p + 1]);
        NotHere(s, "\n\n", p, if s[p] == '\n' then 1 else 0);
      }
    }
    FindIsUnique(s, "\n\n", 0, -1);
  }

  lemma {:induction false} TrimRightIsPrefix<J(!new)>(codec: Codec<J>, s: string)
    ensures codec.TrimRight(s) <= s
  {
    if s != "" && codec.ws(s[|s| - 1]) {
      TrimRightIsPrefix(codec, s[..|s| - 1]);
    }
  }

  /** One leading blank in front of text that starts with no white space. */
  lemma TrimField<J(!new)>(codec: Codec<J>, value: string)
    requires codec.Sound() && (value == "" || !codec.ws(value[0]))
    ensures codec.Trim(" " + value) <= value
    ensures value != "" && !codec.ws(value[|value| - 1]) ==> codec.Trim(" " + value) == value
  {
    assert (" " + value)[1..] == value;
    assert codec.TrimLeft(" " + value) == value;
    TrimRightIsPrefix(codec, value);
  }

  /**
   * The two lines of a frame, the second cut to its first `n` characters and followed by nothing or
   * by one newline: the event is recognized exactly when its body is there in full.
   */
  lemma HandleCutFrame<J(!new)>(codec: Codec<J>, e: Event<J>, n: nat, after: string)
    requires codec.Sound() && codec.GoodName(e.name)
    requires n <= |"data: " + codec.dumps(e.data)|
    requires after == "" || (after == "\n" && n == |"data: " + codec.dumps(e.data)|)
    ensures codec.Handle(("event: " + e.name) + "\n" + ("data: " + codec.dumps(e.data))[..n] + after) ==
            if n == |"data: " + codec.dumps(e.data)| then Some(e) else None
  {
    var full := "data: " + codec.dumps(e.data);
    var head, tail := "event: " + e.name, full[..n];
    FrameLinesHaveNoNewline(codec, e);
    forall c | c in tail
      ensures c in full
    {}
    SplitTwoLines(head, tail, after);
    HandleLines(codec, e, n, [head, tail] + if after == "" then [] else [""]);
  }

  lemma SplitTwoLines(head: string, tail: string, after: string)
    requires '\n' !in head && '\n' !in tail && (after == "" || after == "\n")
    ensures Split(head + "\n" + tail + after, "\n") == [head, tail] + if after == "" then [] else [""]
  {
    SplitLine(head, tail + after);
    assert head + "\n" + (tail + after) == head + "\n" + tail + after;
    SplitLastLine(tail, after);
  }

  lemma SplitLastLine(tail: string, after: string)
    requires '\n' !in tail && (after == "" || after == "\n")
    ensures Split(tail + after, "\n") == [tail] + if after == "" then [] else [""]
  {
    SplitLine(tail, "");
    SplitLine("", "");
    assert tail + "" == tail && tail + "\n" + "" == tail + "\n";
  }

  /** The event line of a frame. */
  lemma ReadHead<J(!new)>(codec: Codec<J>, e: Event<J>, lines: seq<string>)
    requires codec.Sound() && codec.GoodName(e.name)
    requires lines != [] && lines[0] == "event: " + e.name
    ensures codec.ReadLines(lines, "message", []) == codec.ReadLines(lines[1..], e.name, [])
  {
    var head := lines[0];
    assert head[0..6] == "event:" && head[6..] == " " + e.name;
    assert !StartsWithAt(head, "data:", 0) by {
      assert head[0..5][0] == 'e';
    }
    TrimField(codec, e.name);
  }

  /** The data line of a frame, cut after `n` characters. */
  lemma ReadTail<J(!new)>(codec: Codec<J>, e: Event<J>, n: nat, lines: seq<string>) returns (data: seq<string>)
    requires codec.Sound() && n <= 6 + |codec.dumps(e.data)|
    requires lines != [] && lines[0] == ("data: " + codec.dumps(e.data))[..n]
    ensures codec.ReadLines(lines, e.name, []) == codec.ReadLines(lines[1..], e.name, data)
    ensures if n < 5 then data == [] else |data| == 1
    ensures n == 6 + |codec.dumps(e.data)| ==> data == [codec.dumps(e.data)]
    ensures 5 <= n < 6 + |codec.dumps(e.data)| ==>
              |data[0]| < |codec.dumps(e.data)| && data[0] == codec.dumps(e.data)[..|data[0]|]
  {
    var body, tail := codec.dumps(e.data), lines[0];
    CutDataLine(body, n);
    if n < 5 {
      data := [];
    } else {
      data := [codec.Trim(tail[5..])];
      assert [] + data == data;
      TrimCutBody(codec, e, n - 5);
    }
  }

  lemma CutBehind(head: string, rest: string, n: nat)
    requires |head| <= n <= |head| + |rest|
    ensures (head + rest)[..n] == head + rest[..n - |head|]
    ensures StartsWithAt((head + rest)[..n], head, 0) && (head + rest)[..n][|head|..] == rest[..n - |head|]
  {}

  lemma CutDataLine(body: string, n: nat)
    requires n <= 6 + |body|
    ensures var tail := ("data: " + body)[..n];
            && !StartsWithAt(tail, "event:", 0)
            && (n < 5 ==> !StartsWithAt(tail, "data:", 0))
            && (n >= 5 ==> StartsWithAt(tail, "data:", 0) && tail[5..] == (" " + body)[..n - 5])
  {
    assert "data: " + body == "data:" + (" " + body);
    if n >= 5 {
      CutBehind("data:", " " + body, n);
    }
    NotAnEventLine(("data: " + body)[..n]);
  }

  lemma NotAnEventLine(line: string)
    requires line == "" || line[0] == 'd'
    ensures !StartsWithAt(line, "event:", 0)
  {
    if 6 <= |line| {
      assert line[0..6][0] == line[0];
    }
  }

  /** What trimming makes of the beginning of a body behind its blank. */
  lemma TrimCutBody<J(!new)>(codec: Codec<J>, e: Event<J>, m: nat)
    requires codec.Sound() && m <= 1 + |codec.dumps(e.data)|
    ensures var body := codec.dumps(e.data);
            var read := codec.Trim((" " + body)[..m]);
            && (m == 1 + |body| ==> read == body)
            && (m < 1 + |body| ==> |read| < |body| && read == body[..|read|])
  {
    var body := codec.dumps(e.data);
    assert codec.Printed(e.data);
    if m > 0 {
      CutBehind(" ", body, m);
      TrimField(codec, body[..m - 1]);
      BeginningOfBeginning(codec.Trim(" " + body[..m - 1]), body, m - 1);
    }
  }

  lemma BeginningOfBeginning(read: string, body: string, k: nat)
    requires k <= |body| && read <= body[..k]
    ensures read == body[..|read|] && body[..|body|] == body
  {}

  /** How the reader takes the lines of a frame whose data line is cut. */
  lemma HandleLines<J(!new)>(codec: Codec<J>, e: Event<J>, n: nat, lines: seq<string>)
    requires codec.Sound() && codec.GoodName(e.name)
    requires n <= |"data: " + codec.dumps(e.data)|
    requires lines == ["event: " + e.name, ("data: " + codec.dumps(e.data))[..n]]
          || lines == ["event: " + e.name, ("data: " + codec.dumps(e.data))[..n], ""]
    ensures var (name, data) := codec.ReadLines(lines, "message", []);
            var read := if data == [] then None else codec.parse(JoinLines(data));
            if n == |"data: " + codec.dumps(e.data)| then name == e.name && read == Some(e.data)
            else read == None
  {
    ReadHead(codec, e, lines);
    var data := ReadTail(codec, e, n, lines[1..]);
    ReadBlankRest(codec, lines[1..][1..], e.name, data);
    assert codec.Printed(e.data);
  }

  lemma ReadBlankRest<J(!new)>(codec: Codec<J>, rest: seq<string>, name: string, data: seq<string>)
    requires rest == [] || rest == [""]
    ensures codec.ReadLines(rest, name, data) == (name, data)
  {
    if rest == [""] {
      assert rest[1..] == [];
    }
  }

  lemma HandleFrame<J(!new)>(codec: Codec<J>, e: Event<J>)
    requires codec.Sound() && codec.GoodName(e.name)
    ensures codec.Handle(codec.FrameText(e)) == Some(e)
  {
    var tail := "data: " + codec.dumps(e.data);
    HandleCutFrame(codec, e, |tail|, "");
    assert tail[..|tail|] == tail;
    assert codec.FrameText(e) + "" == codec.FrameText(e);
  }

  ghost predicate GoodNames<J(!new)>(codec: Codec<J>, es: seq<Event<J>>) {
    forall e | e in es :: codec.GoodName(e.name)
  }

  function FrameTexts<J(!new)>(codec: Codec<J>, es: seq<Event<J>>): seq<string> {
    if es == [] then [] else [codec.FrameText(es[0])] + FrameTexts(codec, es[1..])
  }

  lemma SplitFrameThen<J(!new)>(codec: Codec<J>, es: seq<Event<J>>, more: string, rest: string)
    requires codec.Sound() && es != [] && codec.GoodName(es[0].name) && more == codec.EncodeAll(es[1..])
    ensures Split(codec.EncodeAll(es) + rest, "\n\n") == [codec.FrameText(es[0])] + Split(more + rest, "\n\n")
  {
    SplitFrame(codec, es[0], more + rest);
    assert codec.EncodeAll(es) + rest == codec.EncodeEvent(es[0]) + (more + rest);
  }

  lemma {:induction false} SplitFrames<J(!new)>(codec: Codec<J>, es: seq<Event<J>>, rest: string)
    requires codec.Sound() && GoodNames(codec, es)
    ensures Split(codec.EncodeAll(es) + rest, "\n\n") == FrameTexts(codec, es) + Split(rest, "\n\n")
  {
    if es == [] {
      assert codec.EncodeAll(es) + rest == rest;
    } else {
      SplitFrames(codec, es[1..], rest);
      SplitFrameThen(codec, es, codec.EncodeAll(es[1..]), rest);
    }
  }

  lemma {:induction false} HandleAllConcat<J(!new)>(codec: Codec<J>, a: seq<string>, b: seq<string>)
    ensures codec.HandleAll(a + b) == codec.HandleAll(a) + codec.HandleAll(b)
  {
    if b == [] {
      assert a + b == a;
    } else {
      var n := |b| - 1;
      assert (a + b)[..|a| + n] == a + b[..n];
      HandleAllConcat(codec, a, b[..n]);
    }
  }

  lemma {:induction false} HandleFrames<J(!new)>(codec: Codec<J>, es: seq<Event<J>>)
    requires codec.Sound() && GoodNames(codec, es)
    ensures codec.HandleAll(FrameTexts(codec, es)) == es
  {
    if es != [] {
      var first := [codec.FrameText(es[0])];
      HandleAllConcat(codec, first, FrameTexts(codec, es[1..]));
      HandleFrame(codec, es[0]);
      assert first[..0] == [];
      assert codec.HandleAll(first) == [es[0]];
      HandleFrames(codec, es[1..]);
    }
  }

  /** Reading frames and then an unfinished text with no blank line in it. */
  lemma DecodeFramesThen<J(!new)>(codec: Codec<J>, es: seq<Event<J>>, rest: string)
    requires codec.Sound() && GoodNames(codec, es)
    requires Split(rest, "\n\n") == [rest]
    ensures codec.Decode(codec.EncodeAll(es) + rest) ==
            es + if codec.Trim(rest) == "" || codec.Handle(rest) == None then [] else [codec.Handle(rest).value]
  {
    SplitFrames(codec, es, rest);
    var texts := FrameTexts(codec, es);
    InitLastConcat(texts, [rest]);
    assert Init([rest]) == [] && texts + [] == texts;
    HandleFrames(codec, es);
    HandleAllConcat(codec, texts, if codec.Trim(rest) != "" then [rest] else []);
    assert codec.HandleAll([rest]) == if codec.Handle(rest) == None then [] else [codec.Handle(rest).value] by {
      assert [rest][..0] == [];
    }
  }

  /** Whatever the printer wrote, and however the stream is cut into pieces, the reader recovers it. */
  lemma FragmentedRoundTrip<J(!new)>(codec: Codec<J>, es: seq<Event<J>>, pieces: seq<string>)
    requires codec.Sound() && GoodNames(codec, es)
    requires Join(pieces) == codec.EncodeAll(es)
    ensures codec.Decode(Join(pieces)) == es
  {
    FindIsUnique("", "\n\n", 0, -1);
    DecodeFramesThen(codec, es, "");
    assert codec.EncodeAll(es) + "" == codec.EncodeAll(es);
  }

  lemma {:induction false} EncodeAllConcat<J(!new)>(codec: Codec<J>, a: seq<Event<J>>, b: seq<Event<J>>)
    ensures codec.EncodeAll(a + b) == codec.EncodeAll(a) + codec.EncodeAll(b)
  {
    if a == [] {
      assert a + b == b;
    } else {
      assert (a + b)[1..] == a[1..] + b;
      EncodeAllConcat(codec, a[1..], b);
    }
  }

  lemma CutLater(first: string, rest: string, sent: string, frame: string, n: nat)
    requires |first| + |sent| <= n < |first| + |sent| + |frame| && n < |first| + |rest|
    requires rest[..n - |first|] == sent + frame[..n - |first| - |sent|]
    ensures (first + rest)[..n] == (first + sent) + frame[..n - |first + sent|]
    ensures first + (sent + frame) == (first + sent) + frame
  {
    assert (first + rest)[..n] == first + rest[..n - |first|];
  }

  /** A stream that breaks off after `n` characters ends inside exactly one frame. */
  lemma {:induction false} LocateCut<J(!new)>(codec: Codec<J>, es: seq<Event<J>>, n: nat) returns (m: nat)
    requires n < |codec.EncodeAll(es)|
    ensures m < |es| && |codec.EncodeAll(es[..m])| <= n < |codec.EncodeAll(es[..m + 1])|
    ensures codec.EncodeAll(es[..m + 1]) == codec.EncodeAll(es[..m]) + codec.EncodeEvent(es[m])
    ensures codec.EncodeAll(es)[..n] ==
            codec.EncodeAll(es[..m]) + codec.EncodeEvent(es[m])[..n - |codec.EncodeAll(es[..m])|]
  {
    var first := codec.EncodeEvent(es[0]);
    if n < |first| {
      m := 0;
      assert es[..1][1..] == [] && es[..0] == [];
      assert codec.EncodeAll(es[..1]) == first + "" == first;
      assert (first + codec.EncodeAll(es[1..]))[..n] == first[..n] == "" + first[..n];
    } else {
      var k := LocateCut(codec, es[1..], n - |first|);
      m := k + 1;
      EncodeTake(codec, es, k);
      EncodeTake(codec, es, m);
      var rest, sent, frame := codec.EncodeAll(es[1..]), codec.EncodeAll(es[1..][..k]), codec.EncodeEvent(es[m]);
      CutLater(first, rest, sent, frame, n);
    }
  }

  lemma EncodeTake<J(!new)>(codec: Codec<J>, es: seq<Event<J>>, k: nat)
    requires k < |es|
    ensures codec.EncodeAll(es[..k + 1]) == codec.EncodeEvent(es[0]) + codec.EncodeAll(es[1..][..k])
  {
    assert es[..k + 1][1..] == es[1..][..k];
  }

  lemma NextFrameIsLong<J(!new)>(codec: Codec<J>, es: seq<Event<J>>, m: nat)
    requires m < |es|
    ensures |codec.EncodeAll(es[..m + 1])| > |codec.EncodeAll(es[..m])| + 2
  {
    EncodeAllConcat(codec, es[..m], [es[m]]);
    assert es[..m + 1] == es[..m] + [es[m]];
    assert [es[m]][1..] == [];
  }

  /**
   * A stream cut off anywhere, and read in any pieces, yields a prefix of the events: every event
   * whose frame arrived whole, and beyond that at most the next one, when only the blank line that
   * closes its frame is missing.
   */
  lemma CutStreamYieldsPrefix<J(!new)>(codec: Codec<J>, es: seq<Event<J>>, n: nat, pieces: seq<string>) returns (m: nat)
    requires codec.Sound() && GoodNames(codec, es)
    requires n < |codec.EncodeAll(es)| && Join(pieces) == codec.EncodeAll(es)[..n]
    ensures m <= |es| && codec.Decode(Join(pieces)) == es[..m]
    ensures m < |es| ==> n + 2 < |codec.EncodeAll(es[..m + 1])|
    ensures |codec.EncodeAll(es[..m])| <= n + 2
  {
    var k := LocateCut(codec, es, n);
    var sent, frame := codec.EncodeAll(es[..k]), codec.EncodeEvent(es[k]);
    m := if n - |sent| >= |codec.FrameText(es[k])| then k + 1 else k;
    DecodeCut(codec, es, k, Join(pieces), sent, n - |sent|);
    CutLengths(codec, es, n, k, |sent|, m);
  }

  /** How far the cut at `n`, inside frame `k`, is from the ends of the frames around it. */
  lemma CutLengths<J(!new)>(codec: Codec<J>, es: seq<Event<J>>, n: nat, k: nat, sent: nat, m: nat)
    requires k < |es| && sent == |codec.EncodeAll(es[..k])| <= n < |codec.EncodeAll(es[..k + 1])|
    requires |codec.EncodeAll(es[..k + 1])| == sent + |codec.EncodeEvent(es[k])|
    requires m == if n - sent >= |codec.FrameText(es[k])| then k + 1 else k
    ensures m < |es| ==> n + 2 < |codec.EncodeAll(es[..m + 1])|
    ensures |codec.EncodeAll(es[..m])| <= n + 2
  {
    if m == k + 1 < |es| {
      NextFrameIsLong(codec, es, m);
    }
  }

  /** Whole frames, and the beginning of one more. */
  lemma DecodeCut<J(!new)>(codec: Codec<J>, es: seq<Event<J>>, k: nat, text: string, sent: string, at: nat)
    requires codec.Sound() && GoodNames(codec, es) && k < |es| && at < |codec.EncodeEvent(es[k])|
    requires sent == codec.EncodeAll(es[..k]) && text == sent + codec.EncodeEvent(es[k])[..at]
    ensures at < |codec.FrameText(es[k])| ==> codec.Decode(text) == es[..k]
    ensures at >= |codec.FrameText(es[k])| ==> codec.Decode(text) == es[..k + 1]
  {
    var rest := codec.EncodeEvent(es[k])[..at];
    CutRest(codec, es[k], at, rest);
    GoodPrefix(codec, es, k);
    DecodeFramesAnd(codec, es[..k], rest, sent, text);
    assert es[..k + 1] == es[..k] + [es[k]];
  }

  lemma GoodPrefix<J(!new)>(codec: Codec<J>, es: seq<Event<J>>, k: nat)
    requires GoodNames(codec, es) && k <= |es|
    ensures GoodNames(codec, es[..k])
  {}

  lemma DecodeFramesAnd<J(!new)>(codec: Codec<J>, es: seq<Event<J>>, rest: string, sent: string, text: string)
    requires codec.Sound() && GoodNames(codec, es) && Split(rest, "\n\n") == [rest]
    requires sent == codec.EncodeAll(es) && text == sent + rest
    ensures codec.Handle(rest) == None ==> codec.Decode(text) == es
    ensures codec.Handle(rest).Some? && codec.Trim(rest) != "" ==> codec.Decode(text) == es + [codec.Handle(rest).value]
  {
    DecodeFramesThen(codec, es, rest);
  }

  lemma CutRest<J(!new)>(codec: Codec<J>, e: Event<J>, at: nat, rest: string)
    requires codec.Sound() && codec.GoodName(e.name) && at < |codec.EncodeEvent(e)| && rest == codec.EncodeEvent(e)[..at]
    ensures Split(rest, "\n\n") == [rest]
    ensures at >= |codec.FrameText(e)| ==> codec.Handle(rest) == Some(e) && codec.Trim(rest) != ""
    ensures at < |codec.FrameText(e)| ==> codec.Handle(rest) == None
  {
    CutFrameIsOpen(codec, e, at);
    HandleCutRest(codec, e, at);
  }

  /** The unfinished frame at the end of a cut stream counts exactly when its text is complete. */
  lemma HandleCutRest<J(!new)>(codec: Codec<J>, e: Event<J>, at: nat)
    requires codec.Sound() && codec.GoodName(e.name)
    requires at < |codec.EncodeEvent(e)|
    ensures var rest := codec.EncodeEvent(e)[..at];
            && (at >= |codec.FrameText(e)| ==> codec.Handle(rest) == Some(e) && codec.Trim(rest) != "")
            && (at < |codec.FrameText(e)| ==> codec.Handle(rest) == None)
  {
    var head, tail := "event: " + e.name, "data: " + codec.dumps(e.data);
    var text, rest := codec.FrameText(e), codec.EncodeEvent(e)[..at];
    assert text == head + "\n" + tail;
    if at <= |head| {
      HandleCutHead(codec, e, at);
      assert rest == head[..at];
    } else if at < |text| {
      var n := at - |head| - 1;
      HandleCutFrame(codec, e, n, "");
      assert rest == head + "\n" + tail[..n] + "";
    } else {
      var after := if at == |text| then "" else "\n";
      HandleCutFrame(codec, e, |tail|, after);
      assert tail[..|tail|] == tail;
      assert rest == head + "\n" + tail + after;
      assert codec.Printed(e.data);
      assert rest[|head| + 7] == codec.dumps(e.data)[0];
      TrimKeeps(codec, rest);
    }
  }

  lemma HandleCutHead<J(!new)>(codec: Codec<J>, e: Event<J>, at: nat)
    requires codec.GoodName(e.name)
    requires at <= |"event: " + e.name|
    ensures codec.Handle(("event: " + e.name)[..at]) == None
  {
    var line := ("event: " + e.name)[..at];
    assert '\n' !in line && !StartsWithAt(line, "data:", 0) by {
      CutHeadIsOneLine(e.name, at);
    }
    SplitLine(line, "");
    OneLineHasNoData(codec, line);
  }

  lemma CutHeadIsOneLine(name: string, at: nat)
    requires '\n' !in name && at <= |"event: " + name|
    ensures '\n' !in ("event: " + name)[..at] && !StartsWithAt(("event: " + name)[..at], "data:", 0)
  {
    var whole := "event: " + name;
    assert '\n' !in "event: ";
    assert '\n' !in whole;
    if 5 <= at {
      assert whole[..at][0..5][0] == 'e';
    }
  }

  lemma OneLineHasNoData<J(!new)>(codec: Codec<J>, line: string)
    requires !StartsWithAt(line, "data:", 0)
    ensures codec.ReadLines([line], "message", []).1 == []
  {
    var lines: seq<string> := [line];
    assert lines[1..] == [] && lines[0] == line;
  }

  lemma {:induction false} TrimRightKeeps<J(!new)>(codec: Codec<J>, s: string, i: nat)
    requires i < |s| && !codec.ws(s[i])
    ensures codec.TrimRight(s) != ""
  {
    if codec.ws(s[|s| - 1]) {
      TrimRightKeeps(codec, s[..|s| - 1], i);
    }
  }

  lemma {:induction false} TrimLeftKeeps<J(!new)>(codec: Codec<J>, s: string, i: nat) returns (k: nat)
    requires i < |s| && !codec.ws(s[i])
    ensures k < |codec.TrimLeft(s)| && !codec.ws(codec.TrimLeft(s)[k])
  {
    if codec.ws(s[0]) {
      k := TrimLeftKeeps(codec, s[1..], i - 1);
    } else {
      k := i;
    }
  }

  /** Text with a brace in it is not blank. */
  lemma TrimKeeps<J(!new)>(codec: Codec<J>, s: string)
    requires codec.Sound() && '{' in s
    ensures codec.Trim(s) != ""
  {
    var i :| 0 <= i < |s| && s[i] == '{';
    var k := TrimLeftKeeps(codec, s, i);
    TrimRightKeeps(codec, codec.TrimLeft(s), k);
  }
}
