/**
  The event stream between the API and the browser: the printer
  (api/routers/strategist.py), the incremental parser (web/lib/sse.ts) and the
  read loop that feeds it chunk by chunk (web/lib/api.ts). The parser reads a
  subset of section 9.2 of the WHATWG HTML Living Standard: LF line ends only,
  and only the `data` field.
*/
module Sse {
  import opened Prelude

  /** `json.dumps` on the server and `JSON.parse` in the browser. */
  datatype Codec<!F> = Codec(dumps: F -> string, loads: string -> Option<F>)

  /** A printed event is read back, is one line, and starts with something that is not white space. */
  ghost predicate RoundTrips<F(!new)>(codec: Codec<F>) {
    forall e :: var text := codec.dumps(e);
      codec.loads(text) == Some(e) && '\n' !in text && text != "" && !IsSpace(text[0])
  }

  /** The white space and line terminators that `trimStart` removes. */
  predicate IsSpace(c: char) {
    || c in {'\t', '\n', '\r', ' '}
    || c in {'\U{000B}', '\U{000C}', '\U{00A0}', '\U{1680}', '\U{202F}', '\U{205F}', '\U{3000}', '\U{FEFF}'}
    || '\U{2000}' <= c <= '\U{200A}'
    || c in {'\U{2028}', '\U{2029}'}
  }

  // ---- one frame ----------------------------------------------------------

  /** `rest.indexOf("\n\n")` */
  function Boundary(s: string): (at: Option<nat>)
    ensures at.Some? ==> at.value + 2 <= |s| && s[at.value] == '\n' && s[at.value + 1] == '\n'
    ensures at.Some? ==> forall k :: 0 <= k < at.value ==> !(s[k] == '\n' && s[k + 1] == '\n')
    ensures at.None? ==> forall k :: 0 <= k < |s| - 1 ==> !(s[k] == '\n' && s[k + 1] == '\n')
  {
    if |s| < 2 then None
    else if s[0] == '\n' && s[1] == '\n' then Some(0)
    else match Boundary(s[1..])
      case None => None
      case Some(k) => Some(k + 1)
  }

  function Lines(s: string): (lines: seq<string>)
    ensures lines != []
  {
    if s == "" then [""]
    else
      var rest := Lines(s[1..]);
      if s[0] == '\n' then [""] + rest else [[s[0]] + rest[0]] + rest[1..]
  }

  function TrimStart(s: string): string {
    if s != "" && IsSpace(s[0]) then TrimStart(s[1..]) else s
  }

  /** What the `data:` lines of a frame carry, without their field name. */
  function DataLines(lines: seq<string>): seq<string> {
    if lines == [] then []
    else (if "data:" <= lines[0] then [TrimStart(lines[0][5..])] else []) + DataLines(lines[1..])
  }

  function JoinLines(lines: seq<string>): string {
    if lines == [] then ""
    else if |lines| == 1 then lines[0]
    else lines[0] + "\n" + JoinLines(lines[1..])
  }

  /** The events of one complete frame: none, or one. */
  ghost function Decode<F>(codec: Codec<F>, frame: string): seq<F> {
    var data := JoinLines(DataLines(Lines(frame)));
    if data == "" then [] else
      match codec.loads(data)
      case None => []
      case Some(e) => [e]
  }

  // ---- what a frame means ---------------------------------------------------

  /** `whole` is these lines with a line feed between each two of them. */
  ghost predicate Joins(lines: seq<string>, whole: string) {
    if |lines| == 0 then whole == ""
    else if |lines| == 1 then whole == lines[0]
    else
      var first := lines[0];
      && |first| < |whole| && whole[..|first|] == first && whole[|first|] == '\n'
      && Joins(lines[1..], whole[|first| + 1..])
  }

  /** White space as the ECMAScript standard lists it, by code point (sections 12.2 and 12.3). */
  ghost predicate Blank(c: char) {
    var code := c as int;
    || 9 <= code <= 13 || code == 32 || code == 160 || code == 0x1680 || 0x2000 <= code <= 0x200A
    || code == 0x2028 || code == 0x2029 || code == 0x202F || code == 0x205F || code == 0x3000 || code == 0xFEFF
  }

  /** `text` is what is left of `s` after the white space it starts with. */
  ghost predicate Trims(s: string, text: string) {
    && |text| <= |s| && s[|s| - |text|..] == text
    && (forall k :: 0 <= k < |s| - |text| ==> Blank(s[k]))
    && (text != "" ==> !Blank(text[0]))
  }

  ghost predicate HasData(line: string) {
    |line| >= 5 && line[..5] == "data:"
  }

  /** `texts` are what follows `data:` and any white space, in those of the lines that start so. */
  ghost predicate DataOf(lines: seq<string>, texts: seq<string>) {
    if lines == [] then texts == []
    else if HasData(lines[0]) then texts != [] && Trims(lines[0][5..], texts[0]) && DataOf(lines[1..], texts[1..])
    else DataOf(lines[1..], texts)
  }

  ghost predicate OneLineEach(lines: seq<string>) {
    forall i :: 0 <= i < |lines| ==> '\n' !in lines[i]
  }

  lemma {:induction false} LinesJoin(s: string)
    ensures Joins(Lines(s), s) && OneLineEach(Lines(s))
  {
    if s != "" {
      var rest := Lines(s[1..]);
      LinesJoin(s[1..]);
      if s[0] != '\n' {
        StartsWith(rest, s[1..], s[0]);
        assert [s[0]] + s[1..] == s;
      } else {
        var lines := [""] + rest;
        assert lines[1..] == rest && s[..0] == "";
      }
    }
  }

  /** A character more at the start of the text is one more at the start of its first line. */
  lemma StartsWith(lines: seq<string>, s: string, c: char)
    requires lines != [] && Joins(lines, s)
    ensures Joins([[c] + lines[0]] + lines[1..], [c] + s)
  {
    var first, longer := lines[0], [[c] + lines[0]] + lines[1..];
    assert longer[1..] == lines[1..];
    if |lines| > 1 {
      var whole := [c] + s;
      assert whole[|first| + 1] == s[|first|];
      assert whole[..|first| + 1] == [c] + s[..|first|];
      assert whole[|first| + 2..] == s[|first| + 1..];
    }
  }

  /** There is one way to cut a text at its line feeds. */
  lemma {:induction false} LinesAreUnique(a: seq<string>, b: seq<string>, s: string)
    requires a != [] && b != [] && Joins(a, s) && Joins(b, s) && OneLineEach(a) && OneLineEach(b)
    ensures a == b
  {
    FirstLine(a, s);
    FirstLine(b, s);
    var n := |a[0]|;
    assert forall k :: 0 <= k < n ==> s[k] == a[0][k] && s[k] != '\n';
    assert forall k :: 0 <= k < |b[0]| ==> s[k] == b[0][k] && s[k] != '\n';
    assert n == |b[0]|;
    if |a| > 1 && |b| > 1 {
      LinesAreUnique(a[1..], b[1..], s[n + 1..]);
    }
    assert a == [a[0]] + a[1..] && b == [b[0]] + b[1..];
  }

  lemma FirstLine(lines: seq<string>, s: string)
    requires lines != [] && Joins(lines, s)
    ensures |lines[0]| <= |s| && s[..|lines[0]|] == lines[0]
    ensures if |lines| > 1 then |lines[0]| < |s| && s[|lines[0]|] == '\n' else |lines[0]| == |s|
  {
  }

  /** The lines of a text are the one way to cut it at its line feeds. */
  lemma LinesMean(s: string, lines: seq<string>)
    requires lines != []
    ensures lines == Lines(s) <==> Joins(lines, s) && OneLineEach(lines)
  {
    LinesJoin(s);
    if Joins(lines, s) && OneLineEach(lines) {
      LinesAreUnique(lines, Lines(s), s);
    }
  }

  lemma {:induction false} JoinsMean(lines: seq<string>, whole: string)
    ensures whole == JoinLines(lines) <==> Joins(lines, whole)
  {
    if |lines| > 1 {
      var first, rest := lines[0], JoinLines(lines[1..]);
      JoinsMean(lines[1..], if |first| < |whole| then whole[|first| + 1..] else "");
      if whole == JoinLines(lines) {
        assert whole[|first| + 1..] == rest;
      }
    }
  }

  lemma SpacesAreBlank(c: char)
    ensures IsSpace(c) <==> Blank(c)
  {
  }

  lemma {:induction false} TrimMeans(s: string, text: string)
    ensures text == TrimStart(s) <==> Trims(s, text)
  {
    forall c: char ensures IsSpace(c) <==> Blank(c) { SpacesAreBlank(c); }
    hide IsSpace, Blank;
    if s != "" && IsSpace(s[0]) {
      TrimMeans(s[1..], text);
      assert forall k :: 0 <= k < |s| - 1 ==> s[1..][k] == s[k + 1];
      if Trims(s, text) {
        assert |text| < |s|;
        assert s[1..][|s| - 1 - |text|..] == s[|s| - |text|..];
      }
      if Trims(s[1..], text) {
        assert s[1..][|s| - 1 - |text|..] == s[|s| - |text|..];
      }
    }
  }

  lemma {:induction false} DataMeans(lines: seq<string>, texts: seq<string>)
    ensures texts == DataLines(lines) <==> DataOf(lines, texts)
  {
    hide Trims, TrimStart;
    if lines != [] {
      if HasData(lines[0]) {
        var text := TrimStart(lines[0][5..]);
        assert "data:" <= lines[0];
        assert DataLines(lines) == [text] + DataLines(lines[1..]);
        if texts != [] {
          TrimMeans(lines[0][5..], texts[0]);
          DataMeans(lines[1..], texts[1..]);
          assert texts == [texts[0]] + texts[1..];
        }
      } else {
        assert !("data:" <= lines[0]);
        assert DataLines(lines) == [] + DataLines(lines[1..]) == DataLines(lines[1..]);
        DataMeans(lines[1..], texts);
      }
    }
  }

  /** What a frame carries: the texts of its data lines, with a line feed between each two. */
  ghost predicate Carries(frame: string, lines: seq<string>, texts: seq<string>, data: string) {
    && lines != [] && Joins(lines, frame) && OneLineEach(lines)
    && DataOf(lines, texts) && Joins(texts, data)
  }

  /** A frame is an event exactly when what it carries is not empty and decodes, and otherwise none. */
  lemma DecodeMeans<F>(codec: Codec<F>, frame: string, lines: seq<string>, texts: seq<string>, data: string)
    requires Carries(frame, lines, texts, data)
    ensures Decode(codec, frame) == if data == "" || codec.loads(data).None? then [] else [codec.loads(data).value]
  {
    LinesMean(frame, lines);
    DataMeans(lines, texts);
    JoinsMean(texts, data);
  }

  /** Every frame carries something. */
  lemma FramesCarry(frame: string) returns (lines: seq<string>, texts: seq<string>, data: string)
    ensures Carries(frame, lines, texts, data)
  {
    lines := Lines(frame);
    texts := DataLines(lines);
    data := JoinLines(texts);
    LinesMean(frame, lines);
    DataMeans(lines, texts);
    JoinsMean(texts, data);
  }

  // ---- a buffer -----------------------------------------------------------

  datatype Parsed<F> = Parsed(events: seq<F>, rest: string)

  ghost function Parse<F>(codec: Codec<F>, buffer: string): Parsed<F>
    decreases |buffer|
  {
    match Boundary(buffer)
    case None => Parsed([], buffer)
    case Some(at) =>
      var tail := Parse(codec, buffer[at + 2..]);
      Parsed(Decode(codec, buffer[..at]) + tail.events, tail.rest)
  }

  /** `parseFrames` */
  method ParseFrames<F>(codec: Codec<F>, buffer: string) returns (parsed: Parsed<F>)
    ensures parsed == Parse(codec, buffer)
  {
    var events: seq<F> := [];
    var rest := buffer;
    hide Parse, Decode, Boundary, Lines, DataLines, JoinLines;
    assert events + Parse(codec, rest).events == Parse(codec, rest).events;
    while true
      invariant Parse(codec, buffer) == Parsed(events + Parse(codec, rest).events, Parse(codec, rest).rest)
      decreases |rest|
    {
      var boundary := Boundary(rest);
      if boundary.None? {
        ParseEnds(codec, rest);
        assert events + [] == events;
        return Parsed(events, rest);
      }
      var frame := rest[..boundary.value];
      ParseStep(codec, rest, boundary.value);
      rest := rest[boundary.value + 2..];
      ConcatAssociates(events, Decode(codec, frame), Parse(codec, rest).events);
      var data := JoinLines(DataLines(Lines(frame)));
      DecodeIs(codec, frame, data);
      assert events + [] == events;
      if data == "" {
        continue;
      }
      var event := codec.loads(data);
      if event.Some? {
        events := events + [event.value];
      }
    }
  }

  lemma ParseEnds<F>(codec: Codec<F>, buffer: string)
    requires Boundary(buffer).None?
    ensures Parse(codec, buffer) == Parsed([], buffer)
  {
  }

  lemma DecodeIs<F>(codec: Codec<F>, frame: string, data: string)
    requires data == JoinLines(DataLines(Lines(frame)))
    ensures Decode(codec, frame) ==
      if data == "" || codec.loads(data).None? then [] else [codec.loads(data).value]
  {
  }

  ghost function Concat(chunks: seq<string>): string {
    if chunks == [] then "" else Concat(chunks[..|chunks| - 1]) + chunks[|chunks| - 1]
  }

  /** The read loop of `askAssistant`: what the caller has been shown, and what is still unparsed. */
  method ReadStream<F>(codec: Codec<F>, chunks: seq<string>) returns (shown: seq<F>, buffer: string)
    ensures Parsed(shown, buffer) == Parse(codec, Concat(chunks))
  {
    shown, buffer := [], "";
    for i := 0 to |chunks|
      invariant Parsed(shown, buffer) == Parse(codec, Concat(chunks[..i]))
    {
      assert chunks[..i + 1][..i] == chunks[..i];
      ParseContinues(codec, Concat(chunks[..i]), chunks[i]);
      var parsed := ParseFrames(codec, buffer + chunks[i]);
      buffer := parsed.rest;
      shown := shown + parsed.events;
    }
    assert chunks[..|chunks|] == chunks;
  }

  // ---- the main results ---------------------------------------------------

  lemma ParseStep<F>(codec: Codec<F>, buffer: string, at: nat)
    requires Boundary(buffer) == Some(at)
    ensures var tail := Parse(codec, buffer[at + 2..]);
      Parse(codec, buffer) == Parsed(Decode(codec, buffer[..at]) + tail.events, tail.rest)
  {
    hide Decode;
  }

  /** Parsing can stop anywhere and go on from the rest. */
  lemma {:induction false} ParseContinues<F>(codec: Codec<F>, first: string, more: string)
    ensures var before := Parse(codec, first);
      var after := Parse(codec, before.rest + more);
      Parse(codec, first + more) == Parsed(before.events + after.events, after.rest)
    decreases |first|
  {
    hide Decode, Boundary, Parse;
    var at := Boundary(first);
    if at.None? {
      ParseEnds(codec, first);
      assert [] + Parse(codec, first + more).events == Parse(codec, first + more).events;
    } else {
      BoundaryOfPrefix(first, more);
      ParseStep(codec, first, at.value);
      ParseStep(codec, first + more, at.value);
      SliceOfConcat(first, more, at.value);
      SliceOfConcat(first, more, at.value + 2);
      var tail := Parse(codec, first[at.value + 2..]);
      ParseContinues(codec, first[at.value + 2..], more);
      ConcatAssociates(Decode(codec, first[..at.value]), tail.events, Parse(codec, tail.rest + more).events);
    }
  }

  lemma BoundaryOfPrefix(first: string, more: string)
    requires Boundary(first).Some?
    ensures Boundary(first + more) == Boundary(first)
  {
    var at := Boundary(first).value;
    var both := first + more;
    assert both[at] == first[at] && both[at + 1] == first[at + 1];
    assert Boundary(both).Some?;
    assert forall k :: 0 <= k < |first| ==> both[k] == first[k];
    hide Boundary;
  }

  /** The state of the read loop after some chunks: fed one at a time, with the rest carried over. */
  ghost function Fed<F>(codec: Codec<F>, chunks: seq<string>): Parsed<F> {
    if chunks == [] then Parsed([], "") else
      var before := Fed(codec, chunks[..|chunks| - 1]);
      var last := Parse(codec, before.rest + chunks[|chunks| - 1]);
      Parsed(before.events + last.events, last.rest)
  }

  /** Streaming equals batch: however the text is cut into chunks, the events and the rest are the same. */
  lemma {:induction false} StreamingEqualsBatch<F>(codec: Codec<F>, chunks: seq<string>)
    ensures Fed(codec, chunks) == Parse(codec, Concat(chunks))
  {
    if chunks != [] {
      StreamingEqualsBatch(codec, chunks[..|chunks| - 1]);
      ParseContinues(codec, Concat(chunks[..|chunks| - 1]), chunks[|chunks| - 1]);
    }
  }

  /** The rest never holds a complete frame, and it is the end of the buffer. */
  lemma {:induction false} RestIsIncomplete<F>(codec: Codec<F>, buffer: string)
    ensures var rest := Parse(codec, buffer).rest;
      Boundary(rest).None? && |rest| <= |buffer| && rest == buffer[|buffer| - |rest|..]
    decreases |buffer|
  {
    hide Parse, Decode;
    var at := Boundary(buffer);
    if at.None? {
      ParseEnds(codec, buffer);
    } else {
      ParseStep(codec, buffer, at.value);
      RestIsIncomplete(codec, buffer[at.value + 2..]);
    }
  }

  // ---- the printer --------------------------------------------------------

  /** `_sse` */
  function Print<F>(codec: Codec<F>, e: F): string {
    "data: " + codec.dumps(e) + "\n\n"
  }

  ghost function PrintAll<F>(codec: Codec<F>, events: seq<F>): string {
    if events == [] then "" else PrintAll(codec, events[..|events| - 1]) + Print(codec, events[|events| - 1])
  }

  lemma OneLine(s: string)
    requires '\n' !in s
    ensures Lines(s) == [s] && Boundary(s).None?
  {
    if s != "" {
      OneLine(s[1..]);
      assert s == [s[0]] + s[1..];
    }
  }

  lemma DecodePrinted<F(!new)>(codec: Codec<F>, e: F)
    requires RoundTrips(codec)
    ensures Decode(codec, "data: " + codec.dumps(e)) == [e]
  {
    var text := codec.dumps(e);
    assert codec.loads(text) == Some(e);
    var line := "data: " + text;
    OneLine(line);
    assert "data:" <= line;
    assert line[5..] == " " + text && (" " + text)[1..] == text;
    assert TrimStart(line[5..]) == TrimStart(text) == text;
    assert DataLines([line]) == [text];
  }

  lemma ParsePrinted<F(!new)>(codec: Codec<F>, e: F)
    requires RoundTrips(codec)
    ensures Parse(codec, Print(codec, e)) == Parsed([e], "")
  {
    var text := codec.dumps(e);
    assert codec.loads(text) == Some(e);
    var line := "data: " + text;
    var printed := Print(codec, e);
    assert printed == line + "\n\n";
    assert forall k :: 0 <= k < |line| ==> printed[k] == line[k] && printed[k] != '\n';
    assert printed[|line|] == '\n' && printed[|line| + 1] == '\n';
    var at := Boundary(printed);
    assert at == Some(|line|);
    assert printed[..|line|] == line && printed[|line| + 2..] == "";
    DecodePrinted(codec, e);
  }

  /** Parsing what the server printed gives back the events it sent, with nothing left over. */
  lemma {:induction false} ParseUndoesPrint<F(!new)>(codec: Codec<F>, events: seq<F>)
    requires RoundTrips(codec)
    ensures Parse(codec, PrintAll(codec, events)) == Parsed(events, "")
  {
    hide Parse, Print, RoundTrips;
    if events == [] {
      ParseEnds(codec, "");
    } else {
      var init, last := events[..|events| - 1], events[|events| - 1];
      ParseUndoesPrint(codec, init);
      ParseContinues(codec, PrintAll(codec, init), Print(codec, last));
      ParsePrinted(codec, last);
      assert "" + Print(codec, last) == Print(codec, last);
      assert init + [last] == events;
    }
  }

  /** End to end: whatever packets the stream arrives in, the browser shows exactly what was sent. */
  lemma StreamDelivers<F(!new)>(codec: Codec<F>, events: seq<F>, chunks: seq<string>)
    requires RoundTrips(codec) && Concat(chunks) == PrintAll(codec, events)
    ensures Fed(codec, chunks) == Parsed(events, "")
  {
    StreamingEqualsBatch(codec, chunks);
    ParseUndoesPrint(codec, events);
  }

  /** A frame that does not decode is dropped and takes nothing after it with it. */
  lemma BadFrameIsDropped<F>(codec: Codec<F>, frame: string, rest: string)
    requires Boundary(frame).None? && (frame == "" || frame[|frame| - 1] != '\n')
    requires Decode(codec, frame) == []
    ensures Parse(codec, frame + "\n\n" + rest) == Parse(codec, rest)
  {
    var buffer := frame + "\n\n" + rest;
    assert buffer[|frame|] == '\n' && buffer[|frame| + 1] == '\n';
    assert forall k :: 0 <= k < |frame| ==> buffer[k] == frame[k];
    assert Boundary(buffer) == Some(|frame|);
    hide Boundary, Decode;
    assert buffer[..|frame|] == frame && buffer[|frame| + 2..] == rest;
    var tail := Parse(codec, rest);
    assert [] + tail.events == tail.events;
  }
}
