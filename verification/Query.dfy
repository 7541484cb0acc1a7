/**
  Query strings: how Python's `urlencode` writes a list of pairs and how
  `parse_qsl` reads one, as far as the crawler's URL canonicaliser uses them
  (api/crawler/urls.py).
*/
module Query {
  import opened Ascii
  import opened Prelude
  import opened Utf8

  type Param = (string, string)

  // ---- quoting ------------------------------------------------------------

  predicate Unreserved(c: char) {
    IsDigit(c) || IsLetter(c) || c == '_' || c == '.' || c == '-' || c == '~'
  }

  function HexDigit(n: int): char
    requires 0 <= n < 16
  {
    "0123456789ABCDEF"[n]
  }

  function HexValue(c: char): int {
    if '0' <= c <= '9' then c as int - '0' as int
    else if 'A' <= c <= 'F' then c as int - 'A' as int + 10
    else if 'a' <= c <= 'f' then c as int - 'a' as int + 10
    else -1
  }

  function PercentBytes(b: seq<byte>): string {
    if b == [] then "" else ['%', HexDigit(b[0] / 16), HexDigit(b[0] % 16)] + PercentBytes(b[1..])
  }

  /** One character of `quote_plus`. */
  function QuoteChar(c: char): string {
    if Unreserved(c) then [c] else if c == ' ' then "+" else PercentBytes(EncodeChar(c))
  }

  function Quote(s: string): string {
    if s == "" then "" else QuoteChar(s[0]) + Quote(s[1..])
  }

  // ---- unquoting ----------------------------------------------------------

  /** `unquote_to_bytes` on ASCII text: two hex digits after a percent sign are a byte, anything else is itself. */
  function Unpercent(s: string): seq<byte>
    requires forall i :: 0 <= i < |s| ==> s[i] < '\U{80}'
    decreases |s|
  {
    if s == "" then []
    else if s[0] == '%' && |s| >= 3 && HexValue(s[1]) >= 0 && HexValue(s[2]) >= 0 then
      [(16 * HexValue(s[1]) + HexValue(s[2])) as byte] + Unpercent(s[3..])
    else [s[0] as byte] + Unpercent(s[1..])
  }

  function AsciiRun(s: string): (n: nat)
    ensures n <= |s| && (forall i :: 0 <= i < n ==> s[i] < '\U{80}') && (n < |s| ==> s[n] >= '\U{80}')
  {
    if s != "" && s[0] < '\U{80}' then 1 + AsciiRun(s[1..]) else 0
  }

  /** `unquote`: each stretch of ASCII is unquoted to bytes and decoded, other characters stay. */
  function Unquote(s: string): string
    decreases |s|
  {
    if s == "" then "" else
      var n := AsciiRun(s);
      if n == 0 then [s[0]] + Unquote(s[1..]) else Decode(Unpercent(s[..n])) + Unquote(s[n..])
  }

  function PlusToSpace(s: string): string {
    seq(|s|, i requires 0 <= i < |s| => if s[i] == '+' then ' ' else s[i])
  }

  function UnquotePlus(s: string): string {
    Unquote(PlusToSpace(s))
  }

  // ---- a list of pairs ----------------------------------------------------

  function EncodePair(p: Param): string {
    Quote(p.0) + "=" + Quote(p.1)
  }

  /** `urlencode`. */
  function EncodePairs(params: seq<Param>): string {
    if params == [] then ""
    else if |params| == 1 then EncodePair(params[0])
    else EncodePair(params[0]) + "&" + EncodePairs(params[1..])
  }

  /** The place of the first `c` in `s`, or its length. */
  function Find(s: string, c: char): (n: nat)
    ensures n <= |s| && (n < |s| ==> s[n] == c) && forall i :: 0 <= i < n ==> s[i] != c
  {
    if s == "" || s[0] == c then 0 else 1 + Find(s[1..], c)
  }

  function ParsePair(text: string): Param {
    var n := Find(text, '=');
    (UnquotePlus(text[..n]), UnquotePlus(if n < |text| then text[n + 1..] else ""))
  }

  function ParseOne(text: string): seq<Param> {
    if text == "" then [] else [ParsePair(text)]
  }

  /** `parse_qsl` with blank values kept. */
  function Parse(text: string): seq<Param>
    decreases |text|
  {
    var n := Find(text, '&');
    ParseOne(text[..n]) + if n < |text| then Parse(text[n + 1..]) else []
  }

  // ---- the round trip -----------------------------------------------------

  predicate Safe(c: char) {
    Unreserved(c) || c == '%' || c == '+'
  }

  ghost predicate AllSafe(s: string) {
    forall i :: 0 <= i < |s| ==> Safe(s[i])
  }

  lemma {:induction false} PercentIsSafe(b: seq<byte>)
    ensures AllSafe(PercentBytes(b))
  {
    if b != [] {
      PercentIsSafe(b[1..]);
      HexDigitIsHex(b[0] / 16);
      HexDigitIsHex(b[0] % 16);
    }
  }

  lemma HexDigitIsHex(n: int)
    requires 0 <= n < 16
    ensures Unreserved(HexDigit(n)) && HexValue(HexDigit(n)) == n
  {
    assert HexDigit(n) == if n < 10 then ('0' as int + n) as char else ('A' as int + n - 10) as char;
  }

  lemma {:induction false} QuoteIsSafe(s: string)
    ensures AllSafe(Quote(s))
  {
    if s != "" {
      QuoteIsSafe(s[1..]);
      PercentIsSafe(EncodeChar(s[0]));
      hide EncodeChar;
    }
  }

  lemma PlusOfConcat(a: string, b: string)
    ensures PlusToSpace(a + b) == PlusToSpace(a) + PlusToSpace(b)
  {
  }

  ghost predicate Ascii7(s: string) {
    forall i :: 0 <= i < |s| ==> s[i] < '\U{80}'
  }

  lemma {:induction false} PercentHasNoPlus(b: seq<byte>)
    ensures PlusToSpace(PercentBytes(b)) == PercentBytes(b) && Ascii7(PercentBytes(b))
  {
    if b != [] {
      PercentHasNoPlus(b[1..]);
      HexDigitIsHex(b[0] / 16);
      HexDigitIsHex(b[0] % 16);
      PlusOfConcat(['%', HexDigit(b[0] / 16), HexDigit(b[0] % 16)], PercentBytes(b[1..]));
      hide HexDigit;
    }
  }

  lemma UnpercentOne(b: byte, rest: string)
    requires Ascii7(rest)
    ensures var s := ['%', HexDigit(b / 16), HexDigit(b % 16)] + rest; Ascii7(s) && Unpercent(s) == [b] + Unpercent(rest)
  {
    HexDigitIsHex(b / 16);
    HexDigitIsHex(b % 16);
    var s := ['%', HexDigit(b / 16), HexDigit(b % 16)] + rest;
    hide HexDigit, HexValue;
    assert s[3..] == rest;
  }

  lemma {:induction false} UnpercentBytes(b: seq<byte>, rest: string)
    requires Ascii7(rest)
    ensures Ascii7(PercentBytes(b) + rest) && Unpercent(PercentBytes(b) + rest) == b + Unpercent(rest)
  {
    hide Unpercent, HexDigit;
    if b == [] {
      assert "" + rest == rest;
    } else {
      UnpercentBytes(b[1..], rest);
      UnpercentOne(b[0], PercentBytes(b[1..]) + rest);
      assert PercentBytes(b) + rest == ['%', HexDigit(b[0] / 16), HexDigit(b[0] % 16)] + (PercentBytes(b[1..]) + rest);
    }
  }

  lemma UnpercentChar(c: char, rest: string)
    requires Ascii7(rest)
    ensures var s := PlusToSpace(QuoteChar(c)) + rest; Ascii7(s) && Unpercent(s) == EncodeChar(c) + Unpercent(rest)
  {
    if Unreserved(c) {
      assert PlusToSpace([c]) == [c] && ([c] + rest)[1..] == rest;
    } else if c == ' ' {
      assert PlusToSpace("+") == " " && (" " + rest)[1..] == rest;
    } else {
      hide EncodeChar;
      PercentHasNoPlus(EncodeChar(c));
      UnpercentBytes(EncodeChar(c), rest);
    }
  }

  lemma {:induction false} UnpercentQuoted(s: string)
    ensures Ascii7(PlusToSpace(Quote(s))) && Unpercent(PlusToSpace(Quote(s))) == Encode(s)
  {
    if s == "" {
      assert PlusToSpace("") == "";
    } else {
      UnpercentQuoted(s[1..]);
      PlusOfConcat(QuoteChar(s[0]), Quote(s[1..]));
      UnpercentChar(s[0], PlusToSpace(Quote(s[1..])));
      hide EncodeChar, QuoteChar, Unpercent, PlusToSpace;
    }
  }

  lemma {:induction false} AsciiRunAll(s: string)
    requires Ascii7(s)
    ensures AsciiRun(s) == |s|
  {
    if s != "" {
      AsciiRunAll(s[1..]);
    }
  }

  lemma UnpercentNothing()
    ensures Unpercent("") == [] && Decode([]) == ""
  {
  }

  /** What was quoted is read back, whatever the characters. */
  lemma {:induction false} UnquoteUndoesQuote(s: string)
    ensures UnquotePlus(Quote(s)) == s
  {
    var quoted := PlusToSpace(Quote(s));
    UnpercentQuoted(s);
    AsciiRunAll(quoted);
    DecodeUndoesEncode(s);
    hide Unpercent, Encode, Quote, PlusToSpace;
    assert quoted[..|quoted|] == quoted && quoted[|quoted|..] == "";
    assert Unquote("") == "";
    if quoted == "" {
      UnpercentNothing();
    } else {
      assert Unquote(quoted) == Decode(Unpercent(quoted)) + "" == s;
    }
  }

  ghost predicate Lacks(s: string, c: char) {
    forall i :: 0 <= i < |s| ==> s[i] != c
  }

  lemma FindConcat(a: string, c: char, b: string)
    requires Lacks(a, c)
    ensures Find(a + [c] + b, c) == |a|
    ensures (a + [c] + b)[..|a|] == a && (a + [c] + b)[|a| + 1..] == b
  {
    var s := a + [c] + b;
    var n := Find(s, c);
    assert s[|a|] == c;
    assert forall i :: 0 <= i < |a| ==> s[i] == a[i];
  }

  lemma FindNone(s: string, c: char)
    requires Lacks(s, c)
    ensures Find(s, c) == |s|
  {
    if Find(s, c) < |s| {
      assert false;
    }
  }

  lemma QuoteHasNoSeparators(s: string)
    ensures Lacks(Quote(s), '&') && Lacks(Quote(s), '=')
  {
    QuoteIsSafe(s);
    hide Quote;
  }

  lemma PairRoundTrip(p: Param)
    ensures ParsePair(EncodePair(p)) == p && EncodePair(p) != "" && Lacks(EncodePair(p), '&')
  {
    hide Quote, UnquotePlus, Find;
    QuoteHasNoSeparators(p.0);
    QuoteHasNoSeparators(p.1);
    assert EncodePair(p) == Quote(p.0) + ['='] + Quote(p.1);
    FindConcat(Quote(p.0), '=', Quote(p.1));
    UnquoteUndoesQuote(p.0);
    UnquoteUndoesQuote(p.1);
  }

  /** Reading what was written gives back the list: every name and value, in order, blanks and all. */
  lemma {:induction false} ParseUndoesEncode(params: seq<Param>)
    ensures Parse(EncodePairs(params)) == params
  {
    hide EncodePair, ParsePair, Find;
    if params == [] {
      ParseNothing();
    } else {
      var first := EncodePair(params[0]);
      PairRoundTrip(params[0]);
      if |params| == 1 {
        FindNone(first, '&');
        assert first[..|first|] == first;
      } else {
        var rest := EncodePairs(params[1..]);
        FindConcat(first, '&', rest);
        ParseCut(first, rest);
        ParseUndoesEncode(params[1..]);
        assert [params[0]] + params[1..] == params;
      }
    }
  }

  lemma ParseNothing()
    ensures Parse("") == []
  {
  }

  lemma ParseCut(first: string, rest: string)
    requires Lacks(first, '&')
    ensures Parse(first + "&" + rest) == ParseOne(first) + Parse(rest)
  {
    hide ParseOne, Find;
    FindConcat(first, '&', rest);
    assert first + "&" + rest == first + ['&'] + rest;
  }

  // ---- what any query says ------------------------------------------------

  /** A query is read piece by piece: what stands on either side of an ampersand is read alone. */
  lemma {:induction false} ParseConcat(a: string, b: string)
    ensures Parse(a + "&" + b) == Parse(a) + Parse(b)
    decreases |a|
  {
    var n := Find(a, '&');
    hide Parse, ParseOne, Find;
    if n < |a| {
      var first, rest := a[..n], a[n + 1..];
      assert a == first + "&" + rest;
      Regroup(first, rest, b);
      ParseCut(first, rest);
      ParseConcat(rest, b);
      ParseCut(first, rest + "&" + b);
      ConcatAssociates(ParseOne(first), Parse(rest), Parse(b));
    } else {
      ParseCut(a, b);
      ParseEnd(a);
    }
  }

  lemma Regroup(first: string, rest: string, b: string)
    ensures first + "&" + rest + "&" + b == first + "&" + (rest + "&" + b)
  {
  }

  lemma ParseEnd(text: string)
    requires Lacks(text, '&')
    ensures Parse(text) == ParseOne(text)
  {
    FindNone(text, '&');
    hide ParseOne, Find;
    assert text[..|text|] == text;
  }

  /** One piece: a name and a value around the first equals sign, a name alone without one, or nothing. */
  lemma ParsePiece(name: string, value: string)
    requires Lacks(name, '&') && Lacks(name, '=') && Lacks(value, '&')
    ensures Parse(name + "=" + value) == [(UnquotePlus(name), UnquotePlus(value))]
    ensures Parse(name) == if name == "" then [] else [(UnquotePlus(name), "")]
  {
    var both := name + "=" + value;
    hide Find, UnquotePlus;
    assert both == name + ['='] + value;
    FindConcat(name, '=', value);
    FindNone(both, '&');
    FindNone(name, '&');
    FindNone(name, '=');
    NothingUnquotes();
    assert both[..|both|] == both && name[..|name|] == name;
  }

  lemma NothingUnquotes()
    ensures UnquotePlus("") == ""
  {
    assert PlusToSpace("") == "";
  }

  lemma PlainByte(b: byte, rest: seq<byte>)
    requires b < 0x80
    ensures Decode([b] + rest) == [b as char] + Decode(rest)
  {
    assert DecodeFirst([b] + rest) == (b as char, 1);
    hide DecodeFirst;
    assert ([b] + rest)[1..] == rest;
  }

  lemma {:induction false} PlainBytes(s: string)
    requires Ascii7(s) && Lacks(s, '%')
    ensures Decode(Unpercent(s)) == s
  {
    if s != "" {
      PlainBytes(s[1..]);
      PlainByte(s[0] as byte, Unpercent(s[1..]));
      hide Decode;
      assert s == [s[0]] + s[1..];
    }
  }

  lemma {:induction false} PlainUnquotes(s: string)
    requires Lacks(s, '%')
    ensures Unquote(s) == s
    decreases |s|
  {
    if s != "" {
      var n := AsciiRun(s);
      if n == 0 {
        PlainUnquotes(s[1..]);
        assert s == [s[0]] + s[1..];
      } else {
        assert Unquote(s) == Decode(Unpercent(s[..n])) + Unquote(s[n..]);
        hide Unquote, Decode, Unpercent, AsciiRun;
        PlainBytes(s[..n]);
        PlainUnquotes(s[n..]);
        assert s == s[..n] + s[n..];
      }
    }
  }

  /** Text without percent signs stands for itself, but for its pluses, which are spaces. */
  lemma PlainText(s: string)
    requires Lacks(s, '%')
    ensures |UnquotePlus(s)| == |s|
    ensures forall i :: 0 <= i < |s| ==> UnquotePlus(s)[i] == if s[i] == '+' then ' ' else s[i]
  {
    PlainUnquotes(PlusToSpace(s));
    hide Unquote;
  }

  /** Hex digits are read in either case, and nothing else is one. */
  lemma HexEitherCase(n: nat, c: char)
    requires n < 16
    ensures HexValue("0123456789abcdef"[n]) == n && HexValue("0123456789ABCDEF"[n]) == n
    ensures HexValue(c) >= 0 ==> c in "0123456789abcdefABCDEF"
  {
    HexDigitIsHex(n);
    assert "0123456789abcdef"[n] == if n < 10 then ('0' as int + n) as char else ('a' as int + n - 10) as char;
    if '0' <= c <= '9' {
      assert "0123456789abcdefABCDEF"[c as int - '0' as int] == c;
    } else if 'a' <= c <= 'f' {
      assert "0123456789abcdefABCDEF"[c as int - 'a' as int + 10] == c;
    } else if 'A' <= c <= 'F' {
      assert "0123456789abcdefABCDEF"[c as int - 'A' as int + 16] == c;
    }
  }
}
