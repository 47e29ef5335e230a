/** A decoder for JSON objects whose members are strings, after RFC 8259: whitespace from section 2, objects
    from section 4, strings and their escapes from section 7. */
module JsonText {

  datatype Parsed<+T> = Fail | Ok(value: T, rest: string)

  datatype Decoded = NotAnObject | Members(members: seq<(string, string)>)

  predicate IsSpace(c: char) {
    c == ' ' || c == '\t' || c == '\n' || c == '\r'
  }

  function SkipSpace(s: string): (r: string)
    ensures |r| <= |s|
  {
    if s != [] && IsSpace(s[0]) then SkipSpace(s[1..]) else s
  }

  function HexDigit(c: char): (r: int)
    ensures -1 <= r < 16
  {
    if '0' <= c <= '9' then c as int - '0' as int
    else if 'a' <= c <= 'f' then c as int - 'a' as int + 10
    else if 'A' <= c <= 'F' then c as int - 'A' as int + 10
    else -1
  }

  /** Four hexadecimal digits, or -1. */
  function Hex4(s: string): (r: int)
    ensures -1 <= r < 0x1_0000
    ensures r >= 0 ==> |s| >= 4 && forall k :: 0 <= k < 4 ==> HexDigit(s[k]) >= 0
  {
    if |s| < 4 || HexDigit(s[0]) < 0 || HexDigit(s[1]) < 0 || HexDigit(s[2]) < 0 || HexDigit(s[3]) < 0 then -1
    else ((HexDigit(s[0]) * 16 + HexDigit(s[1])) * 16 + HexDigit(s[2])) * 16 + HexDigit(s[3])
  }

  /** What follows `\u`: one code unit, or two that form a surrogate pair. */
  function UnicodeEscape(s: string): (r: Parsed<char>)
    ensures r.Ok? ==> |r.rest| < |s|
  {
    var high := Hex4(s);
    if high < 0 then Fail
    else if high < 0xD800 || 0xE000 <= high then Ok(high as char, s[4..])
    else if high < 0xDC00 && |s| > 6 && s[4] == '\\' && s[5] == 'u' then
      var low := Hex4(s[6..]);
      if 0xDC00 <= low < 0xE000 then Ok((0x1_0000 + (high - 0xD800) * 0x400 + (low - 0xDC00)) as char, s[10..])
      else Fail
    else Fail
  }

  /** What follows a backslash. */
  function Escape(s: string): (r: Parsed<char>)
    ensures r.Ok? ==> |r.rest| < |s|
  {
    if s == [] then Fail
    else if s[0] == '"' || s[0] == '\\' || s[0] == '/' then Ok(s[0], s[1..])
    else if s[0] == 'b' then Ok(8 as char, s[1..])
    else if s[0] == 'f' then Ok(12 as char, s[1..])
    else if s[0] == 'n' then Ok('\n', s[1..])
    else if s[0] == 'r' then Ok('\r', s[1..])
    else if s[0] == 't' then Ok('\t', s[1..])
    else if s[0] == 'u' then UnicodeEscape(s[1..])
    else Fail
  }

  function Prepend(c: char, p: Parsed<string>): Parsed<string> {
    if p.Ok? then Ok([c] + p.value, p.rest) else Fail
  }

  predicate IsControl(c: char) {
    c as int < 0x20
  }

  /** The rest of a string after its opening quote. */
  function StringBody(s: string): (r: Parsed<string>)
    ensures r.Ok? ==> |r.rest| < |s|
    decreases |s|
  {
    if s == [] || IsControl(s[0]) then Fail
    else if s[0] == '"' then Ok("", s[1..])
    else if s[0] == '\\' then
      var e := Escape(s[1..]);
      if e.Ok? then Prepend(e.value, StringBody(e.rest)) else Fail
    else Prepend(s[0], StringBody(s[1..]))
  }

  function StringValue(s: string): (r: Parsed<string>)
    ensures r.Ok? ==> |r.rest| < |s|
  {
    if s != [] && s[0] == '"' then StringBody(s[1..]) else Fail
  }

  /** One member, up to the comma or brace behind it. */
  function Member(s: string): (r: Parsed<(string, string)>)
    ensures r.Ok? ==> |r.rest| < |s|
  {
    var key := StringValue(SkipSpace(s));
    if key.Fail? then Fail
    else
      var colon := SkipSpace(key.rest);
      if colon == [] || colon[0] != ':' then Fail
      else
        var value := StringValue(SkipSpace(colon[1..]));
        if value.Fail? then Fail else Ok((key.value, value.value), SkipSpace(value.rest))
  }

  /** One or more members and the closing brace. */
  function MemberList(s: string): (r: Parsed<seq<(string, string)>>)
    ensures r.Ok? ==> |r.rest| < |s| && |r.value| >= 1
    decreases |s|
  {
    var m := Member(s);
    if m.Fail? || m.rest == [] then Fail
    else if m.rest[0] == '}' then Ok([m.value], m.rest[1..])
    else if m.rest[0] == ',' then
      var more := MemberList(m.rest[1..]);
      if more.Ok? then Ok([m.value] + more.value, more.rest) else Fail
    else Fail
  }

  function Decode(s: string): Decoded {
    var t := SkipSpace(s);
    if t == [] || t[0] != '{' then NotAnObject
    else
      var inside := SkipSpace(t[1..]);
      var r := if inside != [] && inside[0] == '}' then Ok([], inside[1..]) else MemberList(t[1..]);
      if r.Ok? && SkipSpace(r.rest) == [] then Members(r.value) else NotAnObject
  }

  /** No character that section 7 requires to be escaped. */
  predicate Plain(text: string) {
    forall k :: 0 <= k < |text| ==> text[k] != '"' && text[k] != '\\' && !IsControl(text[k])
  }

  lemma {:induction false} PlainBody(text: string, rest: string)
    requires Plain(text)
    ensures StringBody(text + "\"" + rest) == Ok(text, rest)
  {
    var s := text + "\"" + rest;
    if text == "" {
      assert s[1..] == rest;
    } else {
      PlainBody(text[1..], rest);
      assert s[1..] == text[1..] + "\"" + rest;
      assert [text[0]] + text[1..] == text;
    }
  }

  /** An escape that is cut out of `u` followed by a quote and a brace stays inside `u`, unless it takes the
      quote itself. */
  lemma EscapeStaysInside(u: string) returns (k: nat)
    requires Escape(u + "\"}").Ok?
    ensures u == "" ==> Escape(u + "\"}").rest == "}"
    ensures u != "" ==> 1 <= k <= |u| && Escape(u + "\"}").rest == u[k..] + "\"}"
  {
    hide Hex4;
    var s := u + "\"}";
    k := 1;
    if u == "" {
      assert s == "\"}";
    } else if u[0] == 'u' {
      var h := s[1..];
      HexStaysInside(u[1..]);
      assert h == u[1..] + "\"}";
      k := 5;
      if 0xD800 <= Hex4(h) < 0xE000 {
        HexStaysInside(u[7..]);
        assert h[6..] == u[7..] + "\"}";
        k := 11;
        assert h[10..] == u[11..] + "\"}";
      } else {
        assert h[4..] == u[5..] + "\"}";
      }
    } else {
      assert s[1..] == u[1..] + "\"}";
    }
  }

  lemma HexStaysInside(u: string)
    ensures Hex4(u + "\"}") >= 0 ==> |u| >= 4
  {
    var s := u + "\"}";
    if |u| < 4 {
      assert HexDigit(s[|u|]) == -1;
    }
  }

  /** Reading `t` up to a closing quote in front of a final brace: either the string ends early and a quote is
      left over, or all of `t` is read, and its characters come back unchanged only if `t` is plain. */
  lemma {:induction false} BodyOfReport(t: string)
    ensures var r := StringBody(t + "\"}");
            r.Ok? ==>
              || '"' in r.rest
              || (r.rest == "}" && |r.value| <= |t| && (|r.value| == |t| ==> Plain(t)))
    decreases |t|
  {
    var s := t + "\"}";
    if t == "" {
      assert s[1..] == "}";
    } else {
      var rest := s[1..];
      assert rest == t[1..] + "\"}";
      if t[0] == '"' {
        assert rest[|t| - 1] == '"';
      } else if t[0] == '\\' {
        if Escape(rest).Ok? {
          var k := EscapeStaysInside(t[1..]);
          if t[1..] == "" {
            var brace := "}";
            assert brace[1..] == "";
            assert StringBody(brace) == Fail;
          } else {
            BodyOfReport(t[1..][k..]);
          }
        }
      } else if !IsControl(t[0]) {
        BodyOfReport(t[1..]);
      }
    }
  }

  lemma {:induction false} SkipKeepsQuote(s: string)
    requires '"' in s
    ensures '"' in SkipSpace(s)
  {
    if s != [] && IsSpace(s[0]) {
      SkipKeepsQuote(s[1..]);
    }
  }

  const PREFIX := "{\"time\":\""
  const SUFFIX := "\"}"

  /** The first member of a report is `time` with whatever the string body decodes to. */
  lemma ReportMember(text: string)
    ensures var body := StringBody(text + SUFFIX);
            Member((PREFIX + text + SUFFIX)[1..]) ==
            if body.Ok? then Ok(("time", body.value), SkipSpace(body.rest)) else Fail
  {
    var s := (PREFIX + text + SUFFIX)[1..];
    var afterKey := ":\"" + text + SUFFIX;
    assert s == "\"time\"" + afterKey;
    assert s[1..] == "time" + "\"" + afterKey;
    PlainBody("time", afterKey);
    assert afterKey[1..] == "\"" + text + SUFFIX;
    assert afterKey[1..][1..] == text + SUFFIX;
  }

  /** A report decodes to the object with the single member `time` equal to the text if and only if the text
      needs no escaping. */
  lemma RoundTrip(text: string)
    ensures Decode(PREFIX + text + SUFFIX) == Members([("time", text)]) <==> Plain(text)
  {
    var s := PREFIX + text + SUFFIX;
    var body := StringBody(text + SUFFIX);
    ReportMember(text);
    assert s[0] == '{' && s[1] == '"' && s[1..][0] == '"';
    if Plain(text) {
      PlainBody(text, "}");
      assert text + "\"" + "}" == text + SUFFIX;
      var brace := "}";
      assert SkipSpace(brace) == brace && brace[1..] == "";
    } else if body.Ok? {
      BodyOfReport(text);
      if '"' in body.rest {
        SkipKeepsQuote(body.rest);
        var rest := SkipSpace(body.rest);
        if rest[0] == '}' {
          assert '"' in rest[1..];
          SkipKeepsQuote(rest[1..]);
        }
      }
    }
  }

  // ----- What an escaping builder would publish -----

  function HexChar(n: nat): char
    requires n < 16
  {
    if n < 10 then (n + '0' as int) as char else (n - 10 + 'a' as int) as char
  }

  /** A character as section 7 wants it written. */
  function Escaped(c: char): string {
    if c == '"' || c == '\\' then ['\\', c]
    else if IsControl(c) then ['\\', 'u', '0', '0', HexChar(c as int / 16), HexChar(c as int % 16)]
    else [c]
  }

  function EscapedText(text: string): string {
    if text == "" then "" else Escaped(text[0]) + EscapedText(text[1..])
  }

  lemma EscapedCharacter(c: char, s: string)
    ensures StringBody(Escaped(c) + s) == Prepend(c, StringBody(s))
  {
    var t := Escaped(c) + s;
    if c == '"' || c == '\\' {
      assert t[1..][0] == c && t[1..][1..] == s;
    } else if IsControl(c) {
      var hex := t[1..][1..];
      assert hex == ['0', '0', HexChar(c as int / 16), HexChar(c as int % 16)] + s;
      assert Hex4(hex) == c as int;
      assert hex[4..] == s;
    } else {
      assert t[1..] == s;
    }
  }

  lemma {:induction false} EscapedBody(text: string, rest: string)
    ensures StringBody(EscapedText(text) + "\"" + rest) == Ok(text, rest)
  {
    hide Escaped, Escape;
    var tail := "\"" + rest;
    if text == "" {
      assert EscapedText(text) + "\"" + rest == tail && tail[1..] == rest;
    } else {
      EscapedBody(text[1..], rest);
      var s := EscapedText(text[1..]) + "\"" + rest;
      assert EscapedText(text) + "\"" + rest == Escaped(text[0]) + s;
      EscapedCharacter(text[0], s);
      assert [text[0]] + text[1..] == text;
    }
  }

  /** The decoder reads every text back from its escaped form: that `RoundTrip` fails for a text with a quote, a
      backslash or a control character is due to the report being built without escaping. */
  lemma EscapedRoundTrip(text: string)
    ensures Decode(PREFIX + EscapedText(text) + SUFFIX) == Members([("time", text)])
  {
    var s := PREFIX + EscapedText(text) + SUFFIX;
    ReportMember(EscapedText(text));
    EscapedBody(text, "}");
    assert EscapedText(text) + "\"" + "}" == EscapedText(text) + SUFFIX;
    assert s[0] == '{' && s[1] == '"' && s[1..][0] == '"';
    var brace := "}";
    assert SkipSpace(brace) == brace && brace[1..] == "";
  }
}
