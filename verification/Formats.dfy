/** Formats as their sender sees them: what strftime makes of one by ISO C (ISO/IEC 9899:2011, section 7.27.3.5),
    and for which formats a report of tuya_daemon/connection.c decodes to the text it was made from. */
module Formats {
  import opened Memory
  import opened JsonText
  import opened FormatCell
  import opened TimeReport
  import TuyaMachine
  import D = TuyaDaemon

  /** The conversion specifications that section 7.27.3.5 defines, with their modifiers. */
  predicate IsConversion(spec: string) {
    || (|spec| == 2 && spec[0] == '%' && spec[1] in "aAbBcCdDeFgGhHIjmMnprRStTuUVwWxXyYzZ%")
    || (|spec| == 3 && spec[0] == '%' && spec[1] == 'E' && spec[2] in "cCxXyY")
    || (|spec| == 3 && spec[0] == '%' && spec[1] == 'O' && spec[2] in "deHImMSuUVwWy")
  }

  /** The length of the conversion specification or ordinary character that starts a format. */
  function First(format: string): (n: nat)
    requires format != ""
    ensures 1 <= n <= |format|
  {
    var n := if format[0] != '%' then 1 else if |format| > 1 && format[1] in "EO" then 3 else 2;
    if n <= |format| then n else |format|
  }

  /** Every conversion specification is one that the standard defines. */
  predicate Defined(format: string) {
    format != "" ==>
      && format[0] != NUL
      && (format[0] == '%' ==> IsConversion(format[..First(format)]))
      && Defined(format[First(format)..])
  }

  /** Ordinary characters are copied, conversion specifications replaced. */
  function Expand(format: string, convert: string -> string): string {
    if format == "" then ""
    else
      var first := format[..First(format)];
      (if format[0] == '%' then convert(first) else first) + Expand(format[First(format)..], convert)
  }

  /** A newline and a tab for %n and %t, a percent sign for %%; dates, times, names and numbers otherwise, in which
      no character needs escaping. */
  ghost predicate Standard(convert: string -> string) {
    && convert("%n") == "\n" && convert("%t") == "\t" && convert("%%") == "%"
    && forall spec {:trigger convert(spec)} :: IsConversion(spec) && spec != "%n" && spec != "%t" ==> Plain(convert(spec))
  }

  /** strftime follows the standard where that defines what it does. */
  ghost predicate Renders(clock: Clock, convert: string -> string) {
    Standard(convert) && forall f {:trigger clock.render(f)} :: Defined(f) ==> clock.render(f) == Expand(f, convert)
  }

  /** What the sender of a format can check: neither %n nor %t, and no ordinary character that needs escaping. */
  predicate PlainFormat(format: string) {
    format != "" ==>
      && (if format[0] == '%' then format[..First(format)] != "%n" && format[..First(format)] != "%t"
          else Plain(format[..1]))
      && PlainFormat(format[First(format)..])
  }

  lemma PlainConcat(a: string, b: string)
    ensures Plain(a + b) <==> Plain(a) && Plain(b)
  {
    var s := a + b;
    assert forall k :: 0 <= k < |a| ==> s[k] == a[k];
    assert forall k :: 0 <= k < |b| ==> s[|a| + k] == b[k];
  }

  lemma {:induction false} ExpandIsPlain(format: string, convert: string -> string)
    requires Defined(format) && Standard(convert)
    ensures Plain(Expand(format, convert)) <==> PlainFormat(format)
  {
    if format != "" {
      var first, rest := format[..First(format)], format[First(format)..];
      var head := if format[0] == '%' then convert(first) else first;
      PlainConcat(head, Expand(rest, convert));
      ExpandIsPlain(rest, convert);
    }
  }

  /** A published report decodes to its text if and only if the last accepted format is plain. */
  lemma FormatRoundTrip(history: seq<Incoming>, clock: Clock, convert: string -> string)
    requires Renders(clock, convert) && Defined(LastWrite(history))
    requires ReportOf(history, clock).published.Some?
    ensures var text := clock.render(LastWrite(history));
            Decode(ReportOf(history, clock).published.value) == Members([("time", text)])
            <==> PlainFormat(LastWrite(history))
  {
    ExpandIsPlain(LastWrite(history), convert);
    JsonText.RoundTrip(clock.render(LastWrite(history)));
  }

  lemma ConversionFirst(c: char, rest: string)
    requires c in "FTz"
    ensures Defined(['%', c] + rest) == Defined(rest) && PlainFormat(['%', c] + rest) == PlainFormat(rest)
  {
    var f := ['%', c] + rest;
    assert IsConversion(['%', c]);
    hide Plain, IsConversion;
    assert First(f) == 2 && f[..2] == ['%', c] && f[2..] == rest;
  }

  lemma OrdinaryFirst(c: char, rest: string)
    requires c != '%' && c != NUL && Plain([c])
    ensures Defined([c] + rest) == Defined(rest) && PlainFormat([c] + rest) == PlainFormat(rest)
  {
    hide Plain;
    var f := [c] + rest;
    assert f[..1] == [c] && f[1..] == rest;
  }

  /** So the reports made before any message has been accepted decode. */
  lemma DefaultFormatIsPlain()
    ensures Defined(DEFAULT_FORMAT) && PlainFormat(DEFAULT_FORMAT)
  {
    var t: string := ['%', 'T'] + (['%', 'z'] + []);
    assert Defined([]) && PlainFormat([]);
    hide Defined, PlainFormat;
    ConversionFirst('F', [' '] + t);
    OrdinaryFirst(' ', t);
    ConversionFirst('T', ['%', 'z'] + []);
    ConversionFirst('z', []);
    assert DEFAULT_FORMAT == ['%', 'F'] + ([' '] + t);
  }

  // ----- Formats without conversions -----

  lemma {:induction false} OrdinaryIsCopied(format: string, convert: string -> string)
    requires '%' !in format && NUL !in format
    ensures Defined(format) && Expand(format, convert) == format
  {
    if format != "" {
      OrdinaryIsCopied(format[1..], convert);
      assert format[..1] + format[1..] == format;
    }
  }

  /** For a format without conversions: the report decodes to the format if and only if the format is plain. */
  lemma OrdinaryRoundTrip(history: seq<Incoming>, clock: Clock, convert: string -> string)
    requires Renders(clock, convert) && '%' !in LastWrite(history) && NUL !in LastWrite(history)
    requires ReportOf(history, clock).published.Some?
    ensures Decode(ReportOf(history, clock).published.value) == Members([("time", LastWrite(history))])
            <==> Plain(LastWrite(history))
  {
    OrdinaryIsCopied(LastWrite(history), convert);
    JsonText.RoundTrip(LastWrite(history));
  }

  // ----- A format that breaks the report -----

  /** The message that asks for a format. */
  function Asking(format: string): Incoming {
    Incoming(PropertySet,
             Item(ObjectKind, None, None, 0.0, Item(StringKind, Some(PROPERTY), Some(format), 0.0, End, End), End))
  }

  /** Every format can be asked for, after any history. */
  lemma AskingIsHeard(history: seq<Incoming>, format: string)
    ensures WellFormed(Asking(format)) && LastWrite(history + [Asking(format)]) == format
  {
    LastWriteSnoc(history, Asking(format));
  }

  lemma QuoteIsNoReport()
    ensures Decode(Message(PREFIX, "\"")) == NotAnObject
  {
    var text := "\"";
    var s := Message(PREFIX, text);
    assert StringBody("\"\"}") == Ok("", "\"}") by {
      assert "\"\"}"[1..] == "\"}";
    }
    hide StringBody, Member, Plain;
    assert text + SUFFIX == "\"\"}";
    ReportMember(text);
    assert Member(s[1..]) == Ok(("time", ""), "\"}");
    assert MemberList(s[1..]) == Fail;
    assert s == PREFIX + text + SUFFIX && s[0] == '{' && s[1..][0] == '"';
  }

  /** After a request for the format that is a single quote, what is published at the next working clock is not a
      JSON object. */
  lemma QuoteBreaksReport(history: seq<Incoming>, clock: Clock, convert: string -> string)
    requires Renders(clock, convert) && ClockWorks(clock)
    ensures var r := ReportOf(history + [Asking("\"")], clock);
            r.published.Some? && Decode(r.published.value) == NotAnObject
  {
    hide Decode, LastWrite;
    AskingIsHeard(history, "\"");
    OrdinaryIsCopied("\"", convert);
    QuoteIsNoReport();
  }

  /** Such a strftime exists for every standard choice of conversions. */
  lemma RendersIsPossible(convert: string -> string, ack: int) returns (clock: Clock)
    requires Standard(convert)
    ensures Renders(clock, convert) && ClockWorks(clock)
  {
    forall f | Defined(f) ensures NUL !in Expand(f, convert) {
      ExpandHasNoNul(f, convert);
    }
    clock := Clock(true, true, f => if Defined(f) && NUL !in Expand(f, convert) then Expand(f, convert) else "", ack);
  }

  lemma {:induction false} ExpandHasNoNul(format: string, convert: string -> string)
    requires Defined(format) && Standard(convert)
    ensures NUL !in Expand(format, convert)
  {
    if format != "" {
      ExpandHasNoNul(format[First(format)..], convert);
      assert format[0] == '%' ==> NUL !in convert(format[..First(format)]);
    }
  }

  // ----- Whole runs -----

  /** What was published decodes to the text that it was made from. */
  ghost predicate Decodes(r: Report) {
    && r.published.Some?
    && exists text: string ::
         Message(PREFIX, text) == r.published.value && Decode(Message(PREFIX, text)) == Members([("time", text)])
  }

  /** A published report decodes if and only if the format it used is plain. */
  ghost predicate DecodesIfPlain(r: Report) {
    r.published.Some? ==>
      r.used.Some? && (Defined(r.used.value) ==> (Decodes(r) <==> PlainFormat(r.used.value)))
  }

  ghost predicate IsStandard(clock: Clock) {
    exists convert :: Renders(clock, convert)
  }

  lemma ReportDecodesIfPlain(history: seq<Incoming>, clock: Clock)
    requires IsStandard(clock)
    ensures DecodesIfPlain(ReportOf(history, clock))
  {
    hide Decode, Defined, PlainFormat, LastWrite, Renders, Plain;
    var convert :| Renders(clock, convert);
    var r := ReportOf(history, clock);
    if r.published.Some? && Defined(LastWrite(history)) {
      var text := clock.render(LastWrite(history));
      FormatRoundTrip(history, clock, convert);
      if Decodes(r) {
        var t: string :| Message(PREFIX, t) == r.published.value && Decode(Message(PREFIX, t)) == Members([("time", t)]);
        MessageIsInjective(t, text);
      }
    }
  }

  lemma MessageIsInjective(a: string, b: string)
    requires Message(PREFIX, a) == Message(PREFIX, b)
    ensures a == b
  {
    assert a == Message(PREFIX, a)[|PREFIX|..|PREFIX| + |a|];
    assert b == Message(PREFIX, b)[|PREFIX|..|PREFIX| + |b|];
  }

  /** Every clock that the script shows to the program. */
  ghost predicate AllStandard(script: seq<D.Happening>) {
    forall k :: 0 <= k < |script| ==> IsStandard(script[k].clock) && StandardCallbacks(script[k].callbacks)
  }

  ghost predicate StandardCallbacks(callbacks: seq<D.Callback>) {
    forall j :: 0 <= j < |callbacks| && callbacks[j].CameUp? ==> IsStandard(callbacks[j].clock)
  }

  lemma {:induction false} CallbacksDecodeIfPlain(history: seq<Incoming>, callbacks: seq<D.Callback>)
    requires StandardCallbacks(callbacks)
    ensures forall r :: r in D.Reports(history, callbacks) ==> DecodesIfPlain(r)
  {
    hide DecodesIfPlain, ReportOf, IsStandard, D.Messages;
    if callbacks != [] {
      var before, last := callbacks[..|callbacks| - 1], callbacks[|callbacks| - 1];
      CallbacksDecodeIfPlain(history, before);
      if last.CameUp? {
        ReportDecodesIfPlain(history + D.Messages(before), last.clock);
      }
    }
  }

  /** In every run with a standard strftime, every report that is published decodes to the text it was made from
      if and only if the format accepted last before it is plain. */
  lemma {:induction false} RunDecodesIfPlain(limits: TuyaMachine.Limits, script: seq<D.Happening>)
    requires AllStandard(script)
    ensures forall r :: r in D.Replay(limits, script).reports ==> DecodesIfPlain(r)
  {
    hide DecodesIfPlain, ReportOf, IsStandard, D.Messages, D.Reports, D.Outcomes;
    if script != [] {
      var n := |script| - 1;
      RunDecodesIfPlain(limits, script[..n]);
      var history := D.Replay(limits, script[..n]).history;
      CallbacksDecodeIfPlain(history, script[n].callbacks);
      ReportDecodesIfPlain(history, script[n].clock);
    }
  }
}
