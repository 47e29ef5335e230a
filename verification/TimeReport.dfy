/** The time report of tuya_daemon/connection.c, built in place in a fixed buffer. */
module TimeReport {
  import JsonText

  const NUL := 0 as char

  type CString = s: string | NUL !in s witness ""

  /** What time, localtime and strftime have to offer at one moment, and what the report call returns.
      `render` is the text that a format stands for at that moment. */
  datatype Clock = Clock(epochOk: bool, localOk: bool, render: string -> CString, ack: int)

  /** Exclusive upper bound of `int`. */
  const INT_RANGE := 0x8000_0000

  /** The cast of a size_t to a 32-bit `int`. */
  function AsInt(n: nat): int {
    var low := n % (2 * INT_RANGE);
    if low < INT_RANGE then low else low - 2 * INT_RANGE
  }

  /** A length survives the cast exactly if it is below 2^31; otherwise it is taken modulo 2^32 into the range of
      `int`, and comes out smaller. */
  lemma CastIsExact(n: nat)
    ensures AsInt(n) == n <==> n < 0x8000_0000
    ensures -0x8000_0000 <= AsInt(n) < 0x8000_0000 && (n - AsInt(n)) % 0x1_0000_0000 == 0
    ensures AsInt(n) <= n
  {
    var q := n / 0x1_0000_0000;
    assert n - AsInt(n) == if AsInt(n) >= 0 then q * 0x1_0000_0000 else (q + 1) * 0x1_0000_0000;
  }

  const BUFFER_SIZE := 200

  /** The C string that starts a buffer. */
  predicate StartsWithCString(bytes: seq<char>, s: string) {
    NUL !in s && |s| < |bytes| && bytes[..|s|] == s && bytes[|s|] == NUL
  }

  lemma CStringIsUnique(bytes: seq<char>, s: string, t: string)
    requires StartsWithCString(bytes, s) && StartsWithCString(bytes, t)
    ensures s == t
  {
    forall k | 0 <= k < |s| ensures bytes[k] != NUL {
      assert bytes[k] == s[k];
    }
    forall k | 0 <= k < |t| ensures bytes[k] != NUL {
      assert bytes[k] == t[k];
    }
    assert |s| == |t|;
  }

  method Strlen(buf: array<char>) returns (n: nat)
    requires NUL in buf[..]
    ensures n < buf.Length && StartsWithCString(buf[..], buf[..n])
  {
    ghost var i :| 0 <= i < buf.Length && buf[i] == NUL;
    n := 0;
    while buf[n] != NUL
      invariant n <= i && NUL !in buf[..n]
      decreases buf.Length - n
    {
      n := n + 1;
    }
    assert buf[..][..n] == buf[..n];
  }

  /** strftime(3): 0, or the length of the text if it fits with its NUL. When it does not fit, the contents
      of the given part of the buffer are unspecified. */
  method Strftime(buf: array<char>, off: nat, size: nat, text: CString) returns (n: nat)
    requires off + size <= buf.Length
    modifies buf
    ensures forall k :: 0 <= k < buf.Length && !(off <= k < off + size) ==> buf[k] == old(buf[k])
    ensures n == if |text| + 1 <= size then |text| else 0
    ensures |text| + 1 <= size ==> buf[off..off + n] == text && buf[off + n] == NUL
  {
    n := 0;
    while n < |text| && n < size
      invariant n <= |text| && n <= size
      invariant buf[off..off + n] == text[..n]
      invariant forall k :: 0 <= k < buf.Length && !(off <= k < off + size) ==> buf[k] == old(buf[k])
    {
      buf[off + n] := text[n];
      n := n + 1;
    }
    if n < size {
      buf[off + n] := NUL;
    } else {
      n := 0;
    }
  }

  predicate ClockWorks(clock: Clock) {
    clock.epochOk && clock.localOk
  }

  /** The text length, cast to `int`, on success; a negative code otherwise. An empty text is a failure too, and
      a length beyond the range of `int` may come out as anything. */
  method GetTimeString(buf: array<char>, off: nat, size: nat, format: string, clock: Clock) returns (r: int)
    requires off + size <= buf.Length
    modifies buf
    ensures forall k :: 0 <= k < buf.Length && !(off <= k < off + size) ==> buf[k] == old(buf[k])
    ensures var text := clock.render(format);
            if !clock.epochOk then r == -1
            else if !clock.localOk then r == -2
            else if |text| + 1 > size || AsInt(|text|) == 0 then r == -3
            else r == AsInt(|text|)
    ensures ClockWorks(clock) && |clock.render(format)| + 1 <= size ==>
              var n := |clock.render(format)|;
              buf[off..off + n] == clock.render(format) && buf[off + n] == NUL
  {
    if !clock.epochOk {
      return -1;
    }
    if !clock.localOk {
      return -2;
    }
    var n := Strftime(buf, off, size, clock.render(format));
    r := AsInt(n);
    if r == 0 {
      return -3;
    }
  }

  /** A message published for a text. */
  function Message(prefix: string, text: string): string {
    prefix + text + JsonText.SUFFIX
  }

  /** strftime puts the text into what the prefix leaves of the buffer. */
  predicate Accepted(prefix: string, size: nat, text: string, clock: Clock) {
    ClockWorks(clock) && |prefix| + |text| + 1 <= size
  }

  /** Builds the message in a buffer of any size behind any prefix, with `m` the text's length after the cast to
      `int`. For a length in the range of `int` it succeeds exactly when the clock works, the text is not empty
      and the whole message fits with its NUL; the buffer then starts with exactly that message. It refuses a
      text that strftime accepted exactly when the message does not fit. What it publishes is the message for
      the whole text if and only if the length is in the range of `int`; otherwise the text is cut. */
  method BuildReport(prefix: CString, size: nat, format: string, clock: Clock)
      returns (code: int, bytes: seq<char>)
    requires |prefix| < size
    ensures var text := clock.render(format);
            var m := AsInt(|text|);
            var accepted := Accepted(prefix, size, text, clock) && m > 0;
            && |bytes| == size
            && (code == 0 <==> accepted && |Message(prefix, text[..m])| + 1 <= size)
            && (code == -2 <==> accepted && |Message(prefix, text[..m])| + 1 > size)
            && (code == -1 <==> !accepted)
            && (code == 0 ==> StartsWithCString(bytes, Message(prefix, text[..m])))
            && (code == 0 ==> (StartsWithCString(bytes, Message(prefix, text)) <==> |text| < INT_RANGE))
    ensures var text := clock.render(format);
            |text| < INT_RANGE ==>
              (code == 0 <==> ClockWorks(clock) && text != "" && |Message(prefix, text)| + 1 <= size)
  {
    var buf := new char[size]((i: nat) => if i < |prefix| then prefix[i] else NUL);
    assert buf[..][|prefix|] == NUL;
    var used := Strlen(buf);
    assert used == |prefix| && buf[..used] == prefix by {
      assert buf[..][..|prefix|] == prefix;
      CStringIsUnique(buf[..], prefix, buf[..used]);
    }
    ghost var text := clock.render(format);
    CastIsExact(|text|);
    assert text[..|text|] == text;
    assert forall t :: |Message(prefix, t)| == |prefix| + |t| + 2;
    hide AsInt, StartsWithCString, Message;
    var timeLength := GetTimeString(buf, used, size - used, format, clock);
    assert buf[..used] == prefix;
    if timeLength < 0 {
      return -1, buf[..];
    }
    assert text[..timeLength] == buf[used..used + timeLength];
    if used + timeLength + 2 >= size {
      return -2, buf[..];
    }
    ghost var before := buf[..];
    buf[used + timeLength] := '"';
    buf[used + timeLength + 1] := '}';
    buf[used + timeLength + 2] := NUL;
    MessageIsThere(before, prefix, text[..timeLength], buf[..]);
    OnlyOneMessage(buf[..], prefix, text, timeLength);
    return 0, buf[..];
  }

  lemma MessageIsThere(before: seq<char>, prefix: CString, text: CString, after: seq<char>)
    requires |prefix| + |text| + 2 < |before| && before[..|prefix|] == prefix
    requires before[|prefix|..|prefix| + |text|] == text
    requires var n := |prefix| + |text|; after == before[n := '"'][n + 1 := '}'][n + 2 := NUL]
    ensures StartsWithCString(after, Message(prefix, text))
  {
    var n := |prefix| + |text|;
    assert before[..n] == prefix + text;
    assert after[..n] == before[..n];
    assert after[..n + 2] == Message(prefix, text);
  }

  /** A buffer with the message for a part of the text holds the message for the whole only if the part is all. */
  lemma OnlyOneMessage(bytes: seq<char>, prefix: CString, text: CString, m: nat)
    requires m <= |text| && StartsWithCString(bytes, Message(prefix, text[..m]))
    ensures StartsWithCString(bytes, Message(prefix, text)) <==> m == |text|
  {
    assert text[..|text|] == text;
    if StartsWithCString(bytes, Message(prefix, text)) {
      CStringIsUnique(bytes, Message(prefix, text[..m]), Message(prefix, text));
    }
  }

  /** With the sizes of the code: a text of up to 188 characters is published, longer ones are not. What is
      published decodes, by RFC 8259, to the single member `time` with that text exactly when the text needs
      no escaping. */
  method BuildTimeReport(format: string, clock: Clock) returns (code: int, message: string)
    ensures var text := clock.render(format);
            && (code == 0 <==> ClockWorks(clock) && 0 < |text| <= 188)
            && (code == -2 <==> ClockWorks(clock) && 189 <= |text| <= 190)
            && -2 <= code <= 0
            && (code == 0 ==> message == Message(JsonText.PREFIX, text))
            && (code == 0 ==>
                 (JsonText.Decode(message) == JsonText.Members([("time", text)]) <==> JsonText.Plain(text)))
  {
    var bytes;
    code, bytes := BuildReport(JsonText.PREFIX, BUFFER_SIZE, format, clock);
    message := "";
    if code == 0 {
      ghost var m := Message(JsonText.PREFIX, clock.render(format));
      var n := 0;
      while bytes[n] != NUL
        invariant n <= |m| && NUL !in bytes[..n]
        decreases |bytes| - n
      {
        n := n + 1;
      }
      message := bytes[..n];
      CStringIsUnique(bytes, message, m);
      JsonText.RoundTrip(clock.render(format));
    }
  }
}
