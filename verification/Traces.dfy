/** What the outside world sees of a supervised run: the library calls in the order they are made. */
module Traces {

  /** One atomic step's input. `stop` says that the signal handler runs just before the step, `ok` is the
      outcome of the step's library call, `nested` are the outcomes of the reports that callbacks send
      while that call is running. */
  datatype Input = Input(stop: bool, ok: bool, nested: seq<bool>)

  /** `Guard` is one evaluation of the main loop's guard, `Backoff` the sleep between two connection
      attempts, `Pause` the sleep between two rounds of the main loop. */
  datatype Event =
    | Init(ok: bool)
    | Connect(ok: bool, nested: seq<bool>)
    | Backoff(seconds: nat)
    | Connected(yes: bool)
    | Loop(ok: bool, nested: seq<bool>)
    | Guard(taken: bool)
    | Pause(seconds: nat)
    | Send(ok: bool)
    | Disconnect(nested: seq<bool>)
    | Deinit
    | FreeFormat

  /** A selection of events: `Calling` takes connects and MQTT loop calls together, `Sleeping` both sleeps,
      `Looping` the MQTT loop calls of set-up and main loop, `Guarding` the main loop's guard evaluations,
      `Attempting` everything the retry loop does and `Serving` everything the main loop does. */
  datatype View =
    | Connecting | Calling | Sleeping | Sending | Retrying | Looping | Guarding | Attempting | Serving

  predicate Shows(v: View, e: Event) {
    match v
    case Connecting => e.Connect?
    case Calling => e.Connect? || e.Loop?
    case Sleeping => e.Backoff? || e.Pause?
    case Sending => e.Send?
    case Retrying => e.Backoff?
    case Looping => e.Loop?
    case Guarding => e.Guard?
    case Attempting => e.Connect? || e.Backoff?
    case Serving => e.Guard? || e.Loop? || e.Pause? || e.Send?
  }

  /** The events of `tr` that the view shows, in order. */
  function Project(v: View, tr: seq<Event>): seq<Event> {
    if tr == [] then []
    else
      var last := tr[|tr| - 1];
      Project(v, tr[..|tr| - 1]) + if Shows(v, last) then [last] else []
  }

  lemma ProjectSnoc(v: View, tr: seq<Event>, e: Event)
    ensures Project(v, tr + [e]) == Project(v, tr) + if Shows(v, e) then [e] else []
  {
    assert (tr + [e])[..|tr|] == tr;
  }

  /** At most one event is emitted in a step. */
  datatype Emission = Silent | Call(e: Event)

  function Extend(tr: seq<Event>, m: Emission): seq<Event> {
    if m.Call? then tr + [m.e] else tr
  }

  /** How many events of the view an emission adds. */
  function Shown(v: View, m: Emission): nat {
    if m.Call? && Shows(v, m.e) then 1 else 0
  }

  lemma ProjectExtend(v: View, tr: seq<Event>, m: Emission)
    ensures Project(v, Extend(tr, m)) == Project(v, tr) + if m.Call? && Shows(v, m.e) then [m.e] else []
  {
    if m.Call? {
      ProjectSnoc(v, tr, m.e);
    }
  }

  /** The number of failed main-loop sends since the last successful one. Sends made by callbacks are
      part of `Connect`, `Loop` and `Disconnect` events and do not count. */
  function TrailingFailures(tr: seq<Event>): nat {
    if tr == [] || tr[|tr| - 1] == Send(true) then 0
    else TrailingFailures(tr[..|tr| - 1]) + if tr[|tr| - 1] == Send(false) then 1 else 0
  }

  /** The count `n` of trailing failures after one more emission. */
  function CountFailure(n: nat, m: Emission): nat {
    if m == Call(Send(true)) then 0 else n + if m == Call(Send(false)) then 1 else 0
  }

  lemma TrailingExtend(tr: seq<Event>, m: Emission)
    ensures TrailingFailures(Extend(tr, m)) == CountFailure(TrailingFailures(tr), m)
  {
    if m.Call? {
      assert (tr + [m.e])[..|tr|] == tr;
    }
  }

  /** The history never ended in `limit` failed sends before its last event. */
  predicate NeverFull(tr: seq<Event>, limit: nat) {
    forall n :: 0 <= n < |tr| ==> TrailingFailures(tr[..n]) < limit
  }

  lemma NeverFullExtend(tr: seq<Event>, m: Emission, limit: nat)
    requires NeverFull(tr, limit) && (m.Call? ==> TrailingFailures(tr) < limit)
    ensures NeverFull(Extend(tr, m), limit)
  {
    var t := Extend(tr, m);
    forall k | 0 <= k < |t| ensures TrailingFailures(t[..k]) < limit {
      assert t[..k] == if k < |tr| then tr[..k] else tr;
    }
  }

  /** `TrailingFailures` is the length of the longest run of failures that ends the list of main-loop sends. */
  lemma {:induction false} TrailingIsLongestFailingSuffix(tr: seq<Event>)
    ensures var sent := Project(Sending, tr);
            var n := TrailingFailures(tr);
            && n <= |sent|
            && (forall j :: |sent| - n <= j < |sent| ==> sent[j] == Send(false))
            && (n < |sent| ==> sent[|sent| - n - 1] == Send(true))
  {
    if tr != [] {
      TrailingIsLongestFailingSuffix(tr[..|tr| - 1]);
    }
  }

  /** What can be seen in a trace: its last event, the one before that, how many sleeps between connection
      attempts, MQTT loop calls and main-loop guards it has, and the failed sends that end it. */
  datatype Sight = Sight(last: Emission, before: Emission, retries: nat, loops: nat, guards: nat, failures: nat)

  function See(tr: seq<Event>): Sight {
    Sight(
      if |tr| > 0 then Call(tr[|tr| - 1]) else Silent,
      if |tr| > 1 then Call(tr[|tr| - 2]) else Silent,
      |Project(Retrying, tr)|,
      |Project(Looping, tr)|,
      |Project(Guarding, tr)|,
      TrailingFailures(tr))
  }

  /** What can be seen after one more emission. */
  function Look(v: Sight, m: Emission): Sight {
    if m.Silent? then v
    else
      Sight(m, v.last, v.retries + Shown(Retrying, m), v.loops + Shown(Looping, m), v.guards + Shown(Guarding, m),
            CountFailure(v.failures, m))
  }

  lemma LookExtend(tr: seq<Event>, m: Emission)
    ensures See(Extend(tr, m)) == Look(See(tr), m)
  {
    ProjectExtend(Retrying, tr, m);
    ProjectExtend(Looping, tr, m);
    ProjectExtend(Guarding, tr, m);
    TrailingExtend(tr, m);
  }

  lemma GuardSeen(tr: seq<Event>)
    ensures See(tr).last.Call? && See(tr).last.e.Guard? ==> See(tr).guards > 0
  {
  }

  predicate FailedConnect(m: Emission) {
    m.Call? && m.e.Connect? && !m.e.ok
  }

  predicate GoodConnect(m: Emission) {
    m.Call? && m.e.Connect? && m.e.ok
  }

  predicate FailedLoop(m: Emission) {
    m.Call? && m.e.Loop? && !m.e.ok
  }

  predicate GoodLoop(m: Emission) {
    m.Call? && m.e.Loop? && m.e.ok
  }

  /** An event carries the outcomes of the step that it is made in. */
  predicate Carries(e: Event, ok: bool, nested: seq<bool>) {
    match e
    case Init(o) => o == ok
    case Connect(o, n) => o == ok && n == nested
    case Connected(o) => o == ok
    case Loop(o, n) => o == ok && n == nested
    case Send(o) => o == ok
    case Disconnect(n) => n == nested
    case _ => true
  }

  /** Some input asks the process to stop. */
  predicate Asked(ins: seq<Input>) {
    exists k :: 0 <= k < |ins| && ins[k].stop
  }

  lemma AskedSnoc(ins: seq<Input>, inp: Input)
    ensures Asked(ins + [inp]) <==> Asked(ins) || inp.stop
  {
    var all := ins + [inp];
    assert all[|ins|] == inp;
    assert forall k :: 0 <= k < |ins| ==> all[k] == ins[k];
  }

  const UINT_RANGE: nat := 0x1_0000_0000

  function Pow2(n: nat): (r: nat)
    ensures r > 0
  {
    if n == 0 then 1 else 2 * Pow2(n - 1)
  }

  /** The delay before retry `k`, counted from 0: an `unsigned int` that is doubled each time, so it wraps. */
  function Delay(k: nat): nat {
    Pow2(k + 1) % UINT_RANGE
  }

  /** Total seconds of the sleeps between connection attempts. */
  function SecondsSlept(backoffs: seq<Event>): nat {
    if backoffs == [] then 0
    else
      var last := backoffs[|backoffs| - 1];
      SecondsSlept(backoffs[..|backoffs| - 1]) + if last.Backoff? then last.seconds else 0
  }

  lemma {:induction false} Pow2Monotone(a: nat, b: nat)
    requires a <= b
    ensures Pow2(a) <= Pow2(b)
  {
    if a < b {
      Pow2Monotone(a, b - 1);
    }
  }

  lemma PowersAtTheEdge()
    ensures Pow2(31) == 0x8000_0000 && Pow2(32) == UINT_RANGE
  {
    assert Pow2(8) == 256;
    assert Pow2(12) == 4096;
    assert Pow2(16) == 65536;
    assert Pow2(20) == 1048576;
    assert Pow2(24) == 16777216;
    assert Pow2(28) == 268435456;
  }

  /** The delay is exact for as long as it fits the type. */
  lemma DelayIsExact(k: nat)
    ensures Delay(k) == Pow2(k + 1) <==> k < 31
  {
    PowersAtTheEdge();
    if k < 31 {
      Pow2Monotone(k + 1, 31);
    } else {
      Pow2Monotone(32, k + 1);
    }
  }

  /** Doubling the wrapped delay gives the next wrapped delay. */
  lemma DelayDoubles(k: nat)
    ensures (Delay(k) * 2) % UINT_RANGE == Delay(k + 1)
  {
    var p := Pow2(k + 1);
    var q := p / UINT_RANGE;
    assert p == q * UINT_RANGE + p % UINT_RANGE;
    assert Pow2(k + 2) == 2 * p;
    assert 2 * p == (2 * q) * UINT_RANGE + 2 * (p % UINT_RANGE);
    ModAddMultiple(2 * q, 2 * (p % UINT_RANGE));
  }

  lemma ModAddMultiple(q: nat, r: nat)
    ensures (q * UINT_RANGE + r) % UINT_RANGE == r % UINT_RANGE
  {
    var a := q * UINT_RANGE + r;
    assert a == (q + r / UINT_RANGE) * UINT_RANGE + r % UINT_RANGE;
  }

  predicate AllDelays(backoffs: seq<Event>) {
    forall k :: 0 <= k < |backoffs| ==> backoffs[k] == Backoff(Delay(k))
  }

  lemma DelaysGrow(backoffs: seq<Event>, m: Emission)
    requires AllDelays(backoffs)
    requires m.Call? && m.e.Backoff? ==> m.e.seconds == Delay(|backoffs|)
    ensures AllDelays(backoffs + if m.Call? && m.e.Backoff? then [m.e] else [])
  {
  }

  /** From the 32nd on, every delay has wrapped to zero. */
  lemma {:induction false} DelayVanishes(k: nat)
    requires k >= 31
    ensures Delay(k) == 0
  {
    if k == 31 {
      PowersAtTheEdge();
    } else {
      DelayVanishes(k - 1);
      DelayDoubles(k - 1);
    }
  }

  /** The first 31 delays add up to a power of two less two; the later ones add nothing. */
  lemma {:induction false} DelaysAddUp(backoffs: seq<Event>)
    requires AllDelays(backoffs)
    ensures SecondsSlept(backoffs) == if |backoffs| <= 31 then Pow2(|backoffs| + 1) - 2 else UINT_RANGE - 2
  {
    if backoffs != [] {
      var k := |backoffs| - 1;
      DelaysAddUp(backoffs[..k]);
      if k < 31 {
        DelayIsExact(k);
      } else {
        DelayVanishes(k);
        PowersAtTheEdge();
      }
    }
  }
}
