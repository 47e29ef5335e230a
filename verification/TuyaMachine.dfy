/** tuya_daemon/main.c as a machine: one step for each guard evaluation, library call, sleep and counter
    update. The signal handler may run before any of them. */
module TuyaMachine {
  import opened Traces

  datatype Limits = Limits(retries: nat, setups: nat, failures: nat)

  /** The constants of main.c. */
  const LIMITS := Limits(10, 5, 10)

  const EXIT_SUCCESS := 0
  const EXIT_FAILURE := 1

  datatype Pc =
    | AtInit
    | AtConnect | AtRetryGuard | AtRetrySleep | AtRetryConnect
    | AtSetupGuard | AtSetupLoop
    | AtMainGuard | AtMainLoop | AtMainSleep | AtMainSend | AtCount
    | AtDisconnect | AtDeinit | AtFree
    | Done

  /** `i` is the counter of the current for-loop, `ok` the outcome of the last connect or send. */
  datatype Control = Control(pc: Pc, keep: bool, i: nat, delay: nat, ok: bool, fails: nat, retVal: int)

  datatype State = State(c: Control, trace: seq<Event>)

  function Start(): State {
    State(Control(AtInit, true, 0, 2, false, 0, EXIT_SUCCESS), [])
  }

  /** Where the action at the current program point leads. */
  function Next(l: Limits, c: Control, ok: bool): (n: Control)
    ensures n.keep == c.keep
  {
    match c.pc
    case AtInit => if ok then c.(pc := AtConnect) else c.(pc := Done, retVal := EXIT_FAILURE)
    case AtConnect => c.(pc := AtRetryGuard, ok := ok, i := 0, delay := 2)
    case AtRetryGuard =>
      if c.i < l.retries && !c.ok && c.keep then c.(pc := AtRetrySleep)
      else if !c.ok then c.(pc := AtDisconnect, retVal := EXIT_FAILURE)
      else c.(pc := AtSetupGuard, i := 0)
    case AtRetrySleep => c.(pc := AtRetryConnect, delay := (c.delay * 2) % UINT_RANGE)
    case AtRetryConnect => c.(pc := AtRetryGuard, ok := ok, i := c.i + 1)
    case AtSetupGuard =>
      if c.i < l.setups && c.keep then c.(pc := AtSetupLoop)
      else c.(pc := AtMainGuard, fails := 0, retVal := EXIT_SUCCESS)
    case AtSetupLoop =>
      if ok then c.(pc := AtSetupGuard, i := c.i + 1) else c.(pc := AtDisconnect, retVal := EXIT_FAILURE)
    case AtMainGuard => c.(pc := if c.keep then AtMainLoop else AtDisconnect)
    case AtMainLoop => if ok then c.(pc := AtMainSleep) else c.(pc := AtDisconnect, retVal := EXIT_FAILURE)
    case AtMainSleep => c.(pc := AtMainSend)
    case AtMainSend => c.(pc := AtCount, ok := ok)
    case AtCount =>
      if c.ok then c.(pc := AtMainGuard, fails := 0)
      else if c.fails + 1 == l.failures then c.(pc := AtDisconnect, fails := c.fails + 1, retVal := EXIT_FAILURE)
      else c.(pc := AtMainGuard, fails := c.fails + 1)
    case AtDisconnect => c.(pc := AtDeinit)
    case AtDeinit => c.(pc := AtFree)
    case AtFree => c.(pc := Done)
    case Done => c
  }

  /** The library call made at the current program point, if any. */
  function Emit(c: Control, ok: bool, nested: seq<bool>): Emission {
    match c.pc
    case AtInit => Call(Init(ok))
    case AtConnect => Call(Connect(ok, nested))
    case AtRetrySleep => Call(Backoff(c.delay))
    case AtRetryConnect => Call(Connect(ok, nested))
    case AtSetupLoop => Call(Loop(ok, nested))
    case AtMainGuard => Call(Guard(c.keep))
    case AtMainLoop => Call(Loop(ok, nested))
    case AtMainSleep => Call(Pause(10))
    case AtMainSend => Call(Send(ok))
    case AtDisconnect => Call(Disconnect(nested))
    case AtDeinit => Call(Deinit)
    case AtFree => Call(FreeFormat)
    case _ => Silent
  }

  function Interrupted(c: Control, stop: bool): Control {
    if stop then c.(keep := false) else c
  }

  /** One step: the handler if it is due, then the action. */
  function Step(l: Limits, s: State, inp: Input): State {
    var c := Interrupted(s.c, inp.stop);
    State(Next(l, c, inp.ok), Extend(s.trace, Emit(c, inp.ok, inp.nested)))
  }

  function ExecFrom(l: Limits, s: State, ins: seq<Input>): State {
    if ins == [] then s else Step(l, ExecFrom(l, s, ins[..|ins| - 1]), ins[|ins| - 1])
  }

  function Exec(l: Limits, ins: seq<Input>): State {
    ExecFrom(l, Start(), ins)
  }

  lemma DoneStep(l: Limits, s: State, inp: Input)
    requires s.c.pc.Done?
    ensures var t := Step(l, s, inp);
            t.c.pc.Done? && t.c.retVal == s.c.retVal && t.trace == s.trace
  {
  }

  lemma ExecSnoc(l: Limits, s: State, ins: seq<Input>, inp: Input)
    ensures ExecFrom(l, s, ins + [inp]) == Step(l, ExecFrom(l, s, ins), inp)
  {
    assert (ins + [inp])[..|ins|] == ins;
  }

  lemma {:induction false} ExecSplit(l: Limits, s: State, a: seq<Input>, b: seq<Input>)
    ensures ExecFrom(l, s, a + b) == ExecFrom(l, ExecFrom(l, s, a), b)
  {
    if b == [] {
      assert a + b == a;
    } else {
      var rest := b[..|b| - 1];
      ExecSplit(l, s, a, rest);
      assert a + b == (a + rest) + [b[|b| - 1]];
      ExecSnoc(l, s, a + rest, b[|b| - 1]);
    }
  }

  /** The stop flag is monotone: it is down exactly when the handler has run. */
  lemma {:induction false} KeepMirrorsRequests(l: Limits, s: State, ins: seq<Input>)
    ensures ExecFrom(l, s, ins).c.keep <==> s.c.keep && !Asked(ins)
  {
    if ins != [] {
      var before := ins[..|ins| - 1];
      KeepMirrorsRequests(l, s, before);
      AskedSnoc(before, ins[|ins| - 1]);
      assert before + [ins[|ins| - 1]] == ins;
    }
  }

  // ----- Call protocol -----

  predicate ConnectedBefore(tr: seq<Event>, j: nat) {
    exists i :: 0 <= i < j && i < |tr| && tr[i].Connect? && tr[i].ok
  }

  predicate Closing(e: Event) {
    e.Init? || e.Disconnect? || e.Deinit? || e.FreeFormat?
  }

  predicate NeedsConnection(e: Event) {
    e.Loop? || e.Guard? || e.Pause? || e.Send?
  }

  /** A run before clean-up: initialised first and once, connected before it loops or sends. */
  predicate Open(tr: seq<Event>) {
    && |tr| > 0 && tr[0] == Init(true)
    && (forall j :: 0 < j < |tr| ==> !Closing(tr[j]))
    && (forall j :: 0 <= j < |tr| && NeedsConnection(tr[j]) ==> ConnectedBefore(tr, j))
  }

  /** An open run, then disconnect, deinit and the release of the format, each once and last. */
  predicate Closed(tr: seq<Event>) {
    && |tr| > 3 && Open(tr[..|tr| - 3])
    && tr[|tr| - 3].Disconnect? && tr[|tr| - 2].Deinit? && tr[|tr| - 1].FreeFormat?
  }

  predicate InMainLoop(pc: Pc) {
    pc.AtMainGuard? || pc.AtMainLoop? || pc.AtMainSleep? || pc.AtMainSend? || pc.AtCount?
  }

  predicate Connected(pc: Pc) {
    pc.AtSetupGuard? || pc.AtSetupLoop? || InMainLoop(pc)
  }

  predicate CleaningUp(pc: Pc) {
    pc.AtDisconnect? || pc.AtDeinit? || pc.AtFree? || pc.Done?
  }

  ghost predicate ProtocolInv(c: Control, tr: seq<Event>) {
    if c.pc.AtInit? then tr == []
    else if c.pc.AtDeinit? then |tr| > 1 && Open(tr[..|tr| - 1]) && tr[|tr| - 1].Disconnect?
    else if c.pc.AtFree? then
      |tr| > 2 && Open(tr[..|tr| - 2]) && tr[|tr| - 2].Disconnect? && tr[|tr| - 1].Deinit?
    else if c.pc.Done? then tr == [Init(false)] || Closed(tr)
    else Open(tr) && (Connected(c.pc) || (c.pc.AtRetryGuard? && c.ok) ==> ConnectedBefore(tr, |tr|))
  }

  /** What a step from `c` to `n` with emission `m` means for the protocol. */
  predicate Links(c: Control, n: Control, m: Emission) {
    if c.pc.AtInit? then
      (m == Call(Init(true)) && n.pc.AtConnect?) || (m == Call(Init(false)) && n.pc.Done?)
    else if c.pc.AtDisconnect? then m.Call? && m.e.Disconnect? && n.pc.AtDeinit?
    else if c.pc.AtDeinit? then m == Call(Deinit) && n.pc.AtFree?
    else if c.pc.AtFree? then m == Call(FreeFormat) && n.pc.Done?
    else if c.pc.Done? then m.Silent? && n.pc.Done?
    else
      && !n.pc.AtInit? && !n.pc.AtDeinit? && !n.pc.AtFree? && !n.pc.Done?
      && (m.Call? ==> !Closing(m.e))
      && (m.Call? && NeedsConnection(m.e) ==> Connected(c.pc))
      && (Connected(n.pc) ==> Connected(c.pc) || (c.pc.AtRetryGuard? && c.ok))
      && (n.pc.AtRetryGuard? && n.ok ==> m.Call? && m.e.Connect? && m.e.ok)
  }

  lemma StepLinks(l: Limits, c: Control, ok: bool, nested: seq<bool>)
    ensures Links(c, Next(l, c, ok), Emit(c, ok, nested))
  {
  }

  lemma ConnectedStays(tr: seq<Event>, e: Event, j: nat)
    requires j <= |tr| && ConnectedBefore(tr, j)
    ensures ConnectedBefore(tr + [e], j) && ConnectedBefore(tr + [e], |tr| + 1)
  {
    var i :| 0 <= i < j && i < |tr| && tr[i].Connect? && tr[i].ok;
    assert (tr + [e])[i] == tr[i];
  }

  lemma OpenSnoc(tr: seq<Event>, e: Event)
    requires Open(tr) && !Closing(e)
    requires NeedsConnection(e) ==> ConnectedBefore(tr, |tr|)
    ensures Open(tr + [e])
    ensures ConnectedBefore(tr, |tr|) || (e.Connect? && e.ok) ==> ConnectedBefore(tr + [e], |tr| + 1)
  {
    var t := tr + [e];
    forall j | 0 <= j < |t| && NeedsConnection(t[j]) ensures ConnectedBefore(t, j) {
      assert ConnectedBefore(tr, j);
      ConnectedStays(tr, e, j);
    }
    if ConnectedBefore(tr, |tr|) {
      ConnectedStays(tr, e, |tr|);
    } else if e.Connect? && e.ok {
      assert t[|tr|] == e;
    }
  }

  lemma ProtocolCarriesOver(c: Control, n: Control, tr: seq<Event>, m: Emission)
    requires ProtocolInv(c, tr) && Links(c, n, m)
    ensures ProtocolInv(n, Extend(tr, m))
  {
    var t := Extend(tr, m);
    if c.pc.AtDisconnect? {
      assert t[..|t| - 1] == tr;
    } else if c.pc.AtDeinit? {
      assert t[..|t| - 2] == tr[..|tr| - 1];
    } else if c.pc.AtFree? {
      assert t[..|t| - 3] == tr[..|tr| - 2];
    } else if !c.pc.AtInit? && m.Call? {
      OpenSnoc(tr, m.e);
    }
  }

  lemma ProtocolStep(l: Limits, s: State, inp: Input)
    requires ProtocolInv(s.c, s.trace)
    ensures ProtocolInv(Step(l, s, inp).c, Step(l, s, inp).trace)
  {
    var c := Interrupted(s.c, inp.stop);
    StepLinks(l, c, inp.ok, inp.nested);
    ProtocolCarriesOver(c, Next(l, c, inp.ok), s.trace, Emit(c, inp.ok, inp.nested));
  }

  /** Every run initialises first, connects before it loops or sends, and closes exactly once if and only
      if initialisation succeeded; nothing follows a failed initialisation. */
  lemma {:induction false} CallProtocol(l: Limits, ins: seq<Input>)
    ensures var s := Exec(l, ins);
            && ProtocolInv(s.c, s.trace)
            && (s.c.pc.Done? ==> s.trace == [Init(false)] || Closed(s.trace))
  {
    if ins != [] {
      CallProtocol(l, ins[..|ins| - 1]);
      ProtocolStep(l, Exec(l, ins[..|ins| - 1]), ins[|ins| - 1]);
    }
  }

  // ----- The failure counter -----

  predicate BeforeMainLoop(pc: Pc) {
    || pc.AtInit? || pc.AtConnect? || pc.AtRetryGuard? || pc.AtRetrySleep? || pc.AtRetryConnect?
    || pc.AtSetupGuard? || pc.AtSetupLoop?
  }

  /** Relates the counter to the failed sends `n` that end the history. */
  ghost predicate CounterInv(l: Limits, c: Control, n: nat) {
    if BeforeMainLoop(c.pc) then n == 0
    else if c.pc.AtCount? then c.fails < l.failures && n == if c.ok then 0 else c.fails + 1
    else if InMainLoop(c.pc) then n == c.fails < l.failures
    else n <= l.failures && (n == l.failures ==> c.retVal == EXIT_FAILURE)
  }

  lemma CounterStep(l: Limits, c: Control, n: nat, ok: bool, nested: seq<bool>)
    requires l.failures > 0 && CounterInv(l, c, n)
    ensures var m := Emit(c, ok, nested);
            && CounterInv(l, Next(l, c, ok), CountFailure(n, m))
            && (m.Call? ==> n < l.failures || CleaningUp(c.pc))
            && (CleaningUp(c.pc) ==> CleaningUp(Next(l, c, ok).pc))
  {
  }

  ghost predicate CounterFacts(l: Limits, s: State) {
    && CounterInv(l, s.c, TrailingFailures(s.trace))
    && (CleaningUp(s.c.pc) || NeverFull(s.trace, l.failures))
  }

  lemma CounterCarriesOver(l: Limits, c: Control, n: Control, tr: seq<Event>, m: Emission)
    requires CounterFacts(l, State(c, tr)) && CounterInv(l, n, CountFailure(TrailingFailures(tr), m))
    requires m.Call? && !CleaningUp(n.pc) ==> TrailingFailures(tr) < l.failures
    requires CleaningUp(c.pc) ==> CleaningUp(n.pc)
    ensures CounterFacts(l, State(n, Extend(tr, m)))
  {
    TrailingExtend(tr, m);
    if !CleaningUp(n.pc) {
      NeverFullExtend(tr, m, l.failures);
    }
  }

  lemma CounterFactsStep(l: Limits, s: State, inp: Input)
    requires l.failures > 0 && CounterFacts(l, s)
    ensures CounterFacts(l, Step(l, s, inp))
  {
    var c := Interrupted(s.c, inp.stop);
    CounterStep(l, c, TrailingFailures(s.trace), inp.ok, inp.nested);
    CounterCarriesOver(l, c, Next(l, c, inp.ok), s.trace, Emit(c, inp.ok, inp.nested));
  }

  lemma {:induction false} CounterInvHolds(l: Limits, ins: seq<Input>)
    requires l.failures > 0
    ensures CounterFacts(l, Exec(l, ins))
  {
    if ins != [] {
      CounterInvHolds(l, ins[..|ins| - 1]);
      CounterFactsStep(l, Exec(l, ins[..|ins| - 1]), ins[|ins| - 1]);
    }
  }

  /** At every main-loop head the counter is the number of consecutive failed sends that end the history.
      A counter update leaves the loop exactly when the history then ends in `failures` failed sends, and it
      never did at any earlier point. */
  lemma CounterRefinesHistory(l: Limits, ins: seq<Input>, inp: Input)
    requires l.failures > 0
    ensures var s := Exec(l, ins);
            && (s.c.pc.AtMainGuard? ==> s.c.fails == TrailingFailures(s.trace) < l.failures)
            && (s.c.pc.AtCount? ==>
                 && (Step(l, s, inp).c.pc.AtDisconnect? <==> TrailingFailures(s.trace) == l.failures)
                 && NeverFull(s.trace, l.failures))
  {
    CounterInvHolds(l, ins);
  }

  // ----- The verdict -----

  predicate IsFailure(e: Event) {
    (e.Connect? && !e.ok) || (e.Loop? && !e.ok) || e == Send(false)
  }

  /** The event before clean-up decides the exit status. */
  predicate Decides(l: Limits, tr: seq<Event>, retVal: int, keep: bool) {
    && |tr| > 0
    && (retVal == EXIT_SUCCESS ==> tr[|tr| - 1] == Guard(false) && !keep)
    && (retVal != EXIT_SUCCESS ==> retVal == EXIT_FAILURE && IsFailure(tr[|tr| - 1]))
    && (tr[|tr| - 1].Send? ==> TrailingFailures(tr) == l.failures)
  }

  ghost predicate VerdictInv(l: Limits, c: Control, tr: seq<Event>) {
    if c.pc.AtInit? then tr == []
    else if c.pc.AtRetryGuard? then |tr| > 0 && tr[|tr| - 1].Connect? && tr[|tr| - 1].ok == c.ok
    else if c.pc.AtCount? then c.retVal == EXIT_SUCCESS && |tr| > 0 && tr[|tr| - 1] == Send(c.ok)
    else if c.pc.AtDisconnect? then Decides(l, tr, c.retVal, c.keep)
    else if c.pc.AtDeinit? then |tr| >= 1 && Decides(l, tr[..|tr| - 1], c.retVal, c.keep)
    else if c.pc.AtFree? then |tr| >= 2 && Decides(l, tr[..|tr| - 2], c.retVal, c.keep)
    else if c.pc.Done? then
      || (tr == [Init(false)] && c.retVal == EXIT_FAILURE)
      || (|tr| >= 3 && Decides(l, tr[..|tr| - 3], c.retVal, c.keep))
    else InMainLoop(c.pc) ==> c.retVal == EXIT_SUCCESS
  }

  /** What a step from `c` to `n` with emission `m`, after `k` trailing failures, means for the verdict. */
  predicate Settles(l: Limits, c: Control, n: Control, m: Emission, k: nat) {
    && !n.pc.AtInit?
    && (n.pc.AtRetryGuard? ==> m.Call? && m.e.Connect? && m.e.ok == n.ok)
    && (n.pc.AtCount? ==> c.pc.AtMainSend? && n.retVal == c.retVal && m == Call(Send(n.ok)))
    && (n.pc.AtDisconnect? ==>
         || (c.pc.AtRetryGuard? && !c.ok && m.Silent? && n.retVal == EXIT_FAILURE)
         || (m.Call? && m.e.Loop? && !m.e.ok && n.retVal == EXIT_FAILURE)
         || (c.pc.AtCount? && !c.ok && m.Silent? && n.retVal == EXIT_FAILURE && k == l.failures)
         || (c.pc.AtMainGuard? && m == Call(Guard(false)) && !n.keep && n.retVal == c.retVal))
    && (n.pc.AtDeinit? ==> c.pc.AtDisconnect? && m.Call? && n.retVal == c.retVal && n.keep == c.keep)
    && (n.pc.AtFree? ==> c.pc.AtDeinit? && m.Call? && n.retVal == c.retVal && n.keep == c.keep)
    && (n.pc.Done? ==>
         || (c.pc.Done? && m.Silent? && n == c)
         || (c.pc.AtInit? && m == Call(Init(false)) && n.retVal == EXIT_FAILURE)
         || (c.pc.AtFree? && m.Call? && n.retVal == c.retVal && n.keep == c.keep))
    && (InMainLoop(n.pc) ==> n.retVal == EXIT_SUCCESS || (InMainLoop(c.pc) && n.retVal == c.retVal))
  }

  lemma StepSettles(l: Limits, c: Control, ok: bool, nested: seq<bool>, k: nat)
    requires CounterInv(l, c, k)
    ensures Settles(l, c, Next(l, c, ok), Emit(c, ok, nested), k)
  {
  }

  lemma VerdictCarriesOver(l: Limits, c: Control, n: Control, tr: seq<Event>, m: Emission)
    requires VerdictInv(l, c, tr) && Settles(l, c, n, m, TrailingFailures(tr))
    ensures VerdictInv(l, n, Extend(tr, m))
  {
    var t := Extend(tr, m);
    if m.Call? {
      assert t[..|t| - 1] == tr;
      assert |tr| > 0 ==> t[..|t| - 2] == tr[..|tr| - 1];
      assert |tr| > 1 ==> t[..|t| - 3] == tr[..|tr| - 2];
    }
  }

  lemma VerdictStep(l: Limits, s: State, inp: Input)
    requires VerdictInv(l, s.c, s.trace) && CounterInv(l, s.c, TrailingFailures(s.trace))
    ensures VerdictInv(l, Step(l, s, inp).c, Step(l, s, inp).trace)
  {
    var c := Interrupted(s.c, inp.stop);
    StepSettles(l, c, inp.ok, inp.nested, TrailingFailures(s.trace));
    VerdictCarriesOver(l, c, Next(l, c, inp.ok), s.trace, Emit(c, inp.ok, inp.nested));
  }

  lemma {:induction false} VerdictInvHolds(l: Limits, ins: seq<Input>)
    requires l.failures > 0
    ensures VerdictInv(l, Exec(l, ins).c, Exec(l, ins).trace)
  {
    if ins != [] {
      VerdictInvHolds(l, ins[..|ins| - 1]);
      CounterInvHolds(l, ins[..|ins| - 1]);
      VerdictStep(l, Exec(l, ins[..|ins| - 1]), ins[|ins| - 1]);
    }
  }

  /** A finished run succeeds if and only if the last thing before clean-up was the main-loop guard finding
      the flag down, and then the handler has run. Otherwise it exits with EXIT_FAILURE, and what came last
      was a failed initialisation, connect, MQTT loop or send; a failed send only as the one that completes
      `failures` in a row. A request to stop that also arrives changes none of this. */
  lemma SuccessMeansAskedToStop(l: Limits, ins: seq<Input>)
    requires l.failures > 0
    requires Exec(l, ins).c.pc.Done?
    ensures var s := Exec(l, ins);
            var n := |s.trace| - 4;
            && (s.c.retVal == 0 <==> n >= 0 && s.trace[n] == Guard(false))
            && (s.c.retVal == 0 ==> Asked(ins))
            && (s.c.retVal != 0 ==>
                 && s.c.retVal == 1
                 && (s.trace == [Init(false)] || (n >= 0 && IsFailure(s.trace[n])))
                 && (n >= 0 && s.trace[n].Send? ==> TrailingFailures(s.trace[..n + 1]) == l.failures))
  {
    VerdictInvHolds(l, ins);
    KeepMirrorsRequests(l, Start(), ins);
  }

  // ----- Backoff -----

  /** Relates the retry loop's variables to the sleeps `r` and the attempts `n` made so far. */
  ghost predicate BackoffInv(l: Limits, c: Control, r: nat, n: nat) {
    if c.pc.AtInit? || c.pc.AtConnect? then r == n == 0
    else if c.pc.AtRetryGuard? then r == c.i <= l.retries && n == c.i + 1 && c.delay == Delay(c.i)
    else if c.pc.AtRetrySleep? then r == c.i < l.retries && n == c.i + 1 && c.delay == Delay(c.i)
    else if c.pc.AtRetryConnect? then r == c.i + 1 <= l.retries && n == c.i + 1 && c.delay == Delay(c.i + 1)
    else r <= l.retries && n <= r + 1
  }

  lemma BackoffStep(l: Limits, c: Control, r: nat, n: nat, ok: bool, nested: seq<bool>)
    requires BackoffInv(l, c, r, n)
    ensures var m := Emit(c, ok, nested);
            && BackoffInv(l, Next(l, c, ok), r + Shown(Retrying, m), n + Shown(Connecting, m))
            && (m.Call? && m.e.Backoff? ==> m.e.seconds == Delay(r))
  {
    if c.pc.AtConnect? {
      DelayIsExact(0);
    } else if c.pc.AtRetrySleep? {
      DelayDoubles(c.i);
    }
  }

  ghost predicate BackoffFacts(l: Limits, s: State) {
    var r := Project(Retrying, s.trace);
    && BackoffInv(l, s.c, |r|, |Project(Connecting, s.trace)|)
    && AllDelays(r)
  }

  lemma BackoffCarriesOver(l: Limits, n: Control, tr: seq<Event>, m: Emission)
    requires AllDelays(Project(Retrying, tr))
    requires m.Call? && m.e.Backoff? ==> m.e.seconds == Delay(|Project(Retrying, tr)|)
    requires BackoffInv(l, n, |Project(Retrying, tr)| + Shown(Retrying, m), |Project(Connecting, tr)| + Shown(Connecting, m))
    ensures BackoffFacts(l, State(n, Extend(tr, m)))
  {
    hide Project, Delay, AllDelays, BackoffInv;
    ProjectExtend(Retrying, tr, m);
    ProjectExtend(Connecting, tr, m);
    DelaysGrow(Project(Retrying, tr), m);
  }

  lemma BackoffFactsStep(l: Limits, s: State, inp: Input)
    requires BackoffFacts(l, s)
    ensures BackoffFacts(l, Step(l, s, inp))
  {
    var c := Interrupted(s.c, inp.stop);
    BackoffStep(l, c, |Project(Retrying, s.trace)|, |Project(Connecting, s.trace)|, inp.ok, inp.nested);
    BackoffCarriesOver(l, Next(l, c, inp.ok), s.trace, Emit(c, inp.ok, inp.nested));
  }

  lemma {:induction false} BackoffInvHolds(l: Limits, ins: seq<Input>)
    ensures BackoffFacts(l, Exec(l, ins))
  {
    if ins != [] {
      BackoffInvHolds(l, ins[..|ins| - 1]);
      BackoffFactsStep(l, Exec(l, ins[..|ins| - 1]), ins[|ins| - 1]);
    }
  }

  /** In every run the k-th sleep between attempts, counted from 0, takes 2^(k+1) seconds wrapped to an
      unsigned int, there are at most `retries` of them and at most one connection attempt more than that.
      The sleeps add up to 2^(n+1) - 2 as long as nothing wraps, and to 2^32 - 2 after that. */
  lemma BackoffClosedForm(l: Limits, ins: seq<Input>)
    ensures var r := Project(Retrying, Exec(l, ins).trace);
            && |r| <= l.retries
            && |Project(Connecting, Exec(l, ins).trace)| <= |r| + 1
            && (forall k :: 0 <= k < |r| ==> r[k] == Backoff(if k < 31 then Pow2(k + 1) else 0))
            && SecondsSlept(r) == if |r| <= 31 then Pow2(|r| + 1) - 2 else UINT_RANGE - 2
  {
    BackoffInvHolds(l, ins);
    var r := Project(Retrying, Exec(l, ins).trace);
    DelaysAddUp(r);
    forall k | 0 <= k < |r| ensures r[k] == Backoff(if k < 31 then Pow2(k + 1) else 0) {
      if k < 31 {
        DelayIsExact(k);
      } else {
        DelayVanishes(k);
      }
    }
  }

  /** With the constants of main.c: at most 11 attempts and 2046 seconds between them. */
  lemma BackoffOfMain(ins: seq<Input>)
    ensures var tr := Exec(LIMITS, ins).trace;
            && |Project(Connecting, tr)| <= 11
            && SecondsSlept(Project(Retrying, tr)) <= 2046
  {
    BackoffClosedForm(LIMITS, ins);
    Pow2Monotone(|Project(Retrying, Exec(LIMITS, ins).trace)| + 1, 11);
    assert Pow2(11) == 2048 by { assert Pow2(6) == 64; }
  }

  // ----- The law of the trace -----

  /** Connected, and the main loop not yet entered. */
  predicate SetsUp(v: Sight) {
    v.guards == 0 && (GoodConnect(v.last) || GoodLoop(v.last))
  }

  /** The main loop goes on after a send. */
  predicate ServesOn(l: Limits, v: Sight) {
    v.guards > 0 && (v.last == Call(Send(true)) || (v.last == Call(Send(false)) && v.failures != l.failures))
  }

  /** Clean-up is due: after the last connection attempt that is made, after a failed MQTT loop, after the guard
      found the flag down, or after as many failed sends in a row as the limit. */
  predicate CleanUpDue(l: Limits, v: Sight, stopped: bool) {
    || (FailedConnect(v.last) && (v.retries == l.retries || stopped))
    || FailedLoop(v.last)
    || (v.last == Call(Guard(false)) && stopped)
    || (v.last == Call(Send(false)) && v.failures == l.failures)
  }

  /** When main.c makes a call: what must have come before it. `stopped` says whether the handler had run before
      this step, `stopping` whether it has by now. */
  predicate Lawful(l: Limits, v: Sight, e: Event, stopped: bool, stopping: bool) {
    match e
    case Init(_) => v.last.Silent?
    case Connect(_, _) => v.last == Call(Init(true)) || (v.last.Call? && v.last.e.Backoff?)
    case Backoff(seconds) => FailedConnect(v.last) && v.retries < l.retries && seconds == Delay(v.retries) && !stopped
    case Connected(_) => false
    case Loop(_, _) => v.last == Call(Guard(true)) || (SetsUp(v) && v.loops < l.setups && !stopped)
    case Guard(taken) =>
      && taken == !stopping
      && ((SetsUp(v) && (v.loops == l.setups || stopped)) || ServesOn(l, v))
    case Pause(seconds) => seconds == 10 && v.before == Call(Guard(true)) && GoodLoop(v.last)
    case Send(_) => v.last == Call(Pause(10))
    case Disconnect(_) => CleanUpDue(l, v, stopped)
    case Deinit => v.last.Call? && v.last.e.Disconnect?
    case FreeFormat => v.last == Call(Deinit)
  }

  /** Relates the program point and the variables to what the trace shows. `stopped` says whether the handler had
      run before the last step. */
  ghost predicate SightInv(l: Limits, c: Control, v: Sight, stopped: bool) {
    && (BeforeMainLoop(c.pc) ==> v.guards == v.failures == 0)
    && (InMainLoop(c.pc) && !c.pc.AtMainGuard? ==> v.guards > 0)
    && match c.pc
       case AtInit => v.last.Silent? && v.retries == v.loops == 0
       case AtConnect => v.last == Call(Init(true)) && v.retries == v.loops == 0
       case AtRetryGuard =>
         && (if c.ok then GoodConnect(v.last) else FailedConnect(v.last))
         && v.retries == c.i <= l.retries && v.loops == 0 && c.delay == Delay(c.i)
       case AtRetrySleep =>
         FailedConnect(v.last) && v.retries == c.i < l.retries && v.loops == 0 && c.delay == Delay(c.i) && !stopped
       case AtRetryConnect =>
         && v.last.Call? && v.last.e.Backoff?
         && v.retries == c.i + 1 <= l.retries && v.loops == 0 && c.delay == Delay(c.i + 1)
       case AtSetupGuard => SetsUp(v) && v.loops == c.i <= l.setups
       case AtSetupLoop => SetsUp(v) && v.loops == c.i < l.setups && !stopped
       case AtMainGuard =>
         && v.failures == c.fails
         && ((SetsUp(v) && (v.loops == l.setups || stopped)) || ServesOn(l, v))
       case AtMainLoop => v.failures == c.fails && v.last == Call(Guard(true))
       case AtMainSleep => v.failures == c.fails && v.before == Call(Guard(true)) && GoodLoop(v.last)
       case AtMainSend => v.failures == c.fails && v.last == Call(Pause(10))
       case AtCount => v.failures == (if c.ok then 0 else c.fails + 1) && v.last == Call(Send(c.ok))
       case AtDisconnect => CleanUpDue(l, v, stopped)
       case AtDeinit => v.last.Call? && v.last.e.Disconnect?
       case AtFree => v.last == Call(Deinit)
       case Done => v.last == Call(Init(false)) || v.last == Call(FreeFormat)
  }

  lemma SightStepConnecting(l: Limits, c: Control, v: Sight, stopped: bool, ok: bool, nested: seq<bool>)
    requires SightInv(l, c, v, stopped) && BeforeMainLoop(c.pc)
    ensures SightInv(l, Next(l, c, ok), Look(v, Emit(c, ok, nested)), !c.keep)
  {
    hide Delay;
    match c.pc
    case AtInit =>
    case AtConnect => DelayIsExact(0);
    case AtRetryGuard =>
    case AtRetrySleep => DelayDoubles(c.i);
    case AtRetryConnect =>
    case AtSetupGuard =>
    case AtSetupLoop =>
  }

  lemma SightStepServing(l: Limits, c: Control, v: Sight, stopped: bool, ok: bool, nested: seq<bool>)
    requires SightInv(l, c, v, stopped) && InMainLoop(c.pc)
    ensures SightInv(l, Next(l, c, ok), Look(v, Emit(c, ok, nested)), !c.keep)
  {
    match c.pc
    case AtMainGuard =>
    case AtMainLoop =>
    case AtMainSleep =>
    case AtMainSend =>
    case AtCount =>
  }

  lemma SightStep(l: Limits, c: Control, v: Sight, stopped: bool, ok: bool, nested: seq<bool>)
    requires SightInv(l, c, v, stopped)
    ensures SightInv(l, Next(l, c, ok), Look(v, Emit(c, ok, nested)), !c.keep)
  {
    if BeforeMainLoop(c.pc) {
      SightStepConnecting(l, c, v, stopped, ok, nested);
    } else if InMainLoop(c.pc) {
      SightStepServing(l, c, v, stopped, ok, nested);
    }
  }

  lemma SightInterrupted(l: Limits, c: Control, v: Sight, stop: bool)
    requires SightInv(l, c, v, !c.keep)
    ensures SightInv(l, Interrupted(c, stop), v, !c.keep)
  {
  }

  lemma EmitsLawfully(l: Limits, c: Control, v: Sight, stopped: bool, ok: bool, nested: seq<bool>)
    requires SightInv(l, c, v, stopped)
    ensures var m := Emit(c, ok, nested);
            m.Call? ==> Lawful(l, v, m.e, stopped, !c.keep) && Carries(m.e, ok, nested)
  {
    hide Delay;
  }

  lemma {:induction false} SightInvHolds(l: Limits, ins: seq<Input>)
    ensures var s := Exec(l, ins); SightInv(l, s.c, See(s.trace), !s.c.keep)
  {
    if ins != [] {
      var s, inp := Exec(l, ins[..|ins| - 1]), ins[|ins| - 1];
      var c := Interrupted(s.c, inp.stop);
      SightInvHolds(l, ins[..|ins| - 1]);
      SightInterrupted(l, s.c, See(s.trace), inp.stop);
      SightStep(l, c, See(s.trace), !s.c.keep, inp.ok, inp.nested);
      LookExtend(s.trace, Emit(c, inp.ok, inp.nested));
    }
  }

  /** Every event of every run is lawful: from the trace so far and the requests to stop alone it follows which
      events can come next. The event carries the outcomes of its step. */
  lemma EveryEventIsLawful(l: Limits, ins: seq<Input>, inp: Input) returns (m: Emission)
    ensures m == Emit(Interrupted(Exec(l, ins).c, inp.stop), inp.ok, inp.nested)
    ensures var s, t := Exec(l, ins), Exec(l, ins + [inp]);
            && t.trace == Extend(s.trace, m)
            && (m.Call? ==> Lawful(l, See(s.trace), m.e, Asked(ins), Asked(ins + [inp])) && Carries(m.e, inp.ok, inp.nested))
  {
    var s := Exec(l, ins);
    var c := Interrupted(s.c, inp.stop);
    m := Emit(c, inp.ok, inp.nested);
    SightInvHolds(l, ins);
    SightInterrupted(l, s.c, See(s.trace), inp.stop);
    EmitsLawfully(l, c, See(s.trace), !s.c.keep, inp.ok, inp.nested);
    hide SightInv, Lawful, Next, Emit, See;
    ExecSnoc(l, Start(), ins, inp);
    KeepMirrorsRequests(l, Start(), ins);
    AskedSnoc(ins, inp);
  }

  /** With the constants of main.c: the main loop is first reached after five MQTT loop calls, clean-up after ten
      failed retries or ten failed sends in a row, unless a call fails or the handler has run. */
  lemma LawOfMain(ins: seq<Input>, inp: Input, e: Event)
    requires Exec(LIMITS, ins + [inp]).trace == Exec(LIMITS, ins).trace + [e]
    ensures var v := See(Exec(LIMITS, ins).trace);
            && (e.Guard? && v.guards == 0 ==> v.loops == 5 || Asked(ins))
            && (e.Guard? && v.last.Call? && v.last.e.Send? ==> v.last.e.ok || v.failures != 10)
            && (e.Loop? && v.guards == 0 ==> v.loops < 5 && !Asked(ins))
            && (e.Backoff? ==> v.retries < 10 && !Asked(ins))
            && (e.Disconnect? ==>
                 || (FailedConnect(v.last) && (v.retries == 10 || Asked(ins)))
                 || FailedLoop(v.last)
                 || (v.last == Call(Guard(false)) && Asked(ins))
                 || (v.last == Call(Send(false)) && v.failures == 10))
  {
    var m := EveryEventIsLawful(LIMITS, ins, inp);
    GuardSeen(Exec(LIMITS, ins).trace);
    assert Exec(LIMITS, ins + [inp]).trace[|Exec(LIMITS, ins).trace|] == e;
  }

  /** How many steps without a call can come next. */
  function Quiet(pc: Pc): nat {
    match pc
    case AtRetryGuard => 2
    case AtSetupGuard => 1
    case AtCount => 1
    case _ => 0
  }

  lemma QuietStep(l: Limits, c: Control, ok: bool, nested: seq<bool>)
    ensures Emit(c, ok, nested).Call? || c.pc.Done? || Quiet(Next(l, c, ok).pc) < Quiet(c.pc)
    ensures c.pc.Done? ==> Next(l, c, ok).pc.Done?
  {
  }

  lemma {:induction false} QuietRun(l: Limits, s: State, ins: seq<Input>)
    ensures var t := ExecFrom(l, s, ins);
            t.c.pc.Done? || |t.trace| > |s.trace| || (t.trace == s.trace && Quiet(t.c.pc) + |ins| <= Quiet(s.c.pc))
  {
    hide Next, Emit, Quiet;
    if ins != [] {
      var before, inp := ins[..|ins| - 1], ins[|ins| - 1];
      QuietRun(l, s, before);
      QuietStep(l, Interrupted(ExecFrom(l, s, before).c, inp.stop), inp.ok, inp.nested);
    }
  }

  /** A run that has not returned makes a call within three steps or returns, and it has returned exactly when its
      last call was a failed initialisation or the release of the format. */
  lemma RunsGoOn(l: Limits, ins: seq<Input>, more: seq<Input>)
    ensures var s, t := Exec(l, ins), Exec(l, ins + more);
            var last := See(s.trace).last;
            && (s.c.pc.Done? <==> last == Call(Init(false)) || last == Call(FreeFormat))
            && (|more| >= 3 ==> s.c.pc.Done? || t.c.pc.Done? || |t.trace| > |s.trace|)
  {
    SightInvHolds(l, ins);
    ExecSplit(l, Start(), ins, more);
    QuietRun(l, Exec(l, ins), more);
  }

  // ----- Stopping -----

  /** How many connect and MQTT loop calls, sleeps and main-loop sends can still come once the flag is down. */
  function Allowance(v: View, pc: Pc): nat
    requires v.Calling? || v.Sleeping? || v.Sending?
  {
    match v
    case Calling =>
      if pc.AtInit? || pc.AtConnect? || pc.AtRetrySleep? || pc.AtRetryConnect? || pc.AtSetupLoop? || pc.AtMainLoop?
      then 1 else 0
    case Sleeping => if pc.AtRetrySleep? || pc.AtMainLoop? || pc.AtMainSleep? then 1 else 0
    case Sending => if pc.AtMainLoop? || pc.AtMainSleep? || pc.AtMainSend? then 1 else 0
  }

  /** Steps left once the flag is down. */
  function Rank(pc: Pc): nat {
    match pc
    case AtInit => 8
    case AtConnect => 7
    case AtRetryGuard => 6
    case AtRetrySleep => 8
    case AtRetryConnect => 7
    case AtSetupGuard => 5
    case AtSetupLoop => 6
    case AtMainGuard => 4
    case AtMainLoop => 8
    case AtMainSleep => 7
    case AtMainSend => 6
    case AtCount => 5
    case AtDisconnect => 3
    case AtDeinit => 2
    case AtFree => 1
    case Done => 0
  }

  /** Once the flag is down every step lowers the rank and pays for its event out of the allowance. */
  lemma StopStep(l: Limits, v: View, c: Control, ok: bool, nested: seq<bool>)
    requires v.Calling? || v.Sleeping? || v.Sending?
    requires !c.keep
    ensures var n := Next(l, c, ok);
            && (c.pc.Done? || Rank(n.pc) < Rank(c.pc))
            && Shown(v, Emit(c, ok, nested)) + Allowance(v, n.pc) <= Allowance(v, c.pc)
  {
    match v
    case Calling =>
    case Sleeping =>
    case Sending =>
  }

  /** From `s` on, `n` steps have been taken with the flag down and reached `t`. */
  ghost predicate Stopping(v: View, s: State, t: State, n: nat)
    requires v.Calling? || v.Sleeping? || v.Sending?
  {
    && (t.c.pc.Done? || Rank(t.c.pc) + n <= Rank(s.c.pc))
    && |Project(v, t.trace)| + Allowance(v, t.c.pc) <= |Project(v, s.trace)| + Allowance(v, s.c.pc)
  }

  lemma StoppingStep(l: Limits, v: View, s: State, t: State, inp: Input, n: nat)
    requires v.Calling? || v.Sleeping? || v.Sending?
    requires Stopping(v, s, t, n) && (inp.stop || !t.c.keep)
    ensures Stopping(v, s, Step(l, t, inp), n + 1) && !Step(l, t, inp).c.keep
  {
    var c := Interrupted(t.c, inp.stop);
    var m := Emit(c, inp.ok, inp.nested);
    StopStep(l, v, c, inp.ok, inp.nested);
    ProjectExtend(v, t.trace, m);
  }

  lemma {:induction false} StopRun(l: Limits, v: View, s: State, ins: seq<Input>)
    requires v.Calling? || v.Sleeping? || v.Sending?
    requires !s.c.keep || (ins != [] && ins[0].stop)
    ensures Stopping(v, s, ExecFrom(l, s, ins), |ins|)
    ensures ins != [] ==> !ExecFrom(l, s, ins).c.keep
  {
    if ins != [] {
      var before := ins[..|ins| - 1];
      if before != [] || !s.c.keep {
        StopRun(l, v, s, before);
      }
      StoppingStep(l, v, s, ExecFrom(l, s, before), ins[|ins| - 1], |before|);
    }
  }

  /** Wherever the handler runs, the run makes from there on at most one connect or MQTT loop call, never
      both, at most one sleep and at most one main-loop send, and it is over within eight steps. */
  lemma StopBound(l: Limits, ins: seq<Input>, k: nat)
    requires k < |ins| && ins[k].stop
    ensures var s, t := Exec(l, ins[..k]), Exec(l, ins);
            && |Project(Calling, t.trace)| <= |Project(Calling, s.trace)| + 1
            && |Project(Sleeping, t.trace)| <= |Project(Sleeping, s.trace)| + 1
            && |Project(Sending, t.trace)| <= |Project(Sending, s.trace)| + 1
            && (|ins| >= k + 8 ==> t.c.pc.Done?)
  {
    var s := Exec(l, ins[..k]);
    ExecSplit(l, Start(), ins[..k], ins[k..]);
    assert ins[..k] + ins[k..] == ins;
    StopRun(l, Calling, s, ins[k..]);
    StopRun(l, Sleeping, s, ins[k..]);
    StopRun(l, Sending, s, ins[k..]);
  }
}
