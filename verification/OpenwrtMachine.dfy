/** The openwrt daemon after init_connections has succeeded, as a machine over the same atomic steps. Its
    set-up loop is unbounded and asks the SDK whether the connection is up, and its main loop is a separate
    function that returns a verdict. */
module OpenwrtMachine {
  import opened Traces

  datatype Limits = Limits(retries: nat, failures: nat)

  /** The constants of connection.c and main.c. */
  const LIMITS := Limits(10, 10)

  const EXIT_SUCCESS := 0
  const EXIT_FAILURE := 1
  const CONNECT_FAILED := -1

  datatype Pc =
    | AtConnect | AtRetryGuard | AtRetrySleep | AtRetryConnect
    | AtCheck | AtSetupGuard | AtSetupLoop
    | AtMainGuard | AtMainLoop | AtMainSleep | AtMainSend | AtCount
    | AtVerdict | AtDisconnect | AtDeinit
    | Done

  /** `verdict` is what main_loop returned. */
  datatype Control = Control(
    pc: Pc, keep: bool, i: nat, delay: nat, ok: bool, fails: nat, verdict: bool, retVal: int)

  datatype State = State(c: Control, trace: seq<Event>)

  function Start(): State {
    State(Control(AtConnect, true, 0, 2, false, 0, true, EXIT_SUCCESS), [])
  }

  function Next(l: Limits, c: Control, ok: bool): (n: Control)
    ensures n.keep == c.keep
  {
    match c.pc
    case AtConnect => c.(pc := AtRetryGuard, ok := ok, i := 0, delay := 2)
    case AtRetryGuard =>
      if !c.ok && c.keep && c.i < l.retries then c.(pc := AtRetrySleep)
      else if !c.ok then c.(pc := AtDisconnect, retVal := CONNECT_FAILED)
      else c.(pc := AtCheck)
    case AtRetrySleep => c.(pc := AtRetryConnect, delay := (c.delay * 2) % UINT_RANGE)
    case AtRetryConnect => c.(pc := AtRetryGuard, ok := ok, i := c.i + 1)
    case AtCheck => if ok then EnterMainLoop(c) else c.(pc := AtSetupGuard)
    case AtSetupGuard => if c.keep then c.(pc := AtSetupLoop) else EnterMainLoop(c)
    case AtSetupLoop => if ok then c.(pc := AtCheck) else c.(pc := AtDisconnect, retVal := CONNECT_FAILED)
    case AtMainGuard => if c.keep then c.(pc := AtMainLoop) else c.(pc := AtVerdict, verdict := true)
    case AtMainLoop => if ok then c.(pc := AtMainSleep) else c.(pc := AtVerdict, verdict := false)
    case AtMainSleep => c.(pc := AtMainSend)
    case AtMainSend => c.(pc := AtCount, ok := ok)
    case AtCount =>
      if c.ok then c.(pc := AtMainGuard, fails := 0)
      else if c.fails + 1 == l.failures then c.(pc := AtVerdict, fails := c.fails + 1, verdict := false)
      else c.(pc := AtMainGuard, fails := c.fails + 1)
    case AtVerdict => c.(pc := AtDisconnect, retVal := if c.verdict then c.retVal else EXIT_FAILURE)
    case AtDisconnect => c.(pc := AtDeinit)
    case AtDeinit => c.(pc := Done)
    case Done => c
  }

  function EnterMainLoop(c: Control): Control {
    c.(pc := AtMainGuard, fails := 0, retVal := EXIT_SUCCESS)
  }

  function Emit(c: Control, ok: bool, nested: seq<bool>): Emission {
    match c.pc
    case AtConnect => Call(Connect(ok, nested))
    case AtRetrySleep => Call(Backoff(c.delay))
    case AtRetryConnect => Call(Connect(ok, nested))
    case AtCheck => Call(Connected(ok))
    case AtSetupLoop => Call(Loop(ok, nested))
    case AtMainGuard => Call(Guard(c.keep))
    case AtMainLoop => Call(Loop(ok, nested))
    case AtMainSleep => Call(Pause(10))
    case AtMainSend => Call(Send(ok))
    case AtDisconnect => Call(Disconnect(nested))
    case AtDeinit => Call(Deinit)
    case _ => Silent
  }

  function Interrupted(c: Control, stop: bool): Control {
    if stop then c.(keep := false) else c
  }

  function Step(l: Limits, s: State, inp: Input): State {
    var c := Interrupted(s.c, inp.stop);
    State(Next(l, c, inp.ok), Extend(s.trace, Emit(c, inp.ok, inp.nested)))
  }

  function ExecFrom(l: Limits, s: State, ins: seq<Input>): State {
    if ins == [] then s else Step(l, ExecFrom(l, s, ins[..|ins| - 1]), ins[|ins| - 1])
  }

  function Exec(l: Limits, ins: seq<Input>): State {
    ExecFrom(l, Start(), ins)
  }

  lemma DoneStep(l: Limits, s: State, inp: Input)
    requires s.c.pc.Done?
    ensures var t := Step(l, s, inp);
            t.c.pc.Done? && t.c.retVal == s.c.retVal && t.trace == s.trace
  {
  }

  lemma ExecSnoc(l: Limits, s: State, ins: seq<Input>, inp: Input)
    ensures ExecFrom(l, s, ins + [inp]) == Step(l, ExecFrom(l, s, ins), inp)
  {
    assert (ins + [inp])[..|ins|] == ins;
  }

  lemma {:induction false} ExecSplit(l: Limits, s: State, a: seq<Input>, b: seq<Input>)
    ensures ExecFrom(l, s, a + b) == ExecFrom(l, ExecFrom(l, s, a), b)
  {
    if b == [] {
      assert a + b == a;
    } else {
      var rest := b[..|b| - 1];
      ExecSplit(l, s, a, rest);
      assert a + b == (a + rest) + [b[|b| - 1]];
      ExecSnoc(l, s, a + rest, b[|b| - 1]);
    }
  }

  lemma {:induction false} KeepMirrorsRequests(l: Limits, s: State, ins: seq<Input>)
    ensures ExecFrom(l, s, ins).c.keep <==> s.c.keep && !Asked(ins)
  {
    if ins != [] {
      var before := ins[..|ins| - 1];
      KeepMirrorsRequests(l, s, before);
      AskedSnoc(before, ins[|ins| - 1]);
      assert before + [ins[|ins| - 1]] == ins;
    }
  }

  predicate InMainLoop(pc: Pc) {
    pc.AtMainGuard? || pc.AtMainLoop? || pc.AtMainSleep? || pc.AtMainSend? || pc.AtCount?
  }

  predicate PastMainLoop(pc: Pc) {
    pc.AtVerdict? || pc.AtDisconnect? || pc.AtDeinit? || pc.Done?
  }

  // ----- Connected before serving -----

  predicate NoGuard(tr: seq<Event>) {
    forall j :: 0 <= j < |tr| ==> !tr[j].Guard?
  }

  /** The first guard of the main loop comes directly after a check that found the connection up. */
  predicate EnteredConnected(tr: seq<Event>) {
    exists g :: 0 < g < |tr| && tr[g].Guard? && NoGuard(tr[..g]) && tr[g - 1] == Connected(true)
  }

  ghost predicate ServingInv(c: Control, tr: seq<Event>) {
    if c.pc.AtMainGuard? then
      || EnteredConnected(tr)
      || (NoGuard(tr) && (!c.keep || (|tr| > 0 && tr[|tr| - 1] == Connected(true))))
    else if InMainLoop(c.pc) then EnteredConnected(tr)
    else if PastMainLoop(c.pc) then EnteredConnected(tr) || Guard(true) !in tr
    else NoGuard(tr)
  }

  /** What a step from `c` to `n` with emission `m` means for serving. */
  predicate ServingLinks(c: Control, n: Control, m: Emission) {
    && (n.keep ==> c.keep)
    && (m.Call? && m.e.Guard? ==> c.pc.AtMainGuard?)
    && (c.pc.AtMainGuard? ==> m == Call(Guard(c.keep)) && if c.keep then n.pc.AtMainLoop? else PastMainLoop(n.pc))
    && (InMainLoop(c.pc) && !c.pc.AtMainGuard? ==> InMainLoop(n.pc) || PastMainLoop(n.pc))
    && (PastMainLoop(c.pc) ==> PastMainLoop(n.pc))
    && (!InMainLoop(c.pc) && InMainLoop(n.pc) ==> n.pc.AtMainGuard? && (m == Call(Connected(true)) || !n.keep))
  }

  lemma StepServes(l: Limits, c: Control, ok: bool, nested: seq<bool>)
    ensures ServingLinks(c, Next(l, c, ok), Emit(c, ok, nested))
  {
  }

  lemma EnteredStays(tr: seq<Event>, m: Emission)
    requires EnteredConnected(tr)
    ensures EnteredConnected(Extend(tr, m))
  {
    var g :| 0 < g < |tr| && tr[g].Guard? && NoGuard(tr[..g]) && tr[g - 1] == Connected(true);
    assert Extend(tr, m)[..g] == tr[..g];
  }

  lemma ServingCarriesOver(c: Control, n: Control, tr: seq<Event>, m: Emission)
    requires ServingInv(c, tr) && ServingLinks(c, n, m)
    ensures ServingInv(n, Extend(tr, m))
  {
    var t := Extend(tr, m);
    if EnteredConnected(tr) {
      EnteredStays(tr, m);
    } else if c.pc.AtMainGuard? && c.keep {
      assert t[..|tr|] == tr;
      assert t[|tr|] == Guard(true);
    }
  }

  lemma {:induction false} ServingInvHolds(l: Limits, ins: seq<Input>)
    ensures ServingInv(Exec(l, ins).c, Exec(l, ins).trace)
  {
    if ins != [] {
      ServingInvHolds(l, ins[..|ins| - 1]);
      ServingStep(l, Exec(l, ins[..|ins| - 1]), ins[|ins| - 1]);
    }
  }

  lemma ServingStep(l: Limits, s: State, inp: Input)
    requires ServingInv(s.c, s.trace)
    ensures ServingInv(Step(l, s, inp).c, Step(l, s, inp).trace)
  {
    var c := Interrupted(s.c, inp.stop);
    StepServes(l, c, inp.ok, inp.nested);
    ServingCarriesOver(c, Next(l, c, inp.ok), s.trace, Emit(c, inp.ok, inp.nested));
  }

  /** In every run, wherever the handler runs, the main loop's body is entered only if the check that ended
      the set-up loop found the connection up. */
  lemma ConnectedBeforeServing(l: Limits, ins: seq<Input>)
    ensures var s := Exec(l, ins);
            && (Guard(true) in s.trace ==> EnteredConnected(s.trace))
            && (InMainLoop(s.c.pc) && !s.c.pc.AtMainGuard? ==> EnteredConnected(s.trace))
  {
    ServingInvHolds(l, ins);
  }

  // ----- The failure counter -----

  /** Relates the counter to the failed sends `n` that end the history. */
  ghost predicate CounterInv(l: Limits, c: Control, n: nat) {
    if InMainLoop(c.pc) then
      && n == (if !c.pc.AtCount? then c.fails else if c.ok then 0 else c.fails + 1)
      && (l.failures > 0 ==> c.fails < l.failures)
    else PastMainLoop(c.pc) || n == 0
  }

  lemma CounterStep(l: Limits, c: Control, n: nat, ok: bool, nested: seq<bool>)
    requires CounterInv(l, c, n)
    ensures CounterInv(l, Next(l, c, ok), CountFailure(n, Emit(c, ok, nested)))
  {
    if InMainLoop(c.pc) {
      match c.pc
      case AtMainGuard =>
      case AtMainLoop =>
      case AtMainSleep =>
      case AtMainSend =>
      case AtCount =>
    }
  }

  lemma CallsBelowLimit(l: Limits, c: Control, n: nat, ok: bool, nested: seq<bool>)
    requires l.failures > 0 && CounterInv(l, c, n)
    ensures PastMainLoop(c.pc) ==> PastMainLoop(Next(l, c, ok).pc)
    ensures Emit(c, ok, nested).Call? ==> n < l.failures || PastMainLoop(c.pc)
  {
  }

  ghost predicate CounterFacts(l: Limits, s: State) {
    && CounterInv(l, s.c, TrailingFailures(s.trace))
    && (l.failures == 0 || PastMainLoop(s.c.pc) || NeverFull(s.trace, l.failures))
  }

  lemma CounterFactsStep(l: Limits, s: State, inp: Input)
    requires CounterFacts(l, s)
    ensures CounterFacts(l, Step(l, s, inp))
  {
    var c := Interrupted(s.c, inp.stop);
    var m := Emit(c, inp.ok, inp.nested);
    CounterStep(l, c, TrailingFailures(s.trace), inp.ok, inp.nested);
    TrailingExtend(s.trace, m);
    if l.failures > 0 {
      CallsBelowLimit(l, c, TrailingFailures(s.trace), inp.ok, inp.nested);
      if !PastMainLoop(c.pc) {
        NeverFullExtend(s.trace, m, l.failures);
      }
    }
  }

  lemma {:induction false} CounterInvHolds(l: Limits, ins: seq<Input>)
    ensures CounterFacts(l, Exec(l, ins))
  {
    if ins != [] {
      CounterInvHolds(l, ins[..|ins| - 1]);
      CounterFactsStep(l, Exec(l, ins[..|ins| - 1]), ins[|ins| - 1]);
    }
  }

  /** As in the other daemon: the counter is the number of consecutive failed sends that end the history, and
      an update of it ends the loop exactly when those are `failures` in a row, for the first time. */
  lemma CounterRefinesHistory(l: Limits, ins: seq<Input>, inp: Input)
    requires l.failures > 0
    ensures var s := Exec(l, ins);
            && (s.c.pc.AtMainGuard? ==> s.c.fails == TrailingFailures(s.trace) < l.failures)
            && (s.c.pc.AtCount? ==>
                 && (Step(l, s, inp).c.pc.AtVerdict? <==> TrailingFailures(s.trace) == l.failures)
                 && NeverFull(s.trace, l.failures))
  {
    CounterInvHolds(l, ins);
  }

  // ----- The verdict -----

  predicate IsFailure(e: Event) {
    (e.Connect? && !e.ok) || (e.Loop? && !e.ok) || e == Send(false)
  }

  /** The event before clean-up decides the exit status. */
  predicate Decides(l: Limits, tr: seq<Event>, success: bool, keep: bool) {
    && |tr| > 0
    && (if success then tr[|tr| - 1] == Guard(false) && !keep else IsFailure(tr[|tr| - 1]))
    && (tr[|tr| - 1].Send? ==> TrailingFailures(tr) == l.failures)
  }

  ghost predicate VerdictInv(l: Limits, c: Control, tr: seq<Event>) {
    if c.pc.AtRetryGuard? then |tr| > 0 && tr[|tr| - 1].Connect? && tr[|tr| - 1].ok == c.ok
    else if c.pc.AtCount? then c.retVal == EXIT_SUCCESS && |tr| > 0 && tr[|tr| - 1] == Send(c.ok)
    else if c.pc.AtVerdict? then c.retVal == EXIT_SUCCESS && Decides(l, tr, c.verdict, c.keep)
    else if c.pc.AtDisconnect? then Decides(l, tr, c.retVal == EXIT_SUCCESS, c.keep)
    else if c.pc.AtDeinit? then |tr| >= 1 && Decides(l, tr[..|tr| - 1], c.retVal == EXIT_SUCCESS, c.keep)
    else if c.pc.Done? then |tr| >= 2 && Decides(l, tr[..|tr| - 2], c.retVal == EXIT_SUCCESS, c.keep)
    else InMainLoop(c.pc) ==> c.retVal == EXIT_SUCCESS
  }

  /** What a step from `c` to `n` with emission `m`, after `k` trailing failures, means for the verdict. */
  predicate Settles(l: Limits, c: Control, n: Control, m: Emission, k: nat) {
    && (n.pc.AtRetryGuard? ==> m.Call? && m.e.Connect? && m.e.ok == n.ok)
    && (n.pc.AtCount? ==> c.pc.AtMainSend? && n.retVal == c.retVal && m == Call(Send(n.ok)))
    && (n.pc.AtVerdict? ==>
         && InMainLoop(c.pc) && n.retVal == c.retVal
         && (|| (m.Call? && m.e.Loop? && !m.e.ok && !n.verdict)
             || (c.pc.AtCount? && !c.ok && m.Silent? && !n.verdict && k == l.failures)
             || (m == Call(Guard(false)) && !n.keep && n.verdict)))
    && (n.pc.AtDisconnect? ==>
         || (c.pc.AtRetryGuard? && !c.ok && m.Silent? && n.retVal == CONNECT_FAILED)
         || (m.Call? && m.e.Loop? && !m.e.ok && n.retVal == CONNECT_FAILED)
         || (c.pc.AtVerdict? && m.Silent? && n.keep == c.keep
             && n.retVal == if c.verdict then c.retVal else EXIT_FAILURE))
    && (n.pc.AtDeinit? ==> c.pc.AtDisconnect? && m.Call? && n.retVal == c.retVal && n.keep == c.keep)
    && (n.pc.Done? ==>
         || (c.pc.Done? && m.Silent? && n == c)
         || (c.pc.AtDeinit? && m.Call? && n.retVal == c.retVal && n.keep == c.keep))
    && (InMainLoop(n.pc) ==> n.retVal == EXIT_SUCCESS || (InMainLoop(c.pc) && n.retVal == c.retVal))
  }

  lemma StepSettles(l: Limits, c: Control, ok: bool, nested: seq<bool>, k: nat)
    requires CounterInv(l, c, k)
    ensures Settles(l, c, Next(l, c, ok), Emit(c, ok, nested), k)
  {
    match c.pc
    case AtConnect =>
    case AtRetryGuard =>
    case AtRetrySleep =>
    case AtRetryConnect =>
    case AtCheck =>
    case AtSetupGuard =>
    case AtSetupLoop =>
    case AtMainGuard =>
    case AtMainLoop =>
    case AtMainSleep =>
    case AtMainSend =>
    case AtCount =>
    case AtVerdict =>
    case AtDisconnect =>
    case AtDeinit =>
    case Done =>
  }

  lemma VerdictCarriesOver(l: Limits, c: Control, n: Control, tr: seq<Event>, m: Emission)
    requires VerdictInv(l, c, tr) && Settles(l, c, n, m, TrailingFailures(tr))
    ensures VerdictInv(l, n, Extend(tr, m))
  {
    var t := Extend(tr, m);
    if m.Call? {
      assert t[..|t| - 1] == tr;
      assert |tr| > 0 ==> t[..|t| - 2] == tr[..|tr| - 1];
    }
  }

  lemma VerdictStep(l: Limits, s: State, inp: Input)
    requires VerdictInv(l, s.c, s.trace) && CounterInv(l, s.c, TrailingFailures(s.trace))
    ensures VerdictInv(l, Step(l, s, inp).c, Step(l, s, inp).trace)
  {
    var c := Interrupted(s.c, inp.stop);
    StepSettles(l, c, inp.ok, inp.nested, TrailingFailures(s.trace));
    VerdictCarriesOver(l, c, Next(l, c, inp.ok), s.trace, Emit(c, inp.ok, inp.nested));
  }

  lemma {:induction false} VerdictInvHolds(l: Limits, ins: seq<Input>)
    ensures VerdictInv(l, Exec(l, ins).c, Exec(l, ins).trace)
  {
    if ins != [] {
      VerdictInvHolds(l, ins[..|ins| - 1]);
      CounterInvHolds(l, ins[..|ins| - 1]);
      VerdictStep(l, Exec(l, ins[..|ins| - 1]), ins[|ins| - 1]);
    }
  }

  /** A finished run succeeds if and only if the last thing before clean-up was the main-loop guard finding
      the flag down, and then the handler has run; otherwise a failed connect, MQTT loop or send came last, a
      failed send only as the one that completes `failures` in a row. */
  lemma SuccessMeansAskedToStop(l: Limits, ins: seq<Input>)
    requires Exec(l, ins).c.pc.Done?
    ensures var s := Exec(l, ins);
            var n := |s.trace| - 3;
            && n >= 0
            && (s.c.retVal == 0 <==> s.trace[n] == Guard(false))
            && (s.c.retVal == 0 ==> Asked(ins))
            && (s.c.retVal != 0 ==> IsFailure(s.trace[n]))
            && (s.trace[n].Send? ==> TrailingFailures(s.trace[..n + 1]) == l.failures)
            && (s.c.retVal != 0 ==>
                 s.c.retVal == if Project(Guarding, s.trace) == [] then -1 else 1)
  {
    VerdictInvHolds(l, ins);
    SightInvHolds(l, ins);
    KeepMirrorsRequests(l, Start(), ins);
  }

  // ----- The law of the trace -----

  /** The main loop is reached: directly after a check that found the connection up, or stopped during set-up. */
  predicate SetUpOver(v: Sight, stopped: bool) {
    v.guards == 0 && (v.last == Call(Connected(true)) || (v.last == Call(Connected(false)) && stopped))
  }

  /** The main loop goes on after a send. */
  predicate ServesOn(l: Limits, v: Sight) {
    v.guards > 0 && (v.last == Call(Send(true)) || (v.last == Call(Send(false)) && v.failures != l.failures))
  }

  /** Clean-up is due: after the last connection attempt that is made, after a failed MQTT loop, after the guard
      found the flag down, or after as many failed sends in a row as the limit. */
  predicate CleanUpDue(l: Limits, v: Sight, stopped: bool) {
    || (FailedConnect(v.last) && (v.retries == l.retries || stopped))
    || FailedLoop(v.last)
    || (v.last == Call(Guard(false)) && stopped)
    || (v.last == Call(Send(false)) && v.failures == l.failures)
  }

  /** When the daemon makes a call: what must have come before it. `stopped` says whether the handler had run before
      this step, `stopping` whether it has by now. */
  predicate Lawful(l: Limits, v: Sight, e: Event, stopped: bool, stopping: bool) {
    match e
    case Connect(_, _) => v.last.Silent? || v.last.e.Backoff?
    case Backoff(seconds) => FailedConnect(v.last) && v.retries < l.retries && seconds == Delay(v.retries) && !stopped
    case Connected(_) => v.guards == 0 && (GoodConnect(v.last) || GoodLoop(v.last))
    case Loop(_, _) => v.last == Call(Guard(true)) || (v.last == Call(Connected(false)) && !stopped)
    case Guard(taken) => taken == !stopping && (SetUpOver(v, stopped) || ServesOn(l, v))
    case Pause(seconds) => seconds == 10 && v.before == Call(Guard(true)) && GoodLoop(v.last)
    case Send(_) => v.last == Call(Pause(10))
    case Disconnect(_) => CleanUpDue(l, v, stopped)
    case Deinit => v.last.Call? && v.last.e.Disconnect?
    case _ => false
  }

  /** main returns what connect_to_tuya did if the main loop was not reached. */
  predicate ExitCode(retVal: int, v: Sight) {
    if v.guards == 0 then retVal == CONNECT_FAILED else retVal == EXIT_SUCCESS || retVal == EXIT_FAILURE
  }

  /** Relates the program point and the variables to what the trace shows. `stopped` says whether the handler had
      run before the last step. */
  ghost predicate SightInv(l: Limits, c: Control, v: Sight, stopped: bool) {
    && (!InMainLoop(c.pc) && !PastMainLoop(c.pc) ==> v.guards == v.failures == 0)
    && (InMainLoop(c.pc) && !c.pc.AtMainGuard? ==> v.guards > 0)
    && (InMainLoop(c.pc) || c.pc.AtVerdict? ==> c.retVal == EXIT_SUCCESS)
    && (PastMainLoop(c.pc) && !c.pc.AtVerdict? ==> ExitCode(c.retVal, v))
    && match c.pc
       case AtConnect => v.last.Silent? && v.retries == 0
       case AtRetryGuard =>
         && (if c.ok then GoodConnect(v.last) else FailedConnect(v.last))
         && v.retries == c.i <= l.retries && c.delay == Delay(c.i)
       case AtRetrySleep => FailedConnect(v.last) && v.retries == c.i < l.retries && c.delay == Delay(c.i) && !stopped
       case AtRetryConnect =>
         v.last.Call? && v.last.e.Backoff? && v.retries == c.i + 1 <= l.retries && c.delay == Delay(c.i + 1)
       case AtCheck => GoodConnect(v.last) || GoodLoop(v.last)
       case AtSetupGuard => v.last == Call(Connected(false))
       case AtSetupLoop => v.last == Call(Connected(false)) && !stopped
       case AtMainGuard => v.failures == c.fails && (SetUpOver(v, stopped) || ServesOn(l, v))
       case AtMainLoop => v.failures == c.fails && v.last == Call(Guard(true))
       case AtMainSleep => v.failures == c.fails && v.before == Call(Guard(true)) && GoodLoop(v.last)
       case AtMainSend => v.failures == c.fails && v.last == Call(Pause(10))
       case AtCount => v.failures == (if c.ok then 0 else c.fails + 1) && v.last == Call(Send(c.ok))
       case AtVerdict => v.guards > 0 && CleanUpDue(l, v, stopped)
       case AtDisconnect => CleanUpDue(l, v, stopped)
       case AtDeinit => v.last.Call? && v.last.e.Disconnect?
       case Done => v.last == Call(Deinit)
  }

  lemma SightStepConnecting(l: Limits, c: Control, v: Sight, stopped: bool, ok: bool, nested: seq<bool>)
    requires SightInv(l, c, v, stopped) && !InMainLoop(c.pc) && !PastMainLoop(c.pc)
    ensures SightInv(l, Next(l, c, ok), Look(v, Emit(c, ok, nested)), !c.keep)
  {
    hide Delay;
    match c.pc
    case AtConnect => DelayIsExact(0);
    case AtRetryGuard =>
    case AtRetrySleep => DelayDoubles(c.i);
    case AtRetryConnect =>
    case AtCheck =>
    case AtSetupGuard =>
    case AtSetupLoop =>
  }

  lemma SightStepServing(l: Limits, c: Control, v: Sight, stopped: bool, ok: bool, nested: seq<bool>)
    requires SightInv(l, c, v, stopped) && InMainLoop(c.pc)
    ensures SightInv(l, Next(l, c, ok), Look(v, Emit(c, ok, nested)), !c.keep)
  {
    match c.pc
    case AtMainGuard =>
    case AtMainLoop =>
    case AtMainSleep =>
    case AtMainSend =>
    case AtCount =>
  }

  lemma SightStep(l: Limits, c: Control, v: Sight, stopped: bool, ok: bool, nested: seq<bool>)
    requires SightInv(l, c, v, stopped) && (stopped ==> !c.keep)
    ensures SightInv(l, Next(l, c, ok), Look(v, Emit(c, ok, nested)), !c.keep)
  {
    if InMainLoop(c.pc) {
      SightStepServing(l, c, v, stopped, ok, nested);
    } else if !PastMainLoop(c.pc) {
      SightStepConnecting(l, c, v, stopped, ok, nested);
    }
  }

  lemma SightInterrupted(l: Limits, c: Control, v: Sight, stop: bool)
    requires SightInv(l, c, v, !c.keep)
    ensures SightInv(l, Interrupted(c, stop), v, !c.keep)
  {
  }

  lemma EmitsLawfully(l: Limits, c: Control, v: Sight, stopped: bool, ok: bool, nested: seq<bool>)
    requires SightInv(l, c, v, stopped)
    ensures var m := Emit(c, ok, nested);
            m.Call? ==> Lawful(l, v, m.e, stopped, !c.keep) && Carries(m.e, ok, nested)
  {
    hide Delay;
  }

  lemma {:induction false} SightInvHolds(l: Limits, ins: seq<Input>)
    ensures var s := Exec(l, ins); SightInv(l, s.c, See(s.trace), !s.c.keep)
  {
    if ins != [] {
      var s, inp := Exec(l, ins[..|ins| - 1]), ins[|ins| - 1];
      var c := Interrupted(s.c, inp.stop);
      SightInvHolds(l, ins[..|ins| - 1]);
      SightInterrupted(l, s.c, See(s.trace), inp.stop);
      SightStep(l, c, See(s.trace), !s.c.keep, inp.ok, inp.nested);
      LookExtend(s.trace, Emit(c, inp.ok, inp.nested));
    }
  }

  /** Every event of every run is lawful: from the trace so far and the requests to stop alone it follows which
      events can come next. The event carries the outcomes of its step. */
  lemma EveryEventIsLawful(l: Limits, ins: seq<Input>, inp: Input) returns (m: Emission)
    ensures m == Emit(Interrupted(Exec(l, ins).c, inp.stop), inp.ok, inp.nested)
    ensures var s, t := Exec(l, ins), Exec(l, ins + [inp]);
            && t.trace == Extend(s.trace, m)
            && (m.Call? ==> Lawful(l, See(s.trace), m.e, Asked(ins), Asked(ins + [inp])) && Carries(m.e, inp.ok, inp.nested))
  {
    var s := Exec(l, ins);
    var c := Interrupted(s.c, inp.stop);
    m := Emit(c, inp.ok, inp.nested);
    SightInvHolds(l, ins);
    SightInterrupted(l, s.c, See(s.trace), inp.stop);
    EmitsLawfully(l, c, See(s.trace), !s.c.keep, inp.ok, inp.nested);
    hide SightInv, Lawful, Next, Emit, See;
    ExecSnoc(l, Start(), ins, inp);
    KeepMirrorsRequests(l, Start(), ins);
    AskedSnoc(ins, inp);
  }

  /** With the constants of the openwrt daemon: clean-up after ten failed retries or ten failed sends in a row, unless
      a call fails or the handler has run. */
  lemma LawOfMain(ins: seq<Input>, inp: Input, e: Event)
    requires Exec(LIMITS, ins + [inp]).trace == Exec(LIMITS, ins).trace + [e]
    ensures var v := See(Exec(LIMITS, ins).trace);
            && (e.Guard? && v.last.Call? && v.last.e.Send? ==> v.last.e.ok || v.failures != 10)
            && (e.Backoff? ==> v.retries < 10 && !Asked(ins))
            && (e.Disconnect? ==>
                 || (FailedConnect(v.last) && (v.retries == 10 || Asked(ins)))
                 || FailedLoop(v.last)
                 || (v.last == Call(Guard(false)) && Asked(ins))
                 || (v.last == Call(Send(false)) && v.failures == 10))
  {
    var m := EveryEventIsLawful(LIMITS, ins, inp);
    assert Exec(LIMITS, ins + [inp]).trace[|Exec(LIMITS, ins).trace|] == e;
  }

  /** How many steps without a call can come next. */
  function Quiet(pc: Pc): nat {
    match pc
    case AtRetryGuard => 1
    case AtSetupGuard => 1
    case AtCount => 2
    case AtVerdict => 1
    case _ => 0
  }

  lemma QuietStep(l: Limits, c: Control, ok: bool, nested: seq<bool>)
    ensures Emit(c, ok, nested).Call? || c.pc.Done? || Quiet(Next(l, c, ok).pc) < Quiet(c.pc)
    ensures c.pc.Done? ==> Next(l, c, ok).pc.Done?
  {
  }

  lemma {:induction false} QuietRun(l: Limits, s: State, ins: seq<Input>)
    ensures var t := ExecFrom(l, s, ins);
            t.c.pc.Done? || |t.trace| > |s.trace| || (t.trace == s.trace && Quiet(t.c.pc) + |ins| <= Quiet(s.c.pc))
  {
    hide Next, Emit, Quiet;
    if ins != [] {
      var before, inp := ins[..|ins| - 1], ins[|ins| - 1];
      QuietRun(l, s, before);
      QuietStep(l, Interrupted(ExecFrom(l, s, before).c, inp.stop), inp.ok, inp.nested);
    }
  }

  /** A run that has not returned makes a call within three steps or returns, and it has returned exactly when its
      last call was the deinitialisation. */
  lemma RunsGoOn(l: Limits, ins: seq<Input>, more: seq<Input>)
    ensures var s, t := Exec(l, ins), Exec(l, ins + more);
            && (s.c.pc.Done? <==> See(s.trace).last == Call(Deinit))
            && (|more| >= 3 ==> s.c.pc.Done? || t.c.pc.Done? || |t.trace| > |s.trace|)
  {
    SightInvHolds(l, ins);
    ExecSplit(l, Start(), ins, more);
    QuietRun(l, Exec(l, ins), more);
  }

  // ----- Stopping -----

  /** How many connect and MQTT loop calls, sleeps and main-loop sends can still come once the flag is down. */
  function Allowance(v: View, pc: Pc): nat
    requires v.Calling? || v.Sleeping? || v.Sending?
  {
    match v
    case Calling =>
      if pc.AtConnect? || pc.AtRetrySleep? || pc.AtRetryConnect? || pc.AtSetupLoop? || pc.AtMainLoop? then 1 else 0
    case Sleeping => if pc.AtRetrySleep? || pc.AtMainLoop? || pc.AtMainSleep? then 1 else 0
    case Sending => if pc.AtMainLoop? || pc.AtMainSleep? || pc.AtMainSend? then 1 else 0
  }

  /** Steps left once the flag is down. */
  function Rank(pc: Pc): nat {
    match pc
    case AtConnect => 8
    case AtRetryGuard => 7
    case AtRetrySleep => 9
    case AtRetryConnect => 8
    case AtCheck => 6
    case AtSetupGuard => 5
    case AtSetupLoop => 7
    case AtMainGuard => 4
    case AtMainLoop => 8
    case AtMainSleep => 7
    case AtMainSend => 6
    case AtCount => 5
    case AtVerdict => 3
    case AtDisconnect => 2
    case AtDeinit => 1
    case Done => 0
  }

  lemma StopStep(l: Limits, v: View, c: Control, ok: bool, nested: seq<bool>)
    requires !c.keep
    requires v.Calling? || v.Sleeping? || v.Sending?
    ensures var n := Next(l, c, ok);
            && (c.pc.Done? || Rank(n.pc) < Rank(c.pc))
            && Shown(v, Emit(c, ok, nested)) + Allowance(v, n.pc) <= Allowance(v, c.pc)
  {
    match v
    case Calling =>
    case Sleeping =>
    case Sending =>
  }

  /** From `s` on, `n` steps have been taken with the flag down and reached `t`. */
  ghost predicate Stopping(v: View, s: State, t: State, n: nat)
    requires v.Calling? || v.Sleeping? || v.Sending?
  {
    && (t.c.pc.Done? || Rank(t.c.pc) + n <= Rank(s.c.pc))
    && |Project(v, t.trace)| + Allowance(v, t.c.pc) <= |Project(v, s.trace)| + Allowance(v, s.c.pc)
  }

  lemma StoppingStep(l: Limits, v: View, s: State, t: State, inp: Input, n: nat)
    requires v.Calling? || v.Sleeping? || v.Sending?
    requires Stopping(v, s, t, n) && (inp.stop || !t.c.keep)
    ensures Stopping(v, s, Step(l, t, inp), n + 1) && !Step(l, t, inp).c.keep
  {
    var c := Interrupted(t.c, inp.stop);
    StopStep(l, v, c, inp.ok, inp.nested);
    ProjectExtend(v, t.trace, Emit(c, inp.ok, inp.nested));
  }

  lemma {:induction false} StopRun(l: Limits, v: View, s: State, ins: seq<Input>)
    requires v.Calling? || v.Sleeping? || v.Sending?
    requires !s.c.keep || (ins != [] && ins[0].stop)
    ensures Stopping(v, s, ExecFrom(l, s, ins), |ins|)
    ensures ins != [] ==> !ExecFrom(l, s, ins).c.keep
  {
    if ins != [] {
      var before := ins[..|ins| - 1];
      if before != [] || !s.c.keep {
        StopRun(l, v, s, before);
      }
      StoppingStep(l, v, s, ExecFrom(l, s, before), ins[|ins| - 1], |before|);
    }
  }

  /** Although the set-up loop is unbounded, a request to stop ends the run within nine steps, with at most
      one connect or MQTT loop call, one sleep and one main-loop send on the way. */
  lemma StopBound(l: Limits, ins: seq<Input>, k: nat)
    requires k < |ins| && ins[k].stop
    ensures var s, t := Exec(l, ins[..k]), Exec(l, ins);
            && |Project(Calling, t.trace)| <= |Project(Calling, s.trace)| + 1
            && |Project(Sleeping, t.trace)| <= |Project(Sleeping, s.trace)| + 1
            && |Project(Sending, t.trace)| <= |Project(Sending, s.trace)| + 1
            && (|ins| >= k + 9 ==> t.c.pc.Done?)
  {
    var s := Exec(l, ins[..k]);
    ExecSplit(l, Start(), ins[..k], ins[k..]);
    assert ins[..k] + ins[k..] == ins;
    StopRun(l, Calling, s, ins[k..]);
    StopRun(l, Sleeping, s, ins[k..]);
    StopRun(l, Sending, s, ins[k..]);
  }
}
