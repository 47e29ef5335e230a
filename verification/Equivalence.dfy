/** The two daemons compared: main.c of tuya_daemon leaves its main loop with gotos, the openwrt daemon
    returns a verdict from a separate function, and their retry loops order their guards differently. */
module Equivalence {
  import opened Traces
  import T = TuyaMachine
  import O = OpenwrtMachine

  /** The emission as far as the view shows it. */
  function Seen(v: View, m: Emission): Emission {
    if m.Call? && Shows(v, m.e) then m else Silent
  }

  lemma SeenExtend(v: View, tr: seq<Event>, m: Emission)
    ensures Project(v, Extend(tr, m)) == Extend(Project(v, tr), Seen(v, m))
  {
    ProjectExtend(v, tr, m);
  }

  /** Going from trace `from` to trace `to` adds exactly the events `x` to the view. */
  predicate Adds(v: View, from: seq<Event>, to: seq<Event>, x: seq<Event>) {
    Project(v, to) == Project(v, from) + x
  }

  lemma AddsExtend(v: View, from: seq<Event>, mid: seq<Event>, x: seq<Event>, m: Emission)
    requires Adds(v, from, mid, x)
    ensures Adds(v, from, Extend(mid, m), Extend(x, Seen(v, m)))
  {
    SeenExtend(v, mid, m);
  }

  // ----- The main loops -----

  predicate SameMainPoint(t: T.Pc, o: O.Pc) {
    || (t.AtMainGuard? && o.AtMainGuard?) || (t.AtMainLoop? && o.AtMainLoop?)
    || (t.AtMainSleep? && o.AtMainSleep?) || (t.AtMainSend? && o.AtMainSend?)
    || (t.AtCount? && o.AtCount?)
  }

  /** Either both loops run and agree, or both are over with the same verdict. */
  predicate Serve(t: T.Control, o: O.Control) {
    && t.keep == o.keep
    && if T.InMainLoop(t.pc)
       then SameMainPoint(t.pc, o.pc) && t.fails == o.fails && t.retVal == T.EXIT_SUCCESS && (t.pc.AtCount? ==> t.ok == o.ok)
       else T.CleaningUp(t.pc) && O.PastMainLoop(o.pc) && (t.retVal == T.EXIT_SUCCESS <==> o.verdict)
  }

  lemma ServeStep(lt: T.Limits, lo: O.Limits, t: T.Control, o: O.Control, ok: bool, nested: seq<bool>)
    requires lt.failures == lo.failures && Serve(t, o)
    ensures Serve(T.Next(lt, t, ok), O.Next(lo, o, ok))
    ensures Seen(Serving, T.Emit(t, ok, nested)) == Seen(Serving, O.Emit(o, ok, nested))
  {
    if T.InMainLoop(t.pc) {
      match t.pc
      case AtMainGuard =>
      case AtMainLoop =>
      case AtMainSleep =>
      case AtMainSend =>
      case AtCount =>
    }
  }

  ghost predicate Served(from: T.State, t: T.State, from': O.State, o: O.State, x: seq<Event>) {
    Serve(t.c, o.c) && Adds(Serving, from.trace, t.trace, x) && Adds(Serving, from'.trace, o.trace, x)
  }

  lemma ServeTogether(lt: T.Limits, lo: O.Limits, from: T.State, t: T.State, from': O.State, o: O.State,
                      x: seq<Event>, inp: Input) returns (y: seq<Event>)
    requires lt.failures == lo.failures && Served(from, t, from', o, x)
    ensures Served(from, T.Step(lt, t, inp), from', O.Step(lo, o, inp), y)
  {
    var tc, oc := T.Interrupted(t.c, inp.stop), O.Interrupted(o.c, inp.stop);
    ServeStep(lt, lo, tc, oc, inp.ok, inp.nested);
    AddsExtend(Serving, from.trace, t.trace, x, T.Emit(tc, inp.ok, inp.nested));
    AddsExtend(Serving, from'.trace, o.trace, x, O.Emit(oc, inp.ok, inp.nested));
    y := Extend(x, Seen(Serving, T.Emit(tc, inp.ok, inp.nested)));
  }

  lemma {:induction false} ServeAlong(lt: T.Limits, lo: O.Limits, t: T.State, o: O.State, ins: seq<Input>)
      returns (x: seq<Event>)
    requires lt.failures == lo.failures && Serve(t.c, o.c)
    ensures Served(t, T.ExecFrom(lt, t, ins), o, O.ExecFrom(lo, o, ins), x)
  {
    if ins == [] {
      x := [];
    } else {
      var before := ins[..|ins| - 1];
      x := ServeAlong(lt, lo, t, o, before);
      x := ServeTogether(lt, lo, t, T.ExecFrom(lt, t, before), o, O.ExecFrom(lo, o, before), x, ins[|ins| - 1]);
    }
  }

  /** Both have left the main loop or neither has, and if so they agree on success. */
  predicate SameVerdict(t: T.Control, o: O.Control) {
    && (T.CleaningUp(t.pc) <==> O.PastMainLoop(o.pc))
    && (T.CleaningUp(t.pc) ==> (t.retVal == T.EXIT_SUCCESS <==> o.verdict))
  }

  /** From any two states at the head of the main loop that agree on the flag and the counter, and for all
      outcomes and all placements of the handler, the two daemons do the same things in the same order, leave
      the loop at the same step, and reach the same verdict. `x` is what both do. */
  lemma {:induction false} SameService(lt: T.Limits, lo: O.Limits, t: T.State, o: O.State, ins: seq<Input>) returns (x: seq<Event>)
    requires lt.failures == lo.failures
    requires t.c.pc.AtMainGuard? && o.c.pc.AtMainGuard? && t.c.keep == o.c.keep && t.c.fails == o.c.fails
    requires t.c.retVal == T.EXIT_SUCCESS
    ensures var t', o' := T.ExecFrom(lt, t, ins), O.ExecFrom(lo, o, ins);
            && Adds(Serving, t.trace, t'.trace, x)
            && Adds(Serving, o.trace, o'.trace, x)
            && SameVerdict(t'.c, o'.c)
  {
    x := ServeAlong(lt, lo, t, o, ins);
  }

  // ----- The connection phases -----

  predicate Attempts(t: T.Control, o: O.Control) {
    && t.keep == o.keep
    && match t.pc
       case AtInit => false
       case AtConnect => o.pc.AtConnect?
       case AtRetryGuard => o.pc.AtRetryGuard? && t.i == o.i && t.delay == o.delay && t.ok == o.ok
       case AtRetrySleep => o.pc.AtRetrySleep? && t.i == o.i && t.delay == o.delay
       case AtRetryConnect => o.pc.AtRetryConnect? && t.i == o.i && t.delay == o.delay
       case _ => PastAttemptsO(o.pc)
  }

  predicate PastAttemptsT(pc: T.Pc) {
    !pc.AtInit? && !pc.AtConnect? && !pc.AtRetryGuard? && !pc.AtRetrySleep? && !pc.AtRetryConnect?
  }

  predicate PastAttemptsO(pc: O.Pc) {
    !pc.AtConnect? && !pc.AtRetryGuard? && !pc.AtRetrySleep? && !pc.AtRetryConnect?
  }

  lemma NoMoreAttemptsT(l: T.Limits, c: T.Control, ok: bool, nested: seq<bool>)
    requires PastAttemptsT(c.pc)
    ensures PastAttemptsT(T.Next(l, c, ok).pc) && Seen(Attempting, T.Emit(c, ok, nested)) == Silent
  {
  }

  lemma NoMoreAttemptsO(l: O.Limits, c: O.Control, ok: bool, nested: seq<bool>)
    requires PastAttemptsO(c.pc)
    ensures PastAttemptsO(O.Next(l, c, ok).pc) && Seen(Attempting, O.Emit(c, ok, nested)) == Silent
  {
  }

  lemma AttemptStep(lt: T.Limits, lo: O.Limits, t: T.Control, o: O.Control, ok: bool, nested: seq<bool>)
    requires lt.retries == lo.retries && Attempts(t, o)
    ensures Attempts(T.Next(lt, t, ok), O.Next(lo, o, ok))
    ensures Seen(Attempting, T.Emit(t, ok, nested)) == Seen(Attempting, O.Emit(o, ok, nested))
  {
    if PastAttemptsT(t.pc) {
      NoMoreAttemptsT(lt, t, ok, nested);
      NoMoreAttemptsO(lo, o, ok, nested);
    } else {
      match t.pc
      case AtConnect =>
      case AtRetryGuard =>
      case AtRetrySleep =>
      case AtRetryConnect =>
    }
  }

  ghost predicate Attempted(from: T.State, t: T.State, from': O.State, o: O.State, x: seq<Event>) {
    Attempts(t.c, o.c) && Adds(Attempting, from.trace, t.trace, x) && Adds(Attempting, from'.trace, o.trace, x)
  }

  lemma AttemptTogether(lt: T.Limits, lo: O.Limits, from: T.State, t: T.State, from': O.State, o: O.State,
                        x: seq<Event>, inp: Input) returns (y: seq<Event>)
    requires lt.retries == lo.retries && Attempted(from, t, from', o, x)
    ensures Attempted(from, T.Step(lt, t, inp), from', O.Step(lo, o, inp), y)
  {
    var tc, oc := T.Interrupted(t.c, inp.stop), O.Interrupted(o.c, inp.stop);
    AttemptStep(lt, lo, tc, oc, inp.ok, inp.nested);
    AddsExtend(Attempting, from.trace, t.trace, x, T.Emit(tc, inp.ok, inp.nested));
    AddsExtend(Attempting, from'.trace, o.trace, x, O.Emit(oc, inp.ok, inp.nested));
    y := Extend(x, Seen(Attempting, T.Emit(tc, inp.ok, inp.nested)));
  }

  /** From the first connect on, for the same outcomes and the same placement of the handler, both retry
      loops make the same attempts, with the same outcomes and the same sleeps between them, leave the loop at
      the same step, and make no attempt after that. `x` is the list of attempts and sleeps. */
  lemma {:induction false} SameAttempts(lt: T.Limits, lo: O.Limits, t: T.State, o: O.State, ins: seq<Input>)
      returns (x: seq<Event>)
    requires lt.retries == lo.retries
    requires t.c.pc.AtConnect? && o.c.pc.AtConnect? && t.c.keep == o.c.keep
    ensures Attempted(t, T.ExecFrom(lt, t, ins), o, O.ExecFrom(lo, o, ins), x)
    ensures PastAttemptsT(T.ExecFrom(lt, t, ins).c.pc) <==> PastAttemptsO(O.ExecFrom(lo, o, ins).c.pc)
  {
    if ins == [] {
      x := [];
    } else {
      var before := ins[..|ins| - 1];
      x := SameAttempts(lt, lo, t, o, before);
      x := AttemptTogether(lt, lo, t, T.ExecFrom(lt, t, before), o, O.ExecFrom(lo, o, before), x, ins[|ins| - 1]);
    }
  }

  lemma {:induction false} RetriesAmongAttempts(tr: seq<Event>)
    ensures Project(Retrying, Project(Attempting, tr)) == Project(Retrying, tr)
    ensures Project(Connecting, Project(Attempting, tr)) == Project(Connecting, tr)
  {
    if tr != [] {
      var before, last := tr[..|tr| - 1], tr[|tr| - 1];
      RetriesAmongAttempts(before);
      assert tr == before + [last];
      ProjectSnoc(Attempting, before, last);
      ProjectSnoc(Retrying, before, last);
      ProjectSnoc(Connecting, before, last);
      if Shows(Attempting, last) {
        ProjectSnoc(Retrying, Project(Attempting, before), last);
        ProjectSnoc(Connecting, Project(Attempting, before), last);
        assert Project(Attempting, tr) == Project(Attempting, before) + [last];
      } else {
        assert Project(Attempting, tr) == Project(Attempting, before);
        assert Project(Retrying, tr) == Project(Retrying, before);
        assert Project(Connecting, tr) == Project(Connecting, before);
      }
    }
  }

  /** After its initialisation one daemon is where the other starts. */
  lemma AfterInit(lt: T.Limits, init: Input)
    requires init == Input(false, true, [])
    ensures var s := T.Exec(lt, [init]);
            s.c.pc.AtConnect? && s.c.keep && Project(Attempting, s.trace) == []
  {
    T.ExecSnoc(lt, T.Start(), [], init);
    assert [] + [init] == [init];
    ProjectSnoc(Attempting, [], Init(true));
  }

  /** What is proved of one retry loop holds of the other: the openwrt daemon's sleeps between attempts have the
      same closed form, and it makes at most one attempt more than `retries`. */
  lemma OpenwrtBackoff(lo: O.Limits, ins: seq<Input>)
    ensures var tr := O.Exec(lo, ins).trace;
            && AllDelays(Project(Retrying, tr)) && |Project(Retrying, tr)| <= lo.retries
            && |Project(Connecting, tr)| <= |Project(Retrying, tr)| + 1
  {
    var lt := T.Limits(lo.retries, 0, 1);
    var init := [Input(false, true, [])];
    var t0 := T.Exec(lt, init);
    AfterInit(lt, init[0]);
    hide Project, T.Step, O.Step, AllDelays;
    var x := SameAttempts(lt, lo, t0, O.Start(), ins);
    T.ExecSplit(lt, T.Start(), init, ins);
    T.BackoffInvHolds(lt, init + ins);
    RetriesAmongAttempts(T.Exec(lt, init + ins).trace);
    RetriesAmongAttempts(O.Exec(lo, ins).trace);
  }

  /** With the constants of the openwrt daemon: at most 11 attempts and 2046 seconds between them. */
  lemma OpenwrtBackoffOfMain(ins: seq<Input>)
    ensures var tr := O.Exec(O.LIMITS, ins).trace;
            && |Project(Connecting, tr)| <= 11
            && SecondsSlept(Project(Retrying, tr)) <= 2046
  {
    OpenwrtBackoff(O.LIMITS, ins);
    var r := Project(Retrying, O.Exec(O.LIMITS, ins).trace);
    DelaysAddUp(r);
    Pow2Monotone(|r| + 1, 11);
    assert Pow2(11) == 2048 by { assert Pow2(6) == 64; }
  }
}
