/** tuya_daemon/main.c as a program. It is observed over a script: one happening for each atomic step, saying
    whether the handler runs first, how the call made there ends, and what its callbacks have to deal with.
    A script may be a run from start to end or any part of one that the run has not outlived. */
module TuyaDaemon {
  import opened Observation
  import opened Traces
  import opened TuyaMachine
  import FormatCell
  import TimeReport

  datatype Callback = Message(m: FormatCell.Incoming) | CameUp(clock: TimeReport.Clock) | WentDown

  datatype Happening = Happening(stop: bool, ok: bool, callbacks: seq<Callback>, clock: TimeReport.Clock)

  predicate WellFormed(script: seq<Happening>) {
    forall k, j :: 0 <= k < |script| && 0 <= j < |script[k].callbacks| && script[k].callbacks[j].Message? ==>
      FormatCell.WellFormed(script[k].callbacks[j].m)
  }

  /** The messages among the callbacks of one call, in order. */
  function Messages(callbacks: seq<Callback>): seq<FormatCell.Incoming> {
    if callbacks == [] then []
    else
      var last := callbacks[|callbacks| - 1];
      Messages(callbacks[..|callbacks| - 1]) + if last.Message? then [last.m] else []
  }

  /** The calls during which the SDK may run callbacks. */
  predicate RunsCallbacks(pc: Pc) {
    pc.AtConnect? || pc.AtRetryConnect? || pc.AtSetupLoop? || pc.AtMainLoop? || pc.AtDisconnect?
  }

  /** The reports among the callbacks; each uses the format as the messages before it left it. */
  function Reports(history: seq<FormatCell.Incoming>, callbacks: seq<Callback>): seq<FormatCell.Report> {
    if callbacks == [] then []
    else
      var before, last := callbacks[..|callbacks| - 1], callbacks[|callbacks| - 1];
      Reports(history, before)
      + if last.CameUp? then [FormatCell.ReportOf(history + Messages(before), last.clock)] else []
  }

  /** Which reports got through. */
  function Outcomes(reports: seq<FormatCell.Report>): seq<bool> {
    if reports == [] then [] else Outcomes(reports[..|reports| - 1]) + [reports[|reports| - 1].code == 0]
  }

  lemma OutcomesSnoc(reports: seq<FormatCell.Report>, r: FormatCell.Report)
    ensures Outcomes(reports + [r]) == Outcomes(reports) + [r.code == 0]
  {
    assert (reports + [r])[..|reports|] == reports;
  }

  lemma CallbackSnoc(history: seq<FormatCell.Incoming>, callbacks: seq<Callback>, j: nat)
    requires j < |callbacks|
    ensures var c := callbacks[j];
            && Messages(callbacks[..j + 1]) == Messages(callbacks[..j]) + (if c.Message? then [c.m] else [])
            && Reports(history, callbacks[..j + 1]) == Reports(history, callbacks[..j])
               + if c.CameUp? then [FormatCell.ReportOf(history + Messages(callbacks[..j]), c.clock)] else []
  {
    assert callbacks[..j + 1][..j] == callbacks[..j];
  }

  /** Callbacks run one after the other: a message is delivered, a connection coming up makes a report with what has
      been delivered by then, and a connection going down does neither. */
  lemma CallbackRule(history: seq<FormatCell.Incoming>, c: Callback)
    ensures Messages([]) == [] && Reports(history, []) == []
    ensures Messages([c]) == if c.Message? then [c.m] else []
    ensures Reports(history, [c]) == if c.CameUp? then [FormatCell.ReportOf(history, c.clock)] else []
  {
    assert [c][..0] == [];
    assert history + Messages([]) == history;
  }

  lemma {:induction false} MessagesConcat(a: seq<Callback>, b: seq<Callback>)
    ensures Messages(a + b) == Messages(a) + Messages(b)
  {
    if b == [] {
      assert a + b == a;
    } else {
      MessagesConcat(a, b[..|b| - 1]);
      assert (a + b)[..|a + b| - 1] == a + b[..|b| - 1];
    }
  }

  lemma {:induction false} ReportsConcat(history: seq<FormatCell.Incoming>, a: seq<Callback>, b: seq<Callback>)
    ensures Reports(history, a + b) == Reports(history, a) + Reports(history + Messages(a), b)
  {
    if b == [] {
      assert a + b == a;
    } else {
      var before := b[..|b| - 1];
      ReportsConcat(history, a, before);
      assert (a + b)[..|a + b| - 1] == a + before;
      MessagesConcat(a, before);
      hide FormatCell.ReportOf, Messages;
      assert history + (Messages(a) + Messages(before)) == history + Messages(a) + Messages(before);
    }
  }

  lemma {:induction false} OutcomesRule(reports: seq<FormatCell.Report>)
    ensures |Outcomes(reports)| == |reports|
    ensures forall j :: 0 <= j < |reports| ==> (Outcomes(reports)[j] <==> reports[j].code == 0)
  {
    if reports != [] {
      OutcomesRule(reports[..|reports| - 1]);
    }
  }

  /** What a script has amounted to: the machine's inputs, the messages delivered and the reports made, in
      order. */
  datatype Past = Past(inputs: seq<Input>, history: seq<FormatCell.Incoming>, reports: seq<FormatCell.Report>)

  /** The messages delivered during the step at `pc`. */
  function StepMessages(pc: Pc, h: Happening): seq<FormatCell.Incoming> {
    if RunsCallbacks(pc) then Messages(h.callbacks) else []
  }

  /** The reports made during the step at `pc`, after that history: by on_connected or by the main loop. */
  function StepReports(pc: Pc, history: seq<FormatCell.Incoming>, h: Happening): seq<FormatCell.Report> {
    if RunsCallbacks(pc) then Reports(history, h.callbacks)
    else if pc.AtMainSend? then [FormatCell.ReportOf(history, h.clock)]
    else []
  }

  /** The machine's input at `pc`, after that history. */
  function StepInput(pc: Pc, history: seq<FormatCell.Incoming>, h: Happening): Input {
    Input(
      h.stop,
      if pc.AtMainSend? then FormatCell.ReportOf(history, h.clock).code == 0 else h.ok,
      if RunsCallbacks(pc) then Outcomes(Reports(history, h.callbacks)) else [])
  }

  function Later(past: Past, pc: Pc, h: Happening): Past {
    Past(past.inputs + [StepInput(pc, past.history, h)],
         past.history + StepMessages(pc, h),
         past.reports + StepReports(pc, past.history, h))
  }

  function Replay(limits: Limits, script: seq<Happening>): Past {
    if script == [] then Past([], [], [])
    else
      var past := Replay(limits, script[..|script| - 1]);
      Later(past, Exec(limits, past.inputs).c.pc, script[|script| - 1])
  }

  lemma ReplaySnoc(limits: Limits, script: seq<Happening>, n: nat)
    requires n < |script|
    ensures var past := Replay(limits, script[..n]);
            Replay(limits, script[..n + 1]) == Later(past, Exec(limits, past.inputs).c.pc, script[n])
  {
    assert script[..n + 1][..n] == script[..n];
  }

  lemma {:induction false} ReplayStops(limits: Limits, script: seq<Happening>)
    ensures |Replay(limits, script).inputs| == |script|
    ensures forall k :: 0 <= k < |script| ==> Replay(limits, script).inputs[k].stop == script[k].stop
  {
    hide Exec, StepMessages, StepReports, Outcomes;
    if script != [] {
      ReplayStops(limits, script[..|script| - 1]);
    }
  }

  /** The machine after a script. */
  function MachineAfter(limits: Limits, script: seq<Happening>): State {
    Exec(limits, Replay(limits, script).inputs)
  }

  lemma MachineSnoc(limits: Limits, script: seq<Happening>) returns (inp: Input)
    requires script != []
    ensures MachineAfter(limits, script) == Step(limits, MachineAfter(limits, script[..|script| - 1]), inp)
  {
    hide Step, ExecFrom, StepInput, StepMessages, StepReports;
    var past, h := Replay(limits, script[..|script| - 1]), script[|script| - 1];
    inp := StepInput(Exec(limits, past.inputs).c.pc, past.history, h);
    ExecSnoc(limits, Start(), past.inputs, inp);
  }

  lemma NoMoreReports(limits: Limits, script: seq<Happening>)
    requires script != [] && MachineAfter(limits, script[..|script| - 1]).c.pc.Done?
    ensures Replay(limits, script).reports == Replay(limits, script[..|script| - 1]).reports
  {
    hide ExecFrom, StepInput, StepMessages, Reports;
  }

  /** What a step that makes the call `e` does besides, from the happening alone: inside connect, the MQTT loop and
      disconnect the callbacks are run, all of them and in order; the main loop's own send makes one report; nothing
      else delivers or reports anything. */
  predicate DoesWhatIsDue(past: Past, later: Past, h: Happening, m: Emission) {
    if m.Call? && (m.e.Connect? || m.e.Loop? || m.e.Disconnect?) then
      var made := Reports(past.history, h.callbacks);
      && later.history == past.history + Messages(h.callbacks)
      && later.reports == past.reports + made
      && |m.e.nested| == |made| && (forall j :: 0 <= j < |made| ==> (m.e.nested[j] <==> made[j].code == 0))
      && (!m.e.Disconnect? ==> m.e.ok == h.ok)
    else if m.Call? && m.e.Send? then
      var made := FormatCell.ReportOf(past.history, h.clock);
      && later.history == past.history && later.reports == past.reports + [made]
      && (m.e.ok <==> made.code == 0)
    else
      && later.history == past.history && later.reports == past.reports
      && (m.Call? && m.e.Init? ==> m.e.ok == h.ok)
  }

  lemma ReplayStart(limits: Limits)
    ensures Replay(limits, []) == Past([], [], []) && MachineAfter(limits, []).trace == []
  {
  }

  /** What a script amounts to, read off its calls: each further happening adds at most one call, a lawful one, and
      does what is due in that call. */
  lemma ReplayRule(limits: Limits, script: seq<Happening>, n: nat) returns (m: Emission)
    requires n < |script|
    ensures var s, t := MachineAfter(limits, script[..n]), MachineAfter(limits, script[..n + 1]);
            && t.trace == Extend(s.trace, m)
            && DoesWhatIsDue(Replay(limits, script[..n]), Replay(limits, script[..n + 1]), script[n], m)
            && (m.Call? ==> Lawful(limits, See(s.trace), m.e, Stopped(script[..n]), Stopped(script[..n + 1])))
  {
    var past, h := Replay(limits, script[..n]), script[n];
    var pc := Exec(limits, past.inputs).c.pc;
    var inp := StepInput(pc, past.history, h);
    ReplaySnoc(limits, script, n);
    StepDoesWhatIsDue(limits, past, h);
    assert Replay(limits, script[..n + 1]).inputs == past.inputs + [inp];
    hide Lawful, DoesWhatIsDue, Later, Replay, ExecFrom, Step, Start, Emit, Interrupted, StepInput, Extend, See;
    m := EveryEventIsLawful(limits, past.inputs, inp);
    StoppedIsAsked(limits, script[..n]);
    StoppedIsAsked(limits, script[..n + 1]);
  }

  predicate Stopped(script: seq<Happening>) {
    exists k :: 0 <= k < |script| && script[k].stop
  }

  lemma StoppedIsAsked(limits: Limits, script: seq<Happening>)
    ensures Stopped(script) <==> Asked(Replay(limits, script).inputs)
  {
    ReplayStops(limits, script);
    var ins := Replay(limits, script).inputs;
    assert forall k :: 0 <= k < |script| ==> ins[k].stop == script[k].stop;
  }

  lemma StepDoesWhatIsDue(limits: Limits, past: Past, h: Happening)
    ensures var s := Exec(limits, past.inputs);
            var inp := StepInput(s.c.pc, past.history, h);
            DoesWhatIsDue(past, Later(past, s.c.pc, h), h, Emit(Interrupted(s.c, inp.stop), inp.ok, inp.nested))
  {
    hide ExecFrom, Reports, Messages, Outcomes, FormatCell.ReportOf;
    OutcomesRule(Reports(past.history, h.callbacks));
  }

  /** A program that has returned makes no call and no report and does not change its status. */
  lemma {:induction false} DoneStays(limits: Limits, script: seq<Happening>, n: nat)
    requires n <= |script| && MachineAfter(limits, script[..n]).c.pc.Done?
    ensures var m, m' := MachineAfter(limits, script[..n]), MachineAfter(limits, script);
            m'.c.pc.Done? && m'.c.retVal == m.c.retVal && m'.trace == m.trace
    ensures Replay(limits, script).reports == Replay(limits, script[..n]).reports
  {
    hide MachineAfter, Replay, Step;
    if n == |script| {
      assert script[..n] == script;
    } else {
      var before := script[..|script| - 1];
      assert before[..n] == script[..n];
      DoneStays(limits, before, n);
      var inp := MachineSnoc(limits, script);
      DoneStep(limits, MachineAfter(limits, before), inp);
      NoMoreReports(limits, script);
    }
  }

  class Daemon {
    const limits: Limits
    const script: seq<Happening>
    const cell: FormatCell.FormatCell
    var pos: nat
    var keepRunning: int
    /** The inputs consumed so far, the machine's state after them, and the calls really made. */
    ghost var inputs: seq<Input>
    ghost var machine: State
    ghost var calls: seq<Event>

    /** The program is where the machine is, and has made exactly the machine's calls. */
    ghost predicate Follows()
      reads this
      ensures Follows() ==> pos <= |script|
    {
      && WellFormed(script)
      && pos <= |script| && inputs == Replay(limits, script[..pos]).inputs
      && machine == Exec(limits, inputs)
      && calls == machine.trace
      && keepRunning == if machine.c.keep then 1 else 0
    }

    ghost predicate Valid()
      reads this, cell, cell.store
      ensures Valid() ==> Follows() && Recalls() && FormatCell.UsesLastWrite(cell.reports, cell.history)
    {
      Follows() && cell.Valid() && Recalls()
    }

    /** Every message delivered has been handled, in order, and the reports made are exactly those due. */
    ghost predicate Recalls()
      reads this, cell
    {
      && pos <= |script|
      && Replay(limits, script[..pos]).history == cell.history
      && Replay(limits, script[..pos]).reports == cell.reports
    }

    constructor (limits: Limits, script: seq<Happening>)
      requires WellFormed(script)
      ensures Valid() && machine == Start() && pos == 0 && !cell.shouldFree
      ensures this.limits == limits && this.script == script && fresh(cell) && fresh(cell.store)
    {
      this.limits, this.script := limits, script;
      cell := new FormatCell.FormatCell();
      pos, keepRunning := 0, 1;
      inputs, machine, calls := [], Start(), [];
    }

    /** Goes on to the next happening, running the handler if it is due. */
    method Take() returns (r: Observed<Happening>)
      requires Follows()
      modifies this`pos, this`keepRunning
      ensures r.Cut? ==> pos == old(pos) == |script| && keepRunning == old(keepRunning)
      ensures r.Got? ==>
                && old(pos) < |script| && pos == old(pos) + 1 && r.value == script[old(pos)]
                && keepRunning == if r.value.stop then 0 else old(keepRunning)
    {
      if pos == |script| {
        return Cut;
      }
      var h := script[pos];
      pos := pos + 1;
      if h.stop {
        SignalHandler();
      }
      r := Got(h);
    }

    method SignalHandler()
      modifies this`keepRunning
      ensures keepRunning == 0
    {
      keepRunning := 0;
    }

    /** Lets the machine make the step that the program has just made with the call `m`. `past` is what the
        script amounted to before the step. */
    ghost method Record(h: Happening, ok: bool, nested: seq<bool>, m: Emission, past: Past)
      requires WellFormed(script) && 0 < pos <= |script| && h == script[pos - 1]
      requires Replay(limits, script[..pos - 1]) == past && past.inputs == inputs
      requires machine == Exec(limits, inputs) && calls == machine.trace
      requires keepRunning == if machine.c.keep && !h.stop then 1 else 0
      requires Input(h.stop, ok, nested) == StepInput(machine.c.pc, past.history, h)
      requires m == Emit(machine.c.(keep := keepRunning == 1), ok, nested)
      modifies this`inputs, this`machine, this`calls
      ensures Follows()
      ensures machine.c == Next(limits, old(machine.c).(keep := keepRunning == 1), ok)
      ensures Replay(limits, script[..pos]) == Later(past, old(machine.c.pc), h)
    {
      hide Next, Emit, ExecFrom, Replay, StepInput, StepMessages, StepReports;
      var inp := Input(h.stop, ok, nested);
      ReplaySnoc(limits, script, pos - 1);
      ExecSnoc(limits, Start(), inputs, inp);
      assert Interrupted(machine.c, h.stop) == machine.c.(keep := keepRunning == 1);
      inputs := inputs + [inp];
      machine := Step(limits, machine, inp);
      calls := Extend(calls, m);
    }

    /** What the SDK does with the callbacks of init_tuya while one of its calls is running. */
    method RunCallbacks(callbacks: seq<Callback>) returns (nested: seq<bool>)
      requires cell.Valid()
      requires forall j :: 0 <= j < |callbacks| && callbacks[j].Message? ==> FormatCell.WellFormed(callbacks[j].m)
      modifies cell, cell.store
      ensures cell.Valid() && cell.history == old(cell.history) + Messages(callbacks)
      ensures cell.reports == old(cell.reports) + Reports(old(cell.history), callbacks)
      ensures nested == Outcomes(Reports(old(cell.history), callbacks))
    {
      hide FormatCell.ReportOf, FormatCell.LastWrite, FormatCell.UsesLastWrite;
      nested := [];
      for j := 0 to |callbacks|
        invariant cell.Valid() && cell.history == old(cell.history) + Messages(callbacks[..j])
        invariant cell.reports == old(cell.reports) + Reports(old(cell.history), callbacks[..j])
        invariant nested == Outcomes(Reports(old(cell.history), callbacks[..j]))
      {
        CallbackSnoc(old(cell.history), callbacks, j);
        ghost var before := Reports(old(cell.history), callbacks[..j]);
        match callbacks[j] {
          case Message(m) =>
            cell.OnMessages(m);
            assert Reports(old(cell.history), callbacks[..j + 1]) == before;
          case CameUp(clock) =>
            OutcomesSnoc(before, FormatCell.ReportOf(cell.history, clock));
            var code := cell.SendCurrentTime(clock);
            nested := nested + [code == 0];
          case WentDown =>
            assert Reports(old(cell.history), callbacks[..j + 1]) == before;
        }
      }
      assert callbacks[..|callbacks|] == callbacks;
    }

    // ----- Library calls -----

    method MqttInit() returns (r: Observed<bool>)
      requires Valid() && machine.c.pc.AtInit?
      modifies this
      ensures Valid() && (r.Cut? ==> pos == |script| && machine == old(machine))
      ensures r.Got? ==>
                if r.value then machine.c.pc.AtConnect?
                else machine.c.pc.Done? && machine.c.retVal == EXIT_FAILURE
    {
      hide Exec, Replay, Messages, Reports, Outcomes, FormatCell.UsesLastWrite, FormatCell.LastWrite, FormatCell.ReportOf;
      ghost var past := Replay(limits, script[..pos]);
      var h :- Take();
      Record(h, h.ok, [], Call(Init(h.ok)), past);
      r := Got(h.ok);
    }

    method MqttConnect() returns (r: Observed<bool>)
      requires Valid() && (machine.c.pc.AtConnect? || machine.c.pc.AtRetryConnect?)
      modifies this, cell, cell.store
      ensures Valid() && (r.Cut? ==> pos == |script| && machine == old(machine))
      ensures r.Got? ==>
                && pos > old(pos) && machine.c.pc.AtRetryGuard? && machine.c.ok == r.value
                && machine.c.i == (if old(machine.c.pc).AtConnect? then 0 else old(machine.c.i) + 1)
                && machine.c.delay == if old(machine.c.pc).AtConnect? then 2 else old(machine.c.delay)
    {
      hide Exec, Replay, Messages, Reports, Outcomes, FormatCell.UsesLastWrite, FormatCell.LastWrite, FormatCell.ReportOf;
      ghost var past := Replay(limits, script[..pos]);
      var h :- Take();
      var nested := RunCallbacks(h.callbacks);
      Record(h, h.ok, nested, Call(Connect(h.ok, nested)), past);
      r := Got(h.ok);
    }

    method MqttLoop() returns (r: Observed<bool>)
      requires Valid() && (machine.c.pc.AtSetupLoop? || machine.c.pc.AtMainLoop?)
      modifies this, cell, cell.store
      ensures Valid() && (r.Cut? ==> pos == |script| && machine == old(machine))
      ensures r.Got? ==> pos > old(pos) && machine.c.fails == old(machine.c.fails)
      ensures r.Got? && !r.value ==> machine.c.pc.AtDisconnect? && machine.c.retVal == EXIT_FAILURE
      ensures r.Got? && r.value ==>
                && machine.c.retVal == old(machine.c.retVal)
                && if old(machine.c.pc).AtMainLoop? then machine.c.pc.AtMainSleep?
                   else machine.c.pc.AtSetupGuard? && machine.c.i == old(machine.c.i) + 1
    {
      hide Exec, Replay, Messages, Reports, Outcomes, FormatCell.UsesLastWrite, FormatCell.LastWrite, FormatCell.ReportOf;
      ghost var past := Replay(limits, script[..pos]);
      var h :- Take();
      var nested := RunCallbacks(h.callbacks);
      Record(h, h.ok, nested, Call(Loop(h.ok, nested)), past);
      r := Got(h.ok);
    }

    method Sleep(seconds: nat) returns (r: Observed<()>)
      requires Valid()
      requires (machine.c.pc.AtRetrySleep? && seconds == machine.c.delay) || (machine.c.pc.AtMainSleep? && seconds == 10)
      modifies this
      ensures Valid() && (r.Cut? ==> pos == |script| && machine == old(machine))
      ensures r.Got? ==>
                && pos > old(pos)
                && machine.c == old(machine.c).(
                     keep := machine.c.keep,
                     pc := if old(machine.c.pc).AtRetrySleep? then AtRetryConnect else AtMainSend,
                     delay := if old(machine.c.pc).AtRetrySleep? then (seconds * 2) % UINT_RANGE
                              else old(machine.c.delay))
    {
      hide Exec, Replay, Messages, Reports, Outcomes, FormatCell.UsesLastWrite, FormatCell.LastWrite, FormatCell.ReportOf;
      ghost var past := Replay(limits, script[..pos]);
      var h :- Take();
      Record(h, h.ok, [], Call(if machine.c.pc.AtRetrySleep? then Backoff(seconds) else Pause(seconds)), past);
      r := Got(());
    }

    method MqttDisconnect() returns (r: Observed<()>)
      requires Valid() && machine.c.pc.AtDisconnect?
      modifies this, cell, cell.store
      ensures Valid() && (r.Cut? ==> pos == |script| && machine == old(machine))
      ensures r.Got? ==> machine.c.pc.AtDeinit? && machine.c.retVal == old(machine.c.retVal)
    {
      hide Exec, Replay, Messages, Reports, Outcomes, FormatCell.UsesLastWrite, FormatCell.LastWrite, FormatCell.ReportOf;
      ghost var past := Replay(limits, script[..pos]);
      var h :- Take();
      var nested := RunCallbacks(h.callbacks);
      Record(h, h.ok, nested, Call(Disconnect(nested)), past);
      r := Got(());
    }

    method MqttDeinit() returns (r: Observed<()>)
      requires Valid() && machine.c.pc.AtDeinit?
      modifies this
      ensures Valid() && (r.Cut? ==> pos == |script| && machine == old(machine))
      ensures r.Got? ==> machine.c.pc.AtFree? && machine.c.retVal == old(machine.c.retVal)
    {
      hide Exec, Replay, Messages, Reports, Outcomes, FormatCell.UsesLastWrite, FormatCell.LastWrite, FormatCell.ReportOf;
      ghost var past := Replay(limits, script[..pos]);
      var h :- Take();
      Record(h, h.ok, [], Call(Deinit), past);
      r := Got(());
    }

    // ----- Other steps -----

    /** Reads the flag in a loop guard. */
    method ReadKeepRunning() returns (r: Observed<bool>)
      requires Valid()
      requires machine.c.pc.AtRetryGuard? || machine.c.pc.AtSetupGuard? || machine.c.pc.AtMainGuard?
      modifies this
      ensures Valid() && (r.Cut? ==> pos == |script| && machine == old(machine))
      ensures r.Got? ==> pos > old(pos)
      ensures r.Got? && old(machine.c).pc.AtRetryGuard? ==>
                var c := old(machine.c);
                if c.i < limits.retries && !c.ok && r.value then machine.c == c.(pc := AtRetrySleep, keep := true)
                else if c.ok then machine.c.pc.AtSetupGuard? && machine.c.i == 0
                else machine.c.pc.AtDisconnect? && machine.c.retVal == EXIT_FAILURE
      ensures r.Got? && old(machine.c).pc.AtSetupGuard? ==>
                var c := old(machine.c);
                if c.i < limits.setups && r.value then machine.c == c.(pc := AtSetupLoop, keep := true)
                else machine.c.pc.AtMainGuard? && machine.c.fails == 0 && machine.c.retVal == EXIT_SUCCESS
      ensures r.Got? && old(machine.c).pc.AtMainGuard? ==>
                && machine.c.fails == old(machine.c).fails && machine.c.retVal == old(machine.c).retVal
                && if r.value then machine.c.pc.AtMainLoop? else machine.c.pc.AtDisconnect?
    {
      hide Exec, Replay, Messages, Reports, Outcomes, FormatCell.UsesLastWrite, FormatCell.LastWrite, FormatCell.ReportOf;
      ghost var past := Replay(limits, script[..pos]);
      var h :- Take();
      Record(h, h.ok, [], if machine.c.pc.AtMainGuard? then Call(Guard(keepRunning == 1)) else Silent, past);
      r := Got(keepRunning == 1);
    }

    /** The update of the failure counter is a step of its own: the handler may run before it. */
    method Tick() returns (r: Observed<()>)
      requires Valid() && machine.c.pc.AtCount?
      modifies this
      ensures Valid() && (r.Cut? ==> pos == |script| && machine == old(machine))
      ensures r.Got? ==>
                && pos > old(pos)
                && if old(machine.c).ok then
                     machine.c.pc.AtMainGuard? && machine.c.fails == 0 && machine.c.retVal == old(machine.c.retVal)
                   else if old(machine.c).fails + 1 == limits.failures then
                     machine.c.pc.AtDisconnect? && machine.c.retVal == EXIT_FAILURE
                   else
                     && machine.c.pc.AtMainGuard? && machine.c.fails == old(machine.c).fails + 1
                     && machine.c.retVal == old(machine.c.retVal)
    {
      hide Exec, Replay, Messages, Reports, Outcomes, FormatCell.UsesLastWrite, FormatCell.LastWrite, FormatCell.ReportOf;
      ghost var past := Replay(limits, script[..pos]);
      var h :- Take();
      Record(h, h.ok, [], Silent, past);
      r := Got(());
    }

    method SendCurrentTime() returns (r: Observed<int>)
      requires Valid() && machine.c.pc.AtMainSend?
      modifies this, cell
      ensures Valid() && (r.Cut? ==> pos == |script| && machine == old(machine))
      ensures r.Got? ==>
                && pos > old(pos)
                && machine.c == old(machine.c).(keep := machine.c.keep, pc := AtCount, ok := r.value == 0)
    {
      hide Exec, Replay, Messages, Reports, Outcomes, FormatCell.UsesLastWrite, FormatCell.LastWrite, FormatCell.ReportOf;
      ghost var past := Replay(limits, script[..pos]);
      var h :- Take();
      var code := cell.SendCurrentTime(h.clock);
      Record(h, code == 0, [], Call(Send(code == 0)), past);
      r := Got(code);
    }

    method FreeDateTimeFormat() returns (r: Observed<()>)
      requires Valid() && machine.c.pc.AtFree?
      modifies this, cell.store
      ensures Follows() && (r.Cut? ==> Valid() && pos == |script| && machine == old(machine))
      ensures r.Got? ==>
                && machine.c.pc.Done? && machine.c.retVal == old(machine.c.retVal)
                && cell.store.Valid() && cell.store.mem == map[]
                && Recalls()
    {
      hide Exec, Replay, Messages, Reports, Outcomes, FormatCell.UsesLastWrite, FormatCell.LastWrite, FormatCell.ReportOf;
      ghost var past := Replay(limits, script[..pos]);
      var h :- Take();
      cell.FreeDateTimeFormat();
      Record(h, h.ok, [], Call(FreeFormat), past);
      r := Got(());
    }

    // ----- main.c -----

    method InitTuya() returns (r: Observed<int>)
      requires Valid() && machine.c.pc.AtInit?
      modifies this
      ensures Valid() && (r.Cut? ==> pos == |script| && !machine.c.pc.Done?)
      ensures r.Got? ==>
                if r.value == EXIT_SUCCESS then machine.c.pc.AtConnect?
                else machine.c.pc.Done? && machine.c.retVal == r.value == EXIT_FAILURE
    {
      var ok :- MqttInit();
      r := Got(if ok then EXIT_SUCCESS else EXIT_FAILURE);
    }

    method ConnectToTuya() returns (r: Observed<int>)
      requires Valid() && machine.c.pc.AtConnect?
      modifies this, cell, cell.store
      ensures Valid() && (r.Cut? ==> pos == |script| && !machine.c.pc.Done?)
      ensures r.Got? ==>
                && machine.c.retVal == r.value
                && if r.value == EXIT_SUCCESS then machine.c.pc.AtMainGuard? && machine.c.fails == 0
                   else machine.c.pc.AtDisconnect? && r.value == EXIT_FAILURE
    {
      hide Follows, Valid, Replay;
      var sleepSeconds := 2;
      var ok :- MqttConnect();
      var i := 0;
      var running :- ReadKeepRunning();
      while i < limits.retries && !ok && running
        invariant Valid()
        invariant if i < limits.retries && !ok && running
                  then machine.c.pc.AtRetrySleep? && machine.c.i == i && machine.c.delay == sleepSeconds && !machine.c.ok
                  else RetriesOver(ok)
        decreases |script| - pos
      {
        var _ :- Sleep(sleepSeconds);
        sleepSeconds := (sleepSeconds * 2) % UINT_RANGE;
        ok :- MqttConnect();
        i := i + 1;
        running :- ReadKeepRunning();
      }
      if !ok {
        return Got(EXIT_FAILURE);
      }

      i := 0;
      running :- ReadKeepRunning();
      while i < limits.setups && running
        invariant Valid()
        invariant if i < limits.setups && running
                  then machine.c.pc.AtSetupLoop? && machine.c.i == i
                  else machine.c.pc.AtMainGuard? && machine.c.fails == 0 && machine.c.retVal == EXIT_SUCCESS
        decreases |script| - pos
      {
        var looped :- MqttLoop();
        if !looped {
          return Got(EXIT_FAILURE);
        }
        i := i + 1;
        running :- ReadKeepRunning();
      }
      r := Got(EXIT_SUCCESS);
    }

    /** Where the machine is when the retry loop is left. */
    ghost predicate RetriesOver(ok: bool)
      reads this
    {
      if ok then machine.c.pc.AtSetupGuard? && machine.c.i == 0
      else machine.c.pc.AtDisconnect? && machine.c.retVal == EXIT_FAILURE
    }

    /** For every script: the program makes the machine's calls, in the order of the protocol, and returns the
        machine's status, which is success only if the script asks it to stop; the heap is empty when it
        returns, on every path; every message delivered is handled, in order, the reports made and the texts
        published are exactly those due, and at every use the format was that of the last message accepted; and
        once the handler has run the program returns within eight steps. */
    method Execute() returns (r: Observed<int>)
      requires Valid() && machine == Start() && pos == 0 && !cell.shouldFree
      modifies this, cell, cell.store
      ensures Follows()
      ensures r.Got? ==>
                && machine.c.pc.Done? && r.value == machine.c.retVal
                && cell.store.Valid() && cell.store.mem == map[]
      ensures r.Cut? ==> Valid() && pos == |script| && !machine.c.pc.Done?
      ensures Recalls()
      ensures FormatCell.UsesLastWrite(cell.reports, cell.history)
      ensures r.Got? ==> calls == [Init(false)] || Closed(calls)
      ensures r.Got? && r.value == EXIT_SUCCESS && limits.failures > 0 ==> exists k :: 0 <= k < |script| && script[k].stop
      ensures |Project(Connecting, calls)| <= limits.retries + 1
      ensures (exists k :: 0 <= k && k + 8 <= |script| && script[k].stop) ==> r.Got?
    {
      r := Run();
      CallProtocol(limits, inputs);
      BackoffClosedForm(limits, inputs);
      if r.Cut? {
        StopForcesExit();
      } else if r.value == EXIT_SUCCESS && limits.failures > 0 {
        SuccessMeansAskedToStop(limits, inputs);
        ReplayStops(limits, script[..pos]);
        ghost var k :| 0 <= k < |inputs| && inputs[k].stop;
        assert script[k].stop;
      }
    }

    /** main from initialisation to its return. */
    method Run() returns (r: Observed<int>)
      requires Valid() && machine == Start() && !cell.shouldFree
      modifies this, cell, cell.store
      ensures Follows()
      ensures r.Got? ==>
                && machine.c.pc.Done? && r.value == machine.c.retVal
                && cell.store.Valid() && cell.store.mem == map[]
      ensures r.Cut? ==> Valid() && pos == |script| && !machine.c.pc.Done?
      ensures Recalls()
      ensures FormatCell.UsesLastWrite(cell.reports, cell.history)
    {
      assert cell.store.Valid() && cell.store.mem.Keys == {};
      hide Follows, Valid, Replay;
      var retVal :- InitTuya();
      if retVal != EXIT_SUCCESS {
        return Got(EXIT_FAILURE);
      }
      retVal :- Serve();
      var _ :- MqttDisconnect();
      var _ :- MqttDeinit();
      var _ :- FreeDateTimeFormat();
      r := Got(retVal);
    }

    /** main from connecting to the label `cleanup`. */
    method Serve() returns (r: Observed<int>)
      requires Valid() && machine.c.pc.AtConnect?
      modifies this, cell, cell.store
      ensures Valid() && (r.Cut? ==> pos == |script| && !machine.c.pc.Done?)
      ensures r.Got? ==> machine.c.pc.AtDisconnect? && machine.c.retVal == r.value
    {
      hide Follows, Valid, Replay;
      var retVal;
      label cleanup: {
        retVal :- ConnectToTuya();
        if retVal != EXIT_SUCCESS {
          break cleanup;
        }

        var sendFailCount := 0;
        var running :- ReadKeepRunning();
        while running
          invariant Valid() && machine.c.retVal == retVal == EXIT_SUCCESS
          invariant if running then machine.c.pc.AtMainLoop? && machine.c.fails == sendFailCount
                    else machine.c.pc.AtDisconnect?
          decreases |script| - pos
        {
          var ok :- MqttLoop();
          if !ok {
            retVal := EXIT_FAILURE;
            break cleanup;
          }
          var _ :- Sleep(10);
          var ret :- SendCurrentTime();
          var _ :- Tick();
          if ret != 0 {
            sendFailCount := sendFailCount + 1;
            if sendFailCount == limits.failures {
              retVal := EXIT_FAILURE;
              break cleanup;
            }
          } else {
            sendFailCount := 0;
          }
          running :- ReadKeepRunning();
        }
      }
      r := Got(retVal);
    }

    /** A script with a request to stop eight steps before its end does not outlast the program. */
    lemma StopForcesExit()
      requires Follows() && pos == |script| && !machine.c.pc.Done?
      ensures forall k :: 0 <= k && k + 8 <= |script| ==> !script[k].stop
    {
      forall k | 0 <= k && k + 8 <= |script| ensures !script[k].stop {
        assert script[..pos] == script;
        ReplayStops(limits, script);
        if inputs[k].stop {
          StopBound(limits, inputs, k);
        }
      }
    }
  }

  /** The whole program on any script: it returns if and only if the machine does, with the machine's status and
      after the machine's calls, having made exactly the reports that were due, and then nothing is left
      allocated; before that at most the format is. */
  method RunProgram(limits: Limits, script: seq<Happening>)
      returns (r: Observed<int>, live: nat, ghost calls: seq<Event>, ghost reports: seq<FormatCell.Report>)
    requires WellFormed(script)
    ensures var m := MachineAfter(limits, script);
            && r == (if m.c.pc.Done? then Got(m.c.retVal) else Cut)
            && calls == m.trace
    ensures reports == Replay(limits, script).reports
    ensures r.Got? ==> live == 0 && (calls == [Init(false)] || Closed(calls))
    ensures r.Cut? ==> live <= 1
    ensures (exists k :: 0 <= k && k + 8 <= |script| && script[k].stop) ==> r.Got?
  {
    var daemon := new Daemon(limits, script);
    r := daemon.Execute();
    live := |daemon.cell.store.mem|;
    calls, reports := daemon.calls, daemon.cell.reports;
    if r.Got? {
      DoneStays(limits, script, daemon.pos);
    } else {
      assert script[..daemon.pos] == script;
      assert daemon.cell.store.mem.Keys == daemon.cell.Owned();
      assert |daemon.cell.store.mem| == |daemon.cell.store.mem.Keys|;
    }
  }
}
