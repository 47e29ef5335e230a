/** The openwrt daemon as a program, from connect_to_tuya on, observed over a script of happenings. */
module OpenwrtDaemon {
  import opened Observation
  import opened Traces
  import opened OpenwrtMachine
  import Actions
  import Memory
  import SendInfo

  datatype Callback = Action(data: Memory.Json, bus: SendInfo.Bus, undefined: nat) | OtherMessage
                    | CameUp(bus: SendInfo.Bus) | WentDown

  datatype Happening = Happening(stop: bool, ok: bool, callbacks: seq<Callback>, bus: SendInfo.Bus)

  /** What the callbacks of one call ask of ubus, in order. */
  function CallbackRequests(callbacks: seq<Callback>): seq<SendInfo.Event> {
    if callbacks == [] then []
    else
      CallbackRequests(callbacks[..|callbacks| - 1]) +
      match callbacks[|callbacks| - 1]
      case Action(data, bus, undefined) => Actions.Requested(data, bus, undefined)
      case CameUp(bus) => SendInfo.InfoRequest(bus)
      case _ => []
  }

  /** The outcomes of the reports that on_connected sends among the callbacks. */
  function Outcomes(callbacks: seq<Callback>): seq<bool> {
    if callbacks == [] then []
    else
      var last := callbacks[|callbacks| - 1];
      Outcomes(callbacks[..|callbacks| - 1]) + if last.CameUp? then [SendInfo.InfoSent(last.bus)] else []
  }

  lemma CallbackSnoc(callbacks: seq<Callback>, j: nat)
    requires j < |callbacks|
    ensures CallbackRequests(callbacks[..j + 1]) ==
            CallbackRequests(callbacks[..j]) +
            match callbacks[j]
            case Action(data, bus, undefined) => Actions.Requested(data, bus, undefined)
            case CameUp(bus) => SendInfo.InfoRequest(bus)
            case _ => []
    ensures Outcomes(callbacks[..j + 1]) ==
            Outcomes(callbacks[..j]) + if callbacks[j].CameUp? then [SendInfo.InfoSent(callbacks[j].bus)] else []
  {
    assert callbacks[..j + 1][..j] == callbacks[..j];
  }

  /** Callbacks run one after the other: an action asks for what it requests, a connection coming up for the memory
      information, anything else for nothing. */
  lemma CallbackRule(c: Callback)
    ensures CallbackRequests([]) == [] && Outcomes([]) == []
    ensures c.Action? ==> CallbackRequests([c]) == Actions.Requested(c.data, c.bus, c.undefined)
    ensures c.CameUp? ==>
              CallbackRequests([c]) == if c.bus.found then [SendInfo.Invoked("system", "info", SendInfo.NoArgs)] else []
    ensures c.OtherMessage? || c.WentDown? ==> CallbackRequests([c]) == []
    ensures Outcomes([c]) == if c.CameUp? then [SendInfo.InfoSent(c.bus)] else []
  {
    assert [c][..0] == [];
  }

  lemma {:induction false} CallbacksConcat(a: seq<Callback>, b: seq<Callback>)
    ensures CallbackRequests(a + b) == CallbackRequests(a) + CallbackRequests(b)
    ensures Outcomes(a + b) == Outcomes(a) + Outcomes(b)
  {
    hide Actions.Requested, SendInfo.InfoRequest, SendInfo.InfoSent;
    if b == [] {
      assert a + b == a;
    } else {
      CallbacksConcat(a, b[..|b| - 1]);
      assert (a + b)[..|a + b| - 1] == a + b[..|b| - 1];
    }
  }

  /** The calls during which the SDK may run callbacks. */
  predicate RunsCallbacks(pc: Pc) {
    pc.AtConnect? || pc.AtRetryConnect? || pc.AtSetupLoop? || pc.AtMainLoop? || pc.AtDisconnect?
  }

  /** What the step at `pc` asks of ubus. */
  function StepRequests(pc: Pc, h: Happening): seq<SendInfo.Event> {
    if RunsCallbacks(pc) then CallbackRequests(h.callbacks)
    else if pc.AtMainSend? then SendInfo.InfoRequest(h.bus)
    else []
  }

  /** The machine's input at `pc`. */
  function StepInput(pc: Pc, h: Happening): Input {
    Input(
      h.stop,
      if pc.AtMainSend? then SendInfo.InfoSent(h.bus) else h.ok,
      if RunsCallbacks(pc) then Outcomes(h.callbacks) else [])
  }

  /** What a script has amounted to: the machine's inputs and everything that ubus has been asked, in order. */
  datatype Past = Past(inputs: seq<Input>, requests: seq<SendInfo.Event>)

  function Replay(limits: Limits, script: seq<Happening>): Past {
    if script == [] then Past([], [])
    else
      var past, h := Replay(limits, script[..|script| - 1]), script[|script| - 1];
      var pc := Exec(limits, past.inputs).c.pc;
      Past(past.inputs + [StepInput(pc, h)], past.requests + StepRequests(pc, h))
  }

  lemma ReplaySnoc(limits: Limits, script: seq<Happening>, n: nat)
    requires n < |script|
    ensures var past := Replay(limits, script[..n]);
            var pc := Exec(limits, past.inputs).c.pc;
            Replay(limits, script[..n + 1])
            == Past(past.inputs + [StepInput(pc, script[n])], past.requests + StepRequests(pc, script[n]))
  {
    assert script[..n + 1][..n] == script[..n];
  }

  lemma {:induction false} ReplayStops(limits: Limits, script: seq<Happening>)
    ensures |Replay(limits, script).inputs| == |script|
    ensures forall k :: 0 <= k < |script| ==> Replay(limits, script).inputs[k].stop == script[k].stop
  {
    hide Exec, CallbackRequests, Outcomes, StepRequests;
    if script != [] {
      ReplayStops(limits, script[..|script| - 1]);
    }
  }

  /** The machine after a script. */
  function MachineAfter(limits: Limits, script: seq<Happening>): State {
    Exec(limits, Replay(limits, script).inputs)
  }

  lemma MachineSnoc(limits: Limits, script: seq<Happening>) returns (inp: Input)
    requires script != []
    ensures MachineAfter(limits, script) == Step(limits, MachineAfter(limits, script[..|script| - 1]), inp)
  {
    hide Step, ExecFrom, StepInput, CallbackRequests, Outcomes, StepRequests;
    var past, h := Replay(limits, script[..|script| - 1]), script[|script| - 1];
    var pc := Exec(limits, past.inputs).c.pc;
    inp := StepInput(pc, h);
    ExecSnoc(limits, Start(), past.inputs, inp);
  }

  /** What a step that makes the call `e` does besides, from the happening alone: inside connect, the MQTT loop and
      disconnect the callbacks are run, all of them and in order; the main loop's own send asks for the memory
      information; nothing else asks ubus for anything. */
  predicate DoesWhatIsDue(past: Past, later: Past, h: Happening, m: Emission) {
    if m.Call? && (m.e.Connect? || m.e.Loop? || m.e.Disconnect?) then
      && later.requests == past.requests + CallbackRequests(h.callbacks)
      && m.e.nested == Outcomes(h.callbacks)
      && (!m.e.Disconnect? ==> m.e.ok == h.ok)
    else if m.Call? && m.e.Send? then
      && later.requests == past.requests
                           + (if h.bus.found then [SendInfo.Invoked("system", "info", SendInfo.NoArgs)] else [])
      && m.e.ok == SendInfo.InfoSent(h.bus)
    else
      later.requests == past.requests && (m.Call? && m.e.Connected? ==> m.e.yes == h.ok)
  }

  lemma ReplayStart(limits: Limits)
    ensures Replay(limits, []) == Past([], []) && MachineAfter(limits, []).trace == []
  {
  }

  /** What a script amounts to, read off its calls: each further happening adds at most one call, a lawful one, and
      does what is due in that call. */
  lemma ReplayRule(limits: Limits, script: seq<Happening>, n: nat) returns (m: Emission)
    requires n < |script|
    ensures var s, t := MachineAfter(limits, script[..n]), MachineAfter(limits, script[..n + 1]);
            && t.trace == Extend(s.trace, m)
            && DoesWhatIsDue(Replay(limits, script[..n]), Replay(limits, script[..n + 1]), script[n], m)
            && (m.Call? ==> Lawful(limits, See(s.trace), m.e, Stopped(script[..n]), Stopped(script[..n + 1])))
  {
    var past, h := Replay(limits, script[..n]), script[n];
    var pc := Exec(limits, past.inputs).c.pc;
    var inp := StepInput(pc, h);
    ReplaySnoc(limits, script, n);
    StepDoesWhatIsDue(limits, past, h);
    assert Replay(limits, script[..n + 1]).inputs == past.inputs + [inp];
    hide Lawful, DoesWhatIsDue, Replay, ExecFrom, Step, Start, Emit, Interrupted, StepInput, StepRequests, Extend, See;
    m := EveryEventIsLawful(limits, past.inputs, inp);
    StoppedIsAsked(limits, script[..n]);
    StoppedIsAsked(limits, script[..n + 1]);
  }

  predicate Stopped(script: seq<Happening>) {
    exists k :: 0 <= k < |script| && script[k].stop
  }

  lemma StoppedIsAsked(limits: Limits, script: seq<Happening>)
    ensures Stopped(script) <==> Asked(Replay(limits, script).inputs)
  {
    ReplayStops(limits, script);
    var ins := Replay(limits, script).inputs;
    assert forall k :: 0 <= k < |script| ==> ins[k].stop == script[k].stop;
  }

  lemma StepDoesWhatIsDue(limits: Limits, past: Past, h: Happening)
    ensures var s := Exec(limits, past.inputs);
            var inp := StepInput(s.c.pc, h);
            var later := Past(past.inputs + [inp], past.requests + StepRequests(s.c.pc, h));
            DoesWhatIsDue(past, later, h, Emit(Interrupted(s.c, inp.stop), inp.ok, inp.nested))
  {
    hide ExecFrom, CallbackRequests, Outcomes, SendInfo.InfoSent;
  }

  lemma NoMoreRequests(limits: Limits, script: seq<Happening>)
    requires script != [] && MachineAfter(limits, script[..|script| - 1]).c.pc.Done?
    ensures Replay(limits, script).requests == Replay(limits, script[..|script| - 1]).requests
  {
    hide ExecFrom, StepInput, CallbackRequests;
  }

  /** A program that has returned makes no call, asks ubus for nothing and does not change its status. */
  lemma {:induction false} DoneStays(limits: Limits, script: seq<Happening>, n: nat)
    requires n <= |script| && MachineAfter(limits, script[..n]).c.pc.Done?
    ensures var m, m' := MachineAfter(limits, script[..n]), MachineAfter(limits, script);
            m'.c.pc.Done? && m'.c.retVal == m.c.retVal && m'.trace == m.trace
    ensures Replay(limits, script).requests == Replay(limits, script[..n]).requests
  {
    hide MachineAfter, Replay, Step;
    if n == |script| {
      assert script[..n] == script;
    } else {
      var before := script[..|script| - 1];
      assert before[..n] == script[..n];
      DoneStays(limits, before, n);
      var inp := MachineSnoc(limits, script);
      DoneStep(limits, MachineAfter(limits, before), inp);
      NoMoreRequests(limits, script);
    }
  }

  class Daemon {
    const limits: Limits
    const script: seq<Happening>
    const runner: Actions.Runner
    var pos: nat
    var keepRunning: int
    ghost var inputs: seq<Input>
    ghost var machine: State
    ghost var calls: seq<Event>

    /** The program is where the machine is, and has made exactly the machine's calls. */
    ghost predicate Follows()
      reads this
      ensures Follows() ==> pos <= |script|
    {
      && pos <= |script| && inputs == Replay(limits, script[..pos]).inputs
      && machine == Exec(limits, inputs)
      && calls == machine.trace
      && keepRunning == if machine.c.keep then 1 else 0
    }

    /** Between callbacks no response string and no parsed tree is live, and every response so far has been
        reported once and freed once. */
    ghost predicate Clean()
      reads runner.sender, runner.sender.store
    {
      runner.Valid() && runner.sender.store.mem == map[]
    }

    ghost predicate Valid()
      reads this, runner.sender, runner.sender.store
      ensures Valid() ==> Follows() && SendInfo.Conserved(runner.sender.log)
      ensures Valid() ==> SendInfo.Invocations(runner.sender.log) == Replay(limits, script[..pos]).requests
    {
      && Follows() && Clean()
      && SendInfo.Invocations(runner.sender.log) == Replay(limits, script[..pos]).requests
    }

    constructor (limits: Limits, script: seq<Happening>)
      ensures Valid() && machine == Start() && pos == 0
      ensures this.limits == limits && this.script == script
      ensures fresh(runner.sender) && fresh(runner.sender.store)
    {
      this.limits, this.script := limits, script;
      runner := new Actions.Runner();
      pos, keepRunning := 0, 1;
      inputs, machine, calls := [], Start(), [];
    }

    /** Goes on to the next happening, running the handler if it is due. */
    method Take() returns (r: Observed<Happening>)
      requires Follows()
      modifies this`pos, this`keepRunning
      ensures r.Cut? ==> pos == old(pos) == |script| && keepRunning == old(keepRunning)
      ensures r.Got? ==>
                && old(pos) < |script| && pos == old(pos) + 1 && r.value == script[old(pos)]
                && keepRunning == if r.value.stop then 0 else old(keepRunning)
    {
      if pos == |script| {
        return Cut;
      }
      var h := script[pos];
      pos := pos + 1;
      if h.stop {
        SignalHandler();
      }
      r := Got(h);
    }

    method SignalHandler()
      modifies this`keepRunning
      ensures keepRunning == 0
    {
      keepRunning := 0;
    }

    /** Lets the machine make the step that the program has just made with the call `m`. */
    ghost method Record(h: Happening, ok: bool, nested: seq<bool>, m: Emission)
      requires 0 < pos <= |script| && h == script[pos - 1]
      requires inputs == Replay(limits, script[..pos - 1]).inputs
      requires machine == Exec(limits, inputs) && calls == machine.trace
      requires keepRunning == if machine.c.keep && !h.stop then 1 else 0
      requires Input(h.stop, ok, nested) == StepInput(machine.c.pc, h)
      requires m == Emit(machine.c.(keep := keepRunning == 1), ok, nested)
      modifies this`inputs, this`machine, this`calls
      ensures Follows()
      ensures machine.c == Next(limits, old(machine.c).(keep := keepRunning == 1), ok)
      ensures Replay(limits, script[..pos]).requests ==
              Replay(limits, script[..pos - 1]).requests + StepRequests(old(machine.c.pc), h)
    {
      hide Next, Emit, ExecFrom, Replay, StepRequests, StepInput;
      var inp := Input(h.stop, ok, nested);
      ReplaySnoc(limits, script, pos - 1);
      ExecSnoc(limits, Start(), inputs, inp);
      assert Interrupted(machine.c, h.stop) == machine.c.(keep := keepRunning == 1);
      inputs := inputs + [inp];
      machine := Step(limits, machine, inp);
      calls := Extend(calls, m);
    }

    /** on_connected, on_messages and on_disconnect. */
    method RunCallbacks(callbacks: seq<Callback>) returns (nested: seq<bool>)
      requires Clean()
      modifies runner.sender`log, runner.sender.store
      ensures Clean()
      ensures SendInfo.Invocations(runner.sender.log)
              == SendInfo.Invocations(old(runner.sender.log)) + CallbackRequests(callbacks)
      ensures nested == Outcomes(callbacks)
    {
      hide SendInfo.Invocations, SendInfo.Conserved, SendInfo.Below, Actions.Requested;
      nested := [];
      for j := 0 to |callbacks|
        invariant Clean()
        invariant SendInfo.Invocations(runner.sender.log)
                  == SendInfo.Invocations(old(runner.sender.log)) + CallbackRequests(callbacks[..j])
        invariant nested == Outcomes(callbacks[..j])
      {
        CallbackSnoc(callbacks, j);
        match callbacks[j]
        case Action(data, bus, undefined) => runner.ExecuteAction(data, bus, undefined);
        case CameUp(bus) =>
          var sent := runner.sender.SendMemoryInfo(bus);
          nested := nested + [sent];
        case _ =>
      }
      assert callbacks[..|callbacks|] == callbacks;
    }

    // ----- Library calls -----

    method MqttConnect() returns (r: Observed<bool>)
      requires Valid() && (machine.c.pc.AtConnect? || machine.c.pc.AtRetryConnect?)
      modifies this, runner.sender`log, runner.sender.store
      ensures Valid() && (r.Cut? ==> pos == |script| && machine == old(machine))
      ensures r.Got? ==>
                && pos > old(pos) && machine.c.pc.AtRetryGuard? && machine.c.ok == r.value
                && machine.c.i == (if old(machine.c.pc).AtConnect? then 0 else old(machine.c.i) + 1)
                && machine.c.delay == if old(machine.c.pc).AtConnect? then 2 else old(machine.c.delay)
    {
      hide Exec, Replay, Outcomes, CallbackRequests, SendInfo.Conserved, SendInfo.Below, SendInfo.Invocations, SendInfo.Answer;
      var h :- Take();
      var nested := RunCallbacks(h.callbacks);
      Record(h, h.ok, nested, Call(Connect(h.ok, nested)));
      r := Got(h.ok);
    }

    method MqttConnected() returns (r: Observed<bool>)
      requires Valid() && machine.c.pc.AtCheck?
      modifies this
      ensures Valid() && (r.Cut? ==> pos == |script| && machine == old(machine))
      ensures r.Got? ==>
                && pos > old(pos)
                && if r.value then machine.c.pc.AtMainGuard? && machine.c.fails == 0 && machine.c.retVal == EXIT_SUCCESS
                   else machine.c.pc.AtSetupGuard?
    {
      hide Exec, Replay, Outcomes, CallbackRequests, SendInfo.Conserved, SendInfo.Below, SendInfo.Invocations, SendInfo.Answer;
      var h :- Take();
      Record(h, h.ok, [], Call(Connected(h.ok)));
      r := Got(h.ok);
    }

    method MqttLoop() returns (r: Observed<bool>)
      requires Valid() && (machine.c.pc.AtSetupLoop? || machine.c.pc.AtMainLoop?)
      modifies this, runner.sender`log, runner.sender.store
      ensures Valid() && (r.Cut? ==> pos == |script| && machine == old(machine))
      ensures r.Got? ==> pos > old(pos) && machine.c.fails == old(machine.c.fails)
      ensures r.Got? && old(machine.c.pc).AtMainLoop? ==>
                && machine.c.retVal == old(machine.c.retVal)
                && if r.value then machine.c.pc.AtMainSleep? else machine.c.pc.AtVerdict? && !machine.c.verdict
      ensures r.Got? && old(machine.c.pc).AtSetupLoop? ==>
                if r.value then machine.c.pc.AtCheck?
                else machine.c.pc.AtDisconnect? && machine.c.retVal == CONNECT_FAILED
    {
      hide Exec, Replay, Outcomes, CallbackRequests, SendInfo.Conserved, SendInfo.Below, SendInfo.Invocations, SendInfo.Answer;
      var h :- Take();
      var nested := RunCallbacks(h.callbacks);
      Record(h, h.ok, nested, Call(Loop(h.ok, nested)));
      r := Got(h.ok);
    }

    method Sleep(seconds: nat) returns (r: Observed<()>)
      requires Valid()
      requires (machine.c.pc.AtRetrySleep? && seconds == machine.c.delay) || (machine.c.pc.AtMainSleep? && seconds == 10)
      modifies this
      ensures Valid() && (r.Cut? ==> pos == |script| && machine == old(machine))
      ensures r.Got? ==>
                && pos > old(pos)
                && machine.c == old(machine.c).(
                     keep := machine.c.keep,
                     pc := if old(machine.c.pc).AtRetrySleep? then AtRetryConnect else AtMainSend,
                     delay := if old(machine.c.pc).AtRetrySleep? then (seconds * 2) % UINT_RANGE
                              else old(machine.c.delay))
    {
      hide Exec, Replay, Outcomes, CallbackRequests, SendInfo.Conserved, SendInfo.Below, SendInfo.Invocations, SendInfo.Answer;
      var h :- Take();
      Record(h, h.ok, [], Call(if machine.c.pc.AtRetrySleep? then Backoff(seconds) else Pause(seconds)));
      r := Got(());
    }

    method MqttDisconnect() returns (r: Observed<()>)
      requires Valid() && machine.c.pc.AtDisconnect?
      modifies this, runner.sender`log, runner.sender.store
      ensures Valid() && (r.Cut? ==> pos == |script| && machine == old(machine))
      ensures r.Got? ==> machine.c.pc.AtDeinit? && machine.c.retVal == old(machine.c.retVal)
    {
      hide Exec, Replay, Outcomes, CallbackRequests, SendInfo.Conserved, SendInfo.Below, SendInfo.Invocations, SendInfo.Answer;
      var h :- Take();
      var nested := RunCallbacks(h.callbacks);
      Record(h, h.ok, nested, Call(Disconnect(nested)));
      r := Got(());
    }

    method MqttDeinit() returns (r: Observed<()>)
      requires Valid() && machine.c.pc.AtDeinit?
      modifies this
      ensures Valid() && (r.Cut? ==> pos == |script| && machine == old(machine))
      ensures r.Got? ==> machine.c.pc.Done? && machine.c.retVal == old(machine.c.retVal)
    {
      hide Exec, Replay, Outcomes, CallbackRequests, SendInfo.Conserved, SendInfo.Below, SendInfo.Invocations, SendInfo.Answer;
      var h :- Take();
      Record(h, h.ok, [], Call(Deinit));
      r := Got(());
    }

    // ----- Other steps -----

    /** Reads the flag in a loop guard. */
    method ReadKeepRunning() returns (r: Observed<bool>)
      requires Valid()
      requires machine.c.pc.AtRetryGuard? || machine.c.pc.AtSetupGuard? || machine.c.pc.AtMainGuard?
      modifies this
      ensures Valid() && (r.Cut? ==> pos == |script| && machine == old(machine))
      ensures r.Got? ==> pos > old(pos)
      ensures r.Got? && old(machine.c).pc.AtRetryGuard? ==>
                var c := old(machine.c);
                if !c.ok && r.value && c.i < limits.retries then machine.c == c.(pc := AtRetrySleep, keep := true)
                else if c.ok then machine.c.pc.AtCheck?
                else machine.c.pc.AtDisconnect? && machine.c.retVal == CONNECT_FAILED
      ensures r.Got? && old(machine.c).pc.AtSetupGuard? ==>
                if r.value then machine.c.pc.AtSetupLoop?
                else machine.c.pc.AtMainGuard? && machine.c.fails == 0 && machine.c.retVal == EXIT_SUCCESS
      ensures r.Got? && old(machine.c).pc.AtMainGuard? ==>
                && machine.c.fails == old(machine.c).fails && machine.c.retVal == old(machine.c).retVal
                && if r.value then machine.c.pc.AtMainLoop? else machine.c.pc.AtVerdict? && machine.c.verdict
    {
      hide Exec, Replay, Outcomes, CallbackRequests, SendInfo.Conserved, SendInfo.Below, SendInfo.Invocations, SendInfo.Answer;
      var h :- Take();
      Record(h, h.ok, [], if machine.c.pc.AtMainGuard? then Call(Guard(keepRunning == 1)) else Silent);
      r := Got(keepRunning == 1);
    }

    /** A step without a library call: the counter update, and what main does with the loop's verdict. */
    method Tick() returns (r: Observed<()>)
      requires Valid() && (machine.c.pc.AtCount? || machine.c.pc.AtVerdict?)
      modifies this
      ensures Valid() && (r.Cut? ==> pos == |script| && machine == old(machine))
      ensures r.Got? ==> pos > old(pos)
      ensures r.Got? && old(machine.c).pc.AtVerdict? ==>
                && machine.c.pc.AtDisconnect?
                && machine.c.retVal == if old(machine.c).verdict then old(machine.c).retVal else EXIT_FAILURE
      ensures r.Got? && old(machine.c).pc.AtCount? ==>
                && machine.c.retVal == old(machine.c.retVal)
                && if old(machine.c).ok then machine.c.pc.AtMainGuard? && machine.c.fails == 0
                   else if old(machine.c).fails + 1 == limits.failures then
                     machine.c.pc.AtVerdict? && !machine.c.verdict
                   else machine.c.pc.AtMainGuard? && machine.c.fails == old(machine.c).fails + 1
    {
      hide Exec, Replay, Outcomes, CallbackRequests, SendInfo.Conserved, SendInfo.Below, SendInfo.Invocations, SendInfo.Answer;
      var h :- Take();
      Record(h, h.ok, [], Silent);
      r := Got(());
    }

    method SendMemoryInfo() returns (r: Observed<bool>)
      requires Valid() && machine.c.pc.AtMainSend?
      modifies this, runner.sender`log, runner.sender.store
      ensures Valid() && (r.Cut? ==> pos == |script| && machine == old(machine))
      ensures r.Got? ==>
                && pos > old(pos)
                && machine.c == old(machine.c).(keep := machine.c.keep, pc := AtCount, ok := r.value)
    {
      hide Exec, Replay, Outcomes, CallbackRequests, SendInfo.Conserved, SendInfo.Below, SendInfo.Invocations, SendInfo.Answer;
      var h :- Take();
      var sent := runner.sender.SendMemoryInfo(h.bus);
      Record(h, sent, [], Call(Send(sent)));
      r := Got(sent);
    }

    // ----- connection.c and main.c -----

    method ConnectToTuya() returns (r: Observed<int>)
      requires Valid() && machine.c.pc.AtConnect?
      modifies this, runner.sender`log, runner.sender.store
      ensures Valid() && (r.Cut? ==> pos == |script| && !machine.c.pc.Done?)
      ensures r.Got? ==>
                && machine.c.retVal == r.value
                && if r.value == EXIT_SUCCESS then machine.c.pc.AtMainGuard? && machine.c.fails == 0
                   else machine.c.pc.AtDisconnect? && r.value == CONNECT_FAILED
    {
      hide Follows, Valid, Clean, Replay, SendInfo.Invocations, SendInfo.Conserved;
      var sleepSeconds := 2;
      var ok :- MqttConnect();
      var i := 0;
      var running :- ReadKeepRunning();
      while !ok && running && i < limits.retries
        invariant Valid()
        invariant if !ok && running && i < limits.retries
                  then machine.c.pc.AtRetrySleep? && machine.c.i == i && machine.c.delay == sleepSeconds && !machine.c.ok
                  else if ok then machine.c.pc.AtCheck?
                  else machine.c.pc.AtDisconnect? && machine.c.retVal == CONNECT_FAILED
        decreases |script| - pos
      {
        var _ :- Sleep(sleepSeconds);
        sleepSeconds := (sleepSeconds * 2) % UINT_RANGE;
        ok :- MqttConnect();
        i := i + 1;
        running :- ReadKeepRunning();
      }
      if !ok {
        return Got(CONNECT_FAILED);
      }
      r := SetUp();
    }

    /** The second half of connect_to_tuya: loops until the connection is up. */
    method SetUp() returns (r: Observed<int>)
      requires Valid() && machine.c.pc.AtCheck?
      modifies this, runner.sender`log, runner.sender.store
      ensures Valid() && (r.Cut? ==> pos == |script| && !machine.c.pc.Done?)
      ensures r.Got? ==>
                && machine.c.retVal == r.value
                && if r.value == EXIT_SUCCESS then machine.c.pc.AtMainGuard? && machine.c.fails == 0
                   else machine.c.pc.AtDisconnect? && r.value == CONNECT_FAILED
    {
      hide Follows, Valid, Clean, Replay, SendInfo.Invocations, SendInfo.Conserved;
      var connected :- MqttConnected();
      while !connected
        invariant Valid()
        invariant if connected then machine.c.pc.AtMainGuard? && machine.c.fails == 0 && machine.c.retVal == EXIT_SUCCESS
                  else machine.c.pc.AtSetupGuard?
        decreases |script| - pos
      {
        var running :- ReadKeepRunning();
        if !running {
          break;
        }
        var looped :- MqttLoop();
        if !looped {
          return Got(CONNECT_FAILED);
        }
        connected :- MqttConnected();
      }
      r := Got(EXIT_SUCCESS);
    }

    method MainLoop() returns (r: Observed<bool>)
      requires Valid() && machine.c.pc.AtMainGuard? && machine.c.fails == 0
      modifies this, runner.sender`log, runner.sender.store
      ensures Valid() && (r.Cut? ==> pos == |script| && !machine.c.pc.Done?)
      ensures r.Got? ==>
                machine.c.pc.AtVerdict? && machine.c.verdict == r.value && machine.c.retVal == old(machine.c.retVal)
    {
      hide Follows, Valid, Clean, Replay, SendInfo.Invocations, SendInfo.Conserved;
      var sendFailCount := 0;
      var running :- ReadKeepRunning();
      while running
        invariant Valid() && machine.c.retVal == old(machine.c.retVal)
        invariant if running then machine.c.pc.AtMainLoop? && machine.c.fails == sendFailCount
                  else machine.c.pc.AtVerdict? && machine.c.verdict
        decreases |script| - pos
      {
        var ok :- MqttLoop();
        if !ok {
          return Got(false);
        }
        var _ :- Sleep(10);
        var sent :- SendMemoryInfo();
        var _ :- Tick();
        if !sent {
          sendFailCount := sendFailCount + 1;
          if sendFailCount == limits.failures {
            return Got(false);
          }
        } else {
          sendFailCount := 0;
        }
        running :- ReadKeepRunning();
      }
      r := Got(true);
    }

    /** main from connecting to the label `cleanup_mqtt`. */
    method Serve() returns (r: Observed<int>)
      requires Valid() && machine.c.pc.AtConnect?
      modifies this, runner.sender`log, runner.sender.store
      ensures Valid() && (r.Cut? ==> pos == |script| && !machine.c.pc.Done?)
      ensures r.Got? ==> machine.c.pc.AtDisconnect? && machine.c.retVal == r.value
    {
      hide Follows, Valid, Clean, Replay, SendInfo.Invocations, SendInfo.Conserved;
      var retVal :- ConnectToTuya();
      if retVal == EXIT_SUCCESS {
        var verdict :- MainLoop();
        var _ :- Tick();
        if !verdict {
          retVal := EXIT_FAILURE;
        }
      }
      r := Got(retVal);
    }

    method Run() returns (r: Observed<int>)
      requires Valid() && machine == Start()
      modifies this, runner.sender`log, runner.sender.store
      ensures Valid()
      ensures r.Got? ==> machine.c.pc.Done? && r.value == machine.c.retVal
      ensures r.Cut? ==> pos == |script| && !machine.c.pc.Done?
    {
      hide Follows, Valid, Clean, Replay, SendInfo.Invocations, SendInfo.Conserved;
      var retVal :- Serve();
      var _ :- MqttDisconnect();
      var _ :- MqttDeinit();
      r := Got(retVal);
    }

    /** For every script: the program makes the machine's calls and returns the machine's status, which is
        success only if the script asks it to stop; it serves only once connected; wherever it is observed, no
        response string or parsed tree is live, every response has been reported once and freed once, and ubus
        has been asked exactly for what was delivered and for the periodic memory information, in order; and
        once the handler has run it returns within nine steps. */
    method Execute() returns (r: Observed<int>)
      requires Valid() && machine == Start()
      modifies this, runner.sender`log, runner.sender.store
      ensures Follows() && Clean() && SendInfo.Conserved(runner.sender.log)
      ensures SendInfo.Invocations(runner.sender.log) == Replay(limits, script[..pos]).requests
      ensures Guard(true) in calls ==> EnteredConnected(calls)
      ensures r.Got? && r.value == EXIT_SUCCESS ==> exists k :: 0 <= k < |script| && script[k].stop
      ensures r.Got? ==> machine.c.pc.Done? && r.value == machine.c.retVal
      ensures r.Cut? ==> pos == |script| && !machine.c.pc.Done?
      ensures (exists k :: 0 <= k && k + 9 <= |script| && script[k].stop) ==> r.Got?
    {
      r := Run();
      ConnectedBeforeServing(limits, inputs);
      if r.Cut? {
        StopForcesExit();
      } else {
        SuccessMeansAskedToStop(limits, inputs);
        ReplayStops(limits, script[..pos]);
        assert r.value == EXIT_SUCCESS ==> exists k :: 0 <= k < |inputs| && inputs[k].stop && script[k].stop;
      }
    }

    /** A script with a request to stop nine steps before its end does not outlast the program. */
    lemma StopForcesExit()
      requires Follows() && pos == |script| && !machine.c.pc.Done?
      ensures forall k :: 0 <= k && k + 9 <= |script| ==> !script[k].stop
    {
      forall k | 0 <= k && k + 9 <= |script| ensures !script[k].stop {
        assert script[..pos] == script;
        ReplayStops(limits, script);
        if inputs[k].stop {
          StopBound(limits, inputs, k);
        }
      }
    }
  }

  /** The whole program on any script: it returns if and only if the machine does, with the machine's status and
      after the machine's calls, having asked ubus for exactly what was delivered; whether or not it has returned,
      nothing is left allocated. */
  method RunProgram(limits: Limits, script: seq<Happening>)
      returns (r: Observed<int>, live: nat, ghost calls: seq<Event>, ghost log: seq<SendInfo.Event>)
    ensures var m := MachineAfter(limits, script);
            && r == (if m.c.pc.Done? then Got(m.c.retVal) else Cut)
            && calls == m.trace
    ensures live == 0 && SendInfo.Conserved(log)
    ensures SendInfo.Invocations(log) == Replay(limits, script).requests
    ensures Guard(true) in calls ==> EnteredConnected(calls)
    ensures (exists k :: 0 <= k && k + 9 <= |script| && script[k].stop) ==> r.Got?
  {
    var daemon := new Daemon(limits, script);
    r := daemon.Execute();
    live := |daemon.runner.sender.store.mem|;
    calls, log := daemon.calls, daemon.runner.sender.log;
    if r.Got? {
      DoneStays(limits, script, daemon.pos);
    } else {
      assert script[..daemon.pos] == script;
    }
  }
}
