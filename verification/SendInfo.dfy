/** openwrt/tuya_daemon/src/send_info.c: requests to ubus whose answers are reported to the Tuya cloud. */
module SendInfo {
  import opened Memory

  datatype Args = NoArgs | PinArgs(device: string, pin: nat)

  /** An attribute table: whether it parses against the policy, which attributes of the policy's names and
      types it has, and its JSON rendering. */
  datatype Table = Table(parses: bool, fields: set<string>, json: string)

  /** An answer from ubus; `memory` is the content of its table of that name. */
  datatype Reply = Reply(top: Table, memory: Table)

  /** How the calls of one request turn out. */
  datatype Bus = Bus(found: bool, added: bool, invoked: bool, reply: Reply, ack: int)

  datatype Event =
    | Invoked(service: string, name: string, args: Args)
    | Answered(at: Addr, text: string)
    | Reported(at: Addr, text: string)
    | Freed(at: Addr)

  datatype Handler = MemoryHandler | DeviceListHandler | CommandHandler

  const MEMORY_FIELDS := {"total", "free", "shared", "buffered", "available", "cached"}

  /** The string that a callback makes of an answer, if it accepts the answer. */
  function Answer(h: Handler, r: Reply): Option<string> {
    match h
    case MemoryHandler =>
      if r.top.parses && "memory" in r.top.fields && r.memory.parses && MEMORY_FIELDS <= r.memory.fields
      then Some(r.memory.json) else None
    case DeviceListHandler =>
      if r.top.parses && {"count", "devices"} <= r.top.fields then Some(r.top.json) else None
    case CommandHandler =>
      if r.top.parses && {"status", "message"} <= r.top.fields then Some(r.top.json) else None
  }

  /** Which answers are accepted, and what of them is reported: of the system information only the memory table. */
  lemma AnswerRule(r: Reply)
    ensures Answer(MemoryHandler, r) ==
            if r.top.parses && "memory" in r.top.fields && r.memory.parses
               && {"total", "free", "shared", "buffered", "available", "cached"} <= r.memory.fields
            then Some(r.memory.json) else None
    ensures Answer(DeviceListHandler, r) ==
            if r.top.parses && "count" in r.top.fields && "devices" in r.top.fields then Some(r.top.json) else None
    ensures Answer(CommandHandler, r) ==
            if r.top.parses && "status" in r.top.fields && "message" in r.top.fields then Some(r.top.json) else None
  {
  }

  /** Each answer is reported next and then freed, each report and each release follows its answer, and no two
      answers share an address: every response string is reported once and freed once. */
  predicate Conserved(log: seq<Event>) {
    && (forall i :: 0 <= i < |log| && log[i].Answered? ==> IsTriple(log, i))
    && (forall i :: 0 <= i < |log| && log[i].Reported? ==> i >= 1 && IsTriple(log, i - 1))
    && (forall i :: 0 <= i < |log| && log[i].Freed? ==> i >= 2 && IsTriple(log, i - 2))
    && (forall i, j :: 0 <= i < j < |log| && log[i].Answered? && log[j].Answered? ==> log[i].at != log[j].at)
  }

  predicate IsTriple(log: seq<Event>, i: nat) {
    && i + 2 < |log| && log[i].Answered?
    && log[i + 1] == Reported(log[i].at, log[i].text) && log[i + 2] == Freed(log[i].at)
  }

  /** In a conserved log an answer is reported exactly once and freed exactly once, in that order, after it. */
  lemma ReportedAndFreedOnce(log: seq<Event>, i: nat, j: nat)
    requires Conserved(log) && i < |log| && j < |log| && log[i].Answered?
    ensures i + 2 < |log| && log[i + 1].Reported? && log[i + 1].at == log[i].at && log[i + 1].text == log[i].text
    ensures log[i + 2].Freed? && log[i + 2].at == log[i].at
    ensures log[j].Reported? && log[j].at == log[i].at ==> j == i + 1
    ensures log[j].Freed? && log[j].at == log[i].at ==> j == i + 2
  {
    assert IsTriple(log, i);
    if log[j].Reported? {
      assert IsTriple(log, j - 1);
    } else if log[j].Freed? {
      assert IsTriple(log, j - 2);
    }
  }

  predicate Below(log: seq<Event>, next: Addr) {
    forall i :: 0 <= i < |log| && log[i].Answered? ==> log[i].at < next
  }

  function Triple(at: Addr, text: string): seq<Event> {
    [Answered(at, text), Reported(at, text), Freed(at)]
  }

  /** What one request adds to the log: the invocation, and a triple if it was answered. */
  function Exchange(service: string, name: string, args: Args, answer: Option<string>, at: Addr): seq<Event> {
    [Invoked(service, name, args)] + if answer.Some? then Triple(at, answer.value) else []
  }

  /** The requests made to ubus, in order. */
  function Invocations(log: seq<Event>): seq<Event> {
    if log == [] then []
    else Invocations(log[..|log| - 1]) + if log[|log| - 1].Invoked? then [log[|log| - 1]] else []
  }

  lemma InvocationsSnoc(log: seq<Event>, e: Event)
    ensures Invocations(log + [e]) == Invocations(log) + if e.Invoked? then [e] else []
  {
    assert (log + [e])[..|log|] == log;
  }

  lemma ExchangeInvokesOnce(log: seq<Event>, service: string, name: string, args: Args, answer: Option<string>, at: Addr)
    ensures Invocations(log + Exchange(service, name, args, answer, at)) == Invocations(log) + [Invoked(service, name, args)]
  {
    var e := Invoked(service, name, args);
    InvocationsSnoc(log, e);
    if answer.Some? {
      var t := Triple(at, answer.value);
      InvocationsSnoc(log + [e], t[0]);
      InvocationsSnoc(log + [e] + [t[0]], t[1]);
      InvocationsSnoc(log + [e] + [t[0]] + [t[1]], t[2]);
      assert log + Exchange(service, name, args, answer, at) == log + [e] + [t[0]] + [t[1]] + [t[2]];
    }
  }

  lemma TriplesStay(log: seq<Event>, more: seq<Event>, i: nat)
    requires IsTriple(log, i)
    ensures IsTriple(log + more, i)
  {
  }

  lemma ConservedExchange(log: seq<Event>, service: string, name: string, args: Args, answer: Option<string>, at: Addr)
    requires Conserved(log) && Below(log, at)
    ensures Conserved(log + Exchange(service, name, args, answer, at))
    ensures Below(log + Exchange(service, name, args, answer, at), if answer.Some? then at + 1 else at)
  {
    var more := Exchange(service, name, args, answer, at);
    var all := log + more;
    var n := |log|;
    if answer.Some? {
      assert all[n + 1] == Answered(at, answer.value) && all[n + 2] == Reported(at, answer.value);
      assert all[n + 3] == Freed(at) && IsTriple(all, n + 1);
    }
    forall i | 0 <= i < n && IsTriple(log, i) ensures IsTriple(all, i) {
      TriplesStay(log, more, i);
    }
  }

  /** What one send_memory_info asks of ubus. */
  function InfoRequest(bus: Bus): seq<Event> {
    if bus.found then [Invoked("system", "info", NoArgs)] else []
  }

  /** Whether one send_memory_info gets its answer through to the cloud. */
  predicate InfoSent(bus: Bus) {
    bus.found && bus.invoked && Answer(MemoryHandler, bus.reply).Some? && bus.ack >= 0
  }

  lemma InfoRule(bus: Bus)
    ensures InfoRequest(bus) == if bus.found then [Invoked("system", "info", NoArgs)] else []
    ensures InfoSent(bus) <==>
            && bus.found && bus.invoked && bus.ack >= 0
            && bus.reply.top.parses && "memory" in bus.reply.top.fields && bus.reply.memory.parses
            && {"total", "free", "shared", "buffered", "available", "cached"} <= bus.reply.memory.fields
  {
  }

  /** The stack variable that a callback fills in; it starts out with whatever was there. */
  class Response {
    var requestSuccessful: bool
    var dataJson: Ptr

    constructor () {
      requestSuccessful := *;
      dataJson := *;
    }
  }

  class Sender {
    const store: Storage
    ghost var log: seq<Event>

    ghost predicate Valid()
      reads this, store
    {
      store.Valid() && Conserved(log) && Below(log, store.next)
    }

    constructor ()
      ensures Valid() && fresh(store) && log == [] && store.mem == map[]
    {
      store := new Storage();
      log := [];
    }

    /** The three callbacks: on an acceptable answer they leave a newly allocated string in the response. */
    method Callback(handler: Handler, reply: Reply, resp: Response)
      requires store.Valid()
      modifies resp, store
      ensures store.Valid() && store.freed == old(store.freed)
      ensures resp.requestSuccessful <==>
              match handler
              case MemoryHandler =>
                && reply.top.parses && "memory" in reply.top.fields && reply.memory.parses
                && {"total", "free", "shared", "buffered", "available", "cached"} <= reply.memory.fields
              case DeviceListHandler => reply.top.parses && {"count", "devices"} <= reply.top.fields
              case CommandHandler => reply.top.parses && {"status", "message"} <= reply.top.fields
      ensures if resp.requestSuccessful then
                && resp.dataJson == Heap(old(store.next)) && store.next == old(store.next) + 1
                && store.mem == old(store.mem)[old(store.next) :=
                     Text(if handler.MemoryHandler? then reply.memory.json else reply.top.json)]
              else store.mem == old(store.mem) && store.next == old(store.next)
    {
      resp.requestSuccessful := false;
      match handler {
        case MemoryHandler =>
          if !reply.top.parses || "memory" !in reply.top.fields {
            return;
          }
          if !reply.memory.parses || !(MEMORY_FIELDS <= reply.memory.fields) {
            return;
          }
          resp.requestSuccessful := true;
          resp.dataJson := store.Malloc(Text(reply.memory.json));
        case DeviceListHandler =>
          if !reply.top.parses || !({"count", "devices"} <= reply.top.fields) {
            return;
          }
          resp.requestSuccessful := true;
          resp.dataJson := store.Malloc(Text(reply.top.json));
        case CommandHandler =>
          if !reply.top.parses || !({"status", "message"} <= reply.top.fields) {
            return;
          }
          resp.requestSuccessful := true;
          resp.dataJson := store.Malloc(Text(reply.top.json));
      }
    }

    /** ubus_invoke: runs the callback exactly once if it succeeds, and not at all if it fails. */
    method UbusInvoke(service: string, name: string, args: Args, handler: Handler, resp: Response, bus: Bus)
        returns (ok: bool)
      requires store.Valid()
      modifies this`log, resp, store
      ensures store.Valid() && store.freed == old(store.freed) && ok == bus.invoked
      ensures ok ==> (resp.requestSuccessful <==> Answer(handler, bus.reply).Some?)
      ensures var answer := if ok then Answer(handler, bus.reply) else None;
              && log == old(log) + [Invoked(service, name, args)]
                        + (if answer.Some? then [Answered(old(store.next), answer.value)] else [])
              && store.next == old(store.next) + (if answer.Some? then 1 else 0)
              && store.mem == (if answer.Some? then old(store.mem)[old(store.next) := Text(answer.value)]
                               else old(store.mem))
              && (answer.Some? ==> resp.dataJson == Heap(old(store.next)))
    {
      log := log + [Invoked(service, name, args)];
      ok := bus.invoked;
      if ok {
        Callback(handler, bus.reply, resp);
        if resp.requestSuccessful {
          log := log + [Answered(resp.dataJson.at, store.mem[resp.dataJson.at].text)];
        }
      }
    }

    method ReportPropertyToTuya(msg: Ptr, bus: Bus) returns (ok: bool)
      requires msg.Heap? && IsText(store.mem, msg)
      modifies this`log
      ensures ok == (bus.ack >= 0) && log == old(log) + [Reported(msg.at, TextAt(store.mem, msg))]
    {
      var text := store.ReadText(msg);
      log := log + [Reported(msg.at, text)];
      ok := bus.ack >= 0;
    }

    /** The common end of the three requests. */
    method Request(service: string, name: string, args: Args, handler: Handler, bus: Bus) returns (r: bool)
      requires Valid()
      modifies this`log, store
      ensures Valid() && store.mem == old(store.mem) && old(store.freed) <= store.freed
      ensures var answer := if bus.invoked then Answer(handler, bus.reply) else None;
              && r == (answer.Some? && bus.ack >= 0)
              && log == old(log) + Exchange(service, name, args, answer, old(store.next))
              && Invocations(log) == Invocations(old(log)) + [Invoked(service, name, args)]
    {
      hide Conserved, Below, Invocations;
      var resp := new Response();
      var ok := UbusInvoke(service, name, args, handler, resp, bus);
      ghost var answer := if ok then Answer(handler, bus.reply) else None;
      ConservedExchange(old(log), service, name, args, answer, old(store.next));
      ExchangeInvokesOnce(old(log), service, name, args, answer, old(store.next));
      assert answer.None? ==> log == old(log) + Exchange(service, name, args, answer, old(store.next));
      if !ok {
        return false;
      } else if !resp.requestSuccessful {
        return false;
      }
      r := ReportPropertyToTuya(resp.dataJson, bus);
      store.Free(resp.dataJson);
      log := log + [Freed(resp.dataJson.at)];
      assert log == old(log) + Exchange(service, name, args, answer, old(store.next));
    }

    method SendMemoryInfo(bus: Bus) returns (r: bool)
      requires Valid()
      modifies this`log, store
      ensures Valid() && store.mem == old(store.mem) && old(store.freed) <= store.freed
      ensures var good :=
                && bus.invoked && bus.reply.top.parses
                && "memory" in bus.reply.top.fields && bus.reply.memory.parses
                && {"total", "free", "shared", "buffered", "available", "cached"} <= bus.reply.memory.fields;
              var at, text := old(store.next), bus.reply.memory.json;
              var asked := Invoked("system", "info", NoArgs);
              && r == (bus.found && good && bus.ack >= 0)
              && log == old(log)
                        + (if bus.found then [asked] else [])
                        + if bus.found && good then [Answered(at, text), Reported(at, text), Freed(at)] else []
      ensures r == InfoSent(bus) && Invocations(log) == Invocations(old(log)) + InfoRequest(bus)
    {
      if !bus.found {
        return false;
      }
      r := Request("system", "info", NoArgs, MemoryHandler, bus);
    }

    method SendConnectedDevicesList(bus: Bus) returns (r: bool)
      requires Valid()
      modifies this`log, store
      ensures Valid() && store.mem == old(store.mem) && old(store.freed) <= store.freed
      ensures var good :=
                && bus.invoked && bus.reply.top.parses
                && {"count", "devices"} <= bus.reply.top.fields;
              var at, text := old(store.next), bus.reply.top.json;
              var asked := Invoked("devctl", "list_devices", NoArgs);
              && r == (bus.found && good && bus.ack >= 0)
              && log == old(log)
                        + (if bus.found then [asked] else [])
                        + if bus.found && good then [Answered(at, text), Reported(at, text), Freed(at)] else []
      ensures Invocations(log) == Invocations(old(log))
                                  + if bus.found then [Invoked("devctl", "list_devices", NoArgs)] else []
    {
      if !bus.found {
        return false;
      }
      r := Request("devctl", "list_devices", NoArgs, DeviceListHandler, bus);
    }

    /** `device` is borrowed and must still be live. */
    method ControlDevicePin(turnOn: bool, device: Ptr, pin: nat, bus: Bus) returns (r: bool)
      requires Valid() && IsText(store.mem, device)
      modifies this`log, store
      ensures Valid() && store.mem == old(store.mem) && old(store.freed) <= store.freed
      ensures var good :=
                && bus.invoked && bus.reply.top.parses
                && {"status", "message"} <= bus.reply.top.fields;
              var at, text := old(store.next), bus.reply.top.json;
              var name := if turnOn then "turn_on_pin" else "turn_off_pin";
              var asked := Invoked("devctl", name, PinArgs(old(TextAt(store.mem, device)), pin));
              && r == (bus.found && bus.added && good && bus.ack >= 0)
              && log == old(log)
                        + (if bus.found && bus.added then [asked] else [])
                        + if bus.found && bus.added && good then [Answered(at, text), Reported(at, text), Freed(at)] else []
      ensures var args := PinArgs(old(TextAt(store.mem, device)), pin);
              Invocations(log) == Invocations(old(log))
                                  + if bus.found && bus.added
                                    then [Invoked("devctl", if turnOn then "turn_on_pin" else "turn_off_pin", args)]
                                    else []
    {
      if !bus.found {
        return false;
      }
      var deviceText := store.ReadText(device);
      if !bus.added {
        return false;
      }
      var onOff := if turnOn then "turn_on_pin" else "turn_off_pin";
      r := Request("devctl", onOff, PinArgs(deviceText, pin), CommandHandler, bus);
    }
  }
}
