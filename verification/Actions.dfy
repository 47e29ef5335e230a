/** openwrt/tuya_daemon/src/connection.c: a remote action is decoded and dispatched to ubus. */
module Actions {
  import opened Memory
  import opened SendInfo

  const UINT32_RANGE := 0x1_0000_0000

  /** What `(uint32_t)valuedouble` may yield: the value without its fraction if that is in range; otherwise the
      conversion is undefined in C and `undefined` stands for whatever it yields. */
  function PinNumber(number: real, undefined: nat): (pin: nat)
    ensures pin < UINT32_RANGE
    ensures 0.0 <= number < UINT32_RANGE as real ==> pin as real <= number < pin as real + 1.0
    ensures -1.0 < number <= 0.0 ==> pin == 0
  {
    if -1.0 < number < UINT32_RANGE as real then
      if number < 0.0 then 0 else number.Floor
    else undefined % UINT32_RANGE
  }

  /** A number that a pin can have. */
  predicate IsWholePin(number: real) {
    0.0 <= number < UINT32_RANGE as real && number == number.Floor as real
  }

  /** The pin is the received number if and only if that is a whole number in range. */
  lemma PinIsExact(number: real, undefined: nat)
    ensures PinNumber(number, undefined) as real == number <==> IsWholePin(number)
  {
    if PinNumber(number, undefined) as real == number {
      assert number.Floor == PinNumber(number, undefined);
    }
  }

  // ----- What a message says -----

  /** The member of an object, ignoring the case of its name. */
  function Member(j: Json, key: string): Json {
    if j.End? then End else Lookup(j.child, key)
  }

  function StringOf(j: Json): Option<string> {
    if j.Item? && j.kind.StringKind? then j.value else None
  }

  function ActionCode(data: Json): Option<string> {
    StringOf(Member(data, "actionCode"))
  }

  function Device(data: Json): Option<string> {
    StringOf(Member(Member(data, "inputParams"), "device"))
  }

  function Pin(data: Json): Option<real> {
    var pin := Member(Member(data, "inputParams"), "pin");
    if pin.Item? && pin.kind.NumberKind? then Some(pin.number) else None
  }

  predicate IsPinAction(name: string) {
    name == "turn_on_pin" || name == "turn_off_pin"
  }

  /** The actions that are carried out. */
  predicate Understood(data: Json) {
    var code := ActionCode(data);
    && code.Some?
    && (code.value == "list_devices" || (IsPinAction(code.value) && Device(data).Some? && Pin(data).Some?))
  }

  /** Whether the request gets as far as ubus_invoke. */
  predicate Reaches(data: Json, bus: Bus) {
    Understood(data) && bus.found && (ActionCode(data) == Some("list_devices") || bus.added)
  }

  /** What a message makes the daemon ask of ubus: at most one method of devctl, whose name is the received
      action code and whose arguments are those that the message gives. */
  function Requested(data: Json, bus: Bus, undefined: nat): seq<Event> {
    if !Reaches(data, bus) then []
    else if ActionCode(data) == Some("list_devices") then [Invoked("devctl", ActionCode(data).value, NoArgs)]
    else [Invoked("devctl", ActionCode(data).value, PinArgs(Device(data).value, PinNumber(Pin(data).value, undefined)))]
  }

  /** What each part of a message is read from: the first member of that name, whatever the case of its letters,
      among the members of the message and of its parameters. */
  lemma DecodingRule(data: Json, c: nat, p: nat, d: nat, n: nat)
    requires data.Item? && FirstAt(data.child, "actionCode", c) && FirstAt(data.child, "inputParams", p)
    requires var params := Nth(data.child, p);
             params.Item? ==> FirstAt(params.child, "device", d) && FirstAt(params.child, "pin", n)
    ensures var code := Nth(data.child, c);
            ActionCode(data) == if code.Item? && code.kind.StringKind? then code.value else None
    ensures var params := Nth(data.child, p);
            if params.End? then Device(data) == None && Pin(data) == None
            else
              var device, pin := Nth(params.child, d), Nth(params.child, n);
              && Device(data) == (if device.Item? && device.kind.StringKind? then device.value else None)
              && Pin(data) == if pin.Item? && pin.kind.NumberKind? then Some(pin.number) else None
  {
    LookupIsFirst(data.child, "actionCode", c);
    LookupIsFirst(data.child, "inputParams", p);
    var params := Nth(data.child, p);
    if params.Item? {
      LookupIsFirst(params.child, "device", d);
      LookupIsFirst(params.child, "pin", n);
    }
  }

  /** At most one method of devctl is asked for, and it is the received one. It is asked for exactly when the message
      names one of the three actions, a pin action with its device and pin, and the call gets that far. The pin is
      the received number cut to a whole one, and so the number itself exactly if it is whole, as far as it is in
      range. */
  lemma RequestRule(data: Json, bus: Bus, undefined: nat)
    ensures var a, code := Requested(data, bus, undefined), ActionCode(data);
            var lists := code == Some("list_devices") && bus.found;
            var switches := (code == Some("turn_on_pin") || code == Some("turn_off_pin"))
                            && Device(data).Some? && Pin(data).Some? && bus.found && bus.added;
            && |a| == (if lists || switches then 1 else 0)
            && (lists ==> a == [Invoked("devctl", "list_devices", NoArgs)])
            && (switches ==>
                 && a == [Invoked("devctl", code.value, PinArgs(Device(data).value, a[0].args.pin))]
                 && a[0].args.pin < 0x1_0000_0000
                 && (0.0 <= Pin(data).value < 4294967296.0 ==>
                      a[0].args.pin as real <= Pin(data).value < a[0].args.pin as real + 1.0))
  {
  }

  /** Some request in the list is for the pin with exactly the received number. */
  predicate AsksForReceivedPin(data: Json, requests: seq<Event>) {
    exists k :: 0 <= k < |requests| && requests[k].Invoked? && requests[k].args.PinArgs? && Pin(data).Some?
                && requests[k].args.pin as real == Pin(data).value
  }

  /** A pin action that reaches devctl asks for the received number exactly if that is a whole number in range. */
  lemma RequestedPin(data: Json, bus: Bus, undefined: nat)
    requires Reaches(data, bus) && ActionCode(data) != Some("list_devices")
    ensures AsksForReceivedPin(data, Requested(data, bus, undefined)) <==> IsWholePin(Pin(data).value)
  {
    var r := Requested(data, bus, undefined);
    assert r[0].args.pin == PinNumber(Pin(data).value, undefined);
    PinIsExact(Pin(data).value, undefined);
  }

  /** The message that asks to turn on a pin of a device. */
  function TurnOn(device: string, number: real): Json {
    var pin := Item(NumberKind, Some("pin"), None, number, End, End);
    var dev := Item(StringKind, Some("device"), Some(device), 0.0, End, pin);
    var params := Item(ObjectKind, Some("inputParams"), None, 0.0, dev, End);
    Item(ObjectKind, None, None, 0.0,
         Item(StringKind, Some("actionCode"), Some("turn_on_pin"), 0.0, End, params), End)
  }

  /** An input for which another pin is switched than the one named: 3.9 switches pin 3. */
  lemma FractionIsLost(bus: Bus, undefined: nat)
    requires bus.found && bus.added
    ensures Requested(TurnOn("d", 3.9), bus, undefined) == [Invoked("devctl", "turn_on_pin", PinArgs("d", 3))]
    ensures !AsksForReceivedPin(TurnOn("d", 3.9), Requested(TurnOn("d", 3.9), bus, undefined))
  {
    var data := TurnOn("d", 3.9);
    TurnOnIsUnderstood("d", 3.9);
    RequestedPin(data, bus, undefined);
  }

  lemma TurnOnIsUnderstood(device: string, number: real)
    ensures var data := TurnOn(device, number);
            && ActionCode(data) == Some("turn_on_pin") && Device(data) == Some(device) && Pin(data) == Some(number)
  {
    var data := TurnOn(device, number);
    assert |"actionCode"| != |"inputParams"| && |"device"| != |"pin"|;
    var params := data.child.next;
    assert Lookup(data.child, "actionCode") == data.child;
    assert Lookup(data.child, "inputParams") == params;
    assert Lookup(params.child, "device") == params.child;
    assert Lookup(params.child, "pin") == params.child.next;
  }

  class Runner {
    const sender: Sender

    ghost predicate Valid()
      reads sender, sender.store
    {
      sender.Valid()
    }

    constructor ()
      ensures Valid() && fresh(sender) && fresh(sender.store) && sender.log == [] && sender.store.mem == map[]
    {
      sender := new Sender();
    }

    /** `data` is what the data string parses to, `End` if it does not parse. The tree is deleted after the last
        use of the strings borrowed from it, so the heap is as before. */
    method ExecuteAction(data: Json, bus: Bus, undefined: nat)
      requires Valid()
      modifies sender`log, sender.store
      ensures Valid() && sender.store.mem == old(sender.store.mem) && old(sender.store.freed) <= sender.store.freed
      ensures Invocations(sender.log) == Invocations(old(sender.log)) + Requested(data, bus, undefined)
      ensures var before, after := Invocations(old(sender.log)), Invocations(sender.log);
              var a, code := after[|before|..], ActionCode(data);
              var lists := code == Some("list_devices") && bus.found;
              var switches := (code == Some("turn_on_pin") || code == Some("turn_off_pin"))
                              && Device(data).Some? && Pin(data).Some? && bus.found && bus.added;
              && after == before + a && |a| == (if lists || switches then 1 else 0)
              && (lists ==> a == [Invoked("devctl", "list_devices", NoArgs)])
              && (switches ==>
                   && a == [Invoked("devctl", code.value, PinArgs(Device(data).value, a[0].args.pin))]
                   && (0.0 <= Pin(data).value < 4294967296.0 ==>
                        a[0].args.pin as real <= Pin(data).value < a[0].args.pin as real + 1.0))
      ensures Reaches(data, bus) && ActionCode(data) != Some("list_devices") ==>
                (IsWholePin(Pin(data).value) <==>
                 AsksForReceivedPin(data, Invocations(sender.log)[|Invocations(old(sender.log))|..]))
    {
      RequestRule(data, bus, undefined);
      if Reaches(data, bus) && ActionCode(data) != Some("list_devices") {
        RequestedPin(data, bus, undefined);
      }
      var fullData, tree := sender.store.Parse(data);
      Dispatch(fullData, tree, bus, undefined);
      sender.store.Delete(fullData, tree);
    }

    /** execute_action between parsing and deleting. */
    method Dispatch(fullData: Ptr, ghost tree: Tree, bus: Bus, undefined: nat)
      requires Valid() && fullData == PtrOf(tree) && Holds(sender.store.mem, tree)
      modifies sender`log, sender.store
      ensures Valid() && sender.store.mem == old(sender.store.mem) && old(sender.store.freed) <= sender.store.freed
      ensures Invocations(sender.log) == Invocations(old(sender.log)) + Requested(Erase(tree), bus, undefined)
    {
      var action, actionName := GetString(fullData, "actionCode", tree);
      if action == Null || actionName == Null {
        return;
      }
      var name := sender.store.ReadText(actionName);
      if name == "list_devices" {
        var _ := sender.SendConnectedDevicesList(bus);
      } else {
        DispatchPinAction(fullData, tree, name, bus, undefined);
      }
    }

    /** The else-branch: every other action needs a device and a pin. */
    method DispatchPinAction(fullData: Ptr, ghost tree: Tree, name: string, bus: Bus, undefined: nat)
      requires Valid() && fullData == PtrOf(tree) && Holds(sender.store.mem, tree)
      requires ActionCode(Erase(tree)) == Some(name) && name != "list_devices"
      modifies sender`log, sender.store
      ensures Valid() && sender.store.mem == old(sender.store.mem) && old(sender.store.freed) <= sender.store.freed
      ensures Invocations(sender.log) == Invocations(old(sender.log)) + Requested(Erase(tree), bus, undefined)
      ensures var before, after := Invocations(old(sender.log)), Invocations(sender.log);
              var a, t := after[|before|..], Erase(tree);
              var switches := (name == "turn_on_pin" || name == "turn_off_pin")
                              && Device(t).Some? && Pin(t).Some? && bus.found && bus.added;
              && after == before + a && |a| == (if switches then 1 else 0)
              && (switches ==>
                   && a == [Invoked("devctl", name, PinArgs(Device(t).value, a[0].args.pin))]
                   && (0.0 <= Pin(t).value < 4294967296.0 ==>
                        a[0].args.pin as real <= Pin(t).value < a[0].args.pin as real + 1.0))
      ensures Reaches(Erase(tree), bus) ==>
                (IsWholePin(Pin(Erase(tree)).value) <==>
                 AsksForReceivedPin(Erase(tree), Invocations(sender.log)[|Invocations(old(sender.log))|..]))
    {
      RequestRule(Erase(tree), bus, undefined);
      if Reaches(Erase(tree), bus) {
        RequestedPin(Erase(tree), bus, undefined);
      }
      var actionArgs, argsTree := Get(fullData, "inputParams", tree);
      var device, devName := GetString(actionArgs, "device", argsTree);
      var pinJson, pinTree := Get(actionArgs, "pin", argsTree);
      if actionArgs == Null || device == Null || devName == Null || pinJson == Null {
        return;
      }
      var pinNode := sender.store.ReadNode(pinJson);
      if !pinNode.kind.NumberKind? {
        return;
      }
      SwitchPin(name, devName, PinNumber(pinNode.number, undefined), bus);
    }

    /** From the action's name to a flag; control_device_pin turns the flag back into a name. */
    method SwitchPin(name: string, device: Ptr, pin: nat, bus: Bus)
      requires Valid() && IsText(sender.store.mem, device)
      modifies sender`log, sender.store
      ensures Valid() && sender.store.mem == old(sender.store.mem) && old(sender.store.freed) <= sender.store.freed
      ensures var args := PinArgs(old(TextAt(sender.store.mem, device)), pin);
              Invocations(sender.log) == Invocations(old(sender.log))
                                         + if (name == "turn_on_pin" || name == "turn_off_pin") && bus.found && bus.added
                                           then [Invoked("devctl", name, args)] else []
    {
      if name == "turn_on_pin" {
        var _ := sender.ControlDevicePin(true, device, pin, bus);
      } else if name == "turn_off_pin" {
        var _ := sender.ControlDevicePin(false, device, pin, bus);
      }
    }

    /** cJSON_GetObjectItem, with the subtree that it finds. */
    method Get(object': Ptr, key: string, ghost t: Tree) returns (p: Ptr, ghost sub: Tree)
      requires object' == PtrOf(t) && Holds(sender.store.mem, t)
      ensures p == PtrOf(sub) && Holds(sender.store.mem, sub) && Erase(sub) == Member(Erase(t), key)
    {
      p := sender.store.GetObjectItem(object', key, t);
      if t.Nil? {
        sub := Nil;
      } else {
        sub := LookupTree(t.child, key);
        LookupErases(sender.store.mem, t.child, key);
      }
    }

    /** cJSON_GetObjectItem and then cJSON_GetStringValue: the string is borrowed from the tree. */
    method GetString(object': Ptr, key: string, ghost t: Tree) returns (p: Ptr, text: Ptr)
      requires object' == PtrOf(t) && Holds(sender.store.mem, t)
      ensures p == Null ==> text == Null
      ensures text == Null <==> StringOf(Member(Erase(t), key)).None?
      ensures text != Null ==>
                IsText(sender.store.mem, text) && StringOf(Member(Erase(t), key)) == Some(TextAt(sender.store.mem, text))
    {
      ghost var sub;
      p, sub := Get(object', key, t);
      text := sender.store.GetStringValue(p, sub);
    }
  }
}
