/** tuya_daemon/connection.c: the date/time format, the messages that change it and the reports that use it. */
module FormatCell {
  import opened Memory
  import TimeReport
  import JsonText

  const DEFAULT_FORMAT := "%F %T%z"
  const PROPERTY := "date_time_format"

  datatype MessageType = PropertySet | PropertyReportResponse | Unrecognised

  /** A message and what its data string parses to. */
  datatype Incoming = Incoming(kind: MessageType, data: Json)

  /** The SDK only delivers a PROPERTY_SET whose data is a JSON object: there is a root, and its members are
      named. */
  predicate WellFormed(m: Incoming) {
    m.kind.PropertySet? ==> m.data.Item? && (m.data.child.Item? ==> m.data.child.name.Some?)
  }

  /** The format a message asks for: the value of a PROPERTY_SET whose first member is `date_time_format`
      with a string value. */
  function Accepted(m: Incoming): Option<string> {
    if m.kind.PropertySet? && m.data.Item? && m.data.child.Item? && m.data.child.name == Some(PROPERTY)
    then m.data.child.value
    else None
  }

  /** The format after a history of messages. */
  function LastWrite(history: seq<Incoming>): string {
    if history == [] then DEFAULT_FORMAT
    else
      var last := Accepted(history[|history| - 1]);
      if last.Some? then last.value else LastWrite(history[..|history| - 1])
  }

  /** The value in the most recent accepted message, or the default if there has been none. */
  lemma {:induction false} LastWriteIsMostRecent(history: seq<Incoming>) returns (k: int)
    ensures -1 <= k < |history|
    ensures k >= 0 ==> Accepted(history[k]) == Some(LastWrite(history))
    ensures k == -1 ==> LastWrite(history) == DEFAULT_FORMAT
    ensures forall j :: k < j < |history| ==> Accepted(history[j]).None?
  {
    k := |history| - 1;
    if history != [] && Accepted(history[k]).None? {
      k := LastWriteIsMostRecent(history[..|history| - 1]);
    }
  }

  lemma LastWriteSnoc(history: seq<Incoming>, m: Incoming)
    ensures LastWrite(history + [m]) == if Accepted(m).Some? then Accepted(m).value else LastWrite(history)
  {
    assert (history + [m])[..|history|] == history;
  }

  /** The format starts as the default. A PROPERTY_SET whose first member has that name and a string value replaces
      it; every other message, and so every other property, leaves it alone. */
  lemma FormatRule(history: seq<Incoming>, m: Incoming)
    ensures LastWrite([]) == "%F %T%z"
    ensures LastWrite(history + [m]) ==
            if m.kind.PropertySet? && m.data.Item? && m.data.child.Item? && m.data.child.name == Some("date_time_format")
               && m.data.child.value.Some?
            then m.data.child.value.value else LastWrite(history)
  {
    LastWriteSnoc(history, m);
  }

  /** One call of send_current_time: how many messages had been handled, the format passed to strftime if it
      was called, the message published if there was one, and the result. */
  datatype Report = Report(handled: nat, used: Option<string>, published: Option<string>, code: int)

  /** The report that is due after a history of messages. */
  function ReportOf(history: seq<Incoming>, clock: TimeReport.Clock): Report {
    var format := LastWrite(history);
    var text := clock.render(format);
    if !TimeReport.ClockWorks(clock) then Report(|history|, None, None, -1)
    else if text == "" || |text| > 190 then Report(|history|, Some(format), None, -1)
    else if |text| > 188 then Report(|history|, Some(format), None, -2)
    else
      var message := TimeReport.Message(JsonText.PREFIX, text);
      Report(|history|, Some(format), Some(message), if clock.ack < 0 then -3 else 0)
  }

  /** strftime gets the last accepted format if the clock works, and a text of 1 to 188 characters is published
      between the fixed parts of the message. */
  lemma ReportRule(history: seq<Incoming>, clock: TimeReport.Clock)
    ensures var r, t := ReportOf(history, clock), clock.render(LastWrite(history));
            var works := clock.epochOk && clock.localOk;
            && r.handled == |history|
            && r.used == (if works then Some(LastWrite(history)) else None)
            && r.published == (if works && 0 < |t| <= 188 then Some("{\"time\":\"" + t + "\"}") else None)
            && r.code == if !works || |t| == 0 || |t| > 190 then -1
                         else if |t| > 188 then -2
                         else if clock.ack < 0 then -3
                         else 0
  {
  }

  /** Every strftime call got the format of the last message accepted before it. */
  predicate UsesLastWrite(reports: seq<Report>, history: seq<Incoming>) {
    forall k :: 0 <= k < |reports| && reports[k].used.Some? ==>
      reports[k].handled <= |history| && reports[k].used.value == LastWrite(history[..reports[k].handled])
  }

  lemma UsesStay(reports: seq<Report>, history: seq<Incoming>, m: Incoming)
    requires UsesLastWrite(reports, history)
    ensures UsesLastWrite(reports, history + [m])
  {
    forall k | 0 <= k < |reports| && reports[k].used.Some?
      ensures reports[k].used.value == LastWrite((history + [m])[..reports[k].handled])
    {
      assert (history + [m])[..reports[k].handled] == history[..reports[k].handled];
    }
  }

  class FormatCell {
    const store: Storage
    var shouldFree: bool
    var format: Ptr
    ghost var history: seq<Incoming>
    ghost var reports: seq<Report>

    /** The flag is up exactly when the current format is a live heap string; otherwise it is the literal. */
    ghost predicate Owns()
      reads this, store
    {
      && store.Valid()
      && if shouldFree then format.Heap? && IsText(store.mem, format) else format == Static(DEFAULT_FORMAT)
    }

    /** The heap string that the cell owns. */
    ghost function Owned(): set<Addr>
      reads this
    {
      if shouldFree && format.Heap? then {format.at} else {}
    }

    /** Between callbacks: nothing but the current format is live, everything else ever allocated has been
        freed, and the format and every use of it so far are those of the last accepted message. */
    ghost predicate Valid()
      reads this, store
    {
      && Owns() && store.mem.Keys == Owned()
      && TextAt(store.mem, format) == LastWrite(history)
      && UsesLastWrite(reports, history)
    }

    constructor ()
      ensures Valid() && fresh(store) && history == [] && reports == []
      ensures !shouldFree && store.mem == map[] && TextAt(store.mem, format) == "%F %T%z"
    {
      store := new Storage();
      shouldFree, format := false, Static(DEFAULT_FORMAT);
      history, reports := [], [];
    }

    /** Takes the string over without copying it and frees the one it replaces. */
    method SetDateTimeFormat(newFormat: Ptr)
      requires Owns() && newFormat.Heap? && IsText(store.mem, newFormat) && newFormat != format
      modifies this`shouldFree, this`format, store
      ensures Owns() && shouldFree && format == newFormat && store.next == old(store.next)
      ensures store.mem == old(store.mem) - old(Owned()) && store.freed == old(store.freed) + old(Owned())
    {
      if shouldFree {
        store.Free(format);
      }
      shouldFree := true;
      format := newFormat;
    }

    /** At exit: whatever the cell still owns is freed. The pointer is left dangling, as in the source. */
    method FreeDateTimeFormat()
      requires Valid()
      modifies store
      ensures store.Valid() && store.mem == map[] && store.freed == old(store.freed) + Owned()
    {
      if shouldFree {
        store.Free(format);
      }
    }

    /** Reports the current time; 0, or why not. The report is the one that is due: it is published exactly if
        the clock works and the text of the last accepted format has 1 to 188 characters. */
    method SendCurrentTime(clock: TimeReport.Clock) returns (code: int)
      requires Valid()
      modifies this`reports
      ensures Valid() && reports == old(reports) + [ReportOf(history, clock)]
      ensures var r, t := reports[|reports| - 1], clock.render(LastWrite(history));
              var works := clock.epochOk && clock.localOk;
              && r.handled == |history| && r.code == code
              && r.used == (if works then Some(LastWrite(history)) else None)
              && r.published == (if works && 0 < |t| <= 188 then Some("{\"time\":\"" + t + "\"}") else None)
              && code == if !works || |t| == 0 || |t| > 190 then -1
                         else if |t| > 188 then -2
                         else if clock.ack < 0 then -3
                         else 0
    {
      var current := store.ReadText(format);
      var message;
      code, message := TimeReport.BuildTimeReport(current, clock);
      ghost var published := if code == 0 then Some(message) else None;
      if code == 0 {
        var ack := clock.ack;
        if ack < 0 {
          code := -3;
        }
      }
      ghost var used := if TimeReport.ClockWorks(clock) then Some(current) else None;
      reports := reports + [Report(|history|, used, published, code)];
      assert history[..|history|] == history;
    }

    /** Handles one message. The string is stolen out of the parsed tree: its field is cleared after the last
        read, so that deleting the tree does not free it. */
    method OnMessages(m: Incoming)
      requires Valid() && WellFormed(m)
      modifies this`shouldFree, this`format, this`history, store
      ensures Valid() && history == old(history) + [m]
      ensures old(store.freed) <= store.freed && old(store.next) <= store.next
      ensures if m.kind.PropertySet? && m.data.Item? && m.data.child.Item?
                 && m.data.child.name == Some("date_time_format") && m.data.child.value.Some?
              then
                && shouldFree && TextAt(store.mem, format) == m.data.child.value.value
                && old(Owned()) <= store.freed
              else
                && format == old(format) && shouldFree == old(shouldFree)
                && TextAt(store.mem, format) == old(TextAt(store.mem, format))
    {
      LastWriteSnoc(history, m);
      UsesStay(reports, history, m);
      if m.kind.PropertySet? {
        HandlePropertySet(m);
      }
      history := history + [m];
    }

    method HandlePropertySet(m: Incoming)
      requires Valid() && WellFormed(m) && m.kind.PropertySet?
      modifies this`shouldFree, this`format, store
      ensures Owns() && store.mem.Keys == Owned()
      ensures old(store.freed) <= store.freed && old(store.next) <= store.next
      ensures if m.data.child.Item? && m.data.child.name == Some("date_time_format") && m.data.child.value.Some?
              then
                && shouldFree && TextAt(store.mem, format) == m.data.child.value.value
                && old(Owned()) <= store.freed
              else
                && format == old(format) && shouldFree == old(shouldFree)
                && TextAt(store.mem, format) == old(TextAt(store.mem, format))
    {
      var fullData, tree := store.Parse(m.data);
      assert Owned() !! Foot(tree);
      label json_cleanup: {
        var root := store.ReadNode(fullData);
        var data := root.child;
        if data == Null {
          break json_cleanup;
        }
        var item := store.ReadNode(data);
        var name := store.ReadText(item.name);
        if name != PROPERTY {
          break json_cleanup;
        }
        if item.value == Null {
          break json_cleanup;
        }
        tree := Steal(data, item, tree);
      }
      store.Delete(fullData, tree);
    }

    /** The hand-over: the cell owns the string, the log reads it through the tree once more, and then the
        tree forgets it. */
    method Steal(data: Ptr, item: Block, ghost tree: Tree) returns (ghost rest: Tree)
      requires Owns() && Holds(store.mem, tree) && Separate(tree)
      requires store.mem.Keys == Owned() + Foot(tree) && Owned() !! Foot(tree)
      requires tree.Cell? && tree.child.Cell? && data == PtrOf(tree.child) && item == NodeOf(tree.child)
      requires tree.child.value.Str?
      modifies this`shouldFree, this`format, store
      ensures Owns() && shouldFree && format == StrPtr(tree.child.value)
      ensures TextAt(store.mem, format) == tree.child.value.text
      ensures PtrOf(rest) == PtrOf(tree) && Holds(store.mem, rest) && Separate(rest)
      ensures store.mem.Keys == Owned() + Foot(rest) && Owned() !! Foot(rest)
      ensures store.freed == old(store.freed) + old(Owned()) && store.next == old(store.next)
    {
      HoldsIsLive(store.mem, tree);
      SetDateTimeFormat(item.value);
      var logged := store.ReadText(item.value);
      store.ClearValue(data);
      rest := tree.(child := Disown(tree.child));
      DisownChildHolds(old(store.mem), store.mem, tree);
    }
  }
}
