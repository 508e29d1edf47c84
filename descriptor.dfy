/** The trigger descriptor builder of lib/scheduler.js: each function's
    `schedule` entries, a bare expression string or an object, become
    `EventData` descriptors, and `_getFuncConfigs` gathers one record per
    function that has any. */
module Descriptor {
  import opened Values
  import opened JsString
  import opened Expression

  /** One schedule trigger of one function. `cron` is `None` where the
      expression compiled to `null`; `input` is `None` where the
      descriptor has no `input` property at all. */
  datatype EventData = EventData(name: string, cron: Option<string>, enabled: Json, input: Option<Json>)

  /** The record `_getFuncConfigs` pushes for a function with schedules. */
  datatype FuncConfig = FuncConfig(id: string, events: seq<EventData>, moduleName: string)

  /** What every constructed descriptor satisfies: `enabled` is neither
      undefined nor null, and an input is kept only when it is truthy. */
  predicate WellFormed(e: EventData) {
    !IsNullish(e.enabled) && (e.input.Some? ==> Truthy(e.input.value))
  }

  /** `new EventData(name, cron, enabled, input)`: the fields are assigned,
      then `enabled` is overwritten by `true` when it was undefined or null,
      and `input` is attached only when it is truthy. */
  function NewEventData(name: string, cron: Option<string>, enabled: Json, input: Json): (e: EventData)
    ensures WellFormed(e)
    ensures e.name == name && e.cron == cron
    ensures IsNullish(enabled) ==> e.enabled == Bool(true)
    ensures !IsNullish(enabled) ==> e.enabled == enabled
    ensures e.input.Some? <==> Truthy(input)
    ensures e.input.Some? ==> e.input.value == input
  {
    var e := EventData(name, cron, enabled, None);
    var e := if IsNullish(enabled) then e.(enabled := Bool(true)) else e;
    if Truthy(input) then e.(input := Some(input)) else e
  }

  /** The `EventData` constructor as it runs: assign the four fields, then
      overwrite `enabled` and attach `input` as the two conditions say. */
  method Construct(name: string, cron: Option<string>, enabled: Json, input: Json) returns (e: EventData)
    ensures e == NewEventData(name, cron, enabled, input)
  {
    e := EventData(name, cron, enabled, None);
    if IsNullish(enabled) {
      e := e.(enabled := Bool(true));
    }
    if Truthy(input) {
      e := e.(input := Some(input));
    }
  }

  /** `_parseScheduleExpression`: a bare expression string gives an enabled
      descriptor without input. */
  function ParseScheduleExpression(funcName: string, expression: string): (e: EventData)
    ensures WellFormed(e) && e.name == funcName
    ensures e.enabled == Bool(true) && e.input == None
    ensures e.cron == ConvertExpressionToCron(expression)
  {
    NewEventData(funcName, ConvertExpressionToCron(expression), Undefined, Undefined)
  }

  /** `_parseScheduleObject`: only the object's `rate` property is compiled
      (whatever expression it holds, `cron(...)` included); `enabled` and
      `input` come from the object. Reading `rate` of a nullish value, or
      calling `.replace` on a `rate` that is not a string, throws. */
  function ParseScheduleObject(funcName: string, raw: Json): (r: Result<EventData>)
    ensures r.Ok? <==> !IsNullish(raw) && Get(raw, "rate").Str?
    ensures r.Ok? ==>
      && WellFormed(r.value) && r.value.name == funcName
      && r.value.cron == ConvertExpressionToCron(Get(raw, "rate").s)
      && (IsNullish(Get(raw, "enabled")) ==> r.value.enabled == Bool(true))
      && (!IsNullish(Get(raw, "enabled")) ==> r.value.enabled == Get(raw, "enabled"))
      && (r.value.input.Some? <==> Truthy(Get(raw, "input")))
      && (r.value.input.Some? ==> r.value.input.value == Get(raw, "input"))
  {
    if IsNullish(raw) then Throws(ScheduleIsNullish)
    else
      var rate := Get(raw, "rate");
      if !rate.Str? then Throws(RateNotString)
      else Ok(NewEventData(funcName, ConvertExpressionToCron(rate.s), Get(raw, "enabled"), Get(raw, "input")))
  }

  /** `_parseEvent`: a string is an expression, anything else an object. */
  function ParseEvent(funcName: string, raw: Json): (r: Result<EventData>)
    ensures r.Ok? ==> WellFormed(r.value) && r.value.name == funcName
    ensures raw.Str? ==> r.Ok?
  {
    if raw.Str? then Ok(ParseScheduleExpression(funcName, raw.s))
    else ParseScheduleObject(funcName, raw)
  }

  /** Two object entries that agree on `rate`, `enabled` and `input` give the
      same descriptor: any other property, `name` and `cron` included, is
      ignored. */
  lemma OnlyRateEnabledInputRead(funcName: string, a: Json, b: Json)
    requires a.Obj? && b.Obj?
    requires Get(a, "rate") == Get(b, "rate")
    requires Get(a, "enabled") == Get(b, "enabled") && Get(a, "input") == Get(b, "input")
    ensures ParseEvent(funcName, a) == ParseEvent(funcName, b)
  {
  }

  /** An object entry without a string `rate` throws, even when it carries its
      expression under `cron`. */
  lemma ObjectWithoutRateThrows(funcName: string, raw: Json)
    requires raw.Obj? && !Get(raw, "rate").Str?
    ensures ParseEvent(funcName, raw) == Throws(RateNotString)
  {
  }

  /** `events.filter((e) => e.hasOwnProperty("schedule"))`, in order; the
      test throws on a null or undefined entry. */
  function ScheduleEntries(events: seq<Json>): (r: Result<seq<Json>>)
    ensures r.Throws? <==> exists i :: 0 <= i < |events| && IsNullish(events[i])
    ensures r.Ok? ==> forall e :: e in r.value ==> e in events && e.Obj? && HasKey(e.fields, "schedule")
    ensures r.Ok? ==>
      forall i :: 0 <= i < |events| && events[i].Obj? && HasKey(events[i].fields, "schedule") ==>
        events[i] in r.value
    decreases |events|
  {
    if |events| == 0 then Ok([])
    else
      var has := HasOwnProperty(events[0], "schedule");
      var rest := ScheduleEntries(events[1..]);
      assert forall i :: 1 <= i < |events| ==> events[i] == events[1..][i - 1];
      if has.Throws? then Throws(has.fault)
      else if rest.Throws? then rest
      else Ok(if has.value then [events[0]] + rest.value else rest.value)
  }

  /** A single entry is kept exactly when it has a `schedule` property. */
  lemma ScheduleEntriesSingle(e: Json)
    requires !IsNullish(e)
    ensures ScheduleEntries([e]) == Ok(if e.Obj? && HasKey(e.fields, "schedule") then [e] else [])
  {
    assert [e][1..] == [];
    assert [e][0] == e;
    assert ScheduleEntries([]) == Ok([]);
    assert ScheduleEntries([e][1..]) == Ok([]);
    var has := HasOwnProperty(e, "schedule");
    assert has.Ok?;
    assert has.value == (e.Obj? && HasKey(e.fields, "schedule"));
    assert [e] + [] == [e];
    assert ScheduleEntries([e]) == Ok(if has.value then [e] else []);
  }

  /** Appending an entry appends it to the schedule entries exactly when it
      has a `schedule` property: order is kept and other triggers are skipped. */
  lemma {:induction false} ScheduleEntriesSnoc(events: seq<Json>, e: Json)
    requires ScheduleEntries(events).Ok? && !IsNullish(e)
    ensures ScheduleEntries(events + [e]) ==
      Ok(ScheduleEntries(events).value + (if e.Obj? && HasKey(e.fields, "schedule") then [e] else []))
    decreases |events|
  {
    var kept: seq<Json> := if e.Obj? && HasKey(e.fields, "schedule") then [e] else [];
    if |events| > 0 {
      var s := events + [e];
      assert s[0] == events[0];
      assert s[1..] == events[1..] + [e];
      ScheduleEntriesSnoc(events[1..], e);
      var has := HasOwnProperty(events[0], "schedule");
      assert !IsNullish(events[0]);
      assert has.Ok?;
      assert ScheduleEntries(s[1..]) == Ok(ScheduleEntries(events[1..]).value + kept);
      var rest := ScheduleEntries(events[1..]).value;
      if has.value {
        assert ScheduleEntries(events).value == [events[0]] + rest;
        assert ScheduleEntries(s) == Ok([events[0]] + (rest + kept));
        assert [events[0]] + (rest + kept) == ([events[0]] + rest) + kept;
      } else {
        assert ScheduleEntries(events).value == rest;
        assert ScheduleEntries(s) == Ok(rest + kept);
      }
    } else {
      assert events + [e] == [e];
      ScheduleEntriesSingle(e);
      assert ScheduleEntries(events).value == [];
      assert ScheduleEntries(events).value + kept == kept;
    }
  }

  /** `.map((e) => this._parseEvent(funcName, e.schedule))`, in order; the
      first entry that throws ends the map. The `.filter((s) => s)` after it
      keeps every descriptor, since an object is always truthy. */
  function ParseAll(funcName: string, entries: seq<Json>): (r: Result<seq<EventData>>)
    ensures r.Ok? ==>
      |r.value| == |entries| &&
      forall i :: 0 <= i < |entries| ==> ParseEvent(funcName, Get(entries[i], "schedule")) == Ok(r.value[i])
    ensures r.Throws? <==>
      exists i :: 0 <= i < |entries| && ParseEvent(funcName, Get(entries[i], "schedule")).Throws?
    decreases |entries|
  {
    if |entries| == 0 then Ok([])
    else
      assert forall i :: 1 <= i < |entries| ==> entries[i] == entries[1..][i - 1];
      match ParseEvent(funcName, Get(entries[0], "schedule"))
      case Throws(f) => Throws(f)
      case Ok(d) =>
        match ParseAll(funcName, entries[1..])
        case Throws(f) => Throws(f)
        case Ok(ds) => Ok([d] + ds)
  }

  /** The descriptors of one function, from `funcConf.events`; reading
      `events` of a nullish configuration, or filtering something that is not
      an array, throws. */
  function FunctionScheduleEvents(funcName: string, conf: Json): (r: Result<seq<EventData>>)
    ensures r.Ok? ==> forall e :: e in r.value ==> WellFormed(e) && e.name == funcName
  {
    if IsNullish(conf) then Throws(ConfigIsNullish)
    else
      var events := Get(conf, "events");
      if !events.Arr? then Throws(EventsNotArray)
      else
        match ScheduleEntries(events.items)
        case Throws(f) => Throws(f)
        case Ok(entries) => ParseAll(funcName, entries)
  }

  /** A schedule entry whose expression does not compile is not dropped: its
      descriptor is kept, in its place, with a `null` cron. */
  lemma InvalidExpressionKept(funcName: string, conf: Json, i: nat)
    requires FunctionScheduleEvents(funcName, conf).Ok?
    requires var entries := ScheduleEntries(Get(conf, "events").items).value;
      i < |entries| && Get(entries[i], "schedule").Str? &&
      ConvertExpressionToCron(Get(entries[i], "schedule").s) == None
    ensures var events := FunctionScheduleEvents(funcName, conf).value;
      |events| == |ScheduleEntries(Get(conf, "events").items).value| &&
      events[i].cron == None && events[i].enabled == Bool(true)
  {
    var entries := ScheduleEntries(Get(conf, "events").items).value;
    assert ParseEvent(funcName, Get(entries[i], "schedule")) ==
      Ok(FunctionScheduleEvents(funcName, conf).value[i]);
  }

  /** `funcConf.handler.split(".")[0]`: the handler's text before its first
      dot; `.split` on a handler that is not a string throws. */
  function ModuleName(conf: Json): (r: Result<string>)
    ensures r.Ok? <==> Get(conf, "handler").Str?
    ensures r.Ok? ==> '.' !in r.value && r.value <= Get(conf, "handler").s
    ensures r.Ok? ==> var h := Get(conf, "handler").s; |r.value| == |h| || h[|r.value|] == '.'
  {
    var handler := Get(conf, "handler");
    if !handler.Str? then Throws(HandlerNotString)
    else
      var parts := Split(handler.s, '.');
      JoinSplit(handler.s, '.');
      Ok(parts[0])
  }

  /** The result of `_getFuncConfigs` over the functions in iteration order:
      a function whose descriptors are empty contributes nothing, any other
      one record. */
  function FuncConfigs(functions: seq<(string, Json)>): (r: Result<seq<FuncConfig>>)
    ensures r.Ok? ==>
      forall c :: c in r.value ==>
        c.events != [] && forall e :: e in c.events ==> WellFormed(e) && e.name == c.id
    decreases |functions|
  {
    if |functions| == 0 then Ok([])
    else
      match FuncConfigs(functions[..|functions| - 1])
      case Throws(f) => Throws(f)
      case Ok(prev) =>
        var (name, conf) := functions[|functions| - 1];
        match FunctionScheduleEvents(name, conf)
        case Throws(f) => Throws(f)
        case Ok(events) =>
          if |events| == 0 then Ok(prev)
          else
            match ModuleName(conf)
            case Throws(f) => Throws(f)
            case Ok(m) => Ok(prev + [FuncConfig(name, events, m)])
  }

  /** `_getFuncConfigs`: walks the functions in iteration order and pushes one
      record for each function with at least one schedule descriptor. */
  method GetFuncConfigs(functions: seq<(string, Json)>) returns (r: Result<seq<FuncConfig>>)
    ensures r == FuncConfigs(functions)
  {
    var funcConfs: seq<FuncConfig> := [];
    var i := 0;
    while i < |functions|
      invariant 0 <= i <= |functions|
      invariant FuncConfigs(functions[..i]) == Ok(funcConfs)
    {
      assert functions[..i + 1][..i] == functions[..i];
      var (funcName, funcConf) := functions[i];
      var scheduleEvents := FunctionScheduleEvents(funcName, funcConf);
      if scheduleEvents.Throws? {
        ThrowPersists(functions, i + 1);
        return Throws(scheduleEvents.fault);
      }
      if |scheduleEvents.value| > 0 {
        var moduleName := ModuleName(funcConf);
        if moduleName.Throws? {
          ThrowPersists(functions, i + 1);
          return Throws(moduleName.fault);
        }
        funcConfs := funcConfs + [FuncConfig(funcName, scheduleEvents.value, moduleName.value)];
      }
      i := i + 1;
    }
    assert functions[..i] == functions;
    r := Ok(funcConfs);
  }

  /** Once a prefix of the functions throws, so does the whole walk. */
  lemma {:induction false} ThrowPersists(functions: seq<(string, Json)>, k: nat)
    requires k <= |functions| && FuncConfigs(functions[..k]).Throws?
    ensures FuncConfigs(functions) == FuncConfigs(functions[..k])
    decreases |functions| - k
  {
    if k < |functions| {
      assert functions[..k + 1][..k] == functions[..k];
      ThrowPersists(functions, k + 1);
    } else {
      assert functions[..k] == functions;
    }
  }

  /** A function's configuration lists at least one entry with a
      `schedule` property. */
  predicate HasScheduleEntry(conf: Json) {
    var events := Get(conf, "events");
    events.Arr? &&
    exists i :: 0 <= i < |events.items| && events.items[i].Obj? && HasKey(events.items[i].fields, "schedule")
  }

  /** A function yields descriptors exactly when it has a schedule entry:
      an entry is never lost between the filter and the map. */
  lemma NonEmptyIffScheduled(name: string, conf: Json)
    requires FunctionScheduleEvents(name, conf).Ok?
    ensures |FunctionScheduleEvents(name, conf).value| > 0 <==> HasScheduleEntry(conf)
  {
    var items := Get(conf, "events").items;
    var entries := ScheduleEntries(items).value;
    if HasScheduleEntry(conf) {
      var i :| 0 <= i < |items| && items[i].Obj? && HasKey(items[i].fields, "schedule");
      assert items[i] in entries;
    }
  }

  /** The names of the functions that have a schedule entry, in order. */
  function ScheduledNames(functions: seq<(string, Json)>): seq<string>
    decreases |functions|
  {
    if |functions| == 0 then []
    else
      var (name, conf) := functions[|functions| - 1];
      ScheduledNames(functions[..|functions| - 1]) + (if HasScheduleEntry(conf) then [name] else [])
  }

  /** The function names of a list of records. */
  function Ids(configs: seq<FuncConfig>): (ids: seq<string>)
    ensures |ids| == |configs| && forall i :: 0 <= i < |configs| ==> ids[i] == configs[i].id
  {
    seq(|configs|, i requires 0 <= i < |configs| => configs[i].id)
  }

  /** One step of the walk: a function adds a record exactly when it has
      descriptors. */
  lemma FuncConfigsStep(functions: seq<(string, Json)>)
    requires |functions| > 0 && FuncConfigs(functions).Ok?
    ensures var last := functions[|functions| - 1];
      && FuncConfigs(functions[..|functions| - 1]).Ok?
      && FunctionScheduleEvents(last.0, last.1).Ok?
      && FuncConfigs(functions).value ==
         FuncConfigs(functions[..|functions| - 1]).value +
         (if |FunctionScheduleEvents(last.0, last.1).value| > 0
          then [FuncConfig(last.0, FunctionScheduleEvents(last.0, last.1).value, ModuleName(last.1).value)]
          else [])
  {
  }

  /** The names of records appended after others follow their names. */
  lemma IdsAppend(prev: seq<FuncConfig>, more: seq<FuncConfig>)
    ensures Ids(prev + more) == Ids(prev) + Ids(more)
  {
  }

  /** `_getFuncConfigs` returns one record per function that has a schedule
      entry, in iteration order, and none for any other function. */
  lemma {:induction false} FuncConfigsIds(functions: seq<(string, Json)>)
    requires FuncConfigs(functions).Ok?
    ensures Ids(FuncConfigs(functions).value) == ScheduledNames(functions)
    decreases |functions|
  {
    if |functions| > 0 {
      var (name, conf) := functions[|functions| - 1];
      FuncConfigsStep(functions);
      var prefix := functions[..|functions| - 1];
      var events := FunctionScheduleEvents(name, conf).value;
      FuncConfigsIds(prefix);
      IdsAppend(FuncConfigs(prefix).value,
        if |events| > 0 then [FuncConfig(name, events, ModuleName(conf).value)] else []);
      NonEmptyIffScheduled(name, conf);
    }
  }
}
