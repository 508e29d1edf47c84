/** The event and the context a scheduled function is invoked with
    (`_getEvent` and `_getContext` of lib/scheduler.js). The clock and the
    identifier generator are parameters: `time` is the ISO timestamp of the
    firing and `id`, `awsRequestId` and `invokeid` are fresh identifiers. */
module Payload {
  import opened Values
  import opened JsString

  const Account: string := "123456789012"
  const Region: string := "serverless-offline"
  const RuleArn: string := "arn:aws:events:serverless-offline:123456789012:rule/my-schedule"

  /** `custom && custom.stageVariables`: a falsy `custom` is passed on as is,
      a truthy one is read for its `stageVariables` property. */
  function StageVariables(custom: Json): (r: Json)
    ensures !Truthy(custom) ==> r == custom
    ensures Truthy(custom) && !custom.Obj? ==> r == Undefined
    ensures custom.Obj? && !HasKey(custom.fields, "stageVariables") ==> r == Undefined
    ensures custom.Obj? && HasKey(custom.fields, "stageVariables") ==>
      exists i :: 0 <= i < |custom.fields| && custom.fields[i] == ("stageVariables", r)
  {
    if Truthy(custom) then Get(custom, "stageVariables") else custom
  }

  /** The synthetic CloudWatch "Scheduled Event" built when a descriptor
      carries no input of its own. */
  function DefaultEvent(custom: Json, time: string, id: string): (r: Json)
    ensures r.Obj? && |r.fields| == |EventKeys|
    ensures forall i :: 0 <= i < |EventKeys| ==> r.fields[i].0 == EventKeys[i]
  {
    Obj([
      ("account", Str(Account)),
      ("region", Str(Region)),
      ("detail", Obj([])),
      ("detail-type", Str("Scheduled Event")),
      ("source", Str("aws.events")),
      ("time", Str(time)),
      ("id", Str(id)),
      ("resources", Arr([Str(RuleArn)])),
      ("isOffline", Bool(true)),
      ("stageVariables", StageVariables(custom))
    ])
  }

  /** `_getEvent(input)`: a truthy input is the event; otherwise the default
      event stamped with `time` and `id`. */
  function GetEvent(input: Json, custom: Json, time: string, id: string): (r: Json)
    ensures Truthy(input) ==> r == input
    ensures !Truthy(input) ==> r.Obj? && |r.fields| == 10
    ensures !Truthy(input) ==> r.fields[5] == ("time", Str(time)) && r.fields[6] == ("id", Str(id))
    ensures !Truthy(input) ==> r.fields[9] == ("stageVariables", StageVariables(custom))
  {
    if Truthy(input) then input else DefaultEvent(custom, time, id)
  }

  /** The property names of a JSON object, in order. */
  function Keys(fields: seq<(string, Json)>): (ks: seq<string>)
    ensures |ks| == |fields|
    ensures forall i :: 0 <= i < |fields| ==> ks[i] == fields[i].0
  {
    seq(|fields|, i requires 0 <= i < |fields| => fields[i].0)
  }

  /** The default event's property names, as the scheduled function sees them. */
  const EventKeys: seq<string> :=
    ["account", "region", "detail", "detail-type", "source", "time", "id",
     "resources", "isOffline", "stageVariables"]

  /** The default event names no property twice. */
  lemma EventKeysDistinct()
    ensures forall i, j :: 0 <= i < j < |EventKeys| ==> EventKeys[i] != EventKeys[j]
  {
    forall i, j | 0 <= i < j < |EventKeys| ensures EventKeys[i] != EventKeys[j] {
      var a, b := EventKeys[i], EventKeys[j];
      assert a[0] != b[0] || |a| != |b| || a[1] != b[1];
    }
  }

  /** Without an input, the event's `time` and `id` are exactly the ones of
      that firing. */
  lemma DefaultEventStamp(input: Json, custom: Json, time: string, id: string)
    requires !Truthy(input)
    ensures Get(GetEvent(input, custom, time, id), "time") == Str(time)
    ensures Get(GetEvent(input, custom, time, id), "id") == Str(id)
  {
    var f := GetEvent(input, custom, time, id).fields;
    EventKeysDistinct();
    LookupAt(f, 5);
    LookupAt(f, 6);
  }

  /** Without an input, the event says it comes from CloudWatch Events and
      from the offline emulator. */
  lemma DefaultEventSentinels(input: Json, custom: Json, time: string, id: string)
    requires !Truthy(input)
    ensures Get(GetEvent(input, custom, time, id), "source") == Str("aws.events")
    ensures Get(GetEvent(input, custom, time, id), "isOffline") == Bool(true)
  {
    var f := GetEvent(input, custom, time, id).fields;
    EventKeysDistinct();
    LookupAt(f, 4);
    LookupAt(f, 8);
  }

  /** In a list of properties whose names are all different, reading the
      name at index `k` gives the value at index `k`. */
  lemma {:induction false} LookupAt(fields: seq<(string, Json)>, k: nat)
    requires k < |fields|
    requires forall j :: 0 <= j < k ==> fields[j].0 != fields[k].0
    ensures Lookup(fields, fields[k].0) == fields[k].1
    decreases k
  {
    if k > 0 {
      LookupAt(fields[1..], k - 1);
    }
  }

  /** Two firings without input differ in `time` and `id` only. */
  lemma FiringsDifferInTimeAndId(input: Json, custom: Json, t1: string, id1: string, t2: string, id2: string)
    requires !Truthy(input)
    ensures var a, b := GetEvent(input, custom, t1, id1).fields, GetEvent(input, custom, t2, id2).fields;
      |a| == |b| && forall i :: 0 <= i < |a| && a[i].0 != "time" && a[i].0 != "id" ==> a[i] == b[i]
  {
    var a, b := GetEvent(input, custom, t1, id1).fields, GetEvent(input, custom, t2, id2).fields;
    assert a[5].0 == "time" && a[6].0 == "id";
  }

  /** The Lambda context object handed to the function. `getRemainingTimeInMillis`
      does not exist in this version of the code. */
  datatype Context = Context(
    awsRequestId: string,
    invokeid: string,
    logGroupName: string,
    logStreamName: string,
    functionVersion: string,
    isDefaultFunctionVersion: bool,
    functionName: string,
    memoryLimitInMB: string,
    callbackWaitsForEmptyEventLoop: bool,
    invokedFunctionArn: string)

  const LogGroupPrefix: string := "/aws/lambda/"
  const FunctionArnPrefix: string := "arn:aws:lambda:serverless-offline:123456789012:function:"

  /** `_getContext(functionName)` with the two fresh identifiers as parameters. */
  function GetContext(functionName: string, awsRequestId: string, invokeid: string): (c: Context)
    ensures c.functionName == functionName
    ensures c.awsRequestId == awsRequestId && c.invokeid == invokeid
    ensures StartsWith(c.logGroupName, LogGroupPrefix) && StartsWith(c.invokedFunctionArn, FunctionArnPrefix)
  {
    Context(
      awsRequestId,
      invokeid,
      LogGroupPrefix + functionName,
      "2016/02/14/[HEAD]13370a84ca4ed8b77c427af260",
      "$LATEST",
      true,
      functionName,
      "1024",
      true,
      FunctionArnPrefix + functionName)
  }

  /** The function name named by a Lambda function ARN of this account and region. */
  function FunctionOfArn(arn: string): (r: Option<string>)
    ensures r.Some? <==> StartsWith(arn, FunctionArnPrefix)
    ensures r.Some? ==> FunctionArnPrefix + r.value == arn
  {
    if StartsWith(arn, FunctionArnPrefix) then Some(arn[|FunctionArnPrefix|..]) else None
  }

  /** The function name named by a Lambda log group. */
  function FunctionOfLogGroup(group: string): (r: Option<string>)
    ensures r.Some? <==> StartsWith(group, LogGroupPrefix)
    ensures r.Some? ==> LogGroupPrefix + r.value == group
  {
    if StartsWith(group, LogGroupPrefix) then Some(group[|LogGroupPrefix|..]) else None
  }

  /** The ARN and the log group of a context both name the function it was
      built for, so two different functions never share either. */
  lemma ContextNamesFunction(functionName: string, awsRequestId: string, invokeid: string)
    ensures FunctionOfArn(GetContext(functionName, awsRequestId, invokeid).invokedFunctionArn) == Some(functionName)
    ensures FunctionOfLogGroup(GetContext(functionName, awsRequestId, invokeid).logGroupName) == Some(functionName)
  {
    var c := GetContext(functionName, awsRequestId, invokeid);
    assert c.invokedFunctionArn[|FunctionArnPrefix|..] == functionName;
    assert c.logGroupName[|LogGroupPrefix|..] == functionName;
  }

  /** Only the two identifiers change from one invocation of a function to
      the next. */
  lemma ContextIgnoresIds(functionName: string, r1: string, i1: string, r2: string, i2: string)
    ensures GetContext(functionName, r1, i1).(awsRequestId := r2, invokeid := i2) == GetContext(functionName, r2, i2)
  {
  }
}
