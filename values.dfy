/** The JavaScript values the scheduler reads from its configuration and
    hands to the scheduled function: the configuration is untyped, so
    every shape the code can meet (a missing key, `null`, a number where an
    object was expected) is a value of `Json`. */
module Values {

  datatype Option<T> = None | Some(value: T)

  /** Why a JavaScript operation on an unexpected shape throws a TypeError. */
  datatype Fault =
    | EntryIsNullish       // `e.hasOwnProperty(...)` on null or undefined
    | ConfigIsNullish      // `funcConf.events` on null or undefined
    | EventsNotArray       // `.filter` on something that is not an array
    | ScheduleIsNullish    // `rawEvent.rate` on null or undefined
    | RateNotString        // `.replace` on something that is not a string
    | HandlerNotString     // `.split` on something that is not a string

  /** A value that is either produced or thrown. */
  datatype Result<T> = Ok(value: T) | Throws(fault: Fault)

  /** A JavaScript value; `Num` stands for finite integral numbers and
      `Obj` keeps its own properties in insertion order. */
  datatype Json =
    | Undefined
    | Null
    | Bool(b: bool)
    | Num(n: int)
    | Str(s: string)
    | Arr(items: seq<Json>)
    | Obj(fields: seq<(string, Json)>)

  /** `undefined` and `null`: reading a property of these throws. */
  predicate IsNullish(v: Json) {
    v.Undefined? || v.Null?
  }

  /** JavaScript truthiness (`if (v)`). */
  predicate Truthy(v: Json) {
    match v
    case Undefined => false
    case Null => false
    case Bool(b) => b
    case Num(n) => n != 0
    case Str(s) => s != ""
    case Arr(_) => true
    case Obj(_) => true
  }

  /** `key` is an own property among `fields`. */
  predicate HasKey(fields: seq<(string, Json)>, key: string) {
    exists i :: 0 <= i < |fields| && fields[i].0 == key
  }

  /** The value of the property called `key`, `undefined` if none. A
      JavaScript object never holds a name twice, so in every object the
      scheduler meets the first property called `key` is the only one. */
  function Lookup(fields: seq<(string, Json)>, key: string): (r: Json)
    ensures !HasKey(fields, key) ==> r == Undefined
    ensures HasKey(fields, key) ==>
      exists i :: 0 <= i < |fields| && fields[i] == (key, r) &&
        forall j :: 0 <= j < i ==> fields[j].0 != key
  {
    if |fields| == 0 then Undefined
    else if fields[0].0 == key then fields[0].1
    else
      var r := Lookup(fields[1..], key);
      assert forall j :: 1 <= j < |fields| ==> fields[j] == fields[1..][j - 1];
      r
  }

  /** `v[key]` for a value that is not nullish: primitives and arrays have
      no own property with the names the scheduler reads. */
  function Get(v: Json, key: string): Json {
    if v.Obj? then Lookup(v.fields, key) else Undefined
  }

  /** `v.hasOwnProperty(key)`, which throws on a nullish receiver. */
  function HasOwnProperty(v: Json, key: string): (r: Result<bool>)
    ensures r.Throws? <==> IsNullish(v)
    ensures r == Ok(true) <==> v.Obj? && HasKey(v.fields, key)
  {
    if IsNullish(v) then Throws(EntryIsNullish)
    else Ok(v.Obj? && HasKey(v.fields, key))
  }
}
