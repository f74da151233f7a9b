/**
 JSON values as `serde_json` holds them: an object is a map from keys to values and a number is
 the text it prints as.
 */
module Json {
  import opened Common
  import opened Text

  predicate NumberChar(c: char) { IsDigit(c) || c in "+-.eE" }

  type Numeral = s: string | s != "" && forall i | 0 <= i < |s| :: NumberChar(s[i]) witness "0"

  datatype Value =
    | Null
    | Bool(b: bool)
    | Number(text: Numeral)
    | String(s: string)
    | Array(items: seq<Value>)
    | Object(fields: map<string, Value>)

  function Get(v: Value, key: string): Option<Value> {
    if v.Object? && key in v.fields then Some(v.fields[key]) else None
  }

  /** The index an array token stands for: a decimal numeral without leading zeros. */
  function ParseIndex(token: string): Option<nat> {
    if token != "" && AllDigits(token) && (token == "0" || token[0] != '0') then Some(Text.Value(token)) else None
  }

  /** The member a reference token selects (section 4 of RFC 6901). */
  function Child(v: Value, token: string): (r: Option<Value>)
    ensures r.Some? ==> r.value < v
  {
    match v
    case Object(fields) => if token in fields then Some(fields[token]) else None
    case Array(items) =>
      var i := ParseIndex(token);
      if i.Some? && i.value < |items| then Some(items[i.value]) else None
    case _ => None
  }

  function Resolve(v: Value, path: seq<string>): Option<Value>
    decreases |path|
  {
    if path == [] then Some(v)
    else
      var c := Child(v, path[0]);
      if c.None? then None else Resolve(c.value, path[1..])
  }

  /**
   `v` with the member at `token` set, or absent for None.  For an array, setting one past the
   end appends, and "absent at i" means shorter: the array is cut at i.
   */
  function SetChild(v: Value, token: string, x: Option<Value>): Value {
    match v
    case Object(fields) =>
      if x.Some? then Object(fields[token := x.value]) else Object(map k | k in fields && k != token :: fields[k])
    case Array(items) =>
      var i := ParseIndex(token);
      if i.None? then v
      else if x.None? then Array(items[..Min(|items|, i.value)])
      else if i.value < |items| then Array(items[i.value := x.value])
      else if i.value == |items| then Array(items + [x.value])
      else v
    case _ => v
  }

  function Put(v: Value, path: seq<string>, x: Option<Value>): Value
    decreases |path|
  {
    if path == [] then (if x.Some? then x.value else v)
    else if |path| == 1 then SetChild(v, path[0], x)
    else
      var c := Child(v, path[0]);
      if c.None? then v else SetChild(v, path[0], Some(Put(c.value, path[1..], x)))
  }
}
