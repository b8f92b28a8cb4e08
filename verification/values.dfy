/**
 * Field values and the dictionaries that carry them: the candidate records a
 * provider's updater emits, and the stored fields of a model row.
 */
module Values {
  import opened Wrappers
  import opened Failures
  import opened Strings

  /** A Python value as the modelled code stores it in a field or a candidate record. */
  datatype Value =
    | Null                        // None
    | Str(s: string)
    | Int(i: int)
    | Time(t: int)                // a datetime, in seconds
    | Bool(b: bool)
    | Ref(cls: string, pk: string) // a model instance, by class name and primary key
    | Strs(items: seq<string>)    // a list of strings

  /** Python truth: None, "", 0, False and the empty list are false. */
  predicate Truthy(v: Value) {
    match v
    case Null => false
    case Str(s) => s != ""
    case Int(i) => i != 0
    case Time(_) => true
    case Bool(b) => b
    case Ref(_, _) => true
    case Strs(xs) => xs != []
  }

  /** A candidate record, or the fields of a row, by field name. */
  type Data = map<string, Value>

  /** `d[key] == v`, with the key present. */
  predicate Has(d: Data, key: string, v: Value) {
    key in d && d[key] == v
  }

  /** `d[key]`, which raises KeyError for a missing key. */
  function Get(d: Data, key: string): (r: Result<Value, Failure>)
    ensures r.Ok? <==> key in d
    ensures r.Ok? ==> r.value == d[key]
    ensures r.Err? ==> r.error == KeyError(key)
  {
    if key in d then Ok(d[key]) else Err(KeyError(key))
  }

  /** `d.get(key, default)`. */
  function GetOr(d: Data, key: string, default: Value): Value {
    if key in d then d[key] else default
  }

  /** A value used where the code needs text (joining, concatenating); anything but a string raises TypeError. */
  function AsText(v: Value): (r: Result<string, Failure>)
    ensures r.Ok? <==> v.Str?
    ensures r.Ok? ==> r.value == v.s
    ensures r.Err? ==> r.error.TypeError?
  {
    if v.Str? then Ok(v.s) else Err(TypeError("expected string"))
  }

  /**
   * `str(v)`, or `smart_str(v)`, of a scalar value; `showTime` renders a
   * datetime. Lists and model instances are outside the model.
   */
  function Show(v: Value, showTime: int -> string): (r: Result<string, Failure>)
    ensures r.Err? <==> v.Ref? || v.Strs?
    ensures v.Str? ==> r == Ok(v.s)
    ensures v.Time? ==> r == Ok(showTime(v.t))
  {
    match v
    case Null => Ok("None")
    case Str(s) => Ok(s)
    case Int(i) => Ok(IntToString(i))
    case Time(t) => Ok(showTime(t))
    case Bool(b) => Ok(if b then "True" else "False")
    case _ => Err(TypeError("str"))
  }

  /**
   * `smart_str(d[a]) + smart_str(d[b]) + str(d[c])`: each key read, and its
   * value converted, left to right, so the first failure is the one raised.
   */
  function ShowThree(d: Data, a: string, b: string, c: string, showTime: int -> string): (r: Result<string, Failure>)
    ensures a !in d ==> r == Err(KeyError(a))
    ensures a in d && Show(d[a], showTime).Ok? && b !in d ==> r == Err(KeyError(b))
    ensures r.Ok? <==> (a in d && b in d && c in d &&
      Show(d[a], showTime).Ok? && Show(d[b], showTime).Ok? && Show(d[c], showTime).Ok?)
  {
    var x :- Get(d, a);
    var sx :- Show(x, showTime);
    var y :- Get(d, b);
    var sy :- Show(y, showTime);
    var z :- Get(d, c);
    var sz :- Show(z, showTime);
    Ok(sx + sy + sz)
  }

  /**
   * `md5.new(smart_str(d[a]) + smart_str(d[b]) + str(d[c])).hexdigest()`, the
   * source id of the last.fm and Twitter providers; `md5` is the hash.
   */
  function HashThree(md5: string -> string, d: Data, a: string, b: string, c: string, showTime: int -> string)
    : (r: Result<string, Failure>)
    ensures r.Ok? <==> ShowThree(d, a, b, c, showTime).Ok?
    ensures r.Err? ==> r.error == ShowThree(d, a, b, c, showTime).error
  {
    var text :- ShowThree(d, a, b, c, showTime);
    Ok(md5(text))
  }

  /** Only the three keys matter: records that agree on them give the same text, or the same failure. */
  lemma ShowThreeAgree(d: Data, e: Data, a: string, b: string, c: string, showTime: int -> string)
    requires forall k :: k in [a, b, c] ==> (k in d <==> k in e)
    requires forall k :: k in [a, b, c] && k in d ==> d[k] == e[k]
    ensures ShowThree(d, a, b, c, showTime) == ShowThree(e, a, b, c, showTime)
  {
    assert a in [a, b, c] && b in [a, b, c] && c in [a, b, c];
  }

  /** The text of three string-valued keys and a time is their concatenation. */
  lemma ShowThreeOf(d: Data, a: string, b: string, c: string, showTime: int -> string, x: string, y: string, t: int)
    requires Has(d, a, Str(x)) && Has(d, b, Str(y)) && Has(d, c, Time(t))
    ensures ShowThree(d, a, b, c, showTime) == Ok(x + y + showTime(t))
  {
  }

  /** `force_unicode` of a primary key value; only strings and integers serve as keys here. */
  function PkText(v: Value): (r: Result<string, Failure>)
    ensures v.Str? ==> r == Ok(v.s)
    ensures v.Int? ==> r.Ok? && ParseInt(r.value) == Some(v.i)
  {
    match v
    case Str(s) => Ok(s)
    case Int(i) =>
      IntToStringParses(i);
      Ok(IntToString(i))
    case _ => Err(ValueError("primary key"))
  }

  /** `{f: d[f] for f in names}`: the first missing name raises KeyError. */
  function Pick(d: Data, names: seq<string>): (r: Result<Data, Failure>)
    ensures r.Ok? <==> forall k :: 0 <= k < |names| ==> names[k] in d
    ensures r.Ok? ==> r.value.Keys == set k | 0 <= k < |names| :: names[k]
    ensures r.Ok? ==> forall f :: f in r.value ==> f in d && r.value[f] == d[f]
    ensures r.Err? ==> r.error.KeyError? && r.error.key !in d && r.error.key in names
    ensures r.Err? && names[0] !in d ==> r.error == KeyError(names[0])
    decreases |names|
  {
    if |names| == 0 then Ok(map[])
    else
      var v :- Get(d, names[0]);
      var rest :- Pick(d, names[1..]);
      assert forall k :: 1 <= k < |names| ==> names[k] == names[1..][k - 1];
      Ok(rest[names[0] := v])
  }
}
