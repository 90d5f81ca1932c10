/**
 * Parsed JSON payloads and the handful of JavaScript operations the scripts apply
 * to them: property access, truthiness, nullish coalescing and `Number()`.
 */
module Json {
  import opened Wrappers
  import Strings

  /** A value `JSON.parse` can produce. Numbers are integers in this model. */
  datatype Json =
    | JNull
    | JBool(b: bool)
    | JNum(n: int)
    | JStr(s: string)
    | JArr(items: seq<Json>)
    | JObj(fields: map<string, Json>)

  /** A JavaScript value read out of a payload: `None` is `undefined`. */
  type Value = Option<Json>

  /** A property name (`.name`, `["official-artwork"]`) or an index (`[0]`). */
  datatype Key = Field(name: string) | Index(i: nat)

  /** The own property `name` of a value, `undefined` when it has none. */
  function Member(v: Json, name: string): Value {
    if v.JObj? && name in v.fields then Some(v.fields[name]) else None
  }

  /**
   * `v.name` or `v[i]`: reading a property of `undefined` or `null` throws a
   * TypeError; an object yields its own property, an array or string its element,
   * and any other value yields `undefined`.
   */
  function Get(v: Value, key: Key): (r: Result<Value>)
    ensures r.Err? <==> v.None? || v == Some(JNull)
    ensures v.Some? && v.value != JNull && key.Field? ==> r == Ok(Member(v.value, key.name))
  {
    match v
    case None => Err("TypeError: cannot read properties of undefined")
    case Some(JNull) => Err("TypeError: cannot read properties of null")
    case Some(JObj(m)) =>
      var name := match key case Field(k) => k case Index(i) => Strings.NatToString(i);
      Ok(if name in m then Some(m[name]) else None)
    case Some(JArr(items)) =>
      Ok(if key.Index? && key.i < |items| then Some(items[key.i]) else None)
    case Some(JStr(s)) =>
      Ok(if key.Index? && key.i < |s| then Some(JStr([s[key.i]])) else None)
    case Some(_) => Ok(None)
  }

  /** A chain of property reads `v.k1.k2…`, throwing at the first `undefined`/`null` step. */
  function Path(v: Value, keys: seq<Key>): (r: Result<Value>)
    ensures |keys| == 0 ==> r == Ok(v)
    ensures (v.None? || v == Some(JNull)) && |keys| > 0 ==> r.Err?
    decreases |keys|
  {
    if |keys| == 0 then Ok(v)
    else
      var next :- Get(v, keys[0]);
      Path(next, keys[1..])
  }

  /** JavaScript truthiness (`if (v)`, `while (v)`). */
  predicate Truthy(v: Value) {
    match v
    case None => false
    case Some(JNull) => false
    case Some(JBool(b)) => b
    case Some(JNum(n)) => n != 0
    case Some(JStr(s)) => s != ""
    case Some(_) => true
  }

  predicate Nullish(v: Value) {
    v.None? || v == Some(JNull)
  }

  /** `v ?? fallback`. */
  function Coalesce(v: Value, fallback: Json): (r: Json)
    ensures !Nullish(v) ==> Some(r) == v
    ensures Nullish(v) ==> r == fallback
  {
    if Nullish(v) then fallback else v.value
  }

  /** A JavaScript number as produced by `Number()`: an integer or NaN. */
  datatype JsNumber = Num(n: int) | NaN

  /** `Number(v)`. */
  function ToNumber(v: Value): JsNumber {
    match v
    case None => NaN
    case Some(j) => JsonToNumber(j)
  }

  /**
   * `Number(j)` for a parsed value. An array converts through its string form: `[]`
   * is `""`, and a single item prints as itself (`null` as `""`), so `[[50]]` is 50;
   * two or more items print with a comma and are never a number.
   */
  function JsonToNumber(j: Json): JsNumber {
    match j
    case JNull => Num(0)
    case JBool(b) => Num(if b then 1 else 0)
    case JNum(n) => Num(n)
    case JStr(s) => StringToNumber(s)
    case JArr(items) =>
      if |items| == 0 then Num(0)
      else if |items| > 1 then NaN
      else
        (match items[0]
         case JNull => Num(0)
         case JNum(n) => Num(n)
         case JStr(s) => StringToNumber(s)
         case JArr(_) => JsonToNumber(items[0])
         case _ => NaN)
    case JObj(_) => NaN
  }

  /**
   * A one-item array is read through its item's text: a number, a string or a nested
   * array gives what the item itself gives, `null` gives 0, and `true`, `false` or an
   * object (`"true"`, `"[object Object]"`) give NaN.
   */
  lemma SingletonArrayNumber(x: Json)
    ensures x.JNum? || x.JStr? || x.JArr? ==> ToNumber(Some(JArr([x]))) == ToNumber(Some(x))
    ensures x.JNull? ==> ToNumber(Some(JArr([x]))) == Num(0)
    ensures x.JBool? || x.JObj? ==> ToNumber(Some(JArr([x]))) == NaN
    ensures ToNumber(Some(JArr([JArr([x])]))) == ToNumber(Some(JArr([x])))
  {
    assert [x][0] == x;
    assert [JArr([x])][0] == JArr([x]);
  }

  /** `Number([[50]])` is 50 and `Number([[]])` is 0, as the string forms `"50"` and `""` give. */
  lemma NestedArrayNumbers()
    ensures ToNumber(Some(JArr([JArr([JNum(50)])]))) == Num(50)
    ensures ToNumber(Some(JArr([JArr([])]))) == Num(0)
  {
    SingletonArrayNumber(JNum(50));
    SingletonArrayNumber(JArr([]));
  }

  /** `Number(s)` for strings: blank is 0, a signed decimal integer is its value, else NaN. */
  function StringToNumber(s: string): JsNumber {
    var t := Strings.Trim(s);
    if t == "" then Num(0)
    else
      var digits := Strings.SignFree(t);
      if |digits| > 0 && Strings.AllDigits(digits) then
        var magnitude: int := Strings.DigitsValue(digits);
        Num(if t[0] == '-' then -magnitude else magnitude)
      else NaN
  }

  /**
   * `Number` reads back what it is given as a number or as the decimal form of one,
   * counts `null` and a blank string as 0, and gives NaN for a missing value or an object.
   */
  lemma NumberReadsNumerals(i: int)
    ensures ToNumber(Some(JNum(i))) == Num(i)
    ensures ToNumber(Some(JStr(Strings.IntToString(i)))) == Num(i)
    ensures ToNumber(Some(JNull)) == Num(0) && ToNumber(Some(JStr(""))) == Num(0)
    ensures ToNumber(None) == NaN
  {
    NumeralParts(i);
    Strings.NatToStringRoundTrip(if i < 0 then -i else i);
  }

  /** The decimal form of an integer has no surrounding whitespace; its sign is a leading `-`. */
  lemma NumeralParts(i: int)
    ensures var t := Strings.IntToString(i);
      && Strings.Trim(t) == t && t != ""
      && Strings.SignFree(t) == Strings.NatToString(if i < 0 then -i else i)
      && (t[0] == '-' <==> i < 0)
  {
    var d := Strings.NatToString(if i < 0 then -i else i);
    var t := Strings.IntToString(i);
    assert t == if i < 0 then "-" + d else d;
    assert !Strings.IsWhitespace(t[0]);
    assert Strings.TrimStart(t) == t;
    assert !Strings.IsWhitespace(t[|t| - 1]);
  }

  /** How `JSON.stringify` writes a number: NaN becomes `null`. */
  function NumberJson(x: JsNumber): Json {
    match x
    case Num(n) => JNum(n)
    case NaN => JNull
  }

  /** How `JSON.stringify` writes an array element: `undefined` becomes `null`. */
  function ElementJson(v: Value): Json {
    v.GetOr(JNull)
  }

  /** How `JSON.stringify` writes one object property: an `undefined` property is dropped. */
  function Prop(name: string, v: Value): map<string, Json> {
    if v.Some? then map[name := v.value] else map[]
  }
}

/** What the scripts receive from the network and the disk, and what they write. */
module Io {
  import opened Wrappers
  import opened Json

  /**
   * The result of one `fetch`: the promise rejected (`NetworkError`), or a response
   * with its `ok` flag and a body that `res.json()` parses (`Some`) or rejects (`None`).
   */
  datatype FetchResult =
    | NetworkError
    | Response(ok: bool, status: int, body: Option<Json>)

  /** A stored file: its text parses as JSON or it does not. */
  datatype StoredFile = Unparsable | Parsed(json: Json)

  /** One `fs.writeFile(path, JSON.stringify(content))`. */
  datatype Write = Write(path: string, content: Json)

  /** The files on disk, by path; a path outside the map does not exist. */
  type Disk = map<string, StoredFile>

  /** The disk after the writes, in order. */
  function Apply(disk: Disk, writes: seq<Write>): Disk
    decreases |writes|
  {
    if |writes| == 0 then disk
    else Apply(disk[writes[0].path := Parsed(writes[0].content)], writes[1..])
  }

  /** `<dir>/<id>.json`, the file every per-ID script writes. */
  function IdPath(dir: string, id: nat): string {
    dir + "/" + Strings.NatToString(id) + ".json"
  }

  /** Two IDs never share a file: each writer owns a disjoint path. */
  lemma IdPathInjective(dir: string, a: nat, b: nat)
    requires IdPath(dir, a) == IdPath(dir, b)
    ensures a == b
  {
    var sa := Strings.NatToString(a);
    var sb := Strings.NatToString(b);
    assert dir + "/" + sa + ".json" == (dir + "/") + (sa + ".json");
    assert dir + "/" + sb + ".json" == (dir + "/") + (sb + ".json");
    var p := dir + "/";
    assert sa + ".json" == (p + (sa + ".json"))[|p|..];
    assert sb + ".json" == (p + (sb + ".json"))[|p|..];
    assert sa == (sa + ".json")[..|sa + ".json"| - 5];
    assert sb == (sb + ".json")[..|sb + ".json"| - 5];
    Strings.NatToStringInjective(a, b);
  }
}
