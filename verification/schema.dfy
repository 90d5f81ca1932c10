/**
 * src/schemas/monster.ts: the zod schemas for an API monster and an API error, the
 * issue list `safeParse` reports, and the two helpers built on them.
 */
module Schema {
  import opened Wrappers
  import opened Strings
  import opened Json

  const NameRequired := "モンスター名は必須です"
  const TypesRequired := "少なくとも1つのタイプが必要です"
  const ImageUrlRequired := "有効な画像URLが必要です"
  const InvalidInput := "Invalid input"
  const NoIssueMessage := "データ形式が正しくありません"
  const InvalidData := "不正なデータです"

  /** One step of an issue's path: an object key or an array index. */
  datatype PathElem = PathKey(name: string) | PathIndex(i: nat)

  /** A zod issue: where it is and its message. */
  datatype Issue = Issue(path: seq<PathElem>, message: string)

  /** The type names zod reports for a JSON value (`undefined` for a missing one). */
  function ParsedType(v: Value): string {
    match v
    case None => "undefined"
    case Some(JNull) => "null"
    case Some(JBool(_)) => "boolean"
    case Some(JNum(_)) => "number"
    case Some(JStr(_)) => "string"
    case Some(JArr(_)) => "array"
    case Some(JObj(_)) => "object"
  }

  /** zod's `invalid_type` message for a missing value. */
  const Required := "Required"

  /** zod's `invalid_type` message for a present value of the wrong type. */
  function TypeMessage(expected: string, received: string): string {
    "Expected " + expected + ", received " + received
  }

  /** The `invalid_type` issue: "Required" for a missing value, "Expected …, received …" otherwise. */
  function TypeIssue(path: seq<PathElem>, expected: string, v: Value): Issue {
    Issue(path, if v.None? then Required else TypeMessage(expected, ParsedType(v)))
  }

  /** `z.string().min(1, …)` at `name`. */
  function NameIssues(v: Value): (r: seq<Issue>)
    ensures r == [] <==> v.Some? && v.value.JStr? && |v.value.s| >= 1
  {
    if !(v.Some? && v.value.JStr?) then [TypeIssue([PathKey("name")], "string", v)]
    else if |v.value.s| < 1 then [Issue([PathKey("name")], NameRequired)]
    else []
  }

  /** The element checks of `z.array(z.string())`: one issue per element that is not a string. */
  function ElementIssues(items: seq<Json>, from: nat): (r: seq<Issue>)
    ensures r == [] <==> forall i | 0 <= i < |items| :: items[i].JStr?
    ensures |r| <= |items|
    decreases |items|
  {
    if |items| == 0 then []
    else
      var rest := ElementIssues(items[1..], from + 1);
      assert forall i | 1 <= i < |items| :: items[i] == items[1..][i - 1];
      if items[0].JStr? then rest
      else [TypeIssue([PathKey("types"), PathIndex(from)], "string", Some(items[0]))] + rest
  }

  /** `z.array(z.string()).min(1, …)` at `types`: the length check is reported before the elements. */
  function TypesIssues(v: Value): (r: seq<Issue>)
    ensures r == [] <==>
      v.Some? && v.value.JArr? && |v.value.items| >= 1 && forall i | 0 <= i < |v.value.items| :: v.value.items[i].JStr?
  {
    if !(v.Some? && v.value.JArr?) then [TypeIssue([PathKey("types")], "array", v)]
    else
      var items := v.value.items;
      (if |items| < 1 then [Issue([PathKey("types")], TypesRequired)] else []) + ElementIssues(items, 0)
  }

  /**
   * `z.string().url(…).or(z.literal(""))` at `image`: a string that is neither a URL
   * nor empty reports the URL message; anything else that is not a string fails both
   * options and reports "Invalid input".
   */
  function ImageIssues(v: Value, isUrl: string -> bool): (r: seq<Issue>)
    ensures r == [] <==> v.Some? && v.value.JStr? && (v.value.s == "" || isUrl(v.value.s))
  {
    if v.Some? && v.value.JStr? then
      if v.value.s == "" || isUrl(v.value.s) then [] else [Issue([PathKey("image")], ImageUrlRequired)]
    else [Issue([PathKey("image")], InvalidInput)]
  }

  /** The issues of `MonsterSchema.safeParse(data)`, in the order of the schema's keys. */
  function MonsterIssues(data: Value, isUrl: string -> bool): seq<Issue> {
    if !(data.Some? && data.value.JObj?) then [TypeIssue([], "object", data)]
    else
      var obj := data.value;
      NameIssues(Member(obj, "name")) + TypesIssues(Member(obj, "types")) + ImageIssues(Member(obj, "image"), isUrl)
  }

  /** Reference meaning of "a valid API monster", stated field by field. */
  predicate IsValidMonster(data: Value, isUrl: string -> bool) {
    && data.Some? && data.value.JObj?
    && var name := Member(data.value, "name");
    && var types := Member(data.value, "types");
    && var image := Member(data.value, "image");
    && name.Some? && name.value.JStr? && |name.value.s| >= 1
    && types.Some? && types.value.JArr? && |types.value.items| >= 1
    && (forall i | 0 <= i < |types.value.items| :: types.value.items[i].JStr?)
    && image.Some? && image.value.JStr? && (image.value.s == "" || isUrl(image.value.s))
  }

  /** The parsed monster: only the schema's keys survive (zod strips unknown keys). */
  datatype ApiMonster = ApiMonster(name: string, types: seq<string>, image: string)

  datatype ParseResult = Success(data: ApiMonster) | Failure(issues: seq<Issue>)

  /** `validateMonsterData(data)`, i.e. `MonsterSchema.safeParse(data)`. */
  function ValidateMonsterData(data: Value, isUrl: string -> bool): (r: ParseResult)
    ensures r.Success? <==> IsValidMonster(data, isUrl)
    ensures r.Success? ==>
      && Member(data.value, "name") == Some(JStr(r.data.name))
      && Member(data.value, "image") == Some(JStr(r.data.image))
      && |r.data.types| == |Member(data.value, "types").value.items|
      && forall i | 0 <= i < |r.data.types| :: Member(data.value, "types").value.items[i] == JStr(r.data.types[i])
    ensures r.Failure? ==> |r.issues| > 0
  {
    var issues := MonsterIssues(data, isUrl);
    if issues != [] then Failure(issues)
    else
      var obj := data.value;
      var items := Member(obj, "types").value.items;
      Success(ApiMonster(Member(obj, "name").value.s, seq(|items|, i requires 0 <= i < |items| => items[i].s),
                         Member(obj, "image").value.s))
  }

  /** `ErrorResponseSchema`: `error` a string, `message` and `status` optional. */
  predicate IsErrorResponse(data: Value) {
    && data.Some? && data.value.JObj?
    && var error := Member(data.value, "error");
    && var message := Member(data.value, "message");
    && var status := Member(data.value, "status");
    && error.Some? && error.value.JStr?
    && (message.None? || message.value.JStr?)
    && (status.None? || status.value.JNum?)
  }

  /** `path.join('.')`. */
  function JoinPath(path: seq<PathElem>): string {
    Join(seq(|path|, k requires 0 <= k < |path| => match path[k] case PathKey(n) => n case PathIndex(i) => NatToString(i)), ".")
  }

  /** `formatZodError`: the first issue with its path as a prefix, or a fixed text when there is none. */
  function FormatZodError(issues: seq<Issue>): (r: string)
    ensures |issues| == 0 ==> r == NoIssueMessage
    ensures |issues| > 0 && |issues[0].path| == 0 ==> r == issues[0].message
    ensures |issues| > 0 && |issues[0].path| > 0 ==> r == JoinPath(issues[0].path) + ": " + issues[0].message
  {
    if |issues| == 0 then NoIssueMessage
    else
      var first := issues[0];
      var prefix := if |first.path| > 0 then JoinPath(first.path) + ": " else "";
      prefix + first.message
  }

  /** An issue at a top-level key is reported as `key: message`. */
  lemma FormatTopLevelIssue(issues: seq<Issue>, key: string)
    requires |issues| > 0 && issues[0].path == [PathKey(key)]
    ensures FormatZodError(issues) == key + ": " + issues[0].message
  {
    assert JoinPath([PathKey(key)]) == key;
  }

  /** What `validateApiResponse` returns. */
  datatype ApiCheck = Valid(data: ApiMonster) | Invalid(error: string)

  /**
   * `validateApiResponse(data)`: the parsed monster when the schema accepts it; otherwise
   * the same fixed error, whether or not the data looks like an API error.
   */
  function ValidateApiResponse(data: Value, isUrl: string -> bool): (r: ApiCheck)
    ensures r.Valid? <==> IsValidMonster(data, isUrl)
    ensures r.Valid? ==> Success(r.data) == ValidateMonsterData(data, isUrl)
    ensures r.Invalid? ==> r.error == InvalidData
  {
    match ValidateMonsterData(data, isUrl)
    case Success(m) => Valid(m)
    case Failure(_) =>
      if IsErrorResponse(data) then Invalid(InvalidData) else Invalid(InvalidData)
  }

  /** An error payload of the API routes is an API error and never a monster. */
  lemma ApiErrorIsNotMonster(message: string, details: string, isUrl: string -> bool)
    ensures var data := Some(JObj(map["error" := JStr(message), "details" := JStr(details)]));
      IsErrorResponse(data) && ValidateApiResponse(data, isUrl) == Invalid(InvalidData)
  {
  }

  /** The JSON form of a parsed monster. */
  function ApiMonsterJson(m: ApiMonster): Json {
    JObj(map[
      "name" := JStr(m.name),
      "types" := JArr(seq(|m.types|, i requires 0 <= i < |m.types| => JStr(m.types[i]))),
      "image" := JStr(m.image)
    ])
  }

  /** A monster that meets the schema's rules round-trips through its JSON form. */
  lemma ValidRoundTrip(m: ApiMonster, isUrl: string -> bool)
    requires |m.name| >= 1 && |m.types| >= 1 && (m.image == "" || isUrl(m.image))
    ensures ValidateMonsterData(Some(ApiMonsterJson(m)), isUrl) == Success(m)
  {
    var r := ValidateMonsterData(Some(ApiMonsterJson(m)), isUrl);
    assert r.Success?;
    assert r.data.types == m.types;
  }
}
