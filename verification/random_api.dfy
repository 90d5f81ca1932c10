/**
 * The test API routes: src/pages/api/random-monster-delay.ts, which serves a random
 * monster file but never the same ID twice in a row, and
 * src/pages/api/random-monster-invalid.ts with its delayed twin
 * src/pages/api/random-monster-invalid-delay.ts, which serve one of five malformed
 * payloads with a status that depends on the payload's name. `Math.random()` is an
 * input: each call of it is one `Draw`.
 */
module RandomApi {
  import opened Wrappers
  import opened Json
  import opened Io
  import Schema

  /** A value of `Math.random()`: a number in [0, 1). */
  type Draw = r: real | 0.0 <= r < 1.0

  /** `monster_count` of config/monster_count.ts. */
  const MonsterCount: nat := 200

  /** The directory the delayed route reads from. */
  const MonsterDir := "data/monster"

  /** `Math.floor(d * n)`: an index into a collection of `n` items. */
  function Scale(d: Draw, n: nat): (i: nat)
    requires n > 0
    ensures i < n
    ensures i as real <= d * n as real < i as real + 1.0
  {
    assert 0.0 <= d * n as real < n as real by {
      assert d * n as real <= 1.0 * n as real;
    }
    (d * n as real).Floor
  }

  /** Every index is the image of some draw: the index `i` is drawn by `i / n`. */
  lemma ScaleReachesEvery(n: nat, i: nat)
    requires i < n
    ensures var d: Draw := i as real / n as real; Scale(d, n) == i
  {
    var d: Draw := i as real / n as real;
    assert d * n as real == i as real;
  }

  /** `Math.floor(Math.random() * monster_count) + 1`. */
  function RandomId(d: Draw): (id: nat)
    ensures 1 <= id <= MonsterCount
  {
    Scale(d, MonsterCount) + 1
  }

  /** Every monster ID in [1, monster_count] can be drawn. */
  lemma RandomIdCoversRange(id: nat)
    requires 1 <= id <= MonsterCount
    ensures exists d: Draw :: RandomId(d) == id
  {
    ScaleReachesEvery(MonsterCount, id - 1);
    var d: Draw := (id - 1) as real / MonsterCount as real;
    assert RandomId(d) == id;
  }

  /** With at least two monsters, some draw always escapes the previous ID. */
  lemma SomeDrawDiffers(lastId: Option<int>)
    ensures exists d: Draw :: Some(RandomId(d) as int) != lastId
  {
    RandomIdCoversRange(1);
    RandomIdCoversRange(2);
    var d1: Draw :| RandomId(d1) == 1;
    var d2: Draw :| RandomId(d2) == 2;
    if Some(RandomId(d1) as int) == lastId {
      assert Some(RandomId(d2) as int) != lastId;
    }
  }

  // ---------------------------------------------------------------------------
  // random-monster-delay.ts
  // ---------------------------------------------------------------------------

  /** The ID the do-while settled on and the number of draws it consumed. */
  datatype Choice = Choice(id: nat, used: nat)

  /**
   * The `do { id = … } while (id === lastId)` loop over the given draws: the first
   * drawn ID that differs from `lastId`; `None` when every given draw repeats it
   * (the loop would go on drawing).
   */
  function ChooseId(draws: seq<Draw>, lastId: Option<int>): (r: Option<Choice>)
    ensures r.Some? <==> exists k | 0 <= k < |draws| :: Some(RandomId(draws[k]) as int) != lastId
    ensures r.Some? ==> 1 <= r.value.used <= |draws| && r.value.id == RandomId(draws[r.value.used - 1])
    ensures r.Some? ==> Some(r.value.id as int) != lastId
    ensures r.Some? ==> forall k | 0 <= k < r.value.used - 1 :: Some(RandomId(draws[k]) as int) == lastId
    decreases |draws|
  {
    if |draws| == 0 then None
    else
      var id := RandomId(draws[0]);
      if Some(id as int) != lastId then Some(Choice(id, 1))
      else
        var rest := ChooseId(draws[1..], lastId);
        assert forall k | 1 <= k < |draws| :: draws[k] == draws[1..][k - 1];
        match rest
        case None => None
        case Some(c) => Some(Choice(c.id, c.used + 1))
  }

  /** The module-level `lastId`: `null` until the first request. */
  datatype ServerState = ServerState(lastId: Option<int>)

  const InitialState := ServerState(None)

  datatype HttpResponse = HttpResponse(status: int, body: Json)

  /** One request's outcome: the ID chosen, the response, and the state afterwards. */
  datatype Served = Served(id: nat, response: HttpResponse, state: ServerState)

  const DelayErrorMessage := "遅延API処理中にエラーが発生しました"

  /** The 500 body: the route's fixed message and the thrown error's message. */
  function ErrorBody(message: string, details: string): Json {
    JObj(map["error" := JStr(message), "details" := JStr(details)])
  }

  /**
   * One request to random-monster-delay.ts after its delay: choose an ID, record it
   * in `lastId` before reading, then serve `data/monster/<id>.json` with 200, or 500
   * when the file is missing or does not parse (`readError` is the message of the
   * error the runtime throws).
   */
  function RandomMonsterDelay(state: ServerState, draws: seq<Draw>, disk: Disk, readError: string): (r: Option<Served>)
    ensures r.Some? <==> exists k | 0 <= k < |draws| :: Some(RandomId(draws[k]) as int) != state.lastId
    ensures r.Some? ==> 1 <= r.value.id <= MonsterCount && Some(r.value.id as int) != state.lastId
    ensures r.Some? ==> r.value.state == ServerState(Some(r.value.id))
    ensures r.Some? ==>
      var path := IdPath(MonsterDir, r.value.id);
      && (r.value.response.status == 200 <==> path in disk && disk[path].Parsed?)
      && (r.value.response.status == 200 ==> r.value.response.body == disk[path].json)
      && (r.value.response.status != 200 ==>
            r.value.response == HttpResponse(500, ErrorBody(DelayErrorMessage, readError)))
  {
    match ChooseId(draws, state.lastId)
    case None => None
    case Some(c) =>
      var next := ServerState(Some(c.id));
      var path := IdPath(MonsterDir, c.id);
      if path in disk && disk[path].Parsed? then Some(Served(c.id, HttpResponse(200, disk[path].json), next))
      else Some(Served(c.id, HttpResponse(500, ErrorBody(DelayErrorMessage, readError)), next))
  }

  /** Two consecutive requests never serve the same ID, whether or not the first read failed. */
  lemma NoImmediateRepeat(state: ServerState, draws1: seq<Draw>, draws2: seq<Draw>, disk1: Disk, disk2: Disk,
                          e1: string, e2: string)
    requires RandomMonsterDelay(state, draws1, disk1, e1).Some?
    requires RandomMonsterDelay(RandomMonsterDelay(state, draws1, disk1, e1).value.state, draws2, disk2, e2).Some?
    ensures var first := RandomMonsterDelay(state, draws1, disk1, e1).value;
      RandomMonsterDelay(first.state, draws2, disk2, e2).value.id != first.id
  {
  }

  /** The very first request accepts its first draw. */
  lemma FirstRequestTakesFirstDraw(draws: seq<Draw>, disk: Disk, e: string)
    requires |draws| > 0
    ensures RandomMonsterDelay(InitialState, draws, disk, e).Some?
    ensures RandomMonsterDelay(InitialState, draws, disk, e).value.id == RandomId(draws[0])
  {
  }

  // ---------------------------------------------------------------------------
  // random-monster-invalid.ts and random-monster-invalid-delay.ts
  // ---------------------------------------------------------------------------

  /** One entry of `INVALID_DATA_PATTERNS`: its key and its payload. */
  datatype Pattern = Pattern(name: string, data: Json)

  const NullFields := "NULL_FIELDS"
  const EmptyFields := "EMPTY_FIELDS"
  const PartialMissing := "PARTIAL_MISSING"
  const TypeMismatch := "TYPE_MISMATCH"
  const Malformed := "MALFORMED"

  /** The keys of both tables, in declaration order. */
  const PatternNames := [NullFields, EmptyFields, PartialMissing, TypeMismatch, Malformed]

  /** `DELAY_TIME` of random-monster-invalid-delay.ts, which its MALFORMED payload carries. */
  const DelayTime := 5000

  /** The payload fields shared by both tables' first two entries and the shape of the other three. */
  function MonsterLike(id: Json, name: Json, types: Json, image: Json): Json {
    JObj(map["id" := id, "name" := name, "types" := types, "image" := image])
  }

  /** `INVALID_DATA_PATTERNS` of random-monster-invalid.ts. */
  const InvalidPatterns := [
    Pattern(NullFields, MonsterLike(JNull, JNull, JNull, JNull)),
    Pattern(EmptyFields, MonsterLike(JNum(0), JStr(""), JArr([]), JStr(""))),
    Pattern(PartialMissing, MonsterLike(JNum(42), JStr("ミッシングモンスター"), JArr([]), JStr(""))),
    Pattern(TypeMismatch, MonsterLike(JStr("invalid_id"), JNum(12345), JStr("not_an_array"), JBool(false))),
    Pattern(Malformed, JObj(map["wrong_field" := JStr("this should not exist")]))
  ]

  /** `INVALID_DATA_PATTERNS` of random-monster-invalid-delay.ts. */
  const DelayedInvalidPatterns := [
    Pattern(NullFields, MonsterLike(JNull, JNull, JNull, JNull)),
    Pattern(EmptyFields, MonsterLike(JNum(0), JStr(""), JArr([]), JStr(""))),
    Pattern(PartialMissing, MonsterLike(JNum(42), JStr("遅延ミッシングモンスター"), JArr([]), JStr(""))),
    Pattern(TypeMismatch, MonsterLike(JStr("invalid_delayed_id"), JNum(99999), JStr("delayed_not_an_array"), JBool(false))),
    Pattern(Malformed, JObj(map["wrong_field" := JStr("delayed invalid data"), "delay_time" := JNum(DelayTime)]))
  ]

  /** `Object.keys(table)`. */
  function Keys(table: seq<Pattern>): (r: seq<string>)
    ensures |r| == |table|
    ensures forall i | 0 <= i < |table| :: r[i] == table[i].name
  {
    seq(|table|, i requires 0 <= i < |table| => table[i].name)
  }

  /** `Object.values(table)`. */
  function Values(table: seq<Pattern>): (r: seq<Json>)
    ensures |r| == |table|
    ensures forall i | 0 <= i < |table| :: r[i] == table[i].data
  {
    seq(|table|, i requires 0 <= i < |table| => table[i].data)
  }

  /**
   * `getRandomInvalidData()`: one index into `Object.values`, reused for
   * `Object.keys`; the name and the payload returned belong to the same entry.
   */
  function GetRandomInvalidData(table: seq<Pattern>, d: Draw): (r: Pattern)
    requires |table| > 0
    ensures r in table
    ensures exists i | 0 <= i < |table| :: Keys(table)[i] == r.name && Values(table)[i] == r.data
  {
    var i := Scale(d, |Values(table)|);
    Pattern(Keys(table)[i], Values(table)[i])
  }

  /** Every entry of a table is served for some draw. */
  lemma EveryPatternReachable(table: seq<Pattern>, i: nat)
    requires i < |table|
    ensures exists d: Draw :: GetRandomInvalidData(table, d) == table[i]
  {
    ScaleReachesEvery(|table|, i);
    var d: Draw := i as real / |table| as real;
    assert GetRandomInvalidData(table, d) == table[i];
  }

  /**
   * The status `switch`: 400 Bad Request (section 15.5.1 of RFC 9110) for a
   * structurally broken payload, 422 Unprocessable Content (section 15.5.21 of
   * RFC 9110) for mistyped fields, and 200 for everything else.
   */
  function StatusFor(pattern: string): (status: int)
    ensures status == 400 <==> pattern == Malformed
    ensures status == 422 <==> pattern == TypeMismatch
    ensures status != 400 && status != 422 ==> status == 200
  {
    if pattern == Malformed then 400
    else if pattern == TypeMismatch then 422
    else if pattern == NullFields then 200
    else if pattern == EmptyFields then 200
    else if pattern == PartialMissing then 200
    else 200
  }

  /** One request to an invalid-data route: the drawn payload with its pattern's status. */
  function InvalidResponse(table: seq<Pattern>, d: Draw): (r: HttpResponse)
    requires |table| > 0
    ensures exists i | 0 <= i < |table| :: r == HttpResponse(StatusFor(table[i].name), table[i].data)
  {
    var picked := GetRandomInvalidData(table, d);
    HttpResponse(StatusFor(picked.name), picked.data)
  }

  /** random-monster-invalid.ts: one of its five entries, with a status that tells the payload's shape. */
  function RandomMonsterInvalid(d: Draw): (r: HttpResponse)
    ensures exists i | 0 <= i < |InvalidPatterns| :: r == HttpResponse(StatusFor(InvalidPatterns[i].name), InvalidPatterns[i].data)
    ensures r.status == 200 || r.status == 400 || r.status == 422
    ensures r.status == 400 <==> NameOf(r.body).None?
    ensures r.status == 422 <==> NameOf(r.body).Some? && NameOf(r.body).value.JNum?
  {
    ServedStatusReflectsName(InvalidPatterns, d);
    InvalidResponse(InvalidPatterns, d)
  }

  /** random-monster-invalid-delay.ts after its delay: the same, from its own table. */
  function RandomMonsterInvalidDelay(d: Draw): (r: HttpResponse)
    ensures exists i | 0 <= i < |DelayedInvalidPatterns| ::
      r == HttpResponse(StatusFor(DelayedInvalidPatterns[i].name), DelayedInvalidPatterns[i].data)
    ensures r.status == 200 || r.status == 400 || r.status == 422
    ensures r.status == 400 <==> NameOf(r.body).None?
    ensures r.status == 422 <==> NameOf(r.body).Some? && NameOf(r.body).value.JNum?
  {
    ServedStatusReflectsName(DelayedInvalidPatterns, d);
    InvalidResponse(DelayedInvalidPatterns, d)
  }

  /** A response drawn from either table: its status against the `name` of its payload. */
  lemma ServedStatusReflectsName(table: seq<Pattern>, d: Draw)
    requires table == InvalidPatterns || table == DelayedInvalidPatterns
    ensures var r := InvalidResponse(table, d);
      && (r.status == 400 <==> NameOf(r.body).None?)
      && (r.status == 422 <==> NameOf(r.body).Some? && NameOf(r.body).value.JNum?)
  {
    var r := InvalidResponse(table, d);
    var i :| 0 <= i < |table| && r == HttpResponse(StatusFor(table[i].name), table[i].data);
    EntryStatusReflectsName(table, i);
  }

  /** Both routes serve the same five pattern names in the same order. */
  lemma TablesShareNames()
    ensures Keys(InvalidPatterns) == PatternNames
    ensures Keys(DelayedInvalidPatterns) == PatternNames
  {
  }

  /** The statuses the five entries are served with, in declaration order. */
  lemma PatternStatuses(table: seq<Pattern>)
    requires Keys(table) == PatternNames
    ensures seq(5, i requires 0 <= i < 5 => StatusFor(table[i].name)) == [200, 200, 200, 422, 400]
  {
    assert forall i | 0 <= i < 5 :: table[i].name == PatternNames[i];
  }

  /** The first field `MonsterSchema` checks, read off a served payload. */
  function NameOf(body: Json): Value {
    Member(body, "name")
  }

  /** The status of each entry of either table against the `name` of its payload. */
  lemma EntryStatusReflectsName(table: seq<Pattern>, i: nat)
    requires table == InvalidPatterns || table == DelayedInvalidPatterns
    requires i < 5
    ensures StatusFor(table[i].name) == 400 <==> NameOf(table[i].data).None?
    ensures StatusFor(table[i].name) == 422 <==> NameOf(table[i].data).Some? && NameOf(table[i].data).value.JNum?
  {
    TablesShareNames();
    PatternStatuses(table);
    assert StatusFor(table[i].name) == [200, 200, 200, 422, 400][i];
  }

  /** What `formatZodError` says about each entry of either table, in declaration order. */
  const ZodMessages := [
    "name: " + Schema.TypeMessage("string", "null"),
    "name: " + Schema.NameRequired,
    "types: " + Schema.TypesRequired,
    "name: " + Schema.TypeMessage("string", "number"),
    "name: " + Schema.Required
  ]

  /** When `name` fails, `formatZodError` reports the first `name` issue. */
  lemma FirstIssueAtName(data: Json, isUrl: string -> bool)
    requires data.JObj? && Schema.NameIssues(Member(data, "name")) != []
    ensures Schema.FormatZodError(Schema.MonsterIssues(Some(data), isUrl))
      == "name: " + Schema.NameIssues(Member(data, "name"))[0].message
  {
    var name := Schema.NameIssues(Member(data, "name"));
    var issues := Schema.MonsterIssues(Some(data), isUrl);
    assert issues == name + Schema.TypesIssues(Member(data, "types")) + Schema.ImageIssues(Member(data, "image"), isUrl);
    assert issues[0] == name[0];
    Schema.FormatTopLevelIssue(issues, "name");
  }

  /** When `name` passes and `types` is an empty array, `formatZodError` reports the length check. */
  lemma FirstIssueAtTypes(data: Json, isUrl: string -> bool)
    requires data.JObj? && Schema.NameIssues(Member(data, "name")) == []
    requires Member(data, "types") == Some(JArr([]))
    ensures Schema.FormatZodError(Schema.MonsterIssues(Some(data), isUrl)) == "types: " + Schema.TypesRequired
  {
    var types := Schema.TypesIssues(Member(data, "types"));
    var issues := Schema.MonsterIssues(Some(data), isUrl);
    assert types == [Schema.Issue([Schema.PathKey("types")], Schema.TypesRequired)];
    assert issues == [] + types + Schema.ImageIssues(Member(data, "image"), isUrl);
    Schema.FormatTopLevelIssue(issues, "types");
  }

  /** The first schema issue of each payload, whatever counts as a URL. */
  lemma PatternsFirstIssues(table: seq<Pattern>, isUrl: string -> bool, i: nat)
    requires table == InvalidPatterns || table == DelayedInvalidPatterns
    requires i < 5
    ensures Schema.MonsterIssues(Some(table[i].data), isUrl) != []
    ensures Schema.FormatZodError(Schema.MonsterIssues(Some(table[i].data), isUrl)) == ZodMessages[i]
  {
    var data := table[i].data;
    var name := Member(data, "name");
    if i == 0 {
      assert name == Some(JNull);
      FirstIssueAtName(data, isUrl);
    } else if i == 1 {
      assert name == Some(JStr(""));
      FirstIssueAtName(data, isUrl);
    } else if i == 2 {
      assert Member(data, "types") == Some(JArr([]));
      assert name.Some? && name.value.JStr? && |name.value.s| >= 1;
      FirstIssueAtTypes(data, isUrl);
    } else if i == 3 {
      assert name.Some? && name.value.JNum?;
      FirstIssueAtName(data, isUrl);
    } else {
      assert name == None;
      FirstIssueAtName(data, isUrl);
    }
  }

  /** No payload either route serves passes `MonsterSchema`, even those sent with status 200. */
  lemma ServedPayloadsAreRejected(d: Draw, isUrl: string -> bool)
    ensures Schema.ValidateMonsterData(Some(RandomMonsterInvalid(d).body), isUrl).Failure?
    ensures Schema.ValidateMonsterData(Some(RandomMonsterInvalidDelay(d).body), isUrl).Failure?
    ensures Schema.ValidateApiResponse(Some(RandomMonsterInvalid(d).body), isUrl) == Schema.Invalid(Schema.InvalidData)
    ensures Schema.ValidateApiResponse(Some(RandomMonsterInvalidDelay(d).body), isUrl) == Schema.Invalid(Schema.InvalidData)
  {
    var r1 := RandomMonsterInvalid(d);
    var i1 :| 0 <= i1 < 5 && r1 == HttpResponse(StatusFor(InvalidPatterns[i1].name), InvalidPatterns[i1].data);
    PatternsFirstIssues(InvalidPatterns, isUrl, i1);
    var r2 := RandomMonsterInvalidDelay(d);
    var i2 :| 0 <= i2 < 5 && r2 == HttpResponse(StatusFor(DelayedInvalidPatterns[i2].name), DelayedInvalidPatterns[i2].data);
    PatternsFirstIssues(DelayedInvalidPatterns, isUrl, i2);
  }
}
