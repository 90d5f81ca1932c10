/**
 * The records the fetch scripts extract from PokeAPI payloads
 * (scripts/monster-all/fetch-all-pokemon.ts, scripts/fetch-pokemon.ts,
 * scripts/monster-all/fetch-all-forms.ts, scripts/fetch-species.ts), and the JSON
 * objects `JSON.stringify` writes for them.
 */
module Projections {
  import opened Wrappers
  import opened Strings
  import opened Json

  // ---------------------------------------------------------------------------
  // Shared helpers
  // ---------------------------------------------------------------------------

  /** `v.map(...)` / `v.find(...)`: only an array has these methods; anything else throws. */
  function ArrayItems(v: Value, what: string): (r: Result<seq<Json>>)
    ensures r.Ok? <==> v.Some? && v.value.JArr?
    ensures r.Ok? ==> r.value == v.value.items
  {
    if v.Some? && v.value.JArr? then Ok(v.value.items)
    else Err("TypeError: " + what + " is not a function")
  }

  /** The properties `names[i]: vals[i]` of an object literal, `undefined` ones dropped by `JSON.stringify`. */
  function Props(names: seq<string>, vals: seq<Value>): (m: map<string, Json>)
    requires |names| == |vals|
    ensures m.Keys <= set i | 0 <= i < |names| :: names[i]
  {
    if |names| == 0 then map[]
    else
      var n := |names| - 1;
      Props(names[..n], vals[..n]) + Prop(names[n], vals[n])
  }

  /** With distinct names, reading property `names[i]` back gives `vals[i]`. */
  lemma {:induction false} PropsLookup(names: seq<string>, vals: seq<Value>, i: nat)
    requires |names| == |vals| && Distinct(names) && i < |names|
    ensures Member(JObj(Props(names, vals)), names[i]) == vals[i]
  {
    var n := |names| - 1;
    var front := Props(names[..n], vals[..n]);
    assert Props(names, vals) == front + Prop(names[n], vals[n]);
    if i < n {
      PropsLookup(names[..n], vals[..n], i);
      assert names[..n][i] == names[i];
      assert names[i] !in Prop(names[n], vals[n]);
    } else {
      assert names[i] in Prop(names[n], vals[n]) <==> vals[i].Some?;
    }
  }

  /** Each of `names` read from `data`. */
  function Members(data: Json, names: seq<string>): (r: seq<Value>)
    ensures |r| == |names|
    ensures forall i | 0 <= i < |names| :: r[i] == Member(data, names[i])
  {
    seq(|names|, i requires 0 <= i < |names| => Member(data, names[i]))
  }

  /** Writing the properties and reading them back is the identity. */
  lemma MembersOfProps(names: seq<string>, vals: seq<Value>)
    requires |names| == |vals| && Distinct(names)
    ensures Members(JObj(Props(names, vals)), names) == vals
  {
    forall i | 0 <= i < |names|
      ensures Members(JObj(Props(names, vals)), names)[i] == vals[i]
    {
      PropsLookup(names, vals, i);
    }
  }

  // ---------------------------------------------------------------------------
  // fetch-all-pokemon.ts: id, name, types, six stats, artwork
  // ---------------------------------------------------------------------------

  /** The record `fetchAndSavePokemon` writes; `undefined` members stay `None`. */
  datatype PokemonRecord = PokemonRecord(id: Value, name: Value, types: seq<Value>, stats: seq<JsNumber>, image: Value)

  /** `Number(data.stats[i].base_stat)`. */
  function StatAt(data: Json, i: nat): (r: Result<JsNumber>) {
    var stats :- Get(Some(data), Field("stats"));
    var entry :- Get(stats, Index(i));
    var base :- Get(entry, Field("base_stat"));
    Ok(ToNumber(base))
  }

  /** `t.type.name` for one element of `data.types`. */
  function TypeName(t: Json): Result<Value> {
    Path(Some(t), [Field("type"), Field("name")])
  }

  /** `data.sprites.other["official-artwork"].front_default`. */
  const ArtworkPath: seq<Key> := [Field("sprites"), Field("other"), Field("official-artwork"), Field("front_default")]

  /** `data.types.map((t) => t.type.name)`. */
  function TypeNames(data: Json): (r: Result<seq<Value>>)
    ensures r.Ok? <==>
      && Member(data, "types").Some? && Member(data, "types").value.JArr?
      && forall i | 0 <= i < |Member(data, "types").value.items| :: TypeName(Member(data, "types").value.items[i]).Ok?
    ensures r.Ok? ==>
      var items := Member(data, "types").value.items;
      |r.value| == |items| && forall i | 0 <= i < |items| :: r.value[i] == TypeName(items[i]).value
  {
    var items :- ArrayItems(Member(data, "types"), "data.types.map");
    MapResult(items, TypeName)
  }

  /** `Number(data.stats[i].base_stat)` for the positions below `n`, in order: the first throw aborts. */
  function StatsBelow(data: Json, n: nat): (r: Result<seq<JsNumber>>)
    ensures r.Ok? <==> forall i | 0 <= i < n :: StatAt(data, i).Ok?
    ensures r.Ok? ==> |r.value| == n && forall i | 0 <= i < n :: r.value[i] == StatAt(data, i).value
  {
    if n == 0 then Ok([])
    else
      var init :- StatsBelow(data, n - 1);
      var x :- StatAt(data, n - 1);
      Ok(init + [x])
  }

  /** The six base stats of lines 28-33, HP to Speed. */
  function Stats(data: Json): (r: Result<seq<JsNumber>>)
    ensures r.Ok? <==> forall i | 0 <= i < 6 :: StatAt(data, i).Ok?
    ensures r.Ok? ==> |r.value| == 6 && forall i | 0 <= i < 6 :: r.value[i] == StatAt(data, i).value
  {
    StatsBelow(data, 6)
  }

  /** The body of the `try` block from `res.json()` to the record (lines 26-41); an `Err` is an exception. */
  function ProjectPokemon(data: Json): (r: Result<PokemonRecord>)
    ensures r.Ok? <==> Stats(data).Ok? && TypeNames(data).Ok? && Path(Some(data), ArtworkPath).Ok?
    ensures r.Ok? ==> r.value == PokemonRecord(Member(data, "id"), Member(data, "name"),
      TypeNames(data).value, Stats(data).value, Path(Some(data), ArtworkPath).value)
  {
    var stats :- Stats(data);
    // Once `data.stats` has been read, `data` is not null and reading its members cannot throw.
    var types :- TypeNames(data);
    var image :- Path(Some(data), ArtworkPath);
    Ok(PokemonRecord(Member(data, "id"), Member(data, "name"), types, stats, image))
  }

  /** A payload without `stats` or without `sprites` throws inside the `try`. */
  lemma MalformedPokemonThrows(data: Json)
    requires Member(data, "stats").None? || Member(data, "sprites").None?
    ensures ProjectPokemon(data).Err?
  {
    if Member(data, "stats").None? {
      assert !StatAt(data, 0).Ok?;
      assert !Stats(data).Ok?;
    } else {
      assert !Path(Some(data), ArtworkPath).Ok?;
    }
  }

  /** `JSON.stringify(result)`: `undefined` members are dropped, `undefined`/NaN array entries become `null`. */
  function PokemonJson(r: PokemonRecord): Json {
    JObj(Prop("id", r.id) + Prop("name", r.name)
      + map["types" := JArr(seq(|r.types|, i requires 0 <= i < |r.types| => ElementJson(r.types[i])))]
      + map["stats" := JArr(seq(|r.stats|, i requires 0 <= i < |r.stats| => NumberJson(r.stats[i])))]
      + Prop("image", r.image))
  }

  /** The part of a well-formed PokeAPI `/pokemon/{id}` payload the scripts read. */
  datatype PokemonPayload = PokemonPayload(id: int, name: string, typeNames: seq<string>, baseStats: seq<int>, artwork: string)

  function TypeEntry(name: string): Json {
    JObj(map["type" := JObj(map["name" := JStr(name)])])
  }

  function StatEntry(base: int): Json {
    JObj(map["base_stat" := JNum(base)])
  }

  /** The payload as the API sends it. */
  function EncodePokemon(p: PokemonPayload): Json {
    JObj(map[
      "id" := JNum(p.id),
      "name" := JStr(p.name),
      "types" := JArr(seq(|p.typeNames|, i requires 0 <= i < |p.typeNames| => TypeEntry(p.typeNames[i]))),
      "stats" := JArr(seq(|p.baseStats|, i requires 0 <= i < |p.baseStats| => StatEntry(p.baseStats[i]))),
      "sprites" := JObj(map["other" := JObj(map["official-artwork" := JObj(map["front_default" := JStr(p.artwork)])])])
    ])
  }

  function TypeValues(names: seq<string>): (r: seq<Value>)
    ensures |r| == |names| && forall i | 0 <= i < |names| :: r[i] == Some(JStr(names[i]))
  {
    seq(|names|, i requires 0 <= i < |names| => Some(JStr(names[i])))
  }

  function StatNumbers(base: seq<int>): (r: seq<JsNumber>)
    ensures |r| == |base| && forall i | 0 <= i < |base| :: r[i] == Num(base[i])
  {
    seq(|base|, i requires 0 <= i < |base| => Num(base[i]))
  }

  /**
   * On a well-formed payload the projection keeps the ID and name, the type names in
   * order, the six base stats in order, and the official artwork URL.
   */
  lemma ProjectEncodedPokemon(p: PokemonPayload)
    requires |p.baseStats| == 6
    ensures ProjectPokemon(EncodePokemon(p)) == Ok(PokemonRecord(
      Some(JNum(p.id)), Some(JStr(p.name)), TypeValues(p.typeNames), StatNumbers(p.baseStats), Some(JStr(p.artwork))))
  {
    var data := EncodePokemon(p);
    EncodedStats(p);
    EncodedTypes(p);
    EncodedArtwork(p);
    EncodedIdAndName(p);
    ProjectFromParts(data);
  }

  lemma EncodedIdAndName(p: PokemonPayload)
    ensures Member(EncodePokemon(p), "id") == Some(JNum(p.id))
    ensures Member(EncodePokemon(p), "name") == Some(JStr(p.name))
  {
  }

  /** The projection is assembled from its four reads. */
  lemma ProjectFromParts(data: Json)
    requires Stats(data).Ok? && TypeNames(data).Ok? && Path(Some(data), ArtworkPath).Ok?
    ensures ProjectPokemon(data) == Ok(PokemonRecord(Member(data, "id"), Member(data, "name"),
      TypeNames(data).value, Stats(data).value, Path(Some(data), ArtworkPath).value))
  {
  }

  lemma EncodedStats(p: PokemonPayload)
    requires |p.baseStats| == 6
    ensures Stats(EncodePokemon(p)) == Ok(StatNumbers(p.baseStats))
  {
    var data := EncodePokemon(p);
    var stats := JArr(seq(|p.baseStats|, i requires 0 <= i < |p.baseStats| => StatEntry(p.baseStats[i])));
    assert Member(data, "stats") == Some(stats);
    forall i | 0 <= i < 6 ensures StatAt(data, i) == Ok(Num(p.baseStats[i])) {
      assert Get(Some(stats), Index(i)) == Ok(Some(StatEntry(p.baseStats[i])));
    }
    assert Stats(data).Ok?;
    var got := Stats(data).value;
    var want := StatNumbers(p.baseStats);
    assert |got| == |want|;
    forall i | 0 <= i < 6 ensures got[i] == want[i] {
      assert got[i] == StatAt(data, i).value;
    }
    assert got == want;
  }

  lemma EncodedTypes(p: PokemonPayload)
    ensures TypeNames(EncodePokemon(p)) == Ok(TypeValues(p.typeNames))
  {
    var data := EncodePokemon(p);
    var items := seq(|p.typeNames|, i requires 0 <= i < |p.typeNames| => TypeEntry(p.typeNames[i]));
    assert Member(data, "types") == Some(JArr(items));
    forall i | 0 <= i < |items| ensures TypeName(items[i]) == Ok(Some(JStr(p.typeNames[i]))) {
      assert Get(Some(items[i]), Field("type")) == Ok(Some(JObj(map["name" := JStr(p.typeNames[i])])));
    }
    assert TypeNames(data).Ok?;
    var got := TypeNames(data).value;
    var want := TypeValues(p.typeNames);
    assert |got| == |want|;
    forall i | 0 <= i < |got| ensures got[i] == want[i] {
      assert got[i] == TypeName(items[i]).value;
    }
    assert got == want;
  }

  lemma EncodedArtwork(p: PokemonPayload)
    ensures Path(Some(EncodePokemon(p)), ArtworkPath) == Ok(Some(JStr(p.artwork)))
  {
    var data := EncodePokemon(p);
    var art := JObj(map["front_default" := JStr(p.artwork)]);
    var other := JObj(map["official-artwork" := art]);
    var sprites := JObj(map["other" := other]);
    assert Member(data, "sprites") == Some(sprites);
    assert Path(Some(art), ArtworkPath[3..]) == Ok(Some(JStr(p.artwork)));
    assert Path(Some(other), ArtworkPath[2..]) == Ok(Some(JStr(p.artwork)));
    assert Path(Some(sprites), ArtworkPath[1..]) == Ok(Some(JStr(p.artwork)));
  }

  // ---------------------------------------------------------------------------
  // fetch-pokemon.ts: the same record without stats
  // ---------------------------------------------------------------------------

  datatype BasicRecord = BasicRecord(id: Value, name: Value, types: seq<Value>, image: Value)

  /** The object literal of `fetchAndSavePokemon` in fetch-pokemon.ts (lines 17-22). */
  function ProjectBasic(data: Json): (r: Result<BasicRecord>)
    ensures r.Ok? <==> TypeNames(data).Ok? && Path(Some(data), ArtworkPath).Ok?
    ensures r.Ok? ==> r.value == BasicRecord(Member(data, "id"), Member(data, "name"), TypeNames(data).value, Path(Some(data), ArtworkPath).value)
  {
    if data == JNull then Err("TypeError: cannot read properties of null")
    else
      var types :- TypeNames(data);
      var image :- Path(Some(data), ArtworkPath);
      Ok(BasicRecord(Member(data, "id"), Member(data, "name"), types, image))
  }

  /** Where the full projection succeeds, the basic one succeeds with the same four members. */
  lemma BasicAgreesWithFull(data: Json)
    requires ProjectPokemon(data).Ok?
    ensures var full := ProjectPokemon(data).value;
      ProjectBasic(data) == Ok(BasicRecord(full.id, full.name, full.types, full.image))
  {
  }

  /** The basic projection does not read `stats`: a payload without them still projects. */
  lemma BasicIgnoresStats(p: PokemonPayload)
    requires |p.baseStats| == 6
    ensures var data := JObj(EncodePokemon(p).fields - {"stats"});
      ProjectBasic(data).Ok? && ProjectPokemon(data).Err?
  {
    var full := EncodePokemon(p);
    var data := JObj(full.fields - {"stats"});
    EncodedTypes(p);
    EncodedArtwork(p);
    SameReads(full, data);
    MalformedPokemonThrows(data);
  }

  /** The type names and the artwork depend only on the `types` and `sprites` members. */
  lemma SameReads(a: Json, b: Json)
    requires a.JObj? && b.JObj?
    requires Member(a, "types") == Member(b, "types") && Member(a, "sprites") == Member(b, "sprites")
    ensures TypeNames(a) == TypeNames(b)
    ensures Path(Some(a), ArtworkPath) == Path(Some(b), ArtworkPath)
  {
    assert Get(Some(a), ArtworkPath[0]) == Get(Some(b), ArtworkPath[0]);
  }

  /** The written object has the members `id`, `name`, `types`, `image` and nothing else. */
  function BasicJson(r: BasicRecord): (j: Json)
    ensures j.JObj? && "types" in j.fields && "stats" !in j.fields
    ensures j.fields.Keys <= {"id", "name", "types", "image"}
  {
    JObj(Prop("id", r.id) + Prop("name", r.name)
      + map["types" := JArr(seq(|r.types|, i requires 0 <= i < |r.types| => ElementJson(r.types[i])))]
      + Prop("image", r.image))
  }

  // ---------------------------------------------------------------------------
  // fetch-all-forms.ts: the FormData projection
  // ---------------------------------------------------------------------------

  /** The scalar members copied from the top level, in the order of the object literal. */
  const FormFields: seq<string> := ["id", "name", "form_name", "is_default", "is_battle_only", "is_mega", "order", "form_order"]
  const PokemonRefFields: seq<string> := ["name", "url"]
  const SpriteFields: seq<string> := ["front_default", "front_shiny", "back_default", "back_shiny"]

  /** One entry of `types`: `{slot, type: {name, url}}`. */
  datatype FormType = FormType(slot: Value, typeRef: seq<Value>)

  /** The record `fetchAndSaveForm` writes. */
  datatype FormRecord = FormRecord(fields: seq<Value>, pokemon: seq<Value>, sprites: seq<Value>, types: seq<FormType>)

  predicate WellSized(r: FormRecord) {
    && |r.fields| == |FormFields| && |r.pokemon| == |PokemonRefFields| && |r.sprites| == |SpriteFields|
    && forall i | 0 <= i < |r.types| :: |r.types[i].typeRef| == |PokemonRefFields|
  }

  /** `({slot: t.slot, type: {name: t.type.name, url: t.type.url}})`. */
  function ProjectFormType(t: Json): (r: Result<FormType>)
    ensures r.Ok? <==> t != JNull && !Nullish(Member(t, "type"))
    ensures r.Ok? ==> r.value == FormType(Member(t, "slot"), Members(Member(t, "type").value, PokemonRefFields))
  {
    if t == JNull then Err("TypeError: cannot read properties of null")
    else
      var typeObj := Member(t, "type");
      if Nullish(typeObj) then Err("TypeError: cannot read properties of " + if typeObj.None? then "undefined" else "null")
      else Ok(FormType(Member(t, "slot"), Members(typeObj.value, PokemonRefFields)))
  }

  /** The object literal of `fetchAndSaveForm` (lines 50-76). */
  function ProjectForm(data: Json): (r: Result<FormRecord>)
    ensures r.Ok? <==>
      && data != JNull
      && !Nullish(Member(data, "pokemon")) && !Nullish(Member(data, "sprites"))
      && Member(data, "types").Some? && Member(data, "types").value.JArr?
      && forall i | 0 <= i < |Member(data, "types").value.items| :: ProjectFormType(Member(data, "types").value.items[i]).Ok?
    ensures r.Ok? ==>
      && r.value.fields == Members(data, FormFields)
      && r.value.pokemon == Members(Member(data, "pokemon").value, PokemonRefFields)
      && r.value.sprites == Members(Member(data, "sprites").value, SpriteFields)
      && |r.value.types| == |Member(data, "types").value.items|
      && forall i | 0 <= i < |r.value.types| :: Ok(r.value.types[i]) == ProjectFormType(Member(data, "types").value.items[i])
  {
    if data == JNull then Err("TypeError: cannot read properties of null")
    else
      var pokemonRef := Member(data, "pokemon");
      var sprites := Member(data, "sprites");
      if Nullish(pokemonRef) then Err("TypeError: cannot read properties of data.pokemon")
      else if Nullish(sprites) then Err("TypeError: cannot read properties of data.sprites")
      else
        var items :- ArrayItems(Member(data, "types"), "data.types.map");
        var types :- MapResult(items, ProjectFormType);
        Ok(FormRecord(Members(data, FormFields), Members(pokemonRef.value, PokemonRefFields),
                      Members(sprites.value, SpriteFields), types))
  }

  function FormTypeJson(t: FormType): Json
    requires |t.typeRef| == |PokemonRefFields|
  {
    JObj(Prop("slot", t.slot) + map["type" := JObj(Props(PokemonRefFields, t.typeRef))])
  }

  /** Every member of the written object, in the order of the literal. */
  const FormKeys: seq<string> := FormFields + ["pokemon", "sprites", "types"]

  /** `JSON.stringify(result)` for a form record. */
  function FormJson(r: FormRecord): Json
    requires WellSized(r)
  {
    JObj(Props(FormKeys, r.fields + [
      Some(JObj(Props(PokemonRefFields, r.pokemon))),
      Some(JObj(Props(SpriteFields, r.sprites))),
      Some(JArr(seq(|r.types|, i requires 0 <= i < |r.types| => FormTypeJson(r.types[i]))))
    ]))
  }

  /** Every projected record has the sizes the literal gives it. */
  lemma ProjectedFormWellSized(data: Json)
    requires ProjectForm(data).Ok?
    ensures WellSized(ProjectForm(data).value)
  {
  }

  lemma FormFieldsDistinct()
    ensures Distinct(FormFields) && Distinct(PokemonRefFields) && Distinct(SpriteFields)
    ensures Distinct(FormKeys)
  {
  }

  /**
   * The projection loses nothing it copies: projecting a written form file again
   * yields the same record, so every copied member is stored unchanged.
   */
  lemma FormRoundTrip(r: FormRecord)
    requires WellSized(r)
    ensures ProjectForm(FormJson(r)) == Ok(r)
  {
    FormTopMembers(r);
    FormFieldsDistinct();
    MembersOfProps(PokemonRefFields, r.pokemon);
    MembersOfProps(SpriteFields, r.sprites);
    var items := seq(|r.types|, i requires 0 <= i < |r.types| => FormTypeJson(r.types[i]));
    forall i | 0 <= i < |items| ensures ProjectFormType(items[i]) == Ok(r.types[i]) {
      FormTypeRoundTrip(r.types[i]);
    }
    ProjectFormOfMembers(FormJson(r), items, r);
  }

  /** An object whose members are those of `r`, with type items that project to `r`'s, projects to `r`. */
  lemma ProjectFormOfMembers(data: Json, items: seq<Json>, r: FormRecord)
    requires data.JObj?
    requires Members(data, FormFields) == r.fields
    requires Member(data, "pokemon").Some? && Member(data, "pokemon").value.JObj?
    requires Members(Member(data, "pokemon").value, PokemonRefFields) == r.pokemon
    requires Member(data, "sprites").Some? && Member(data, "sprites").value.JObj?
    requires Members(Member(data, "sprites").value, SpriteFields) == r.sprites
    requires Member(data, "types") == Some(JArr(items)) && |items| == |r.types|
    requires forall i | 0 <= i < |items| :: ProjectFormType(items[i]) == Ok(r.types[i])
    ensures ProjectForm(data) == Ok(r)
  {
    var out := ProjectForm(data);
    assert out.Ok?;
    forall i | 0 <= i < |r.types| ensures out.value.types[i] == r.types[i] {
      assert Ok(out.value.types[i]) == ProjectFormType(items[i]);
    }
    assert out.value.types == r.types;
  }

  lemma FormTypeRoundTrip(t: FormType)
    requires |t.typeRef| == |PokemonRefFields|
    ensures ProjectFormType(FormTypeJson(t)) == Ok(t)
  {
    FormFieldsDistinct();
    MembersOfProps(PokemonRefFields, t.typeRef);
  }

  /** The top-level members of a written form file are the record's. */
  lemma FormTopMembers(r: FormRecord)
    requires WellSized(r)
    ensures Members(FormJson(r), FormFields) == r.fields
    ensures Member(FormJson(r), "pokemon") == Some(JObj(Props(PokemonRefFields, r.pokemon)))
    ensures Member(FormJson(r), "sprites") == Some(JObj(Props(SpriteFields, r.sprites)))
    ensures Member(FormJson(r), "types") == Some(JArr(seq(|r.types|, i requires 0 <= i < |r.types| => FormTypeJson(r.types[i]))))
  {
    FormFieldsDistinct();
    var vals := r.fields + [
      Some(JObj(Props(PokemonRefFields, r.pokemon))),
      Some(JObj(Props(SpriteFields, r.sprites))),
      Some(JArr(seq(|r.types|, i requires 0 <= i < |r.types| => FormTypeJson(r.types[i]))))
    ];
    MembersOfProps(FormKeys, vals);
    var got := Members(FormJson(r), FormKeys);
    assert got[8] == Member(FormJson(r), "pokemon");
    assert got[9] == Member(FormJson(r), "sprites");
    assert got[10] == Member(FormJson(r), "types");
    assert Members(FormJson(r), FormFields) == got[..8];
  }

  // ---------------------------------------------------------------------------
  // fetch-species.ts: the ja-Hrkt name
  // ---------------------------------------------------------------------------

  const JaHrkt := "ja-Hrkt"
  const UnknownName := "不明"

  /** `n.language.name` can be evaluated for this entry. */
  predicate NameEntryReadable(n: Json) {
    !Nullish(Member(n, "language"))
  }

  /** `n.language.name === "ja-Hrkt"`. */
  predicate IsJaHrkt(n: Json) {
    NameEntryReadable(n) && Member(Member(n, "language").value, "name") == Some(JStr(JaHrkt))
  }

  /** `names.find((n) => n.language.name === "ja-Hrkt")` from position `from`, as an index. */
  function FindJaHrkt(names: seq<Json>, from: nat): (r: Result<Option<nat>>)
    requires from <= |names|
    ensures r.Ok? && r.value.Some? ==>
      from <= r.value.value < |names| && IsJaHrkt(names[r.value.value])
      && forall j | from <= j < r.value.value :: NameEntryReadable(names[j]) && !IsJaHrkt(names[j])
    ensures r == Ok(None) ==> forall j | from <= j < |names| :: NameEntryReadable(names[j]) && !IsJaHrkt(names[j])
    ensures r.Err? ==> exists j | from <= j < |names| ::
      !NameEntryReadable(names[j]) && forall k | from <= k < j :: NameEntryReadable(names[k]) && !IsJaHrkt(names[k])
    decreases |names| - from
  {
    if from == |names| then Ok(None)
    else
      var n := names[from];
      var language :- Get(Some(n), Field("language"));
      var code :- Get(language, Field("name"));
      if code == Some(JStr(JaHrkt)) then Ok(Some(from))
      else
        var rest := FindJaHrkt(names, from + 1);
        if rest.Err? then
          ghost var j :| from + 1 <= j < |names| && !NameEntryReadable(names[j])
            && forall k | from + 1 <= k < j :: NameEntryReadable(names[k]) && !IsJaHrkt(names[k]);
          assert forall k | from <= k < j :: NameEntryReadable(names[k]) && !IsJaHrkt(names[k]);
          rest
        else rest
  }

  datatype SpeciesRecord = SpeciesRecord(id: Value, name: Json)

  /** `fetchAndSavePokemon` in fetch-species.ts (lines 15-21). */
  function ProjectSpecies(data: Json): (r: Result<SpeciesRecord>)
    ensures r.Ok? <==>
      Member(data, "names").Some? && Member(data, "names").value.JArr?
      && FindJaHrkt(Member(data, "names").value.items, 0).Ok?
    ensures r.Ok? ==> r.value.id == Member(data, "id")
    ensures r.Ok? && FindJaHrkt(Member(data, "names").value.items, 0) == Ok(None) ==> r.value.name == JStr(UnknownName)
    ensures r.Ok? && FindJaHrkt(Member(data, "names").value.items, 0).value.Some? ==>
      var names := Member(data, "names").value.items;
      var i := FindJaHrkt(names, 0).value.value;
      IsJaHrkt(names[i]) && r.value.name == Coalesce(Member(names[i], "name"), JStr(UnknownName))
  {
    var namesValue :- Get(Some(data), Field("names"));
    var names :- ArrayItems(namesValue, "data.names.find");
    var found :- FindJaHrkt(names, 0);
    var jaName := match found
      case Some(i) => Coalesce(Member(names[i], "name"), JStr(UnknownName))
      case None => JStr(UnknownName);
    Ok(SpeciesRecord(Member(data, "id"), jaName))
  }

  function SpeciesJson(r: SpeciesRecord): (j: Json)
    ensures j.JObj? && j.fields.Keys <= {"id", "name"} && "name" in j.fields
  {
    JObj(Prop("id", r.id) + map["name" := r.name])
  }

  /** One localized name of a well-formed species payload. */
  datatype LocalName = LocalName(language: string, name: string)

  function NameEntry(n: LocalName): Json {
    JObj(map["language" := JObj(map["name" := JStr(n.language)]), "name" := JStr(n.name)])
  }

  function EncodeSpecies(id: int, names: seq<LocalName>): Json {
    JObj(map["id" := JNum(id), "names" := JArr(seq(|names|, i requires 0 <= i < |names| => NameEntry(names[i])))])
  }

  /** Reference: the name of the first entry in language `ja-Hrkt`, if there is one. */
  function FirstJaHrktName(names: seq<LocalName>): Option<string> {
    if |names| == 0 then None
    else if names[0].language == JaHrkt then Some(names[0].name)
    else FirstJaHrktName(names[1..])
  }

  lemma {:induction false} FindOnEncoded(names: seq<LocalName>, entries: seq<Json>, from: nat)
    requires |entries| == |names| && from <= |names|
    requires forall i | 0 <= i < |names| :: entries[i] == NameEntry(names[i])
    ensures FirstJaHrktName(names[from..]).None? ==> FindJaHrkt(entries, from) == Ok(None)
    ensures FirstJaHrktName(names[from..]).Some? ==>
      FindJaHrkt(entries, from).Ok? && FindJaHrkt(entries, from).value.Some?
      && Member(entries[FindJaHrkt(entries, from).value.value], "name") == Some(JStr(FirstJaHrktName(names[from..]).value))
    decreases |names| - from
  {
    if from < |names| {
      assert names[from..][1..] == names[from + 1..];
      assert Member(entries[from], "language") == Some(JObj(map["name" := JStr(names[from].language)]));
      if names[from].language != JaHrkt {
        FindOnEncoded(names, entries, from + 1);
      }
    }
  }

  /**
   * The stored name is that of the first `ja-Hrkt` entry, and `不明` when there is
   * none; the ID is copied.
   */
  lemma ProjectEncodedSpecies(id: int, names: seq<LocalName>)
    ensures ProjectSpecies(EncodeSpecies(id, names))
      == Ok(SpeciesRecord(Some(JNum(id)), JStr(FirstJaHrktName(names).GetOr(UnknownName))))
  {
    var data := EncodeSpecies(id, names);
    var entries := Member(data, "names").value.items;
    FindOnEncoded(names, entries, 0);
    assert names[0..] == names;
  }
}
