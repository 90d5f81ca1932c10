/**
 * scripts/build-monster.ts: joins `data/pokemon/<id>.json` and
 * `data/species/<id>.json` into `data/monster/<id>.json`, translating the types.
 */
module BuildMonster {
  import opened Wrappers
  import opened Json
  import opened Io
  import opened Projections
  import TypeTranslation

  const MonsterDir := "data/monster"
  const UnknownFallback := "unknown"

  /** `typeof data?.<name> === "string"`. */
  predicate IsStringMember(data: Json, name: string) {
    Member(data, name).Some? && Member(data, name).value.JStr?
  }

  /** `typeof data?.<name> === "number"`. */
  predicate IsNumberMember(data: Json, name: string) {
    Member(data, name).Some? && Member(data, name).value.JNum?
  }

  /** `Array.isArray(data?.types) && data.types.every((t) => typeof t === "string")`. */
  predicate IsStringArrayMember(data: Json, name: string) {
    && Member(data, name).Some? && Member(data, name).value.JArr?
    && forall i | 0 <= i < |Member(data, name).value.items| :: Member(data, name).value.items[i].JStr?
  }

  /** `isPokemonData`. */
  predicate IsPokemonData(data: Json) {
    IsNumberMember(data, "id") && IsStringMember(data, "name") && IsStringArrayMember(data, "types")
    && IsStringMember(data, "image")
  }

  /** `isSpeciesData`. */
  predicate IsSpeciesData(data: Json) {
    IsNumberMember(data, "id") && IsStringMember(data, "name")
  }

  /** The record written to `data/monster/<id>.json`. */
  datatype Monster = Monster(id: int, name: string, types: seq<string>, image: string)

  function MonsterJson(m: Monster): Json {
    JObj(map[
      "id" := JNum(m.id),
      "name" := JStr(m.name),
      "types" := JArr(seq(|m.types|, i requires 0 <= i < |m.types| => JStr(m.types[i]))),
      "image" := JStr(m.image)
    ])
  }

  /** The strings of an array of strings. */
  function StringItems(items: seq<Json>): (r: seq<string>)
    requires forall i | 0 <= i < |items| :: items[i].JStr?
    ensures |r| == |items| && forall i | 0 <= i < |items| :: items[i] == JStr(r[i])
  {
    seq(|items|, i requires 0 <= i < |items| => items[i].s)
  }

  /** `v ?? fallback` read back as a string, as the declared type promises. */
  function StringOr(v: Value, fallback: string): string {
    match Coalesce(v, JStr(fallback))
    case JStr(s) => s
    case _ => fallback
  }

  /** Once a guard has passed, the `?? 'unknown'` and `?? ""` fallbacks are never used. */
  lemma FallbacksUnreachable(pokemon: Json, species: Json)
    requires IsPokemonData(pokemon) && IsSpeciesData(species)
    ensures StringOr(Member(species, "name"), UnknownFallback) == Member(species, "name").value.s
    ensures StringOr(Member(pokemon, "image"), "") == Member(pokemon, "image").value.s
  {
  }

  /** What `buildMonster(id)` reads: each file may be missing (`None`) or unparsable. */
  datatype BuildInput = BuildInput(pokemonFile: Option<StoredFile>, speciesFile: Option<StoredFile>, diskOk: bool)

  /** `readFile` then `JSON.parse`: a missing file or bad JSON throws. */
  function ReadJson(file: Option<StoredFile>): (r: Result<Json>)
    ensures r.Ok? ==> file == Some(Parsed(r.value))
    ensures r.Err? <==> file.None? || file == Some(Unparsable)
  {
    match file
    case None => Err("ENOENT: no such file or directory")
    case Some(Unparsable) => Err("SyntaxError: Unexpected token in JSON")
    case Some(Parsed(json)) => Ok(json)
  }

  /**
   * `buildMonster(id, typeMap)`: the record is the pokemon file's ID, types (translated)
   * and image with the species file's name; any missing file, bad JSON, failed guard
   * or failed write throws.
   */
  function Build(input: BuildInput, typeMap: map<string, string>): (r: Result<Monster>)
    ensures r.Ok? <==>
      && input.pokemonFile.Some? && input.pokemonFile.value.Parsed?
      && input.speciesFile.Some? && input.speciesFile.value.Parsed?
      && IsPokemonData(input.pokemonFile.value.json) && IsSpeciesData(input.speciesFile.value.json)
      && input.diskOk
    ensures r.Ok? ==>
      var pokemon := input.pokemonFile.value.json;
      var species := input.speciesFile.value.json;
      && Some(JNum(r.value.id)) == Member(pokemon, "id")
      && Some(JStr(r.value.name)) == Member(species, "name")
      && Some(JStr(r.value.image)) == Member(pokemon, "image")
      && r.value.types == TypeTranslation.TranslateTypes(StringItems(Member(pokemon, "types").value.items), typeMap)
  {
    var pokemon :- ReadJson(input.pokemonFile);
    var species :- ReadJson(input.speciesFile);
    if !IsPokemonData(pokemon) then Err("Invalid pokemon data")
    else if !IsSpeciesData(species) then Err("Invalid species data")
    else
      var jaName := StringOr(Member(species, "name"), UnknownFallback);
      var jaTypes := TypeTranslation.TranslateTypes(StringItems(Member(pokemon, "types").value.items), typeMap);
      var image := StringOr(Member(pokemon, "image"), "");
      if !input.diskOk then Err("EACCES: cannot write")
      else Ok(Monster(Member(pokemon, "id").value.n, jaName, jaTypes, image))
  }

  /** What the `main` loop did: files written and IDs skipped. */
  datatype BuildRun = BuildRun(writes: seq<Write>, skipped: seq<nat>)

  /** The outcome of `buildMonster` for each ID, in order. */
  function Outcomes(inputs: seq<BuildInput>, typeMap: map<string, string>): (r: seq<Result<Monster>>)
    ensures |r| == |inputs| && forall k | 0 <= k < |inputs| :: r[k] == Build(inputs[k], typeMap)
  {
    seq(|inputs|, k requires 0 <= k < |inputs| => Build(inputs[k], typeMap))
  }

  /**
   * The `for` loop of `main` from ID `first`, over the outcomes of the builds: a failure
   * is logged and skipped, and the loop goes on with the next ID.
   */
  function Loop(outcomes: seq<Result<Monster>>, first: nat): (r: BuildRun)
    ensures |r.writes| + |r.skipped| == |outcomes|
    ensures forall x | x in r.skipped :: first <= x < first + |outcomes|
    ensures forall k | 0 <= k < |outcomes| :: outcomes[k].Err? <==> first + k in r.skipped
    ensures forall w | w in r.writes :: exists k | 0 <= k < |outcomes| ::
      outcomes[k].Ok? && w == Write(IdPath(MonsterDir, first + k), MonsterJson(outcomes[k].value))
    decreases |outcomes|
  {
    if |outcomes| == 0 then BuildRun([], [])
    else
      var rest := Loop(outcomes[1..], first + 1);
      assert forall k | 1 <= k < |outcomes| :: outcomes[k] == outcomes[1..][k - 1];
      match outcomes[0]
      case Ok(m) => BuildRun([Write(IdPath(MonsterDir, first), MonsterJson(m))] + rest.writes, rest.skipped)
      case Err(_) => BuildRun(rest.writes, [first] + rest.skipped)
  }

  /** Every ID whose build succeeds is written by the loop, whatever happened before it. */
  lemma {:induction false} LoopWrites(outcomes: seq<Result<Monster>>, first: nat, k: nat)
    requires k < |outcomes| && outcomes[k].Ok?
    ensures Write(IdPath(MonsterDir, first + k), MonsterJson(outcomes[k].value)) in Loop(outcomes, first).writes
    decreases k
  {
    var r := Loop(outcomes, first);
    if k == 0 {
      assert r.writes[0] == Write(IdPath(MonsterDir, first), MonsterJson(outcomes[0].value));
    } else {
      var rest := Loop(outcomes[1..], first + 1);
      LoopWrites(outcomes[1..], first + 1, k - 1);
      assert outcomes[1..][k - 1] == outcomes[k];
      assert forall w | w in rest.writes :: w in r.writes;
    }
  }

  /**
   * `main`'s loop from ID `first` over the given inputs: a failed build is skipped, a
   * successful one written to `data/monster/<id>.json`.
   */
  function BuildFrom(inputs: seq<BuildInput>, first: nat, typeMap: map<string, string>): (r: BuildRun)
    ensures |r.writes| + |r.skipped| == |inputs|
    ensures forall x | x in r.skipped :: first <= x < first + |inputs|
    ensures forall k | 0 <= k < |inputs| :: Build(inputs[k], typeMap).Err? <==> first + k in r.skipped
    ensures forall w | w in r.writes :: exists k | 0 <= k < |inputs| ::
      Build(inputs[k], typeMap).Ok? && w == Write(IdPath(MonsterDir, first + k), MonsterJson(Build(inputs[k], typeMap).value))
  {
    Loop(Outcomes(inputs, typeMap), first)
  }

  /** `main`: IDs 1..10 in order. */
  function BuildMain(inputs: seq<BuildInput>, typeMap: map<string, string>): (r: BuildRun)
    requires |inputs| == 10
    ensures |r.writes| + |r.skipped| == 10
    ensures forall x | x in r.skipped :: 1 <= x <= 10
    ensures forall k | 0 <= k < 10 :: Build(inputs[k], typeMap).Err? <==> k + 1 in r.skipped
    ensures forall k | 0 <= k < 10 && Build(inputs[k], typeMap).Ok? ::
      Write(IdPath(MonsterDir, k + 1), MonsterJson(Build(inputs[k], typeMap).value)) in r.writes
    ensures forall w | w in r.writes :: exists k | 0 <= k < 10 ::
      Build(inputs[k], typeMap).Ok? && w == Write(IdPath(MonsterDir, k + 1), MonsterJson(Build(inputs[k], typeMap).value))
  {
    var r := BuildFrom(inputs, 1, typeMap);
    assert forall k | 0 <= k < 10 && Build(inputs[k], typeMap).Ok? ::
      Write(IdPath(MonsterDir, k + 1), MonsterJson(Build(inputs[k], typeMap).value)) in r.writes by {
      forall k | 0 <= k < 10 && Build(inputs[k], typeMap).Ok?
        ensures Write(IdPath(MonsterDir, k + 1), MonsterJson(Build(inputs[k], typeMap).value)) in r.writes
      {
        EveryBuiltIdIsWritten(inputs, 1, typeMap, k);
      }
    }
    r
  }

  /** Every ID that builds is written, whatever happened to the IDs before it. */
  lemma EveryBuiltIdIsWritten(inputs: seq<BuildInput>, first: nat, typeMap: map<string, string>, k: nat)
    requires k < |inputs| && Build(inputs[k], typeMap).Ok?
    ensures Write(IdPath(MonsterDir, first + k), MonsterJson(Build(inputs[k], typeMap).value)) in BuildFrom(inputs, first, typeMap).writes
  {
    LoopWrites(Outcomes(inputs, typeMap), first, k);
  }

  // ---------------------------------------------------------------------------
  // From the API to the monster file
  // ---------------------------------------------------------------------------

  /** A file written by fetch-all-pokemon.ts from a well-formed payload passes `isPokemonData`. */
  lemma FetchedPokemonPassesGuard(p: PokemonPayload)
    requires |p.baseStats| == 6
    ensures ProjectPokemon(EncodePokemon(p)).Ok?
    ensures var file := PokemonJson(ProjectPokemon(EncodePokemon(p)).value);
      && IsPokemonData(file)
      && Member(file, "id") == Some(JNum(p.id))
      && Member(file, "image") == Some(JStr(p.artwork))
      && StringItems(Member(file, "types").value.items) == p.typeNames
  {
    ProjectEncodedPokemon(p);
    RecordPassesGuard(ProjectPokemon(EncodePokemon(p)).value, p);
  }

  /** The file of a record projected from a well-formed payload passes `isPokemonData`. */
  lemma RecordPassesGuard(rec: PokemonRecord, p: PokemonPayload)
    requires rec.id == Some(JNum(p.id)) && rec.name == Some(JStr(p.name))
    requires rec.types == TypeValues(p.typeNames) && rec.image == Some(JStr(p.artwork))
    ensures var file := PokemonJson(rec);
      && IsPokemonData(file)
      && Member(file, "id") == Some(JNum(p.id))
      && Member(file, "image") == Some(JStr(p.artwork))
      && StringItems(Member(file, "types").value.items) == p.typeNames
  {
    PokemonJsonMembers(rec);
    var items := seq(|rec.types|, i requires 0 <= i < |rec.types| => ElementJson(rec.types[i]));
    assert forall i | 0 <= i < |items| :: items[i] == JStr(p.typeNames[i]);
    assert StringItems(items) == p.typeNames;
  }

  /** The members of a written pokemon file. */
  lemma PokemonJsonMembers(r: PokemonRecord)
    ensures Member(PokemonJson(r), "id") == r.id
    ensures Member(PokemonJson(r), "name") == r.name
    ensures Member(PokemonJson(r), "image") == r.image
    ensures Member(PokemonJson(r), "types") == Some(JArr(seq(|r.types|, i requires 0 <= i < |r.types| => ElementJson(r.types[i]))))
  {
  }

  /** A file written by fetch-species.ts from a well-formed payload passes `isSpeciesData`. */
  lemma FetchedSpeciesPassesGuard(id: int, names: seq<LocalName>)
    ensures ProjectSpecies(EncodeSpecies(id, names)).Ok?
    ensures var file := SpeciesJson(ProjectSpecies(EncodeSpecies(id, names)).value);
      && IsSpeciesData(file)
      && Member(file, "name") == Some(JStr(FirstJaHrktName(names).GetOr(UnknownName)))
  {
    ProjectEncodedSpecies(id, names);
  }

  /**
   * End to end: from well-formed API payloads, the monster file holds the pokemon's ID,
   * the first `ja-Hrkt` name (or `不明`), the translated type names in order, and the
   * artwork URL.
   */
  lemma BuildFromFetchedFiles(p: PokemonPayload, speciesId: int, names: seq<LocalName>, typeMap: map<string, string>)
    requires |p.baseStats| == 6
    ensures ProjectPokemon(EncodePokemon(p)).Ok? && ProjectSpecies(EncodeSpecies(speciesId, names)).Ok?
    ensures ProjectPokemon(EncodePokemon(p)).Ok? && ProjectSpecies(EncodeSpecies(speciesId, names)).Ok? ==>
      var input := BuildInput(
        Some(Parsed(PokemonJson(ProjectPokemon(EncodePokemon(p)).value))),
        Some(Parsed(SpeciesJson(ProjectSpecies(EncodeSpecies(speciesId, names)).value))),
        true);
      Build(input, typeMap) == Ok(Monster(p.id, FirstJaHrktName(names).GetOr(UnknownName),
                                          TypeTranslation.TranslateTypes(p.typeNames, typeMap), p.artwork))
  {
    FetchedPokemonPassesGuard(p);
    FetchedSpeciesPassesGuard(speciesId, names);
  }
}
