/**
 * The per-ID fetch tasks of the ingestion scripts, each an instance of the retry
 * policy or of the plain sequential loop over IDs 1..10.
 */
module FetchScripts {
  import opened Wrappers
  import opened Json
  import opened Io
  import opened Retry
  import opened Projections

  const PokemonDir := "data/pokemon"
  const FormsDir := "data/forms"
  const SpeciesDir := "data/species"

  /** The three verbatim mirrors of scripts/monster-all-raw/. */
  datatype RawKind = RawPokemon | RawSpecies | RawForms

  function RawDir(kind: RawKind): string {
    match kind
    case RawPokemon => "data/raw-pokemon"
    case RawSpecies => "data/raw-species"
    case RawForms => "data/raw-forms"
  }

  /** An attempt that got an ok response with a parsable body, and could write. */
  predicate Delivered(a: Attempt) {
    a.fetch.Response? && a.fetch.ok && a.fetch.body.Some? && a.diskOk
  }

  /** A delivered attempt whose payload projects: the attempt that gets stored. */
  predicate Stores<T>(a: Attempt, project: Json -> Result<T>) {
    Delivered(a) && project(a.fetch.body.value).Ok?
  }

  function StoredRecord<T>(a: Attempt, project: Json -> Result<T>): T
    requires Stores(a, project)
  {
    project(a.fetch.body.value).value
  }

  /** With the status checked, an attempt succeeds exactly when it is delivered and projects. */
  lemma AttemptsSucceedIff<T>(attempts: seq<Attempt>, project: Json -> Result<T>)
    ensures forall j | 0 <= j < |attempts| ::
      AttemptOnce(attempts[j], true, project).Some? <==> Stores(attempts[j], project)
    ensures forall j | 0 <= j < |attempts| && Stores(attempts[j], project) ::
      AttemptOnce(attempts[j], true, project) == Some(StoredRecord(attempts[j], project))
  {
  }

  // ---------------------------------------------------------------------------
  // Retrying tasks (scripts/monster-all/, scripts/monster-all-raw/)
  // ---------------------------------------------------------------------------

  /**
   * The retry policy with the status checked, stated over the attempts that store:
   * the first storing attempt's record is written, every earlier attempt failed, and
   * the delays follow the backoff schedule.
   */
  function StoringRun<T>(dir: string, id: nat, attempts: seq<Attempt>,
                         project: Json -> Result<T>, toJson: T -> Json): (r: SaveRun<T>)
    requires MaxRetry <= |attempts|
    ensures 1 <= r.run.attempts <= MaxRetry && |r.run.delays| == r.run.attempts - 1
    ensures |r.writes| == 1 <==> exists j | 0 <= j < MaxRetry :: Stores(attempts[j], project)
    ensures |r.writes| == 1 ==>
      var a := attempts[r.run.attempts - 1];
      Stores(a, project) && r.writes[0] == Write(IdPath(dir, id), toJson(StoredRecord(a, project)))
    ensures |r.writes| == 0 ==> r.run.attempts == MaxRetry
    ensures forall j | 0 <= j < r.run.attempts - 1 :: AttemptOnce(attempts[j], true, project).None?
    ensures r.run.delays == [500, 1000, 2000, 4000][..r.run.attempts - 1]
  {
    AttemptsSucceedIff(attempts, project);
    SaveWithRetry(dir, id, attempts, true, project, toJson)
  }

  /**
   * `fetchAndSavePokemon` of fetch-all-pokemon.ts: at most five attempts; the first
   * attempt whose response is ok and whose payload projects is written to
   * `data/pokemon/<id>.json`, and nothing is written if there is none.
   */
  function FetchAndSavePokemon(id: nat, attempts: seq<Attempt>): (r: SaveRun<PokemonRecord>)
    requires MaxRetry <= |attempts|
    ensures 1 <= r.run.attempts <= MaxRetry && |r.run.delays| == r.run.attempts - 1
    ensures |r.writes| == 1 <==> exists j | 0 <= j < MaxRetry :: Stores(attempts[j], ProjectPokemon)
    ensures |r.writes| == 1 ==>
      var a := attempts[r.run.attempts - 1];
      && Stores(a, ProjectPokemon)
      && r.writes[0] == Write(IdPath(PokemonDir, id), PokemonJson(StoredRecord(a, ProjectPokemon)))
    ensures |r.writes| == 0 ==> r.run.attempts == MaxRetry
    ensures forall j | 0 <= j < r.run.attempts - 1 :: AttemptOnce(attempts[j], true, ProjectPokemon).None?
    ensures r.run.delays == [500, 1000, 2000, 4000][..r.run.attempts - 1]
  {
    StoringRun(PokemonDir, id, attempts, ProjectPokemon, PokemonJson)
  }

  /**
   * `fetchAndSaveForm` of fetch-all-forms.ts: the same policy with the form projection;
   * the file holds the form literal of the stored record, which projects back to it.
   */
  function FetchAndSaveForm(id: nat, attempts: seq<Attempt>): (r: SaveRun<FormRecord>)
    requires MaxRetry <= |attempts|
    ensures 1 <= r.run.attempts <= MaxRetry && |r.run.delays| == r.run.attempts - 1
    ensures |r.writes| == 1 <==> exists j | 0 <= j < MaxRetry :: Stores(attempts[j], ProjectForm)
    ensures |r.writes| == 1 ==>
      var a := attempts[r.run.attempts - 1];
      && Stores(a, ProjectForm)
      && WellSized(StoredRecord(a, ProjectForm))
      && r.writes[0] == Write(IdPath(FormsDir, id), FormJson(StoredRecord(a, ProjectForm)))
      && ProjectForm(r.writes[0].content) == Ok(StoredRecord(a, ProjectForm))
    ensures |r.writes| == 0 ==> r.run.attempts == MaxRetry
    ensures forall j | 0 <= j < r.run.attempts - 1 :: AttemptOnce(attempts[j], true, ProjectForm).None?
    ensures r.run.delays == [500, 1000, 2000, 4000][..r.run.attempts - 1]
  {
    var r := StoringRun(FormsDir, id, attempts, ProjectForm, FormJsonOf);
    if |r.writes| == 1 then
      var rec := StoredRecord(attempts[r.run.attempts - 1], ProjectForm);
      ProjectedFormWellSized(attempts[r.run.attempts - 1].fetch.body.value);
      assert WellSized(rec);
      FormRoundTrip(rec);
      r
    else r
  }

  /** `JSON.stringify` of a projected form (every projected record is well sized). */
  function FormJsonOf(r: FormRecord): Json {
    if WellSized(r) then FormJson(r) else JNull
  }

  /**
   * `fetchAndSave…Raw` of the three raw mirrors: the parsed body of the first ok
   * response is stored unmodified at `<raw dir>/<id>.json`.
   */
  function FetchAndSaveRaw(kind: RawKind, id: nat, attempts: seq<Attempt>): (r: SaveRun<Json>)
    requires MaxRetry <= |attempts|
    ensures 1 <= r.run.attempts <= MaxRetry && |r.run.delays| == r.run.attempts - 1
    ensures |r.writes| == 1 <==> exists j | 0 <= j < MaxRetry :: Delivered(attempts[j])
    ensures |r.writes| == 1 ==>
      var a := attempts[r.run.attempts - 1];
      Delivered(a) && r.writes[0] == Write(IdPath(RawDir(kind), id), a.fetch.body.value)
    ensures |r.writes| == 0 ==> r.run.attempts == MaxRetry
    ensures forall j | 0 <= j < r.run.attempts - 1 :: !Delivered(attempts[j])
    ensures r.run.delays == [500, 1000, 2000, 4000][..r.run.attempts - 1]
  {
    AttemptsSucceedIff(attempts, (b: Json) => Ok(b));
    SaveWithRetry(RawDir(kind), id, attempts, true, (b: Json) => Ok(b), (b: Json) => b)
  }

  /** A non-ok response is a failed attempt even when its body parses: it is never stored. */
  lemma NonOkIsNeverStored(kind: RawKind, id: nat, attempts: seq<Attempt>)
    requires MaxRetry <= |attempts|
    requires forall j | 0 <= j < MaxRetry :: attempts[j].fetch.Response? && !attempts[j].fetch.ok
    ensures FetchAndSaveRaw(kind, id, attempts).writes == []
    ensures FetchAndSaveRaw(kind, id, attempts).run.delays == [500, 1000, 2000, 4000]
  {
    var outcomes := seq(|attempts|, j requires 0 <= j < |attempts| => AttemptOnce(attempts[j], true, (b: Json) => Ok(b)));
    RetryDelaySchedule(outcomes);
  }

  /** The raw mirrors write to three different directories. */
  lemma RawDirsDistinct(a: RawKind, b: RawKind)
    requires a != b
    ensures RawDir(a) != RawDir(b)
  {
  }

  // ---------------------------------------------------------------------------
  // Sequential scripts (scripts/fetch-pokemon.ts, scripts/fetch-species.ts)
  // ---------------------------------------------------------------------------

  /** The files written, and whether the loop stopped on an exception. */
  datatype SequentialRun = SequentialRun(writes: seq<Write>, aborted: bool)

  /**
   * `for (id = first; …; id++) await fetchAndSave(id)` without retry or status check:
   * IDs are handled in ascending order and the first exception ends the loop.
   */
  function Sequential<T>(dir: string, first: nat, steps: seq<Attempt>,
                         project: Json -> Result<T>, toJson: T -> Json): (r: SequentialRun)
    ensures |r.writes| <= |steps|
    ensures forall k | 0 <= k < |r.writes| ::
      AttemptOnce(steps[k], false, project).Some?
      && r.writes[k] == Write(IdPath(dir, first + k), toJson(AttemptOnce(steps[k], false, project).value))
    ensures r.aborted <==> |r.writes| < |steps|
    ensures r.aborted ==> AttemptOnce(steps[|r.writes|], false, project).None?
    decreases |steps|
  {
    if |steps| == 0 then SequentialRun([], false)
    else
      match AttemptOnce(steps[0], false, project)
      case None => SequentialRun([], true)
      case Some(record) =>
        var rest := Sequential(dir, first + 1, steps[1..], project, toJson);
        SequentialRun([Write(IdPath(dir, first), toJson(record))] + rest.writes, rest.aborted)
  }

  /** `main` of fetch-pokemon.ts over IDs 1..10 (`steps[k]` is what ID k+1 sees). */
  function FetchPokemonMain(steps: seq<Attempt>): (r: SequentialRun)
    requires |steps| == 10
    ensures |r.writes| <= 10
    ensures forall k | 0 <= k < |r.writes| ::
      AttemptOnce(steps[k], false, ProjectBasic).Some?
      && r.writes[k] == Write(IdPath(PokemonDir, k + 1), BasicJson(AttemptOnce(steps[k], false, ProjectBasic).value))
    ensures r.aborted <==> |r.writes| < 10
    ensures r.aborted ==> AttemptOnce(steps[|r.writes|], false, ProjectBasic).None?
  {
    Sequential(PokemonDir, 1, steps, ProjectBasic, BasicJson)
  }

  /** `main` of fetch-species.ts over IDs 1..10. */
  function FetchSpeciesMain(steps: seq<Attempt>): (r: SequentialRun)
    requires |steps| == 10
    ensures |r.writes| <= 10
    ensures forall k | 0 <= k < |r.writes| ::
      AttemptOnce(steps[k], false, ProjectSpecies).Some?
      && r.writes[k] == Write(IdPath(SpeciesDir, k + 1), SpeciesJson(AttemptOnce(steps[k], false, ProjectSpecies).value))
    ensures r.aborted <==> |r.writes| < 10
    ensures r.aborted ==> AttemptOnce(steps[|r.writes|], false, ProjectSpecies).None?
  {
    Sequential(SpeciesDir, 1, steps, ProjectSpecies, SpeciesJson)
  }

  /**
   * An exception at ID `k + 1` stops the loop there: IDs after it are never written,
   * whatever their responses would have been.
   */
  lemma FirstFailureStopsLoop<T>(dir: string, steps: seq<Attempt>, k: nat,
                                 project: Json -> Result<T>, toJson: T -> Json)
    requires k < |steps|
    requires AttemptOnce(steps[k], false, project).None?
    ensures |Sequential(dir, 1, steps, project, toJson).writes| <= k
    ensures Sequential(dir, 1, steps, project, toJson).aborted
  {
  }

  /** The status code is not checked: a 404 whose body projects is still written. */
  lemma StatusIgnored(body: Json)
    requires ProjectBasic(body).Ok?
    ensures var steps := [Attempt(Response(false, 404, Some(body)), true)];
      Sequential(PokemonDir, 1, steps, ProjectBasic, BasicJson).writes
        == [Write(IdPath(PokemonDir, 1), BasicJson(ProjectBasic(body).value))]
  {
  }
}
