/**
 * The per-ID retry/backoff policy shared by the bulk fetch scripts
 * (scripts/monster-all/fetch-all-*.ts, scripts/monster-all-raw/fetch-raw-*.ts):
 * up to five attempts, a doubling delay between them, and a silent give-up.
 */
module Retry {
  import opened Wrappers
  import opened Json
  import opened Io

  const MaxRetry: nat := 5
  const BaseDelayMs: nat := 500

  function Pow2(k: nat): (r: nat)
    ensures r >= 1
  {
    if k == 0 then 1 else 2 * Pow2(k - 1)
  }

  /** The delay requested after the `failures`-th failure: `500 * Math.pow(2, failures - 1)`. */
  function Backoff(failures: nat): nat
    requires failures >= 1
  {
    BaseDelayMs * Pow2(failures - 1)
  }

  /** Each delay doubles the previous one. */
  lemma BackoffDoubles(k: nat)
    requires k >= 1
    ensures Backoff(k + 1) == 2 * Backoff(k)
  {
  }

  /** The inputs one pass through the `try` block sees: the fetch and whether mkdir/writeFile succeed. */
  datatype Attempt = Attempt(fetch: FetchResult, diskOk: bool)

  /**
   * One pass through the `try` block: fetch, reject a non-ok status (when the script
   * checks it), parse the body, project it, write it. `None` means the block threw.
   */
  function AttemptOnce<T>(a: Attempt, checkStatus: bool, project: Json -> Result<T>): (r: Option<T>)
    ensures r.Some? <==>
      && a.fetch.Response?
      && (a.fetch.ok || !checkStatus)
      && a.fetch.body.Some?
      && project(a.fetch.body.value).Ok?
      && a.diskOk
    ensures r.Some? ==> r.value == project(a.fetch.body.value).value
  {
    match a.fetch
    case NetworkError => None
    case Response(ok, _, body) =>
      if checkStatus && !ok then None
      else if body.None? then None
      else
        match project(body.value)
        case Err(_) => None
        case Ok(record) => if a.diskOk then Some(record) else None
  }

  /** What the retry loop did for one ID: attempts made, delays requested, record written. */
  datatype RetryRun<T> = RetryRun(attempts: nat, delays: seq<nat>, saved: Option<T>)

  /**
   * The `while (attempt < MAX_RETRY)` loop entered after `failures` failed attempts;
   * `outcomes[j]` is what attempt `j` (from 0) produces, `None` when it throws.
   */
  function RetryFrom<T>(outcomes: seq<Option<T>>, failures: nat): (run: RetryRun<T>)
    requires failures < MaxRetry <= |outcomes|
    ensures failures < run.attempts <= MaxRetry
    ensures |run.delays| == run.attempts - failures - 1
    ensures forall k | 0 <= k < |run.delays| :: run.delays[k] == Backoff(failures + k + 1)
    ensures forall j | failures <= j < run.attempts - 1 :: outcomes[j].None?
    ensures run.saved.Some? ==> outcomes[run.attempts - 1] == run.saved
    ensures run.saved.None? ==> run.attempts == MaxRetry && outcomes[MaxRetry - 1].None?
    decreases MaxRetry - failures
  {
    match outcomes[failures]
    case Some(record) => RetryRun(failures + 1, [], Some(record))
    case None =>
      if failures + 1 >= MaxRetry then RetryRun(failures + 1, [], None)
      else
        var rest := RetryFrom(outcomes, failures + 1);
        RetryRun(rest.attempts, [Backoff(failures + 1)] + rest.delays, rest.saved)
  }

  /** `fetchAndSave…(id)` for one ID, from its first attempt. It never throws. */
  function Retry<T>(outcomes: seq<Option<T>>): (run: RetryRun<T>)
    requires MaxRetry <= |outcomes|
    ensures 1 <= run.attempts <= MaxRetry
    ensures |run.delays| == run.attempts - 1
    ensures forall j | 0 <= j < run.attempts - 1 :: outcomes[j].None?
  {
    RetryFrom(outcomes, 0)
  }

  /** Index of the first successful attempt among the first `MaxRetry`, if any. */
  function FirstSuccess<T>(outcomes: seq<Option<T>>, from: nat): (r: Option<nat>)
    requires MaxRetry <= |outcomes|
    ensures r.Some? ==> from <= r.value < MaxRetry && outcomes[r.value].Some?
    ensures r.Some? ==> forall j | from <= j < r.value :: outcomes[j].None?
    ensures r.None? ==> forall j | from <= j < MaxRetry :: outcomes[j].None?
    decreases MaxRetry - from
  {
    if from >= MaxRetry then None
    else if outcomes[from].Some? then Some(from)
    else FirstSuccess(outcomes, from + 1)
  }

  /**
   * The loop writes the record of the first successful attempt and makes no further
   * attempt; when all five attempts fail it writes nothing.
   */
  lemma RetryStopsAtFirstSuccess<T>(outcomes: seq<Option<T>>)
    requires MaxRetry <= |outcomes|
    ensures match FirstSuccess(outcomes, 0)
      case Some(j) => Retry(outcomes).attempts == j + 1 && Retry(outcomes).saved == outcomes[j]
      case None => Retry(outcomes).attempts == MaxRetry && Retry(outcomes).saved.None?
  {
  }

  /** The delays requested are a prefix of the schedule 500, 1000, 2000, 4000 ms. */
  lemma RetryDelaySchedule<T>(outcomes: seq<Option<T>>)
    requires MaxRetry <= |outcomes|
    ensures Retry(outcomes).delays == [500, 1000, 2000, 4000][..Retry(outcomes).attempts - 1]
  {
    var run := Retry(outcomes);
    assert Backoff(1) == 500 && Backoff(2) == 1000 && Backoff(3) == 2000 && Backoff(4) == 4000;
  }

  /** Four failures then a success: five attempts, four delays, one record. */
  lemma FourFailuresThenSuccess<T>(record: T, tail: seq<Option<T>>)
    ensures var run := Retry([None, None, None, None, Some(record)] + tail);
      run == RetryRun(5, [500, 1000, 2000, 4000], Some(record))
  {
    var outcomes := [None, None, None, None, Some(record)] + tail;
    RetryDelaySchedule(outcomes);
    RetryStopsAtFirstSuccess(outcomes);
    assert FirstSuccess(outcomes, 0) == Some(4);
  }

  /** Five failures: five attempts, four delays and no record; later outcomes are never consulted. */
  lemma FiveFailuresGiveUp<T>(tail: seq<Option<T>>)
    ensures var run := Retry([None, None, None, None, None] + tail);
      run == RetryRun(5, [500, 1000, 2000, 4000], None)
  {
    var outcomes: seq<Option<T>> := [None, None, None, None, None] + tail;
    RetryDelaySchedule(outcomes);
    RetryStopsAtFirstSuccess(outcomes);
  }

  /** The outcome of a whole per-ID task: the loop's run and the files it wrote. */
  datatype SaveRun<T> = SaveRun(run: RetryRun<T>, writes: seq<Write>)

  /**
   * A retrying fetch-and-save task for `<dir>/<id>.json`: the record of the first
   * successful attempt is written once, and nothing is written when all attempts fail.
   */
  function SaveWithRetry<T>(dir: string, id: nat, attempts: seq<Attempt>, checkStatus: bool,
                            project: Json -> Result<T>, toJson: T -> Json): (r: SaveRun<T>)
    requires MaxRetry <= |attempts|
    ensures 1 <= r.run.attempts <= MaxRetry
    ensures |r.writes| <= 1
    ensures |r.writes| == 0 ==> r.run.attempts == MaxRetry
    ensures |r.writes| == 1 <==>
      exists j | 0 <= j < MaxRetry :: AttemptOnce(attempts[j], checkStatus, project).Some?
    ensures |r.writes| == 1 ==>
      && r.writes[0].path == IdPath(dir, id)
      && r.run.saved.Some?
      && r.writes[0].content == toJson(r.run.saved.value)
      && r.run.saved == AttemptOnce(attempts[r.run.attempts - 1], checkStatus, project)
    ensures forall j | 0 <= j < r.run.attempts - 1 :: AttemptOnce(attempts[j], checkStatus, project).None?
    ensures r.run.delays == [500, 1000, 2000, 4000][..r.run.attempts - 1]
  {
    var outcomes := seq(|attempts|, j requires 0 <= j < |attempts| => AttemptOnce(attempts[j], checkStatus, project));
    var run := Retry(outcomes);
    RetryStopsAtFirstSuccess(outcomes);
    RetryDelaySchedule(outcomes);
    SaveRun(run, if run.saved.Some? then [Write(IdPath(dir, id), toJson(run.saved.value))] else [])
  }
}
