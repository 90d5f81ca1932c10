/**
 * src/utils/pokemonData.ts: reading the raw species mirror back from disk.
 */
module PokemonData {
  import opened Wrappers
  import opened Strings
  import opened Json
  import opened Io
  import opened Sequences
  import FetchScripts
  import Retry

  /** The directory both loaders read, `data/raw-species`. */
  const SpeciesDir := "data/raw-species"

  /**
   * `loadPokemonData(id)`: `null` when the file does not exist or cannot be read or
   * parsed, otherwise the parsed content as it is.
   */
  function LoadPokemonData(disk: Disk, id: nat): (r: Option<Json>)
    ensures r.Some? <==> IdPath(SpeciesDir, id) in disk && disk[IdPath(SpeciesDir, id)].Parsed?
    ensures r.Some? ==> disk[IdPath(SpeciesDir, id)] == Parsed(r.value)
  {
    var path := IdPath(SpeciesDir, id);
    if path !in disk then None
    else match disk[path]
      case Unparsable => None
      case Parsed(json) => Some(json)
  }

  /** The raw species mirror writes into the directory the loader reads. */
  lemma SameDirectory()
    ensures FetchScripts.RawDir(FetchScripts.RawSpecies) == SpeciesDir
  {
  }

  /**
   * A species payload stored by the raw mirror is loaded back unchanged: after the
   * mirror's writes, `loadPokemonData(id)` returns the body of the attempt that was
   * stored.
   */
  lemma LoadAfterRawSave(disk: Disk, id: nat, attempts: seq<Retry.Attempt>)
    requires Retry.MaxRetry <= |attempts|
    requires |FetchScripts.FetchAndSaveRaw(FetchScripts.RawSpecies, id, attempts).writes| == 1
    ensures var save := FetchScripts.FetchAndSaveRaw(FetchScripts.RawSpecies, id, attempts);
      LoadPokemonData(Apply(disk, save.writes), id)
        == Some(attempts[save.run.attempts - 1].fetch.body.value)
  {
    var save := FetchScripts.FetchAndSaveRaw(FetchScripts.RawSpecies, id, attempts);
    assert Apply(disk, save.writes) == disk[save.writes[0].path := Parsed(save.writes[0].content)];
  }

  // ---------------------------------------------------------------------------
  // loadAllPokemonIds
  // ---------------------------------------------------------------------------

  /** What `existsSync` and `readdirSync` report for the directory. */
  datatype Listing = DirMissing | DirError | Files(names: seq<string>)

  /** `parseInt(file.replace('.json', ''), 10)`; `None` is NaN. */
  function FileId(name: string): Option<int> {
    ParseInt(RemoveFirst(name, ".json"))
  }

  /** The ID an entry contributes: only a `.json` entry whose stem parses has one. */
  function EntryId(name: string): Option<int> {
    if EndsWith(name, ".json") then FileId(name) else None
  }

  /** The IDs of the `.json` entries that parse, in directory order. */
  function ListedIds(names: seq<string>): (r: seq<int>)
    ensures forall x :: x in r <==> exists n | n in names :: EndsWith(n, ".json") && FileId(n) == Some(x)
  {
    FilterMap(names, EntryId)
  }

  /** The numeric comparator `(a, b) => a - b` sorts by the number itself. */
  function Numeric(x: int): int {
    x
  }

  /**
   * `loadAllPokemonIds()`: the IDs named by the `.json` files, ascending, repeats
   * kept; `[]` when the directory is missing or cannot be read.
   */
  function LoadAllPokemonIds(listing: Listing): (r: seq<int>)
    ensures !listing.Files? ==> r == []
    ensures listing.Files? ==> multiset(r) == multiset(ListedIds(listing.names))
    ensures forall i, j | 0 <= i < j < |r| :: r[i] <= r[j]
    ensures forall x :: x in r <==>
      listing.Files? && exists n | n in listing.names :: EndsWith(n, ".json") && FileId(n) == Some(x)
  {
    match listing
    case DirMissing => []
    case DirError => []
    case Files(names) =>
      var r := SortBy(ListedIds(names), Numeric);
      SameElements(r, ListedIds(names));
      r
  }

  /** `readdirSync` of a directory holding the files `<n>.json` for the given IDs. */
  function IdFileNames(ids: seq<nat>): (r: seq<string>)
    ensures |r| == |ids|
    ensures forall k | 0 <= k < |ids| :: r[k] == NatToString(ids[k]) + ".json"
  {
    seq(|ids|, k requires 0 <= k < |ids| => NatToString(ids[k]) + ".json")
  }

  /** A file written as `<n>.json` is read back as ID `n`. */
  lemma FileIdOfIdFile(n: nat)
    ensures EndsWith(NatToString(n) + ".json", ".json")
    ensures FileId(NatToString(n) + ".json") == Some(n)
  {
    var d := NatToString(n);
    var name := d + ".json";
    assert name[|d|..] == ".json";
    assert OccursAt(name, ".json", |d|);
    forall j | 0 <= j < |d| ensures !OccursAt(name, ".json", j) {
      assert name[j] == d[j];
      assert IsDigit(d[j]);
      assert name[j] != '.';
    }
    var i := IndexOf(name, ".json");
    assert i == Some(|d|);
    assert RemoveFirst(name, ".json") == d;
    ParseIntRoundTrip(n);
    assert IntToString(n) == d;
  }

  /** Only the `.json` entries count, and an entry whose stem is not a number is dropped. */
  lemma IdFilesListed(ids: seq<nat>)
    ensures ListedIds(IdFileNames(ids)) == ids
  {
    var names := IdFileNames(ids);
    forall k | 0 <= k < |ids| ensures EntryId(names[k]) == Some(ids[k] as int) {
      FileIdOfIdFile(ids[k]);
    }
    FilterMapTotal(names, EntryId, ids);
  }

  /** The IDs of the files the species scripts wrote are listed back, in ascending order. */
  lemma LoadWrittenIds(ids: seq<nat>)
    ensures multiset(LoadAllPokemonIds(Files(IdFileNames(ids)))) == multiset(ids)
    ensures forall x: int :: x in LoadAllPokemonIds(Files(IdFileNames(ids))) <==> x in ids
  {
    IdFilesListed(ids);
    assert multiset(ListedIds(IdFileNames(ids))) == multiset(ids);
  }
}
