/**
 * The `Monster` record the two list pages work on (src/types/monster.ts), the search
 * both pages apply, and the `getStaticProps` loader they share.
 */
module Monsters {
  import opened Wrappers
  import opened Strings
  import opened Sequences

  /** HP, attack, defense, special attack, special defense, speed. */
  type Stats = s: seq<int> | |s| == 6 witness [0, 0, 0, 0, 0, 0]

  datatype Monster = Monster(id: int, name: string, types: seq<string>, stats: Stats, image: string)

  // ---------------------------------------------------------------------------
  // Search
  // ---------------------------------------------------------------------------

  /**
   * `monster.name.toLowerCase().includes(term.toLowerCase()) ||
   * monster.id.toString().includes(term)`.
   */
  predicate MatchesSearch(m: Monster, term: string)
    ensures MatchesSearch(m, term) <==> OccursIn(ToLower(m.name), ToLower(term)) || OccursIn(IntToString(m.id), term)
  {
    ContainsIffOccurs(ToLower(m.name), ToLower(term));
    ContainsIffOccurs(IntToString(m.id), term);
    Contains(ToLower(m.name), ToLower(term)) || Contains(IntToString(m.id), term)
  }

  /** An empty search box hides nothing. */
  lemma EmptySearchMatchesAll(m: Monster)
    ensures MatchesSearch(m, "")
  {
    ContainsEmpty(IntToString(m.id));
  }

  /** A monster is found by its full number, and by any piece of its lower-cased name. */
  lemma SearchFindsOwnKeys(m: Monster, i: nat, j: nat)
    requires i <= j <= |m.name|
    ensures MatchesSearch(m, IntToString(m.id))
    ensures MatchesSearch(m, ToLower(m.name)[i..j])
  {
    var id := IntToString(m.id);
    assert OccursAt(id, id, 0);
    ContainsIffOccurs(id, id);
    var low := ToLower(m.name);
    var piece := low[i..j];
    assert forall k | 0 <= k < |piece| :: 'A' <= piece[k] <= 'Z' ==> false;
    assert ToLower(piece) == piece;
    assert OccursAt(low, piece, i);
    ContainsIffOccurs(low, piece);
  }

  // ---------------------------------------------------------------------------
  // getStaticProps: every `data/monster/*.json`, sorted by ID
  // ---------------------------------------------------------------------------

  /** A directory entry: its name and, for a file that reads and parses, its record. */
  datatype Entry = Entry(name: string, content: Option<Monster>)

  /** What `fs.readdir` returns, or its rejection. */
  datatype Directory = Unreadable | Listed(entries: seq<Entry>)

  /** The entries the loop opens. */
  predicate IsJsonEntry(e: Entry) {
    EndsWith(e.name, ".json")
  }

  /**
   * The `for … of files` loop: the records of the `.json` entries in listing order,
   * or `None` when one of them throws in `readFile` or `JSON.parse`.
   */
  function ReadAll(entries: seq<Entry>): (r: Option<seq<Monster>>)
    ensures r.Some? <==> forall k | 0 <= k < |entries| && IsJsonEntry(entries[k]) :: entries[k].content.Some?
    ensures r.Some? ==> forall m :: m in r.value <==>
      exists k | 0 <= k < |entries| :: IsJsonEntry(entries[k]) && entries[k].content == Some(m)
    decreases |entries|
  {
    if |entries| == 0 then Some([])
    else
      var rest := ReadAll(entries[1..]);
      assert forall k | 1 <= k < |entries| :: entries[k] == entries[1..][k - 1];
      if !IsJsonEntry(entries[0]) then
        (if rest.Some? then
          assert forall m :: m in rest.value ==>
            exists k | 0 <= k < |entries| :: IsJsonEntry(entries[k]) && entries[k].content == Some(m) by {
            forall m | m in rest.value
              ensures exists k | 0 <= k < |entries| :: IsJsonEntry(entries[k]) && entries[k].content == Some(m)
            {
              var k :| 0 <= k < |entries[1..]| && IsJsonEntry(entries[1..][k]) && entries[1..][k].content == Some(m);
              assert entries[k + 1] == entries[1..][k];
            }
          }
          rest
        else rest)
      else if entries[0].content.None? then None
      else if rest.None? then None
      else
        assert forall m :: m in rest.value ==>
          exists k | 0 <= k < |entries| :: IsJsonEntry(entries[k]) && entries[k].content == Some(m) by {
          forall m | m in rest.value
            ensures exists k | 0 <= k < |entries| :: IsJsonEntry(entries[k]) && entries[k].content == Some(m)
          {
            var k :| 0 <= k < |entries[1..]| && IsJsonEntry(entries[1..][k]) && entries[1..][k].content == Some(m);
            assert entries[k + 1] == entries[1..][k];
          }
        }
        Some([entries[0].content.value] + rest.value)
  }

  /** The comparator `(a, b) => a.id - b.id`. */
  function ById(m: Monster): int {
    m.id
  }

  /**
   * `getStaticProps` of monster-list.tsx and pokemon-stats.tsx: the records of every
   * `.json` entry sorted by ID (ties in listing order); an unreadable directory or any
   * file that cannot be read or parsed leaves the page with no monsters at all.
   */
  function LoadMonsters(dir: Directory): (r: seq<Monster>)
    ensures forall i, j | 0 <= i < j < |r| :: r[i].id <= r[j].id
    ensures dir.Unreadable? ==> r == []
    ensures dir.Listed? && ReadAll(dir.entries).None? ==> r == []
    ensures dir.Listed? && ReadAll(dir.entries).Some? ==> multiset(r) == multiset(ReadAll(dir.entries).value)
    ensures dir.Listed? && ReadAll(dir.entries).Some? ==>
      forall k :: WithKey(r, ById, k) == WithKey(ReadAll(dir.entries).value, ById, k)
  {
    match dir
    case Unreadable => []
    case Listed(entries) =>
      match ReadAll(entries)
      case None => []
      case Some(ms) =>
        var r := SortBy(ms, ById);
        assert SortedBy(r, ById);
        forall k ensures WithKey(r, ById, k) == WithKey(ms, ById, k) {
          SortStable(ms, ById, k);
        }
        r
  }

  /** The loaded list holds exactly the records of the readable `.json` entries. */
  lemma LoadedMonstersAreTheFiles(entries: seq<Entry>, m: Monster)
    requires forall k | 0 <= k < |entries| && IsJsonEntry(entries[k]) :: entries[k].content.Some?
    ensures m in LoadMonsters(Listed(entries)) <==>
      exists k | 0 <= k < |entries| :: IsJsonEntry(entries[k]) && entries[k].content == Some(m)
  {
    var ms := ReadAll(entries).value;
    assert m in LoadMonsters(Listed(entries)) <==> m in multiset(LoadMonsters(Listed(entries)));
    assert m in ms <==> m in multiset(ms);
  }

  /** One `.json` file that does not parse empties the page, whatever the other files hold. */
  lemma OneBadFileEmptiesPage(entries: seq<Entry>, k: nat)
    requires k < |entries| && IsJsonEntry(entries[k]) && entries[k].content.None?
    ensures LoadMonsters(Listed(entries)) == []
  {
  }

  /** A listing already in ID order is kept as it is. */
  lemma SortedListingKept(entries: seq<Entry>)
    requires ReadAll(entries).Some?
    requires SortedBy(ReadAll(entries).value, ById)
    ensures LoadMonsters(Listed(entries)) == ReadAll(entries).value
  {
    SortSortedIsIdentity(ReadAll(entries).value, ById);
  }
}
