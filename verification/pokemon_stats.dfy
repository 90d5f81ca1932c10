/**
 * src/pages/pokemon-stats.tsx: the base-stat table with a total column, the search,
 * sorting by any column in either direction, and the colour scales.
 */
module PokemonStats {
  import opened Strings
  import opened Sequences
  import opened Monsters
  import TypeTranslation
  import JsObject

  // ---------------------------------------------------------------------------
  // Totals
  // ---------------------------------------------------------------------------

  /** `stats.reduce((sum, stat) => sum + stat, 0)`. */
  function Sum(xs: seq<int>): int {
    if |xs| == 0 then 0 else xs[0] + Sum(xs[1..])
  }

  /** A row of the table: the monster and the sum of its six stats. */
  datatype Row = Row(monster: Monster, total: int)

  /** `monstersWithTotal`. */
  function WithTotals(monsters: seq<Monster>): (r: seq<Row>)
    ensures |r| == |monsters|
    ensures forall k | 0 <= k < |monsters| :: r[k].monster == monsters[k]
    ensures forall k | 0 <= k < |monsters| ::
      (var s := monsters[k].stats; r[k].total == s[0] + s[1] + s[2] + s[3] + s[4] + s[5])
  {
    SumsOfSix(monsters);
    seq(|monsters|, k requires 0 <= k < |monsters| => Row(monsters[k], Sum(monsters[k].stats)))
  }

  function SixSum(s: Stats): int {
    s[0] + s[1] + s[2] + s[3] + s[4] + s[5]
  }

  lemma SumsOfSix(monsters: seq<Monster>)
    ensures forall k | 0 <= k < |monsters| :: Sum(monsters[k].stats) == SixSum(monsters[k].stats)
  {
    forall k | 0 <= k < |monsters| ensures Sum(monsters[k].stats) == SixSum(monsters[k].stats) {
      SumOfSix(monsters[k].stats);
    }
  }

  lemma SumOfSix(s: Stats)
    ensures Sum(s) == SixSum(s)
  {
    assert Sum(s[5..]) == s[5] + Sum(s[5..][1..]);
    assert Sum(s[4..]) == s[4] + Sum(s[4..][1..]);
    assert Sum(s[3..]) == s[3] + Sum(s[3..][1..]);
    assert Sum(s[2..]) == s[2] + Sum(s[2..][1..]);
    assert Sum(s[1..]) == s[1] + Sum(s[1..][1..]);
    assert s[5..][1..] == [];
    assert s[4..][1..] == s[5..];
    assert s[3..][1..] == s[4..];
    assert s[2..][1..] == s[3..];
    assert s[1..][1..] == s[2..];
  }

  // ---------------------------------------------------------------------------
  // Search and sort
  // ---------------------------------------------------------------------------

  function Matches(term: string): Row -> bool {
    (row: Row) => MatchesSearch(row.monster, term)
  }

  /** The sortable columns, in the order of the table. */
  datatype Column = Id | Hp | Attack | Defense | SpAttack | SpDefense | Speed | Total

  datatype Direction = Asc | Desc

  /** `sortBy` and `sortOrder`. */
  datatype SortState = SortState(column: Column, direction: Direction)

  /** The initial state: by ID, ascending. */
  const InitialSort := SortState(Id, Asc)

  /** The number a column compares: the ID, one of the six stats, or the total. */
  function ColumnValue(row: Row, column: Column): int {
    match column
    case Id => row.monster.id
    case Hp => row.monster.stats[0]
    case Attack => row.monster.stats[1]
    case Defense => row.monster.stats[2]
    case SpAttack => row.monster.stats[3]
    case SpDefense => row.monster.stats[4]
    case Speed => row.monster.stats[5]
    case Total => row.total
  }

  /** `valueA - valueB` ascending, `valueB - valueA` descending, as an ascending key. */
  function SortKey(state: SortState): Row -> int {
    (row: Row) => if state.direction == Asc then ColumnValue(row, state.column) else -ColumnValue(row, state.column)
  }

  /** `filteredAndSortedMonsters`: the matching rows, ordered by the chosen column and direction. */
  function Displayed(rows: seq<Row>, term: string, state: SortState): (r: seq<Row>)
    ensures multiset(r) == multiset(Filter(rows, Matches(term)))
    ensures forall row :: row in r <==> row in rows && MatchesSearch(row.monster, term)
    ensures state.direction == Asc ==> forall i, j | 0 <= i < j < |r| ::
      ColumnValue(r[i], state.column) <= ColumnValue(r[j], state.column)
    ensures state.direction == Desc ==> forall i, j | 0 <= i < j < |r| ::
      ColumnValue(r[i], state.column) >= ColumnValue(r[j], state.column)
    ensures forall k :: WithKey(r, SortKey(state), k) == WithKey(Filter(rows, Matches(term)), SortKey(state), k)
  {
    var f := Filter(rows, Matches(term));
    var r := SortBy(f, SortKey(state));
    forall k ensures WithKey(r, SortKey(state), k) == WithKey(f, SortKey(state), k) {
      SortStable(f, SortKey(state), k);
    }
    SameElements(r, f);
    FilterMembers(rows, Matches(term));
    DirectionOrder(r, state);
    r
  }

  lemma DirectionOrder(r: seq<Row>, state: SortState)
    requires SortedBy(r, SortKey(state))
    ensures state.direction == Asc ==> forall i, j | 0 <= i < j < |r| ::
      ColumnValue(r[i], state.column) <= ColumnValue(r[j], state.column)
    ensures state.direction == Desc ==> forall i, j | 0 <= i < j < |r| ::
      ColumnValue(r[i], state.column) >= ColumnValue(r[j], state.column)
  {
    var key := SortKey(state);
    forall i, j | 0 <= i < j < |r| ensures key(r[i]) <= key(r[j]) {
    }
  }

  /** Changing only the direction shows the same rows. */
  lemma OppositeDirectionsSameRows(rows: seq<Row>, term: string, column: Column)
    ensures multiset(Displayed(rows, term, SortState(column, Asc)))
         == multiset(Displayed(rows, term, SortState(column, Desc)))
  {
  }

  // ---------------------------------------------------------------------------
  // Column headers
  // ---------------------------------------------------------------------------

  /** `handleSort(column)`: the same column flips the direction, a new one starts descending. */
  function HandleSort(state: SortState, column: Column): (r: SortState)
    ensures r.column == column
    ensures state.column != column ==> r.direction == Desc
    ensures state.column == column ==> r.direction != state.direction
  {
    if state.column == column then SortState(column, if state.direction == Asc then Desc else Asc)
    else SortState(column, Desc)
  }

  /** Clicking the sorted column twice restores the sort. */
  lemma HandleSortTwice(state: SortState)
    ensures HandleSort(HandleSort(state, state.column), state.column) == state
  {
  }

  /** Clicking a new column twice sorts it ascending. */
  lemma NewColumnTwiceIsAscending(state: SortState, column: Column)
    requires state.column != column
    ensures HandleSort(HandleSort(state, column), column) == SortState(column, Asc)
  {
  }

  const Unsorted := "\U{2195}\U{FE0F}"
  const Up := "\U{2191}"
  const Down := "\U{2193}"

  /** `getSortIcon(column)`. */
  function SortIcon(state: SortState, column: Column): (r: string)
    ensures r == Unsorted <==> state.column != column
    ensures r == Up <==> state.column == column && state.direction == Asc
    ensures r == Down <==> state.column == column && state.direction.Desc?
  {
    assert Up != Down && Unsorted != Up && Unsorted != Down;
    if state.column != column then Unsorted
    else if state.direction == Asc then Up
    else Down
  }

  /** The arrow shown on the sorted column matches the order of the rows. */
  lemma IconMatchesOrder(rows: seq<Row>, term: string, state: SortState, i: nat, j: nat)
    requires i < j < |Displayed(rows, term, state)|
    ensures var r := Displayed(rows, term, state);
      SortIcon(state, state.column) == Up ==> ColumnValue(r[i], state.column) <= ColumnValue(r[j], state.column)
    ensures var r := Displayed(rows, term, state);
      SortIcon(state, state.column) == Down ==> ColumnValue(r[i], state.column) >= ColumnValue(r[j], state.column)
  {
  }

  // ---------------------------------------------------------------------------
  // Colour scales
  // ---------------------------------------------------------------------------

  /** The six colours from lowest band to highest. */
  const Palette: seq<string> := ["#64748b", "#0891b2", "#65a30d", "#d97706", "#ea580c", "#dc2626"]

  /** The lower bounds of the five upper bands of `getStatColor`. */
  const StatBounds: seq<int> := [60, 80, 100, 120, 150]

  /** The lower bounds of the five upper bands of `getTotalColor`. */
  const TotalBounds: seq<int> := [300, 400, 500, 600, 700]

  /** How many of the increasing bounds `x` reaches: its band, from 0. */
  function Band(x: int, bounds: seq<int>): (r: nat)
    ensures r <= |bounds|
  {
    if |bounds| == 0 || x < bounds[0] then 0 else 1 + Band(x, bounds[1..])
  }

  /** `getStatColor(stat)`. */
  function StatColor(stat: int): (r: string)
    ensures r == Palette[Band(stat, StatBounds)]
  {
    FiveBands(stat, StatBounds);
    if stat >= 150 then "#dc2626"
    else if stat >= 120 then "#ea580c"
    else if stat >= 100 then "#d97706"
    else if stat >= 80 then "#65a30d"
    else if stat >= 60 then "#0891b2"
    else "#64748b"
  }

  /** `getTotalColor(total)`. */
  function TotalColor(total: int): (r: string)
    ensures r == Palette[Band(total, TotalBounds)]
  {
    FiveBands(total, TotalBounds);
    if total >= 700 then "#dc2626"
    else if total >= 600 then "#ea580c"
    else if total >= 500 then "#d97706"
    else if total >= 400 then "#65a30d"
    else if total >= 300 then "#0891b2"
    else "#64748b"
  }

  /** The band among five increasing bounds, written out. */
  lemma FiveBands(x: int, b: seq<int>)
    requires |b| == 5
    ensures Band(x, b) ==
      if x < b[0] then 0 else if x < b[1] then 1 else if x < b[2] then 2
      else if x < b[3] then 3 else if x < b[4] then 4 else 5
  {
    assert b[4..][1..] == [];
    assert b[3..][1..] == b[4..];
    assert b[2..][1..] == b[3..];
    assert b[1..][1..] == b[2..];
    assert Band(x, b[4..]) == if x < b[4] then 0 else 1;
    assert Band(x, b[3..]) == if x < b[3] then 0 else 1 + Band(x, b[4..]);
    assert Band(x, b[2..]) == if x < b[2] then 0 else 1 + Band(x, b[3..]);
    assert Band(x, b[1..]) == if x < b[1] then 0 else 1 + Band(x, b[2..]);
  }

  /** Bands only grow with the value: a higher stat never gets a lower colour. */
  lemma {:induction false} BandMonotone(x: int, y: int, bounds: seq<int>)
    requires x <= y
    ensures Band(x, bounds) <= Band(y, bounds)
    decreases |bounds|
  {
    if |bounds| > 0 && x >= bounds[0] {
      BandMonotone(x, y, bounds[1..]);
    }
  }

  /** The band of a value: every bound below it is reached and none above. */
  lemma {:induction false} BandBounds(x: int, bounds: seq<int>)
    requires forall i, j | 0 <= i < j < |bounds| :: bounds[i] < bounds[j]
    ensures forall i | 0 <= i < Band(x, bounds) :: bounds[i] <= x
    ensures Band(x, bounds) < |bounds| ==> x < bounds[Band(x, bounds)]
    decreases |bounds|
  {
    if |bounds| > 0 && x >= bounds[0] {
      BandBounds(x, bounds[1..]);
      forall i | 1 <= i < Band(x, bounds) ensures bounds[i] <= x {
        assert bounds[i] == bounds[1..][i - 1];
      }
    }
  }

  // ---------------------------------------------------------------------------
  // Type badges
  // ---------------------------------------------------------------------------

  const DefaultTypeColor := "#68A090"

  /** The badge colours of `getTypeColor`, keyed by the one-character labels. */
  const TypeColors: map<string, string> := map[
    "草" := "#78C850", "毒" := "#A040A0", "炎" := "#F08030", "水" := "#6890F0",
    "虫" := "#A8B820", "飛" := "#A890F0", "電" := "#F8D030", "超" := "#F85888",
    "氷" := "#98D8D8", "竜" := "#7038F8", "悪" := "#705848", "闘" := "#C03028",
    "地" := "#E0C068", "岩" := "#B8A038", "鋼" := "#B8B8D0", "妖" := "#EE99AC",
    "霊" := "#705898", "普" := "#A8A878"
  ]

  /** `getTypeColor(type)` over own keys: the badge colour, or the default. */
  function TypeColor(t: string): (r: string)
    ensures t in TypeColors ==> r == TypeColors[t]
    ensures t !in TypeColors ==> r == DefaultTypeColor
  {
    if t in TypeColors then TypeColors[t] else DefaultTypeColor
  }

  /** The colour table covers exactly the labels the type translation produces. */
  lemma ColorsCoverLabels()
    ensures TypeColors.Keys == TypeTranslation.JapaneseLabels()
  {
    TypeTranslation.LabelsAreListed();
    assert forall x :: x in TypeColors.Keys <==> x in TypeTranslation.JapaneseTypes;
  }

  /** No badge colour is the default one. */
  lemma NoColorIsDefault()
    ensures forall k | k in TypeColors :: TypeColors[k] != DefaultTypeColor
  {
    assert forall k | k in TypeColors :: TypeColors[k] in TypeColors.Values;
    assert DefaultTypeColor !in TypeColors.Values;
  }

  /** Every translated type gets its own badge colour, never the default. */
  lemma TranslatedTypesAreColored(english: string)
    requires english in TypeTranslation.TypeTable
    ensures TypeColor(TypeTranslation.TranslateSinglePokemonType(english)) != DefaultTypeColor
  {
    ColorsCoverLabels();
    NoColorIsDefault();
    assert TypeTranslation.TranslateSinglePokemonType(english) in TypeColors;
  }

  /** `typeColors[type] || '#68A090'` as written: an inherited built-in is truthy and is returned. */
  function TypeColorAsWritten(t: string): (r: TypeTranslation.Label)
    ensures t !in JsObject.PrototypeMembers ==> r == TypeTranslation.Text(TypeColor(t))
  {
    match JsObject.LookupKey(TypeColors, t)
    case Own(color) => TypeTranslation.Text(color)
    case Inherited(member) => TypeTranslation.Builtin(member)
    case Missing => TypeTranslation.Text(DefaultTypeColor)
  }

  /** A type named `constructor` gets a function instead of the default colour. */
  lemma PrototypeKeyIsNotDefaultColor()
    ensures TypeColorAsWritten("constructor") == TypeTranslation.Builtin("constructor")
    ensures TypeColor("constructor") == DefaultTypeColor
  {
    assert "constructor" !in TypeColors by {
      assert |"constructor"| != 1;
      assert forall k | k in TypeColors :: |k| == 1;
    }
  }
}
