/**
 * src/pages/monster-list.tsx: the type menu, the search and type filter, the three
 * sort orders, and pagination by twenty with a five-button window.
 */
module MonsterList {
  import opened Strings
  import opened Sequences
  import opened Monsters

  const ItemsPerPage := 20
  const WindowSize := 5

  // ---------------------------------------------------------------------------
  // The type menu
  // ---------------------------------------------------------------------------

  /** Every type of every monster, in list order, repeats kept. */
  function TypesOf(monsters: seq<Monster>): (r: seq<string>)
    ensures forall t :: t in r <==> exists k | 0 <= k < |monsters| :: t in monsters[k].types
    decreases |monsters|
  {
    if |monsters| == 0 then []
    else
      var rest := TypesOf(monsters[1..]);
      assert forall k | 1 <= k < |monsters| :: monsters[k] == monsters[1..][k - 1];
      monsters[0].types + rest
  }

  /**
   * `allTypes`: `Array.from(new Set(all types)).sort()`, each type once in increasing
   * order, and exactly the types some monster has.
   */
  function AllTypes(monsters: seq<Monster>): (r: seq<string>)
    ensures StrictlySorted(r)
    ensures forall t :: t in r <==> exists k | 0 <= k < |monsters| :: t in monsters[k].types
  {
    var r := SortedDistinct(TypesOf(monsters));
    assert forall t :: t in r <==> t in Elems(r);
    r
  }

  /** The menu lists no type twice. */
  lemma AllTypesDistinct(monsters: seq<Monster>)
    ensures Distinct(AllTypes(monsters))
  {
    var r := AllTypes(monsters);
    forall i, j | 0 <= i < j < |r| ensures r[i] != r[j] {
      StrictlySortedDistinct(r, i, j);
    }
  }

  // ---------------------------------------------------------------------------
  // Filter and sort
  // ---------------------------------------------------------------------------

  /** `matchesSearch && matchesType`, with `''` standing for "all types". */
  predicate Visible(m: Monster, term: string, selectedType: string) {
    MatchesSearch(m, term) && (selectedType == "" || selectedType in m.types)
  }

  function Keep(term: string, selectedType: string): Monster -> bool {
    (m: Monster) => Visible(m, term, selectedType)
  }

  /** `monsters.filter(...)`: the visible monsters in their original order. */
  function Filtered(monsters: seq<Monster>, term: string, selectedType: string): (r: seq<Monster>)
    ensures forall m :: m in r <==> m in monsters && Visible(m, term, selectedType)
    ensures IsSubsequence(r, monsters)
  {
    var r := Filter(monsters, Keep(term, selectedType));
    FilterIsSubsequence(monsters, Keep(term, selectedType));
    assert forall m :: m in r <==> m in multiset(r);
    assert forall m :: m in monsters <==> m in multiset(monsters);
    r
  }

  /** The `sortBy` menu. */
  datatype SortOrder = ById | ByName | ByHp

  /**
   * The comparator as a key: ID ascending, name by the locale ordering `rank` (the
   * order `localeCompare` induces), HP descending.
   */
  function SortKey(order: SortOrder, rank: string -> int): Monster -> int {
    match order
    case ById => Monsters.ById
    case ByName => (m: Monster) => rank(m.name)
    case ByHp => HpDescending
  }

  /** The comparator `b.stats[0] - a.stats[0]` as an ascending key. */
  function HpDescending(m: Monster): int {
    -m.stats[0]
  }

  /** `filteredAndSortedMonsters`. */
  function Displayed(monsters: seq<Monster>, term: string, selectedType: string,
                     order: SortOrder, rank: string -> int): (r: seq<Monster>)
    ensures multiset(r) == multiset(Filtered(monsters, term, selectedType))
    ensures forall m :: m in r <==> m in monsters && Visible(m, term, selectedType)
    ensures order == ById ==> forall i, j | 0 <= i < j < |r| :: r[i].id <= r[j].id
    ensures order == ByName ==> forall i, j | 0 <= i < j < |r| :: rank(r[i].name) <= rank(r[j].name)
    ensures order == ByHp ==> forall i, j | 0 <= i < j < |r| :: r[i].stats[0] >= r[j].stats[0]
    ensures forall k :: WithKey(r, SortKey(order, rank), k) == WithKey(Filtered(monsters, term, selectedType), SortKey(order, rank), k)
  {
    var f := Filtered(monsters, term, selectedType);
    var r := SortBy(f, SortKey(order, rank));
    forall k ensures WithKey(r, SortKey(order, rank), k) == WithKey(f, SortKey(order, rank), k) {
      SortStable(f, SortKey(order, rank), k);
    }
    SameElements(r, f);
    KeyOrder(r, order, rank);
    r
  }

  /** What being sorted by each key means for the monsters' fields. */
  lemma KeyOrder(r: seq<Monster>, order: SortOrder, rank: string -> int)
    requires SortedBy(r, SortKey(order, rank))
    ensures order == ById ==> forall i, j | 0 <= i < j < |r| :: r[i].id <= r[j].id
    ensures order == ByName ==> forall i, j | 0 <= i < j < |r| :: rank(r[i].name) <= rank(r[j].name)
    ensures order == ByHp ==> forall i, j | 0 <= i < j < |r| :: r[i].stats[0] >= r[j].stats[0]
  {
    var key := SortKey(order, rank);
    forall i, j | 0 <= i < j < |r| ensures key(r[i]) <= key(r[j]) {
    }
  }

  /** With an empty search and no type selected, every monster is shown. */
  lemma NoFilterShowsAll(monsters: seq<Monster>)
    ensures Filtered(monsters, "", "") == monsters
  {
    forall m | m in monsters ensures Keep("", "")(m) {
      EmptySearchMatchesAll(m);
    }
    FilterKeepAll(monsters, Keep("", ""));
  }

  /** The list `getStaticProps` delivers is already in ID order, so the default view keeps it. */
  lemma DefaultViewIsLoadedOrder(dir: Directory, rank: string -> int)
    ensures Displayed(LoadMonsters(dir), "", "", ById, rank) == LoadMonsters(dir)
  {
    var ms := LoadMonsters(dir);
    NoFilterShowsAll(ms);
    assert SortedBy(ms, Monsters.ById);
    SortSortedIsIdentity(ms, Monsters.ById);
  }

  // ---------------------------------------------------------------------------
  // Pagination
  // ---------------------------------------------------------------------------

  /** `Math.ceil(n / itemsPerPage)`: the fewest pages of twenty that hold `n` items. */
  function TotalPages(n: nat): (r: nat)
    ensures r * ItemsPerPage >= n
    ensures r > 0 ==> (r - 1) * ItemsPerPage < n
  {
    (n + ItemsPerPage - 1) / ItemsPerPage
  }

  /** `Array.prototype.slice(start, end)`: negative bounds count from the end, then both are clamped. */
  function JsSlice<T>(xs: seq<T>, start: int, end: int): (r: seq<T>)
    ensures 0 <= start <= end <= |xs| ==> r == xs[start..end]
    ensures |r| <= |xs|
  {
    var n := |xs|;
    var from := if start < 0 then Max(n + start, 0) else Min(start, n);
    var to := if end < 0 then Max(n + end, 0) else Min(end, n);
    if from >= to then [] else xs[from..to]
  }

  function Min(a: int, b: int): int {
    if a <= b then a else b
  }

  function Max(a: int, b: int): int {
    if a >= b then a else b
  }

  /** `currentMonsters`: the twenty items of page `page`. */
  function PageSlice<T>(xs: seq<T>, page: int): (r: seq<T>)
    ensures 1 <= page ==> r == xs[Min((page - 1) * ItemsPerPage, |xs|)..Min(page * ItemsPerPage, |xs|)]
    ensures |r| <= ItemsPerPage
  {
    var start := (page - 1) * ItemsPerPage;
    JsSlice(xs, start, start + ItemsPerPage)
  }

  /** Pages `1..k` laid end to end. */
  function FirstPages<T>(xs: seq<T>, k: nat): seq<T> {
    if k == 0 then [] else FirstPages(xs, k - 1) + PageSlice(xs, k)
  }

  lemma {:induction false} FirstPagesArePrefix<T>(xs: seq<T>, k: nat)
    ensures FirstPages(xs, k) == xs[..Min(k * ItemsPerPage, |xs|)]
  {
    if k > 0 {
      FirstPagesArePrefix(xs, k - 1);
    }
  }

  /** The pages `1..totalPages` partition the list: every item appears once, in order. */
  lemma PagesPartition<T>(xs: seq<T>)
    ensures FirstPages(xs, TotalPages(|xs|)) == xs
  {
    FirstPagesArePrefix(xs, TotalPages(|xs|));
  }

  /** Every page before the last is full; the last holds the remainder. */
  lemma PageSizes<T>(xs: seq<T>, page: nat)
    requires 1 <= page <= TotalPages(|xs|)
    ensures page < TotalPages(|xs|) ==> |PageSlice(xs, page)| == ItemsPerPage
    ensures page == TotalPages(|xs|) ==> |PageSlice(xs, page)| == |xs| - (page - 1) * ItemsPerPage
    ensures |PageSlice(xs, page)| > 0
  {
  }

  /**
   * The "(first-last体目を表示)" label: on a page that exists, its numbers are the
   * positions (from 1) of the first and last item the page shows.
   */
  function RangeLabel(n: nat, page: int): (int, int) {
    (ItemsPerPage * (page - 1) + 1, Min(ItemsPerPage * page, n))
  }

  lemma RangeLabelMatchesPage<T>(xs: seq<T>, page: nat)
    requires 1 <= page <= TotalPages(|xs|)
    ensures var (first, last) := RangeLabel(|xs|, page);
      && first == (page - 1) * ItemsPerPage + 1
      && last - first + 1 == |PageSlice(xs, page)|
  {
  }

  // ---------------------------------------------------------------------------
  // Page navigation
  // ---------------------------------------------------------------------------

  /**
   * The numbered buttons: `min(5, totalPages)` pages, the first five, the last five,
   * or the current page with two on each side.
   */
  function Window(current: int, total: nat): (r: seq<int>)
    ensures |r| == Min(WindowSize, total)
    ensures forall i | 0 <= i < |r| :: 1 <= r[i] <= total
    ensures forall i | 0 < i < |r| :: r[i] == r[i - 1] + 1
    ensures 1 <= current <= total ==> current in r
    ensures total <= WindowSize ==> forall i | 0 <= i < |r| :: r[i] == i + 1
    ensures total > WindowSize && current <= 3 ==> r[0] == 1
    ensures total > WindowSize && current >= total - 2 ==> r[|r| - 1] == total
    ensures total > WindowSize && 3 <= current <= total - 2 ==> r[2] == current
  {
    var len := Min(WindowSize, total);
    var first :=
      if total <= WindowSize then 1
      else if current <= 3 then 1
      else if current >= total - 2 then total - 4
      else current - 2;
    var r := seq(len, i requires 0 <= i < len => first + i);
    assert 1 <= current <= total ==> r[current - first] == current;
    r
  }

  /** `setCurrentPage(prev => Math.max(prev - 1, 1))`. */
  function Prev(current: int): int {
    Max(current - 1, 1)
  }

  /** `setCurrentPage(prev => Math.min(prev + 1, totalPages))`. */
  function Next(current: int, total: nat): int {
    Min(current + 1, total)
  }

  /**
   * What can change the page: the 前へ and 次へ buttons, the `i`-th numbered button,
   * and a change of search, type or sort (the effect that resets to page 1).
   */
  datatype PageEvent = PrevButton | NextButton | NumberButton(i: nat) | FilterChanged

  /** A reachable page: 1 when the list is empty, otherwise one of the list's pages. */
  predicate ValidPage(page: int, total: nat) {
    1 <= page <= Max(total, 1)
  }

  /**
   * The page after an event. The buttons exist only while `totalPages > 1`; a disabled
   * button (前へ on page 1, 次へ on the last page) and a missing one do nothing.
   */
  function Step(page: int, total: nat, e: PageEvent): (r: int)
    ensures e == FilterChanged ==> r == 1
    ensures e == PrevButton && total > 1 && page != 1 ==> r == Prev(page)
    ensures e == NextButton && total > 1 && page != total ==> r == Next(page, total)
    ensures e == PrevButton && (total <= 1 || page == 1) ==> r == page
    ensures e == NextButton && (total <= 1 || page == total) ==> r == page
    ensures e.NumberButton? && total > 1 && e.i < Min(WindowSize, total) ==> r == Window(page, total)[e.i]
    ensures e.NumberButton? && (total <= 1 || e.i >= Min(WindowSize, total)) ==> r == page
  {
    match e
    case FilterChanged => 1
    case PrevButton => if total > 1 && page != 1 then Prev(page) else page
    case NextButton => if total > 1 && page != total then Next(page, total) else page
    case NumberButton(i) =>
      var w := Window(page, total);
      if total > 1 && i < |w| then w[i] else page
  }

  /** Starting from page 1, every event keeps the page within the list's pages. */
  lemma StepKeepsPageValid(page: int, total: nat, e: PageEvent)
    requires ValidPage(page, total)
    ensures ValidPage(Step(page, total, e), total)
  {
  }

  /** 次へ then 前へ returns to the page it started on, unless it was the last page. */
  lemma NextThenPrev(page: int, total: nat)
    requires 1 <= page < total
    ensures Step(Step(page, total, NextButton), total, PrevButton) == page
  {
  }

  /** The current page is always one of the numbered buttons, and it is highlighted. */
  lemma CurrentPageShown(page: int, total: nat)
    requires ValidPage(page, total) && total > 1
    ensures page in Window(page, total)
  {
  }
}
