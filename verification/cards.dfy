/**
 * The monster cards: which fields count as present (`isValidData`), what the plain
 * card shows (src/components/MonsterCard.tsx), and which of its four states the
 * loading-aware cards render (src/components/MonsterCardVt4.tsx and
 * src/components/MonsterCardV4.tsx, whose logic is the same).
 */
module Cards {
  import opened Wrappers
  import opened Strings

  /**
   * A card field at run time: `null`/`undefined`, a string, or an array whose items
   * may themselves be `null`/`undefined` (`None`).
   */
  datatype Field = Absent | Str(s: string) | Strs(items: seq<Option<string>>)

  /** The placeholder the plain card treats as "no data". */
  const Sentinel := "---"

  /** `item && item.trim() !== ''`: a present item that is not blank. */
  predicate ItemPresent(item: Option<string>) {
    item.Some? && item.value != "" && Trim(item.value) != ""
  }

  /** `isValidData` of MonsterCardVt4 and MonsterCardV4. */
  function IsValidData(v: Field): (r: bool)
    ensures v.Str? ==> (r <==> !IsBlank(v.s))
    ensures v.Strs? ==> (r <==> exists i | 0 <= i < |v.items| :: v.items[i].Some? && !IsBlank(v.items[i].value))
    ensures v.Absent? ==> !r
  {
    BlankIffTrimmedEmpty();
    match v
    case Absent => false
    case Str(s) => Trim(s) != ""
    case Strs(items) => |items| > 0 && exists i | 0 <= i < |items| :: ItemPresent(items[i])
  }

  /** `isValidData` of MonsterCard: as above, and the sentinel `---` also counts as missing. */
  function IsValidDataOrSentinel(v: Field): (r: bool)
    ensures v.Str? ==> (r <==> !IsBlank(v.s) && v.s != Sentinel)
    ensures v.Strs? ==> (r <==> exists i | 0 <= i < |v.items| ::
      v.items[i].Some? && !IsBlank(v.items[i].value) && v.items[i].value != Sentinel)
    ensures v.Absent? ==> !r
  {
    BlankIffTrimmedEmpty();
    match v
    case Absent => false
    case Str(s) => Trim(s) != "" && s != Sentinel
    case Strs(items) => |items| > 0 && exists i | 0 <= i < |items| :: ItemPresent(items[i]) && items[i].value != Sentinel
  }

  lemma BlankIffTrimmedEmpty()
    ensures forall s: string :: Trim(s) == "" <==> IsBlank(s)
  {
    forall s: string ensures Trim(s) == "" <==> IsBlank(s) {
      TrimEmptyIffBlank(s);
    }
  }

  /** Reference: the strings a field holds, whatever its shape. */
  function Texts(v: Field): set<string> {
    match v
    case Absent => {}
    case Str(s) => {s}
    case Strs(items) => set i | 0 <= i < |items| && items[i].Some? :: items[i].value
  }

  /** Reference: the field holds some string that is not blank. */
  predicate HasText(v: Field) {
    exists t | t in Texts(v) :: !IsBlank(t)
  }

  /** `isValidData` accepts exactly the fields that hold a non-blank string. */
  lemma ValidIffHasText(v: Field)
    ensures IsValidData(v) <==> HasText(v)
  {
    if v.Strs? {
      if IsValidData(v) {
        var i :| 0 <= i < |v.items| && v.items[i].Some? && !IsBlank(v.items[i].value);
        assert v.items[i].value in Texts(v);
      }
      if HasText(v) {
        var t :| t in Texts(v) && !IsBlank(t);
        var i :| 0 <= i < |v.items| && v.items[i].Some? && v.items[i].value == t;
      }
    } else if v.Str? {
      assert v.s in Texts(v);
    }
  }

  /** The sentinel check only removes: the plain card accepts a subset of what the others accept. */
  lemma SentinelIsStricter(v: Field)
    ensures IsValidDataOrSentinel(v) ==> IsValidData(v)
    ensures v.Str? && v.s == Sentinel ==> IsValidData(v) && !IsValidDataOrSentinel(v)
  {
    if v.Str? && v.s == Sentinel {
      assert !IsWhitespace(v.s[0]);
    }
  }

  // ---------------------------------------------------------------------------
  // MonsterCard
  // ---------------------------------------------------------------------------

  /** The card's props, read at run time. */
  datatype CardMonster = CardMonster(name: Field, types: Field, image: Field)

  /** What the plain card shows: the name line, the image if any, the type line. */
  datatype PlainView = PlainView(nameText: string, image: Option<string>, typesText: string)

  const UnknownName := "名前不明"
  const UnknownTypes := "タイプ不明"
  const TypeSeparator := "\U{3000}"

  /** `Array.prototype.join` prints `null` and `undefined` items as empty strings. */
  function ItemText(item: Option<string>): string {
    item.GetOr("")
  }

  /** The text of a field that `isValidData` accepted: a string, or its items joined by a full-width space. */
  function FieldText(v: Field): string {
    match v
    case Absent => ""
    case Str(s) => s
    case Strs(items) => Join(seq(|items|, i requires 0 <= i < |items| => ItemText(items[i])), TypeSeparator)
  }

  /** `MonsterCard({ monster })`. */
  function PlainCard(m: CardMonster): (r: PlainView)
    ensures r.nameText == UnknownName <==> !IsValidDataOrSentinel(m.name) || FieldText(m.name) == UnknownName
    ensures r.image.Some? <==> IsValidDataOrSentinel(m.image)
    ensures r.typesText == UnknownTypes <==> !IsValidDataOrSentinel(m.types) || FieldText(m.types) == UnknownTypes
    ensures IsValidDataOrSentinel(m.name) ==> r.nameText == FieldText(m.name)
    ensures IsValidDataOrSentinel(m.types) ==> r.typesText == FieldText(m.types)
  {
    PlainView(
      if IsValidDataOrSentinel(m.name) then FieldText(m.name) else UnknownName,
      if IsValidDataOrSentinel(m.image) then Some(FieldText(m.image)) else None,
      if IsValidDataOrSentinel(m.types) then FieldText(m.types) else UnknownTypes)
  }

  /** A well-formed monster is shown as it is, its types separated by full-width spaces. */
  lemma PlainCardShowsMonster(name: string, types: seq<string>, image: string)
    requires !IsBlank(name) && name != Sentinel && name != UnknownName
    requires !IsBlank(image) && image != Sentinel
    requires |types| > 0 && !IsBlank(types[0]) && types[0] != Sentinel
    ensures var items := seq(|types|, i requires 0 <= i < |types| => Some(types[i]));
      PlainCard(CardMonster(Str(name), Strs(items), Str(image)))
        == PlainView(name, Some(image), Join(types, TypeSeparator))
  {
    var items := seq(|types|, i requires 0 <= i < |types| => Some(types[i]));
    assert seq(|items|, i requires 0 <= i < |items| => ItemText(items[i])) == types;
  }

  // ---------------------------------------------------------------------------
  // MonsterCardVt4 / MonsterCardV4
  // ---------------------------------------------------------------------------

  /** The props of the loading-aware cards. */
  datatype CardProps = CardProps(isLoading: bool, error: Option<string>, monster: Option<CardMonster>, showSpinner: bool)

  /** The three flags of `validateMonsterData`. */
  datatype Validity = Validity(hasValidName: bool, hasValidImage: bool, hasValidTypes: bool)

  /** `validateMonsterData(monster)`: all false without a monster, otherwise field by field. */
  function ValidateMonsterData(m: Option<CardMonster>): (r: Validity)
    ensures m.None? ==> r == Validity(false, false, false)
    ensures m.Some? ==>
      && r.hasValidName == HasText(m.value.name)
      && r.hasValidImage == HasText(m.value.image)
      && r.hasValidTypes == HasText(m.value.types)
  {
    match m
    case None => Validity(false, false, false)
    case Some(monster) =>
      ValidIffHasText(monster.name);
      ValidIffHasText(monster.image);
      ValidIffHasText(monster.types);
      Validity(IsValidData(monster.name), IsValidData(monster.image), IsValidData(monster.types))
  }

  /**
   * The rendered state: the spinner, the error with its message, the empty card
   * (transparent while loading), or the data card with each field shown or left blank.
   */
  datatype CardView =
    | Spinner
    | ErrorCard(message: string)
    | EmptyCard(invisible: bool)
    | DataCard(name: Option<string>, image: Option<string>, types: Option<string>)

  /**
   * The render order of both cards: loading with the spinner enabled, then a truthy
   * error, then a missing monster, then the data.
   */
  function Render(p: CardProps): (r: CardView)
    ensures r.Spinner? <==> p.isLoading && p.showSpinner
    ensures r.ErrorCard? <==> !(p.isLoading && p.showSpinner) && p.error.Some? && p.error.value != ""
    ensures r.ErrorCard? ==> Some(r.message) == p.error
    ensures r.EmptyCard? <==> !(p.isLoading && p.showSpinner) && (p.error.None? || p.error.value == "") && p.monster.None?
    ensures r.EmptyCard? ==> (r.invisible <==> p.isLoading)
    ensures r.DataCard? ==>
      && p.monster.Some?
      && (r.name.Some? <==> IsValidData(p.monster.value.name))
      && (r.image.Some? <==> IsValidData(p.monster.value.image))
      && (r.types.Some? <==> IsValidData(p.monster.value.types))
      && (r.name.Some? ==> r.name.value == FieldText(p.monster.value.name))
      && (r.image.Some? ==> r.image.value == FieldText(p.monster.value.image))
      && (r.types.Some? ==> r.types.value == FieldText(p.monster.value.types))
  {
    if p.isLoading && p.showSpinner then Spinner
    else if p.error.Some? && p.error.value != "" then ErrorCard(p.error.value)
    else if p.monster.None? then EmptyCard(p.isLoading)
    else
      var m := p.monster.value;
      var valid := ValidateMonsterData(p.monster);
      ValidIffHasText(m.name);
      ValidIffHasText(m.image);
      ValidIffHasText(m.types);
      DataCard(
        if valid.hasValidName then Some(FieldText(m.name)) else None,
        if valid.hasValidImage then Some(FieldText(m.image)) else None,
        if valid.hasValidTypes then Some(FieldText(m.types)) else None)
  }

  /** An empty error message is falsy: it never shows the error card. */
  lemma EmptyErrorIsIgnored(p: CardProps)
    requires !(p.isLoading && p.showSpinner) && p.error == Some("")
    ensures !Render(p).ErrorCard?
  {
  }

  /** Exactly one state is rendered for every combination of props. */
  lemma RenderCases(p: CardProps)
    ensures Render(p).Spinner? || Render(p).ErrorCard? || Render(p).EmptyCard? || Render(p).DataCard?
    ensures Render(p).DataCard? <==>
      !(p.isLoading && p.showSpinner) && (p.error.None? || p.error.value == "") && p.monster.Some?
  {
  }

  /**
   * Without the spinner, a reload that keeps the old monster keeps showing it: the
   * loading flag alone never hides data.
   */
  lemma LoadingWithoutSpinnerKeepsData(p: CardProps)
    requires !p.showSpinner
    ensures Render(p.(isLoading := true)) == Render(p.(isLoading := false)) || p.monster.None?
  {
  }
}
