/**
 * Property lookup on a JavaScript object literal or on a `JSON.parse`d object:
 * a missing own key still finds the members every object inherits from
 * `Object.prototype`.
 */
module JsObject {
  /** The names `Object.prototype` answers for an ordinary object. */
  const PrototypeMembers: set<string> := {
    "constructor", "hasOwnProperty", "isPrototypeOf", "propertyIsEnumerable",
    "toLocaleString", "toString", "valueOf", "__proto__",
    "__defineGetter__", "__defineSetter__", "__lookupGetter__", "__lookupSetter__"
  }

  /** What `obj[key]` yields: an own string, an inherited built-in (a function or the prototype), or `undefined`. */
  datatype Lookup = Own(value: string) | Inherited(member: string) | Missing

  function LookupKey(own: map<string, string>, key: string): (r: Lookup)
    ensures r.Own? <==> key in own
    ensures r.Inherited? <==> key !in own && key in PrototypeMembers
  {
    if key in own then Own(own[key])
    else if key in PrototypeMembers then Inherited(key)
    else Missing
  }
}

/**
 * English -> Japanese type labels (config/pokemon-type-translations.ts and
 * scripts/translate-type.ts).
 */
module TypeTranslation {
  import JsObject
  import opened Strings

  /** The English type names, in the order of `pokemonTypeTranslations`. */
  const EnglishTypes: seq<string> := [
    "normal", "fire", "water", "grass", "electric", "ice", "fighting", "poison", "ground",
    "flying", "psychic", "bug", "rock", "ghost", "dragon", "dark", "steel", "fairy"
  ]

  /** Their one-character Japanese labels, position by position. */
  const JapaneseTypes: seq<string> := [
    "普", "炎", "水", "草", "電", "氷", "闘", "毒", "地",
    "飛", "超", "虫", "岩", "霊", "竜", "悪", "鋼", "妖"
  ]

  /** Tells the English names apart: their first two characters and their length. */
  function Signature(s: string): int {
    if |s| < 2 then 0 else s[0] as int * 100000 + s[1] as int * 100 + |s|
  }

  lemma EnglishDistinct()
    ensures Distinct(EnglishTypes)
  {
    var s := EnglishTypes;
    assert Signature(s[0]) == 11011106;
    assert Signature(s[1]) == 10210504;
    assert Signature(s[2]) == 11909705;
    assert Signature(s[3]) == 10311405;
    assert Signature(s[4]) == 10110808;
    assert Signature(s[5]) == 10509903;
    assert Signature(s[6]) == 10210508;
    assert Signature(s[7]) == 11211106;
    assert Signature(s[8]) == 10311406;
    assert Signature(s[9]) == 10210806;
    assert Signature(s[10]) == 11211507;
    assert Signature(s[11]) == 9811703;
    assert Signature(s[12]) == 11411104;
    assert Signature(s[13]) == 10310405;
    assert Signature(s[14]) == 10011406;
    assert Signature(s[15]) == 10009704;
    assert Signature(s[16]) == 11511605;
    assert Signature(s[17]) == 10209705;
    forall i, j | 0 <= i < j < |s| ensures s[i] != s[j] {
      assert Signature(s[i]) != Signature(s[j]);
    }
  }

  lemma JapaneseDistinct()
    ensures Distinct(JapaneseTypes)
  {
  }

  /** English names have at least three characters, labels exactly one. */
  lemma NameLengths()
    ensures forall i | 0 <= i < |EnglishTypes| :: |EnglishTypes[i]| >= 3
    ensures forall i | 0 <= i < |JapaneseTypes| :: |JapaneseTypes[i]| == 1
  {
  }

  lemma NamesDistinct()
    ensures |EnglishTypes| == |JapaneseTypes| == 18
    ensures Distinct(EnglishTypes) && Distinct(JapaneseTypes)
    ensures forall i, j | 0 <= i < 18 && 0 <= j < 18 :: JapaneseTypes[i] != EnglishTypes[j]
  {
    EnglishDistinct();
    JapaneseDistinct();
    NameLengths();
  }

  /** The first position of `t` in `s`. */
  function Position(s: seq<string>, t: string): (r: nat)
    requires t in s
    ensures r < |s| && s[r] == t
    ensures forall j | 0 <= j < r :: s[j] != t
  {
    if s[0] == t then 0 else 1 + Position(s[1..], t)
  }

  /** In a list without repeats, the position of the i-th element is i. */
  lemma PositionOfDistinct(s: seq<string>, i: nat)
    requires Distinct(s) && i < |s|
    ensures Position(s, s[i]) == i
  {
  }

  /** `pokemonTypeTranslations`: each English type maps to the label at its position. */
  const TypeTable: map<string, string> :=
    map t | t in EnglishTypes :: JapaneseTypes[Position(EnglishTypes, t)]

  /** The set of labels, the colour table of the stats page is keyed by these. */
  function JapaneseLabels(): set<string> {
    set i | 0 <= i < |JapaneseTypes| :: JapaneseTypes[i]
  }

  /** The labels are the elements of the list. */
  lemma LabelsAreListed()
    ensures forall x :: x in JapaneseLabels() <==> x in JapaneseTypes
  {
    forall x | x in JapaneseTypes ensures x in JapaneseLabels() {
      var i :| 0 <= i < |JapaneseTypes| && JapaneseTypes[i] == x;
    }
  }

  /** `typeMap[t] ?? t` over own keys only. */
  function TranslateOne(t: string, typeMap: map<string, string>): (r: string)
    ensures t in typeMap ==> r == typeMap[t]
    ensures t !in typeMap ==> r == t
  {
    if t in typeMap then typeMap[t] else t
  }

  /** `translateTypes(rawTypes, typeMap)`: `rawTypes.map(t => typeMap[t] ?? t)`. */
  function TranslateTypes(rawTypes: seq<string>, typeMap: map<string, string>): (r: seq<string>)
    ensures |r| == |rawTypes|
    ensures forall i | 0 <= i < |rawTypes| :: r[i] == TranslateOne(rawTypes[i], typeMap)
  {
    seq(|rawTypes|, i requires 0 <= i < |rawTypes| => TranslateOne(rawTypes[i], typeMap))
  }

  /** `translateSinglePokemonType(t)`: a known type gets its label, anything else is returned unchanged. */
  function TranslateSinglePokemonType(t: string): (r: string)
    ensures t in TypeTable ==> r == TypeTable[t] && r in JapaneseLabels()
    ensures t !in TypeTable ==> r == t
  {
    if t in TypeTable then TypeTable[t] else t
  }

  /** `translatePokemonTypes(xs)`, written as its own `map` over the list. */
  function TranslatePokemonTypes(englishTypes: seq<string>): (r: seq<string>)
    ensures |r| == |englishTypes|
  {
    if |englishTypes| == 0 then []
    else [TranslateSinglePokemonType(englishTypes[0])] + TranslatePokemonTypes(englishTypes[1..])
  }

  /** `loadTypeMap()` returns the table itself. */
  function LoadTypeMap(): (m: map<string, string>)
    ensures m == TypeTable
    ensures |m.Keys| == 18
  {
    TableKeys();
    TypeTable
  }

  /** Element-wise, the list translation is the single-type translation. */
  lemma {:induction false} TranslatePokemonTypesPointwise(xs: seq<string>)
    ensures forall i | 0 <= i < |xs| :: TranslatePokemonTypes(xs)[i] == TranslateSinglePokemonType(xs[i])
  {
    if |xs| > 0 {
      var r := TranslatePokemonTypes(xs);
      var rest := TranslatePokemonTypes(xs[1..]);
      TranslatePokemonTypesPointwise(xs[1..]);
      assert r == [TranslateSinglePokemonType(xs[0])] + rest;
      forall i | 0 <= i < |xs| ensures r[i] == TranslateSinglePokemonType(xs[i]) {
        if i > 0 {
          assert r[i] == rest[i - 1];
          assert xs[i] == xs[1..][i - 1];
        }
      }
    }
  }

  /** The deprecated pair `translateTypes(xs, loadTypeMap())` agrees with `translatePokemonTypes(xs)`. */
  lemma LegacyTranslationAgrees(xs: seq<string>)
    ensures TranslateTypes(xs, LoadTypeMap()) == TranslatePokemonTypes(xs)
  {
    TranslatePokemonTypesPointwise(xs);
  }

  /** A key's label is the one at the key's position in the list. */
  lemma TableAt(i: nat)
    requires i < |EnglishTypes|
    ensures EnglishTypes[i] in TypeTable && TypeTable[EnglishTypes[i]] == JapaneseTypes[i]
  {
    EnglishDistinct();
    PositionOfDistinct(EnglishTypes, i);
  }

  /** The keys are exactly the 18 English names. */
  lemma TableKeys()
    ensures TypeTable.Keys == set i | 0 <= i < |EnglishTypes| :: EnglishTypes[i]
    ensures |TypeTable.Keys| == 18
  {
    NamesDistinct();
    DistinctCard(EnglishTypes);
  }

  lemma {:induction false} DistinctCard(s: seq<string>)
    requires Distinct(s)
    ensures |set i | 0 <= i < |s| :: s[i]| == |s|
  {
    if |s| > 0 {
      var init := s[..|s| - 1];
      DistinctCard(init);
      var a := set i | 0 <= i < |init| :: init[i];
      var b := set i | 0 <= i < |s| :: s[i];
      assert b == a + {s[|s| - 1]} by {
        forall x | x in b ensures x in a + {s[|s| - 1]} {
          var i :| 0 <= i < |s| && s[i] == x;
          if i < |s| - 1 {
            assert init[i] == x;
          }
        }
      }
    }
  }

  /** The table is injective: distinct English types get distinct labels. */
  lemma TableInjective(a: string, b: string)
    requires a in TypeTable && b in TypeTable
    requires TypeTable[a] == TypeTable[b]
    ensures a == b
  {
    var i := Position(EnglishTypes, a);
    var j := Position(EnglishTypes, b);
    TableAt(i);
    TableAt(j);
    JapaneseDistinct();
    assert i == j;
  }

  /** No label is itself a key, so translating twice is translating once. */
  lemma TranslationIdempotent(xs: seq<string>)
    ensures TranslatePokemonTypes(TranslatePokemonTypes(xs)) == TranslatePokemonTypes(xs)
  {
    TranslatePokemonTypesPointwise(xs);
    TranslatePokemonTypesPointwise(TranslatePokemonTypes(xs));
    NamesDistinct();
  }

  /** With an empty map, `translateTypes` returns the list unchanged. */
  lemma EmptyMapIsIdentity(xs: seq<string>)
    ensures TranslateTypes(xs, map[]) == xs
  {
  }

  /** `translateTypes` distributes over concatenation. */
  lemma TranslateTypesConcat(a: seq<string>, b: seq<string>, typeMap: map<string, string>)
    ensures TranslateTypes(a + b, typeMap) == TranslateTypes(a, typeMap) + TranslateTypes(b, typeMap)
  {
  }

  // ---------------------------------------------------------------------------
  // The lookup as written: `pokemonTypeTranslations[type] ?? type` on an object literal
  // ---------------------------------------------------------------------------

  /** An element of a translated list as the source computes it: a string, or an inherited built-in. */
  datatype Label = Text(s: string) | Builtin(member: string)

  /** `translateSinglePokemonType` as written: the lookup also reaches `Object.prototype`. */
  function TranslateSingleAsWritten(t: string): (r: Label)
    ensures t !in JsObject.PrototypeMembers ==> r == Text(TranslateSinglePokemonType(t))
  {
    match JsObject.LookupKey(TypeTable, t)
    case Own(japanese) => Text(japanese)
    case Inherited(member) => Builtin(member)
    case Missing => Text(t)
  }

  /** An unknown type named like an `Object.prototype` member is not returned unchanged. */
  lemma PrototypeKeyIsNotUnchanged()
    ensures TranslateSingleAsWritten("toString") == Builtin("toString")
    ensures TranslateSingleAsWritten("toString") != Text("toString")
    ensures TranslateSinglePokemonType("toString") == "toString"
  {
    NoTypeStartsWithT();
    assert "toString"[0] == 't';
    assert "toString" !in TypeTable;
  }

  lemma NoTypeStartsWithT()
    ensures forall i | 0 <= i < |EnglishTypes| :: EnglishTypes[i][0] != 't'
  {
  }
}
