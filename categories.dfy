/**
 * The rating categories of HealthTrackerApp.jsx (`categories`,
 * `categoryColors`) and the lookups built on them: the colour of a chosen
 * level (`getColorForCategory`, `getColorStyle`) and its 1-based ordinal for
 * the charts (`categoryToValue`). Colour class names are opaque strings.
 */
module Categories {

  import opened Wrappers
  import opened EmotionCatalog

  /** The five rated fields of a day's record. */
  datatype Category = Dolor | Libido | Sueno | EstadoAnimo | Emocion

  /** The neutral colour used when a value has no colour of its own. */
  const Gray: string := "bg-gray-300"

  /** Colours shown for `emocion` while no custom emotion is active. */
  const FallbackEmotionColors: seq<string> :=
    ["bg-purple-600", "bg-teal-500", "bg-orange-500", "bg-yellow-500", "bg-red-600"]

  predicate Distinct(s: seq<string>) {
    forall i, j :: 0 <= i < j < |s| ==> s[i] != s[j]
  }

  /**
   * `categories[c]`: the ordered levels of a built-in category, lowest first,
   * or the active custom emotion names for `emocion`.
   */
  function Levels(c: Category, cats: seq<CustomEmotion>): (r: seq<string>)
    ensures c != Emocion ==> |r| == 5 && Distinct(r)
    ensures c == Emocion ==> r == ActiveNames(cats)
  {
    match c
    case Dolor => ["Sin dolor", "Leve", "Moderado", "Fuerte", "Muy fuerte"]
    case Libido => ["Muy baja", "Baja", "Normal", "Alta", "Muy alta"]
    case Sueno => ["Muy malo", "Malo", "Regular", "Bueno", "Excelente"]
    case EstadoAnimo => ["Muy triste", "Triste", "Neutral", "Feliz", "Muy feliz"]
    case Emocion =>
      if |ActiveEmotions(cats)| > 0 then ActiveNames(cats) else []
  }

  /**
   * `categoryColors[c]`: one colour per level for the built-in categories; for
   * `emocion` the colours of the active custom emotions, or a fixed fallback
   * palette when there are none.
   */
  function LevelColors(c: Category, cats: seq<CustomEmotion>): (r: seq<string>)
    ensures c != Emocion ==> |r| == |Levels(c, cats)| && forall i :: 0 <= i < |r| ==> r[i] != ""
    ensures c == Emocion && |ActiveEmotions(cats)| > 0 ==> r == Colors(ActiveEmotions(cats))
    ensures c == Emocion && |ActiveEmotions(cats)| == 0 ==> r == FallbackEmotionColors
  {
    match c
    case Dolor => ["bg-green-500", "bg-yellow-400", "bg-orange-400", "bg-red-500", "bg-red-700"]
    case Libido => ["bg-blue-300", "bg-blue-400", "bg-purple-400", "bg-pink-500", "bg-pink-600"]
    case Sueno => ["bg-gray-600", "bg-gray-500", "bg-yellow-500", "bg-green-400", "bg-green-600"]
    case EstadoAnimo => ["bg-indigo-800", "bg-indigo-500", "bg-gray-400", "bg-amber-400", "bg-yellow-400"]
    case Emocion =>
      if |ActiveEmotions(cats)| > 0 then Colors(ActiveEmotions(cats)) else FallbackEmotionColors
  }

  /** JavaScript's `Array.prototype.indexOf`: the first position of `v`, or -1. */
  function IndexOf(s: seq<string>, v: string): (r: int)
    ensures -1 <= r < |s|
    ensures r == -1 <==> v !in s
    ensures 0 <= r ==> s[r] == v && forall j :: 0 <= j < r ==> s[j] != v
  {
    if s == [] then -1
    else if s[0] == v then 0
    else
      var k := IndexOf(s[1..], v);
      if k == -1 then -1 else k + 1
  }

  /** `s[i] || d`: the element at `i` when it exists and is non-empty, else `d`. */
  function ElementOr(s: seq<string>, i: int, d: string): (r: string)
    ensures r == d || (0 <= i < |s| && r == s[i])
    ensures 0 <= i < |s| && s[i] != "" ==> r == s[i]
    ensures r == "" ==> d == ""
  {
    if 0 <= i < |s| && s[i] != "" then s[i] else d
  }

  /**
   * `getColorForCategory`: for a built-in category, the colour of the level
   * `value` names, or gray; for `emocion`, the empty class when `value` names
   * an active custom emotion (its colour then comes from `getColorStyle`),
   * and gray otherwise.
   */
  function ColorForCategory(c: Category, value: string, cats: seq<CustomEmotion>): (r: string)
    ensures c == Emocion ==> (r == "" <==> value in ActiveNames(cats))
    ensures c == Emocion && value !in ActiveNames(cats) ==> r == Gray
    ensures c != Emocion && value !in Levels(c, cats) ==> r == Gray
    ensures c != Emocion ==>
      forall i :: 0 <= i < |Levels(c, cats)| && Levels(c, cats)[i] == value ==> r == LevelColors(c, cats)[i]
  {
    if c == Emocion then
      var activeCategories := ActiveEmotions(cats);
      var index := IndexOf(Names(activeCategories), value);
      if 0 <= index then "" else ElementOr(LevelColors(c, cats), index, Gray)
    else
      var index := IndexOf(Levels(c, cats), value);
      ElementOr(LevelColors(c, cats), index, Gray)
  }

  /** Slot `i` is the first of `es` named `name`. */
  predicate FirstNamed(es: seq<CustomEmotion>, name: string, i: int) {
    0 <= i < |es| && es[i].name == name && forall k :: 0 <= k < i ==> es[k].name != name
  }

  /**
   * `getColorStyle`: a background colour only for an active custom emotion,
   * namely the colour of the first active item with that name.
   */
  function ColorStyle(c: Category, value: string, cats: seq<CustomEmotion>): (r: Option<string>)
    ensures r.Some? <==> c == Emocion && value in ActiveNames(cats)
    ensures r.Some? ==>
      exists j :: 0 <= j < |cats| && !cats[j].archived && cats[j].name == value && cats[j].color == r.value
    ensures r.Some? ==> exists i :: FirstNamed(ActiveEmotions(cats), value, i) && ActiveEmotions(cats)[i].color == r.value
  {
    if c == Emocion then
      var activeCategories := ActiveEmotions(cats);
      var index := IndexOf(Names(activeCategories), value);
      if 0 <= index then
        assert activeCategories[index] in cats;
        assert activeCategories[index].name == value;
        assert forall k :: 0 <= k < index ==> activeCategories[k].name == Names(activeCategories)[k] != value;
        assert FirstNamed(activeCategories, value, index);
        Some(activeCategories[index].color)
      else None
    else None
  }

  /**
   * `categoryToValue`: `indexOf + 1`, so a level scores 1..N by its position
   * and a value that is not a current level (an archived or deleted emotion)
   * scores 0.
   */
  function CategoryToValue(c: Category, cats: seq<CustomEmotion>, value: string): (r: int)
    ensures 0 <= r <= |Levels(c, cats)|
    ensures r == 0 <==> value !in Levels(c, cats)
    ensures r > 0 ==> Levels(c, cats)[r - 1] == value
    ensures r > 0 ==> forall j :: 0 <= j < r - 1 ==> Levels(c, cats)[j] != value
  {
    IndexOf(Levels(c, cats), value) + 1
  }

  /**
   * Once an emotion whose name no other item shares is archived, its records
   * chart at 0, show in gray and get no background colour.
   */
  lemma {:induction false} ArchivedEmotionLosesOrdinal(cats: seq<CustomEmotion>, i: nat)
    requires i < |cats|
    requires forall j :: 0 <= j < |cats| && j != i ==> cats[j].name != cats[i].name
    ensures var r := WithArchived(cats, i, true);
      && CategoryToValue(Emocion, r, cats[i].name) == 0
      && ColorForCategory(Emocion, cats[i].name, r) == Gray
      && ColorStyle(Emocion, cats[i].name, r) == None
  {
    var r := WithArchived(cats, i, true);
    ActiveNamesMembership(r, cats[i].name);
  }

  /**
   * Unarchiving it gives it back a positive ordinal and a style colour: its
   * own, unless an earlier active item shares its name.
   */
  lemma {:induction false} UnarchivedEmotionRegainsOrdinal(cats: seq<CustomEmotion>, i: nat)
    requires i < |cats|
    ensures var r := WithArchived(cats, i, false);
      && CategoryToValue(Emocion, r, cats[i].name) >= 1
      && ColorForCategory(Emocion, cats[i].name, r) == ""
      && ColorStyle(Emocion, cats[i].name, r).Some?
    ensures (forall j :: 0 <= j < |cats| && j != i && !cats[j].archived ==> cats[j].name != cats[i].name) ==>
      ColorStyle(Emocion, cats[i].name, WithArchived(cats, i, false)) == Some(cats[i].color)
  {
    var r := WithArchived(cats, i, false);
    ActiveNamesMembership(r, cats[i].name);
  }
}
