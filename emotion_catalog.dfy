/**
 * The user's catalog of custom emotions (`customCategories` in
 * HealthTrackerApp.jsx): an ordered list of `{name, color, archived}` items.
 * Order is the display order and the ordinal used for charting; archived
 * items stay in the list but drop out of the active view.
 *
 * Each catalog operation of the component is specified here by a function on
 * the list; the component's methods (module HealthTracker) apply them.
 */
module EmotionCatalog {

  import opened Wrappers

  /** One custom emotion. `color` is an opaque colour value (a hex string in practice). */
  datatype CustomEmotion = CustomEmotion(name: string, color: string, archived: bool)

  /** `customCategories.filter(c => !c.archived)`: the active items in stored order. */
  function ActiveEmotions(cats: seq<CustomEmotion>): (r: seq<CustomEmotion>)
    ensures |r| <= |cats|
    ensures forall e :: e in r <==> e in cats && !e.archived
  {
    if cats == [] then []
    else (if cats[0].archived then [] else [cats[0]]) + ActiveEmotions(cats[1..])
  }

  /** `.map(c => c.name)` */
  function Names(es: seq<CustomEmotion>): seq<string> {
    seq(|es|, i requires 0 <= i < |es| => es[i].name)
  }

  /** `.map(c => c.color)` */
  function Colors(es: seq<CustomEmotion>): seq<string> {
    seq(|es|, i requires 0 <= i < |es| => es[i].color)
  }

  /** The names offered for the `emocion` rating: those of the active items, in stored order. */
  function ActiveNames(cats: seq<CustomEmotion>): seq<string> {
    Names(ActiveEmotions(cats))
  }

  /** A name is active exactly when some non-archived item carries it. */
  lemma {:induction false} ActiveNamesMembership(cats: seq<CustomEmotion>, x: string)
    ensures x in ActiveNames(cats) <==> exists j :: 0 <= j < |cats| && !cats[j].archived && cats[j].name == x
  {
    var act := ActiveEmotions(cats);
    if x in ActiveNames(cats) {
      var i :| 0 <= i < |act| && ActiveNames(cats)[i] == x;
      assert act[i] in cats;
      var j :| 0 <= j < |cats| && cats[j] == act[i];
      assert !cats[j].archived && cats[j].name == x;
    }
    if j :| 0 <= j < |cats| && !cats[j].archived && cats[j].name == x {
      assert cats[j] in act;
      var i :| 0 <= i < |act| && act[i] == cats[j];
      assert ActiveNames(cats)[i] == x;
    }
  }

  /** Filtering distributes over concatenation: the active view keeps stored order. */
  lemma {:induction false} ActiveEmotionsAppend(a: seq<CustomEmotion>, b: seq<CustomEmotion>)
    ensures ActiveEmotions(a + b) == ActiveEmotions(a) + ActiveEmotions(b)
  {
    if a == [] {
      assert a + b == b;
    } else {
      assert (a + b)[0] == a[0];
      assert (a + b)[1..] == a[1..] + b;
      ActiveEmotionsAppend(a[1..], b);
    }
  }

  lemma {:induction false} NamesAppend(a: seq<CustomEmotion>, b: seq<CustomEmotion>)
    ensures Names(a + b) == Names(a) + Names(b)
  {
  }

  lemma ActiveEmotionsSingleton(e: CustomEmotion)
    ensures ActiveEmotions([e]) == if e.archived then [] else [e]
  {
    assert [e][1..] == [];
  }

  /** The active view of a list split around slot `i`. */
  lemma {:induction false} ActiveEmotionsAround(cats: seq<CustomEmotion>, i: nat)
    requires i < |cats|
    ensures ActiveEmotions(cats) ==
            ActiveEmotions(cats[..i]) + ActiveEmotions([cats[i]]) + ActiveEmotions(cats[i + 1..])
  {
    assert cats == cats[..i] + [cats[i]] + cats[i + 1..];
    ActiveEmotionsAppend(cats[..i] + [cats[i]], cats[i + 1..]);
    ActiveEmotionsAppend(cats[..i], [cats[i]]);
  }

  // ---------------------------------------------------------------------------
  // addOrUpdateCustomCategory

  /**
   * With an edit index, that slot takes the new name and colour and keeps its
   * `archived` flag; without one, a new active item is appended.
   */
  function AddedOrUpdated(cats: seq<CustomEmotion>, name: string, color: string, editIndex: Option<nat>)
    : (r: seq<CustomEmotion>)
    requires editIndex.Some? ==> editIndex.value < |cats|
    ensures editIndex.None? ==> r == cats + [CustomEmotion(name, color, false)]
    ensures editIndex.Some? ==>
      && |r| == |cats|
      && r[editIndex.value] == CustomEmotion(name, color, cats[editIndex.value].archived)
      && forall j :: 0 <= j < |cats| && j != editIndex.value ==> r[j] == cats[j]
  {
    match editIndex
    case Some(i) => cats[i := CustomEmotion(name, color, cats[i].archived)]
    case None => cats + [CustomEmotion(name, color, false)]
  }

  /** Adding a new emotion puts its name at the end of the active view. */
  lemma {:induction false} AddAppendsActiveName(cats: seq<CustomEmotion>, name: string, color: string)
    ensures ActiveNames(AddedOrUpdated(cats, name, color, None)) == ActiveNames(cats) + [name]
  {
    var item := CustomEmotion(name, color, false);
    ActiveEmotionsAppend(cats, [item]);
    ActiveEmotionsSingleton(item);
    NamesAppend(ActiveEmotions(cats), [item]);
  }

  /**
   * Editing slot `i` renames it in place in the active view when it is active
   * and leaves the active view untouched when it is archived.
   */
  lemma {:induction false} EditRenamesInPlace(cats: seq<CustomEmotion>, i: nat, name: string, color: string)
    requires i < |cats|
    ensures var r := AddedOrUpdated(cats, name, color, Some(i));
      ActiveEmotions(r) ==
        ActiveEmotions(cats[..i])
        + (if cats[i].archived then [] else [CustomEmotion(name, color, false)])
        + ActiveEmotions(cats[i + 1..])
  {
    var r := AddedOrUpdated(cats, name, color, Some(i));
    assert r[..i] == cats[..i] && r[i + 1..] == cats[i + 1..];
    ActiveEmotionsAround(r, i);
    ActiveEmotionsSingleton(r[i]);
  }

  // ---------------------------------------------------------------------------
  // archiveCustomCategory / unarchiveCustomCategory

  /** Slot `i` with its `archived` flag set to `flag`; every other slot as it was. */
  function WithArchived(cats: seq<CustomEmotion>, i: nat, flag: bool): (r: seq<CustomEmotion>)
    requires i < |cats|
    ensures |r| == |cats|
    ensures r[i].name == cats[i].name && r[i].color == cats[i].color && r[i].archived == flag
    ensures forall j :: 0 <= j < |cats| && j != i ==> r[j] == cats[j]
  {
    cats[i := cats[i].(archived := flag)]
  }

  /** Archiving slot `i` removes exactly that slot from the active view. */
  lemma {:induction false} ArchiveHides(cats: seq<CustomEmotion>, i: nat)
    requires i < |cats|
    ensures ActiveEmotions(WithArchived(cats, i, true)) ==
            ActiveEmotions(cats[..i]) + ActiveEmotions(cats[i + 1..])
  {
    var r := WithArchived(cats, i, true);
    assert r[..i] == cats[..i] && r[i + 1..] == cats[i + 1..];
    ActiveEmotionsAround(r, i);
    ActiveEmotionsSingleton(r[i]);
  }

  /** Unarchiving slot `i` puts it back in the active view at its stored position. */
  lemma {:induction false} UnarchiveRestores(cats: seq<CustomEmotion>, i: nat)
    requires i < |cats|
    ensures ActiveEmotions(WithArchived(cats, i, false)) ==
            ActiveEmotions(cats[..i]) + [cats[i].(archived := false)] + ActiveEmotions(cats[i + 1..])
  {
    var r := WithArchived(cats, i, false);
    assert r[..i] == cats[..i] && r[i + 1..] == cats[i + 1..];
    ActiveEmotionsAround(r, i);
    ActiveEmotionsSingleton(r[i]);
  }

  /** Archiving an active item and unarchiving it again restores the catalog. */
  lemma {:induction false} ArchiveUnarchiveRoundTrip(cats: seq<CustomEmotion>, i: nat)
    requires i < |cats| && !cats[i].archived
    ensures WithArchived(WithArchived(cats, i, true), i, false) == cats
  {
  }

  // ---------------------------------------------------------------------------
  // deleteCustomCategory

  /** `customCategories.filter((_, i) => i !== index)`: drops slot `index`, if there is one. */
  function DeletedAt(cats: seq<CustomEmotion>, index: int): (r: seq<CustomEmotion>)
    ensures !(0 <= index < |cats|) ==> r == cats
    ensures 0 <= index < |cats| ==>
      && |r| == |cats| - 1
      && (forall j :: 0 <= j < index ==> r[j] == cats[j])
      && (forall j :: index <= j < |r| ==> r[j] == cats[j + 1])
  {
    if 0 <= index < |cats| then cats[..index] + cats[index + 1..] else cats
  }

  /** Exactly one item, the one in slot `index`, leaves the catalog. */
  lemma {:induction false} DeleteRemovesOne(cats: seq<CustomEmotion>, index: nat)
    requires index < |cats|
    ensures multiset(DeletedAt(cats, index)) + multiset{cats[index]} == multiset(cats)
  {
    assert cats == cats[..index] + [cats[index]] + cats[index + 1..];
  }

  /** Deleting an archived item (the only kind the screen offers to delete) leaves the active view as it was. */
  lemma {:induction false} DeleteArchivedKeepsActiveView(cats: seq<CustomEmotion>, index: nat)
    requires index < |cats| && cats[index].archived
    ensures ActiveEmotions(DeletedAt(cats, index)) == ActiveEmotions(cats)
  {
    ActiveEmotionsAround(cats, index);
    ActiveEmotionsAppend(cats[..index], cats[index + 1..]);
    ActiveEmotionsSingleton(cats[index]);
  }

  // ---------------------------------------------------------------------------
  // moveCategory

  /**
   * Swap slot `index` with slot `index + direction` when that slot exists;
   * otherwise the list is unchanged.
   */
  function Moved(cats: seq<CustomEmotion>, index: nat, direction: int): (r: seq<CustomEmotion>)
    requires index < |cats|
    ensures |r| == |cats|
    ensures multiset(r) == multiset(cats)
    ensures 0 <= index + direction < |cats| ==>
      && r[index] == cats[index + direction]
      && r[index + direction] == cats[index]
      && forall j :: 0 <= j < |cats| && j != index && j != index + direction ==> r[j] == cats[j]
    ensures !(0 <= index + direction < |cats|) ==> r == cats
  {
    var newIndex := index + direction;
    if 0 <= newIndex < |cats| then cats[index := cats[newIndex]][newIndex := cats[index]] else cats
  }

  /** Moving back in the opposite direction undoes a move. */
  lemma {:induction false} MoveUndo(cats: seq<CustomEmotion>, index: nat, direction: int)
    requires index < |cats| && 0 <= index + direction < |cats|
    ensures Moved(Moved(cats, index, direction), index + direction, -direction) == cats
  {
  }
}
