/**
 * The Angular `TrackerService` (src/app/services/tracker.service.ts): a list
 * of entries, keyed by their `date`, kept under one local-storage key. Every
 * operation loads the stored list afresh; `upsert` and `remove` write the
 * changed list back.
 */
module Tracker {

  import opened Wrappers
  import opened DateKeys

  /** A rating: a level label and its 0-10 intensity. */
  datatype Metric = Metric(category: string, intensity: int)

  datatype Entry = Entry(
    id: string, date: string, pain: Metric, libido: Metric, sleep: Metric, mood: Metric,
    comment: Option<string>)

  /** The fixed level lists `getCategories` hands out. */
  datatype ServiceCategories = ServiceCategories(pain: seq<string>, libido: seq<string>, sleep: seq<string>, mood: seq<string>)

  /** No two entries of `list` share a date. */
  predicate UniqueDates(list: seq<Entry>) {
    forall i, j :: 0 <= i < j < |list| ==> list[i].date != list[j].date
  }

  /** `list` is ordered by date, latest first. */
  predicate SortedByDateDesc(list: seq<Entry>) {
    forall i, j :: 0 <= i < j < |list| ==> Le(list[j].date, list[i].date)
  }

  // ---------------------------------------------------------------------------
  // findIndex / find

  /** `list.findIndex(e => e.date === date)`: the first position holding `date`, or -1. */
  function FindIndex(list: seq<Entry>, date: string): (r: int)
    ensures -1 <= r < |list|
    ensures r == -1 <==> forall j :: 0 <= j < |list| ==> list[j].date != date
    ensures 0 <= r ==> list[r].date == date && forall j :: 0 <= j < r ==> list[j].date != date
  {
    if list == [] then -1
    else if list[0].date == date then 0
    else
      var k := FindIndex(list[1..], date);
      if k == -1 then -1 else k + 1
  }

  /**
   * `list.find(e => e.date === date)`: the first entry with that date, or
   * `None` (JavaScript `undefined`) when there is none.
   */
  function FindByDate(list: seq<Entry>, date: string): (r: Option<Entry>)
    ensures r.None? <==> forall e :: e in list ==> e.date != date
    ensures r.Some? ==> r.value in list && r.value.date == date
    ensures r.Some? ==> exists i :: 0 <= i < |list| && list[i] == r.value && forall j :: 0 <= j < i ==> list[j].date != date
  {
    var idx := FindIndex(list, date);
    if idx >= 0 then Some(list[idx]) else None
  }

  // ---------------------------------------------------------------------------
  // upsert

  /**
   * The list `upsert(entry)` saves: the first entry with `entry.date`
   * replaced in place, or `entry` appended when there is none.
   */
  function Upserted(list: seq<Entry>, entry: Entry): (r: seq<Entry>)
    ensures (exists e :: e in list && e.date == entry.date) ==>
      && |r| == |list|
      && r[FindIndex(list, entry.date)] == entry
      && forall j :: 0 <= j < |list| && j != FindIndex(list, entry.date) ==> r[j] == list[j]
    ensures (forall e :: e in list ==> e.date != entry.date) ==> r == list + [entry]
  {
    var idx := FindIndex(list, entry.date);
    if idx >= 0 then list[idx := entry] else list + [entry]
  }

  /** After `upsert(entry)`, looking up `entry.date` finds `entry`. */
  lemma {:induction false} UpsertThenFind(list: seq<Entry>, entry: Entry)
    ensures FindByDate(Upserted(list, entry), entry.date) == Some(entry)
  {
    var r := Upserted(list, entry);
    var idx := FindIndex(list, entry.date);
    if idx >= 0 {
      assert FindIndex(r, entry.date) == idx;
    } else {
      assert r == list + [entry];
      assert r[|list|] == entry;
      assert forall j :: 0 <= j < |list| ==> r[j] == list[j];
      assert FindIndex(r, entry.date) == |list|;
    }
  }

  /** `upsert` keeps dates unique. */
  lemma {:induction false} UpsertKeepsDatesUnique(list: seq<Entry>, entry: Entry)
    requires UniqueDates(list)
    ensures UniqueDates(Upserted(list, entry))
  {
  }

  /** `upsert(entry)` leaves every entry of another date untouched and in the same order. */
  lemma {:induction false} UpsertKeepsOtherDates(list: seq<Entry>, entry: Entry)
    ensures Removed(Upserted(list, entry), entry.date) == Removed(list, entry.date)
  {
    var idx := FindIndex(list, entry.date);
    if idx >= 0 {
      assert list == list[..idx] + [list[idx]] + list[idx + 1..];
      assert Upserted(list, entry) == list[..idx] + [entry] + list[idx + 1..];
      RemovedReplace(list[..idx], list[idx], entry, list[idx + 1..], entry.date);
    } else {
      RemovedAppend(list, [entry], entry.date);
      RemovedDated(entry, entry.date);
    }
  }

  lemma RemovedDated(x: Entry, date: string)
    requires x.date == date
    ensures Removed([x], date) == []
  {
    assert [x][1..] == [];
  }

  /** Swapping one entry of `date` for another is invisible once `date` is filtered out. */
  lemma RemovedReplace(a: seq<Entry>, x: Entry, y: Entry, b: seq<Entry>, date: string)
    requires x.date == date && y.date == date
    ensures Removed(a + [x] + b, date) == Removed(a + [y] + b, date)
  {
    RemovedAppend(a + [x], b, date);
    RemovedAppend(a, [x], date);
    RemovedAppend(a + [y], b, date);
    RemovedAppend(a, [y], date);
    RemovedDated(x, date);
    RemovedDated(y, date);
  }

  // ---------------------------------------------------------------------------
  // remove

  /** `list.filter(e => e.date !== date)` */
  function Removed(list: seq<Entry>, date: string): (r: seq<Entry>)
    ensures |r| <= |list|
    ensures forall e :: e in r <==> e in list && e.date != date
  {
    if list == [] then []
    else (if list[0].date != date then [list[0]] else []) + Removed(list[1..], date)
  }

  /** The filter keeps the relative order of what it keeps. */
  lemma {:induction false} RemovedAppend(a: seq<Entry>, b: seq<Entry>, date: string)
    ensures Removed(a + b, date) == Removed(a, date) + Removed(b, date)
  {
    if a == [] {
      assert a + b == b;
    } else {
      assert (a + b)[0] == a[0];
      assert (a + b)[1..] == a[1..] + b;
      RemovedAppend(a[1..], b, date);
    }
  }

  /** Nothing with another date is dropped: without `date` in the list, `remove` changes nothing. */
  lemma {:induction false} RemoveAbsentIsIdentity(list: seq<Entry>, date: string)
    requires forall e :: e in list ==> e.date != date
    ensures Removed(list, date) == list
  {
    if list != [] {
      RemoveAbsentIsIdentity(list[1..], date);
      assert list == [list[0]] + list[1..];
    }
  }

  /** After `remove(date)`, `getForDate(date)` finds nothing. */
  lemma RemoveThenFind(list: seq<Entry>, date: string)
    ensures FindByDate(Removed(list, date), date) == None
  {
  }

  /** Removing the same date twice is the same as removing it once. */
  lemma RemoveIdempotent(list: seq<Entry>, date: string)
    ensures Removed(Removed(list, date), date) == Removed(list, date)
  {
    RemoveAbsentIsIdentity(Removed(list, date), date);
  }

  // ---------------------------------------------------------------------------
  // getAll

  /** Place `e` in a list ordered latest first. */
  function InsertByDateDesc(e: Entry, sorted: seq<Entry>): (r: seq<Entry>)
    ensures multiset(r) == multiset(sorted) + multiset{e}
  {
    if sorted == [] then [e]
    else if Le(sorted[0].date, e.date) then [e] + sorted
    else
      assert sorted == [sorted[0]] + sorted[1..];
      [sorted[0]] + InsertByDateDesc(e, sorted[1..])
  }

  /**
   * `list.sort((a, b) => a.date < b.date ? 1 : -1)`: the same entries,
   * latest date first.
   */
  function SortByDateDesc(list: seq<Entry>): (r: seq<Entry>)
    ensures multiset(r) == multiset(list)
  {
    if list == [] then []
    else
      assert list == [list[0]] + list[1..];
      InsertByDateDesc(list[0], SortByDateDesc(list[1..]))
  }

  lemma {:induction false} InsertKeepsOrder(e: Entry, sorted: seq<Entry>)
    requires SortedByDateDesc(sorted)
    ensures SortedByDateDesc(InsertByDateDesc(e, sorted))
  {
    if sorted != [] && !Le(sorted[0].date, e.date) {
      var rest := InsertByDateDesc(e, sorted[1..]);
      InsertKeepsOrder(e, sorted[1..]);
      LeTotal(sorted[0].date, e.date);
      forall x | x in rest
        ensures Le(x.date, sorted[0].date)
      {
        assert x in multiset(rest);
        if x != e {
          assert x in sorted[1..];
        }
      }
    } else if sorted != [] {
      forall j | 0 <= j < |sorted|
        ensures Le(sorted[j].date, e.date)
      {
        if j > 0 {
          LeTransitive(sorted[j].date, sorted[0].date, e.date);
        }
      }
    }
  }

  lemma {:induction false} InsertKeepsDatesUnique(e: Entry, sorted: seq<Entry>)
    requires UniqueDates(sorted)
    requires forall x :: x in sorted ==> x.date != e.date
    ensures UniqueDates(InsertByDateDesc(e, sorted))
  {
    if sorted != [] && !Le(sorted[0].date, e.date) {
      var rest := InsertByDateDesc(e, sorted[1..]);
      InsertKeepsDatesUnique(e, sorted[1..]);
      forall x | x in rest
        ensures x.date != sorted[0].date
      {
        assert x in multiset(rest);
      }
    }
  }

  /** `getAll` returns the stored entries, latest date first. */
  lemma {:induction false} SortOrdersByDateDesc(list: seq<Entry>)
    ensures SortedByDateDesc(SortByDateDesc(list))
  {
    if list != [] {
      SortOrdersByDateDesc(list[1..]);
      InsertKeepsOrder(list[0], SortByDateDesc(list[1..]));
    }
  }

  /** With unique dates the order is strict: each entry is dated after the next one. */
  lemma {:induction false} SortStrictWhenDatesUnique(list: seq<Entry>)
    requires UniqueDates(list)
    ensures UniqueDates(SortByDateDesc(list))
    ensures forall i, j :: 0 <= i < j < |SortByDateDesc(list)| ==> Lt(SortByDateDesc(list)[j].date, SortByDateDesc(list)[i].date)
  {
    if list != [] {
      var rest := SortByDateDesc(list[1..]);
      SortStrictWhenDatesUnique(list[1..]);
      forall x | x in rest
        ensures x.date != list[0].date
      {
        assert x in multiset(rest);
      }
      InsertKeepsDatesUnique(list[0], rest);
    }
    SortOrdersByDateDesc(list);
  }

  // ---------------------------------------------------------------------------

  /** The level lists of the four metrics: 5, 3, 4 and 4 distinct labels. */
  function GetCategories(): (r: ServiceCategories)
    ensures |r.pain| == 5 && |r.libido| == 3 && |r.sleep| == 4 && |r.mood| == 4
    ensures forall i, j :: 0 <= i < j < |r.pain| ==> r.pain[i] != r.pain[j]
    ensures forall i, j :: 0 <= i < j < |r.libido| ==> r.libido[i] != r.libido[j]
    ensures forall i, j :: 0 <= i < j < |r.sleep| ==> r.sleep[i] != r.sleep[j]
    ensures forall i, j :: 0 <= i < j < |r.mood| ==> r.mood[i] != r.mood[j]
  {
    ServiceCategories(
      ["Ninguno", "Leve", "Moderado", "Fuerte", "Severo"],
      ["Bajo", "Normal", "Alto"],
      ["Malo", "Regular", "Bueno", "Excelente"],
      ["Triste", "Neutral", "Contento", "Eufórico"])
  }

  /** The service; `stored` is the local-storage item, `None` when nothing was ever saved. */
  class TrackerService {
    var stored: Option<seq<Entry>>

    constructor (initial: Option<seq<Entry>>)
      ensures stored == initial
    {
      stored := initial;
    }

    /** `load`: the stored list, or the empty list when nothing is stored. */
    function Load(): seq<Entry>
      reads this
    {
      if stored.Some? then stored.value else []
    }

    /** `getAll`: the stored entries, latest date first. */
    function GetAll(): (r: seq<Entry>)
      reads this
      ensures multiset(r) == multiset(Load())
      ensures SortedByDateDesc(r)
    {
      SortOrdersByDateDesc(Load());
      SortByDateDesc(Load())
    }

    /** `getForDate`: the first stored entry of that date, if any. */
    function GetForDate(date: string): (r: Option<Entry>)
      reads this
      ensures r.None? <==> forall e :: e in Load() ==> e.date != date
      ensures r.Some? ==> r.value.date == date
      ensures r.Some? ==>
        exists i :: 0 <= i < |Load()| && Load()[i] == r.value && forall j :: 0 <= j < i ==> Load()[j].date != date
    {
      FindByDate(Load(), date)
    }

    /** `upsert`: load, replace the first entry of that date or append, save. */
    method Upsert(entry: Entry)
      modifies this
      ensures stored == Some(Upserted(old(Load()), entry))
    {
      var list := Load();
      var idx := 0;
      while idx < |list| && list[idx].date != entry.date
        invariant 0 <= idx <= |list|
        invariant forall j :: 0 <= j < idx ==> list[j].date != entry.date
      {
        idx := idx + 1;
      }
      if idx == |list| {
        idx := -1;
      }
      if idx >= 0 {
        list := list[idx := entry];
      } else {
        list := list + [entry];
      }
      stored := Some(list);
    }

    /** `remove`: load, drop every entry of that date, save. */
    method Remove(date: string)
      modifies this
      ensures stored == Some(Removed(old(Load()), date))
    {
      var list := Removed(Load(), date);
      stored := Some(list);
    }
  }

  /** With nothing stored, `getAll` is empty and `getForDate` finds nothing for any date. */
  lemma NothingStored(service: TrackerService)
    requires service.stored.None?
    ensures service.Load() == []
    ensures service.GetAll() == []
    ensures forall date :: service.GetForDate(date) == None
  {
  }
}
