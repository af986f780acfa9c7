/**
 * `getStats` of HealthTrackerApp.jsx: per-category frequency counts of the
 * levels recorded on the days within an inclusive date range.
 */
module Statistics {

  import opened Wrappers
  import opened Categories
  import opened EntryStore

  /** Level -> number of days it was recorded on. */
  type Tally = map<string, nat>

  /** The `stats` object: one tally per counted category. */
  datatype Stats = Stats(dolor: Tally, libido: Tally, sueno: Tally, estadoAnimo: Tally) {

    /** `stats[key]` */
    function Get(key: Category): Tally
      requires key != Emocion
    {
      match key
      case Dolor => dolor
      case Libido => libido
      case Sueno => sueno
      case EstadoAnimo => estadoAnimo
    }

    /** `stats[key] = t` */
    function Set(key: Category, t: Tally): (r: Stats)
      requires key != Emocion
    {
      match key
      case Dolor => this.(dolor := t)
      case Libido => this.(libido := t)
      case Sueno => this.(sueno := t)
      case EstadoAnimo => this.(estadoAnimo := t)
    }
  }

  /** The categories `getStats` counts, in the order of its `stats` object; `emocion` is not counted. */
  const StatCategories: seq<Category> := [Dolor, Libido, Sueno, EstadoAnimo]

  /** `(t[v] || 0) + 1` stored back at `v`. */
  function Bump(t: Tally, v: string): Tally {
    t[v := (if v in t then t[v] else 0) + 1]
  }

  /** The days of `ds` whose field `c` holds `v`. */
  ghost function DaysWith(entries: Entries, ds: set<string>, c: Category, v: string): set<string>
    requires ds <= entries.Keys
  {
    set d | d in ds && Field(entries[d], c) == v
  }

  /** The days of `ds` on which field `c` is set. */
  ghost function FilledDays(entries: Entries, ds: set<string>, c: Category): set<string>
    requires ds <= entries.Keys
  {
    set d | d in ds && Field(entries[d], c) != ""
  }

  /** The non-empty values field `c` takes over the days `ds`. */
  ghost function Observed(entries: Entries, ds: set<string>, c: Category): set<string>
    requires ds <= entries.Keys
  {
    set d | d in ds && Field(entries[d], c) != "" :: Field(entries[d], c)
  }

  /** The tally `getStats` is meant to build for category `c` over the days `ds`. */
  ghost function Counts(entries: Entries, ds: set<string>, c: Category): Tally
    requires ds <= entries.Keys
  {
    map v | v in Observed(entries, ds, c) :: |DaysWith(entries, ds, c, v)|
  }

  /** The sum of the counts of a tally. */
  ghost function Total(t: Tally): nat
    decreases |t|
  {
    if t == map[] then 0
    else
      var v :| v in t;
      t[v] + Total(t - {v})
  }

  /** The sum does not depend on which key is taken out first. */
  lemma {:induction false} TotalRemove(t: Tally, v: string)
    requires v in t
    ensures Total(t) == t[v] + Total(t - {v})
    decreases |t|
  {
    var w :| w in t && Total(t) == t[w] + Total(t - {w});
    if w != v {
      TotalRemove(t - {w}, v);
      TotalRemove(t - {v}, w);
      assert t - {w} - {v} == t - {v} - {w};
    }
  }

  /** Counting one more occurrence adds one to the sum. */
  lemma TotalBump(t: Tally, v: string)
    ensures Total(Bump(t, v)) == Total(t) + 1
  {
    TotalRemove(Bump(t, v), v);
    if v in t {
      TotalRemove(t, v);
      assert Bump(t, v) - {v} == t - {v};
    } else {
      assert Bump(t, v) - {v} == t;
    }
  }

  lemma {:induction false} ObservedAdd(entries: Entries, ds: set<string>, d: string, c: Category)
    requires ds <= entries.Keys && d in entries
    ensures Observed(entries, ds + {d}, c) ==
      Observed(entries, ds, c) + (if Field(entries[d], c) == "" then {} else {Field(entries[d], c)})
  {
  }

  lemma {:induction false} DaysWithAdd(entries: Entries, ds: set<string>, d: string, c: Category, w: string)
    requires ds <= entries.Keys && d in entries
    ensures DaysWith(entries, ds + {d}, c, w) ==
      DaysWith(entries, ds, c, w) + (if Field(entries[d], c) == w then {d} else {})
  {
  }

  /** A non-empty value never observed was recorded on no day. */
  lemma {:induction false} DaysWithUnobserved(entries: Entries, ds: set<string>, c: Category, w: string)
    requires ds <= entries.Keys && w != "" && w !in Observed(entries, ds, c)
    ensures DaysWith(entries, ds, c, w) == {}
  {
    assert forall d :: d in ds && Field(entries[d], c) != "" ==> Field(entries[d], c) in Observed(entries, ds, c);
  }

  lemma {:induction false} CountsKeys(entries: Entries, ds: set<string>, c: Category)
    requires ds <= entries.Keys
    ensures Counts(entries, ds, c).Keys == Observed(entries, ds, c)
    ensures "" !in Observed(entries, ds, c)
  {
  }

  /** A day on which field `c` is unset leaves the tally of `c` as it was. */
  lemma {:induction false} CountsAddUnset(entries: Entries, ds: set<string>, d: string, c: Category)
    requires ds <= entries.Keys && d in entries && d !in ds && Field(entries[d], c) == ""
    ensures Counts(entries, ds + {d}, c) == Counts(entries, ds, c)
  {
    var before, after := Counts(entries, ds, c), Counts(entries, ds + {d}, c);
    assert after.Keys == before.Keys by {
      ObservedAdd(entries, ds, d, c);
      CountsKeys(entries, ds, c);
      CountsKeys(entries, ds + {d}, c);
    }
    forall w | w in after
      ensures after[w] == before[w]
    {
      assert w != "" by {
        CountsKeys(entries, ds + {d}, c);
      }
      DaysWithAdd(entries, ds, d, c, w);
    }
  }

  /** A day on which field `c` holds `v` adds one to the count of `v`. */
  lemma {:induction false} CountsAddSet(entries: Entries, ds: set<string>, d: string, c: Category)
    requires ds <= entries.Keys && d in entries && d !in ds && Field(entries[d], c) != ""
    ensures Counts(entries, ds + {d}, c) == Bump(Counts(entries, ds, c), Field(entries[d], c))
  {
    var v := Field(entries[d], c);
    var before, after := Counts(entries, ds, c), Counts(entries, ds + {d}, c);
    var expected := Bump(before, v);
    assert after.Keys == expected.Keys by {
      ObservedAdd(entries, ds, d, c);
      CountsKeys(entries, ds, c);
      CountsKeys(entries, ds + {d}, c);
    }
    forall w | w in after
      ensures after[w] == expected[w]
    {
      DaysWithAdd(entries, ds, d, c, w);
      if w == v && v !in before {
        assert v !in Observed(entries, ds, c) by {
          CountsKeys(entries, ds, c);
        }
        DaysWithUnobserved(entries, ds, c, w);
      }
    }
  }

  /** Adding one day to the counted days changes the tally as one more step of the count loop does. */
  lemma {:induction false} CountsAdd(entries: Entries, ds: set<string>, d: string, c: Category)
    requires ds <= entries.Keys && d in entries && d !in ds
    ensures var v := Field(entries[d], c);
      Counts(entries, ds + {d}, c) == if v == "" then Counts(entries, ds, c) else Bump(Counts(entries, ds, c), v)
  {
    if Field(entries[d], c) == "" {
      CountsAddUnset(entries, ds, d, c);
    } else {
      CountsAddSet(entries, ds, d, c);
    }
  }

  /** Every counted level was seen at least once, and the empty value is never counted. */
  lemma {:induction false} CountsPositive(entries: Entries, ds: set<string>, c: Category)
    requires ds <= entries.Keys
    ensures forall v :: v in Counts(entries, ds, c) ==> v != "" && Counts(entries, ds, c)[v] >= 1
  {
    var t := Counts(entries, ds, c);
    forall v | v in t
      ensures v != "" && t[v] >= 1
    {
      var d :| d in ds && Field(entries[d], c) != "" && Field(entries[d], c) == v;
      assert d in DaysWith(entries, ds, c, v);
    }
  }

  /** A category's counts add up to the number of days on which it was set, which is at most the number of days. */
  lemma {:induction false} CountsSum(entries: Entries, ds: set<string>, c: Category)
    requires ds <= entries.Keys
    ensures Total(Counts(entries, ds, c)) == |FilledDays(entries, ds, c)| <= |ds|
    decreases |ds|
  {
    if ds == {} {
      assert Counts(entries, ds, c) == map[];
    } else {
      var d :| d in ds;
      var rest := ds - {d};
      assert rest + {d} == ds;
      CountsSum(entries, rest, c);
      CountsAdd(entries, rest, d, c);
      FilledDaysAdd(entries, rest, d, c);
      if Field(entries[d], c) != "" {
        TotalBump(Counts(entries, rest, c), Field(entries[d], c));
      }
    }
  }

  lemma {:induction false} FilledDaysAdd(entries: Entries, ds: set<string>, d: string, c: Category)
    requires ds <= entries.Keys && d in entries
    ensures FilledDays(entries, ds + {d}, c) ==
      FilledDays(entries, ds, c) + (if Field(entries[d], c) == "" then {} else {d})
  {
  }

  /** The inner loop of `getStats`: count one day's record into each of the four tallies. */
  method CountEntry(stats: Stats, entry: DayEntry) returns (r: Stats)
    ensures forall c :: c != Emocion ==>
      r.Get(c) == if Field(entry, c) == "" then stats.Get(c) else Bump(stats.Get(c), Field(entry, c))
  {
    r := stats;
    for k := 0 to |StatCategories|
      invariant forall j :: 0 <= j < k ==>
        r.Get(StatCategories[j]) == if Field(entry, StatCategories[j]) == "" then stats.Get(StatCategories[j])
                                    else Bump(stats.Get(StatCategories[j]), Field(entry, StatCategories[j]))
      invariant forall j :: k <= j < |StatCategories| ==> r.Get(StatCategories[j]) == stats.Get(StatCategories[j])
    {
      var key := StatCategories[k];
      if Field(entry, key) != "" {
        var tally := r.Get(key);
        var v := Field(entry, key);
        r := r.Set(key, tally[v := (if v in tally then tally[v] else 0) + 1]);
      }
    }
    forall c | c != Emocion
      ensures r.Get(c) == if Field(entry, c) == "" then stats.Get(c) else Bump(stats.Get(c), Field(entry, c))
    {
      var j := match c case Dolor => 0 case Libido => 1 case Sueno => 2 case _ => 3;
      assert StatCategories[j] == c;
    }
  }

  /** `stats` holds, for each counted category, the tally of the days `ds`. */
  ghost predicate Tallied(entries: Entries, ds: set<string>, stats: Stats)
    requires ds <= entries.Keys
  {
    forall c :: c != Emocion ==> stats.Get(c) == Counts(entries, ds, c)
  }

  /** Counting one more day's record keeps the tallies in step with the visited days. */
  lemma {:induction false} TalliedStep(entries: Entries, ds: set<string>, d: string, before: Stats, after: Stats)
    requires ds <= entries.Keys && d in entries && d !in ds
    requires Tallied(entries, ds, before)
    requires forall c :: c != Emocion ==>
      after.Get(c) == if Field(entries[d], c) == "" then before.Get(c) else Bump(before.Get(c), Field(entries[d], c))
    ensures Tallied(entries, ds + {d}, after)
  {
    forall c | c != Emocion
      ensures after.Get(c) == Counts(entries, ds + {d}, c)
    {
      CountsAdd(entries, ds, d, c);
    }
  }

  /** The outer loop of `getStats`: count the records of the days `ds`, visited in an unspecified order. */
  method CountDays(entries: Entries, ds: set<string>) returns (stats: Stats)
    requires ds <= entries.Keys
    ensures forall c :: c != Emocion ==> stats.Get(c) == Counts(entries, ds, c)
  {
    stats := Stats(map[], map[], map[], map[]);
    var remaining := ds;
    ghost var visited: set<string> := {};
    forall c | c != Emocion
      ensures stats.Get(c) == Counts(entries, visited, c)
    {
      CountsKeys(entries, visited, c);
    }
    while remaining != {}
      invariant remaining + visited == ds && remaining !! visited
      invariant Tallied(entries, visited, stats)
      decreases |remaining|
    {
      var date :| date in remaining;
      ghost var before := stats;
      stats := CountEntry(stats, entries[date]);
      TalliedStep(entries, visited, date, before, stats);
      remaining := remaining - {date};
      visited := visited + {date};
    }
  }

  /**
   * `getStats`: `None` (JavaScript `null`) when no day lies in
   * `[start, end]`; otherwise, for each of the four counted categories, the
   * number of in-range days on which each non-empty level was recorded.
   */
  method GetStats(entries: Entries, start: string, end: string) returns (r: Option<Stats>)
    ensures r.None? <==> InRangeDates(entries, start, end) == {}
    ensures r.Some? ==> forall c :: c != Emocion ==> r.value.Get(c) == Counts(entries, InRangeDates(entries, start, end), c)
    ensures r.Some? ==> forall c, v :: c != Emocion && v in r.value.Get(c) ==> v != "" && r.value.Get(c)[v] >= 1
    ensures r.Some? ==> forall c :: c != Emocion ==>
      Total(r.value.Get(c)) == |FilledDays(entries, InRangeDates(entries, start, end), c)| <= |InRangeDates(entries, start, end)|
  {
    var filteredEntries := InRangeDates(entries, start, end);
    if filteredEntries == {} {
      return None;
    }
    var stats := CountDays(entries, filteredEntries);
    forall c | c != Emocion
      ensures forall v :: v in stats.Get(c) ==> v != "" && stats.Get(c)[v] >= 1
      ensures Total(stats.Get(c)) == |FilledDays(entries, filteredEntries, c)| <= |filteredEntries|
    {
      CountsPositive(entries, filteredEntries, c);
      CountsSum(entries, filteredEntries, c);
    }
    return Some(stats);
  }
}
