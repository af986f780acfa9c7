# Bienestar health tracker — verified model of its data core

The repository is a personal wellbeing diary with two front ends. Each day the user rates pain, libido, sleep and
mood, picks an emotion from a catalog they maintain, and may add a comment. This project models the data logic of
both front ends in Dafny and proves what that logic promises.

**React `HealthTrackerApp`** (`src/HealthTrackerApp.jsx`), without its rendering:

- the custom-emotion catalog (module `EmotionCatalog`): add or edit, archive, unarchive, delete, move, and the
  "active" view of the items that are not archived;
- the rating levels and colours of each category, `getColorForCategory`, `getColorStyle` and `categoryToValue`
  (module `Categories`);
- the entry map, one record per `yyyy-mm-dd` key, and the `handleSubmit` guard (module `EntryStore`);
- `getStats`, per-category frequency counts over a date range (module `Statistics`);
- `getChartData`, the in-range days in ascending order with each rating turned into its level number
  (module `Chart`);
- the component's two persisted pieces of state and the handlers that change them (class
  `HealthTracker.HealthTrackerApp`).

**Angular `TrackerService`** (`src/app/services/tracker.service.ts`): a list of entries kept under one storage key,
with `getAll` (sorted by date, latest first), `getForDate`, `upsert`, `remove` and `getCategories` (module `Tracker`,
class `Tracker.TrackerService`).

Date keys are compared as strings, character by character, exactly as the source compares them. Dafny's `<=` on
sequences is the prefix order, so module `DateKeys` defines the lexicographic order `Le` and proves it is a total
order. It also sorts a finite set of keys into ascending order.

Imperative handlers are modelled as methods that change class fields. Each method's postcondition equals the new
state to a pure function of the old state (`Moved`, `WithArchived`, `Submitted`, `Upserted`, …). The properties
the source promises are proved about those functions as lemmas. `getStats` is a method with loops, proved against
a set-based definition of the counts.

## Model

| member | source | states |
|---|---|---|
| DateKeys.Le | src/HealthTrackerApp.jsx:234 | the string order used for date keys: a prefix sorts no later than the longer key, and the first characters decide |
| DateKeys.InRange | src/HealthTrackerApp.jsx:234 | `start <= date <= end` inclusive; a range holding a day has `start <= end` |
| DateKeys.LeTotal | src/HealthTrackerApp.jsx:234 | any two date keys are comparable under the string order the range filter uses |
| DateKeys.LeTransitive | src/HealthTrackerApp.jsx:234 | the string order on date keys is transitive |
| DateKeys.LeAntisymmetric | src/HealthTrackerApp.jsx:234 | two keys each `<=` the other are equal |
| DateKeys.SortedAscending | src/HealthTrackerApp.jsx:259-261 | the keys of a set, each once, in strictly ascending string order |
| EmotionCatalog.ActiveEmotions | src/HealthTrackerApp.jsx:69-71 | the active view holds exactly the non-archived items and is no longer than the catalog |
| EmotionCatalog.ActiveNamesMembership | src/HealthTrackerApp.jsx:69-71 | a name is offered exactly when some non-archived item carries it |
| EmotionCatalog.ActiveEmotionsAppend | src/HealthTrackerApp.jsx:69-71 | the active view keeps stored order (filtering distributes over concatenation) |
| EmotionCatalog.AddedOrUpdated | src/HealthTrackerApp.jsx:84-91 | with an edit index only that slot gets the new name and colour and keeps its archived flag, length unchanged; without one, exactly one active item is appended |
| EmotionCatalog.AddAppendsActiveName | src/HealthTrackerApp.jsx:89-90 | adding puts the new name at the end of the active names |
| EmotionCatalog.EditRenamesInPlace | src/HealthTrackerApp.jsx:85-88 | editing renames the item in place in the active view, or leaves that view alone when the item is archived |
| EmotionCatalog.WithArchived | src/HealthTrackerApp.jsx:96-106 | only slot `i`'s flag changes; name, colour, every other slot and the length are kept |
| EmotionCatalog.ArchiveHides | src/HealthTrackerApp.jsx:96-100 | archiving removes exactly that slot from the active view |
| EmotionCatalog.UnarchiveRestores | src/HealthTrackerApp.jsx:102-106 | unarchiving puts the item back into the active view at its stored position |
| EmotionCatalog.ArchiveUnarchiveRoundTrip | src/HealthTrackerApp.jsx:96-106 | archiving an active item and unarchiving it gives back the same catalog |
| EmotionCatalog.DeletedAt | src/HealthTrackerApp.jsx:108-111 | removes exactly slot `index` and keeps the order of the rest; out of range, the catalog is unchanged |
| EmotionCatalog.DeleteRemovesOne | src/HealthTrackerApp.jsx:108-111 | the items left plus the deleted one are the original multiset |
| EmotionCatalog.DeleteArchivedKeepsActiveView | src/HealthTrackerApp.jsx:108-111 | deleting an archived item leaves the active view unchanged |
| EmotionCatalog.Moved | src/HealthTrackerApp.jsx:113-120 | swaps slots `i` and `i+d` exactly when `0 <= i+d < length`, otherwise no change; length and multiset always kept |
| EmotionCatalog.MoveUndo | src/HealthTrackerApp.jsx:113-120 | moving back the other way undoes a move |
| Categories.Levels | src/HealthTrackerApp.jsx:64-72 | each built-in category has five distinct levels; `emocion`'s levels are the active names |
| Categories.LevelColors | src/HealthTrackerApp.jsx:74-82 | one non-empty colour per built-in level; active emotion colours for `emocion`, or the fallback palette when none is active |
| Categories.IndexOf | src/HealthTrackerApp.jsx:217 | first position of the value, or -1 exactly when it is absent |
| Categories.ElementOr | src/HealthTrackerApp.jsx:218 | `s[i] \|\| d`: the element at `i` when it exists and is non-empty, otherwise the default |
| Categories.ColorForCategory | src/HealthTrackerApp.jsx:210-219 | built-in: the colour at the value's level, gray if not a level; `emocion`: `''` exactly for an active name, gray otherwise |
| Categories.ColorStyle | src/HealthTrackerApp.jsx:221-229 | a background colour exactly for an active emotion, namely the colour of the first active item with that name |
| Categories.CategoryToValue | src/HealthTrackerApp.jsx:266-269 | a value in 0..N; 0 exactly when it is not a level; otherwise the 1-based position of the first occurrence of the level |
| Categories.ArchivedEmotionLosesOrdinal | src/HealthTrackerApp.jsx:266-269 | after archiving a uniquely named emotion it scores 0, shows gray and has no style colour |
| Categories.UnarchivedEmotionRegainsOrdinal | src/HealthTrackerApp.jsx:266-269 | after unarchiving it scores at least 1 and has a style colour, which is its own when no other active item shares its name |
| EntryStore.Submitted | src/HealthTrackerApp.jsx:122-138 | an incomplete form leaves the map unchanged; a complete one sets exactly the selected date's record, all fields set, every other date untouched |
| EntryStore.ResubmitOverwrites | src/HealthTrackerApp.jsx:129-138 | a second complete submission for the same day replaces the first completely |
| EntryStore.InRangeDates | src/HealthTrackerApp.jsx:233-235 | exactly the stored keys within `[start, end]` inclusive |
| Statistics.CountsPositive | src/HealthTrackerApp.jsx:246-252 | every counted level is non-empty and counted at least once |
| Statistics.CountsSum | src/HealthTrackerApp.jsx:246-252 | a category's counts sum to the number of days with that field set, at most the number of days |
| Statistics.CountEntry | src/HealthTrackerApp.jsx:247-251 | one record adds one to the tally of each of its set fields among the four counted categories and changes nothing else |
| Statistics.CountDays | src/HealthTrackerApp.jsx:246-252 | after visiting the days in any order, each tally maps every level to the number of days it was recorded on |
| Statistics.GetStats | src/HealthTrackerApp.jsx:231-255 | `None` exactly for an empty range; otherwise the counts above for `dolor`, `libido`, `sueno`, `estadoAnimo` (not `emocion`), each at least 1, summing to the filled days |
| Chart.Rating | src/HealthTrackerApp.jsx:273-277 | empty field gives null; otherwise a value in 0..N, 0 exactly when not a current level, else the 1-based position of the level's first occurrence |
| Chart.PointOf | src/HealthTrackerApp.jsx:271-278 | a day's point carries its key and, for each of the five fields, that field's rating |
| Chart.ChartData | src/HealthTrackerApp.jsx:257-279 | `None` exactly for an empty range; otherwise one point per in-range day, strictly ascending by date, each point built from that day's record |
| Chart.BuiltInRatingScale | src/HealthTrackerApp.jsx:266-277 | a set built-in rating charts in 0..5, and at 1 or more exactly when it is a level |
| Chart.ArchivedEmotionChartsAtZero | src/HealthTrackerApp.jsx:266-277 | a record whose emotion was archived charts at 0 instead of null |
| HealthTracker.HealthTrackerApp.constructor | src/HealthTrackerApp.jsx:26-33 | the component starts with no records and no custom emotions |
| HealthTracker.HealthTrackerApp.AddOrUpdateCustomCategory | src/HealthTrackerApp.jsx:84-94 | the catalog becomes `AddedOrUpdated` of the old one; records untouched |
| HealthTracker.HealthTrackerApp.ArchiveCustomCategory | src/HealthTrackerApp.jsx:96-100 | the catalog becomes `WithArchived(old, i, true)`; records untouched |
| HealthTracker.HealthTrackerApp.UnarchiveCustomCategory | src/HealthTrackerApp.jsx:102-106 | the catalog becomes `WithArchived(old, i, false)`; records untouched |
| HealthTracker.HealthTrackerApp.DeleteCustomCategory | src/HealthTrackerApp.jsx:108-111 | the catalog becomes `DeletedAt(old, i)`; records untouched |
| HealthTracker.HealthTrackerApp.MoveCategory | src/HealthTrackerApp.jsx:113-120 | the catalog becomes `Moved(old, i, d)`; records untouched |
| HealthTracker.HealthTrackerApp.HandleSubmit | src/HealthTrackerApp.jsx:122-141 | reports whether the form was complete; records become `Submitted(old, …)`; catalog untouched |
| Tracker.FindIndex | src/app/services/tracker.service.ts:27 | first position holding the date, or -1 exactly when no entry has it |
| Tracker.FindByDate | src/app/services/tracker.service.ts:21-23 | nothing exactly when no entry has the date; otherwise the first entry with that date |
| Tracker.Upserted | src/app/services/tracker.service.ts:25-33 | the first entry of that date replaced in place, length kept; or, with no such entry, the entry appended |
| Tracker.UpsertThenFind | src/app/services/tracker.service.ts:21-33 | after `upsert(e)`, `getForDate(e.date)` returns `e` |
| Tracker.UpsertKeepsDatesUnique | src/app/services/tracker.service.ts:25-33 | unique dates stay unique |
| Tracker.UpsertKeepsOtherDates | src/app/services/tracker.service.ts:27-32 | entries of every other date are unchanged and in the same order |
| Tracker.Removed | src/app/services/tracker.service.ts:37 | keeps exactly the entries with another date and never grows |
| Tracker.RemovedAppend | src/app/services/tracker.service.ts:37 | the kept entries stay in their relative order |
| Tracker.RemoveAbsentIsIdentity | src/app/services/tracker.service.ts:37 | removing a date nobody has changes nothing |
| Tracker.RemoveThenFind | src/app/services/tracker.service.ts:21-39 | after `remove(d)`, `getForDate(d)` finds nothing |
| Tracker.RemoveIdempotent | src/app/services/tracker.service.ts:36-39 | removing twice equals removing once |
| Tracker.SortByDateDesc | src/app/services/tracker.service.ts:17-19 | `getAll` returns a permutation of the stored list |
| Tracker.SortOrdersByDateDesc | src/app/services/tracker.service.ts:17-19 | that permutation is ordered latest date first |
| Tracker.SortStrictWhenDatesUnique | src/app/services/tracker.service.ts:17-19 | with unique dates it is strictly descending |
| Tracker.GetCategories | src/app/services/tracker.service.ts:41-48 | level lists of lengths 5, 3, 4 and 4, each without repeats |
| Tracker.TrackerService.constructor | src/app/services/tracker.service.ts:5-11 | the service starts on whatever the storage item holds, or on nothing |
| Tracker.TrackerService.GetAll | src/app/services/tracker.service.ts:17-19 | the loaded entries, as a permutation ordered latest date first |
| Tracker.TrackerService.GetForDate | src/app/services/tracker.service.ts:21-23 | nothing exactly when no loaded entry has the date; otherwise the first loaded entry with it |
| Tracker.TrackerService.Upsert | src/app/services/tracker.service.ts:25-34 | the stored list becomes `Upserted(old list, e)`, found by a scan for the first entry of that date |
| Tracker.TrackerService.Remove | src/app/services/tracker.service.ts:36-39 | the stored list becomes `Removed(old list, d)` |
| Tracker.NothingStored | src/app/services/tracker.service.ts:8-23 | with nothing stored, `load` gives the empty list, `getAll` is empty and `getForDate` finds nothing for any date |

## Left out

- Rendering, modals, accordions, the toast and its timer, the form reset and `handleChange`, and the effect that
  loads a day's record into the form are UI. The colour class names are opaque strings.
- Local storage and JSON: the load and persist effects of the React component and `TrackerService.saveAll`. The
  React state is the class's fields. The service's storage item is the field `stored`, with `None` for a missing
  item; an empty string in storage, which `load` also treats as `[]`, is not distinguished from a missing item.
  Malformed JSON is not modelled.
- The clock: the timestamp `handleSubmit` stores is a parameter, and so are the default date range and the reset of
  `selectedDate` to today. `getDaysInMonth`, `changeMonth` and the other `Date` helpers are host calls.
- Chart.ChartPoint: its `date` is the raw key; the `dd/mm` label is produced by `toLocaleDateString`, which is
  not modelled.
- Chart.ChartData: the key sort uses `localeCompare`. The model sorts by code-point order, which agrees with it on
  `yyyy-mm-dd` keys.
- Statistics.CountDays: `Object.entries` visits keys in insertion order; the model visits them in an unspecified
  order. The counts do not depend on it, which is what the postcondition states.
- Tracker.SortByDateDesc: the comparator never returns 0, so the order JavaScript gives entries sharing a date is
  engine-dependent. The model's insertion sort fixes one order. Only the permutation and descending order are
  stated for duplicates, and strictness only for unique dates.
- `handleSubmit`'s `try`/`catch`: nothing in the modelled part can throw, so the error branch is not modelled.
- String comparison and `indexOf` work on UTF-16 code units in JavaScript and on characters here; for the ASCII
  keys and level names involved these agree.
- Records loaded from old storage could miss fields or the `archived` flag (JavaScript treats that as not
  archived). The model's records always carry every field, with `""` as "not chosen".
- `StatsComponent`, `DayDetailComponent`, `CalendarComponent`, `DashboardComponent`, `app.module.ts` and `main.jsx`
  are not part of this model. They are float averages, id generation from time and randomness, routing, and
  pass-throughs to `getAll`.
- The code keeps exactly one record per day in the React store, with no ids. The model follows the code.
- `categories.emocion` is the empty list when no emotion is active; only the colours have a fallback palette. The
  model follows the code.
