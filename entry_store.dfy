/**
 * The React tracker's entry store: a map from `yyyy-mm-dd` date key to the
 * one record kept for that day, and the submission that writes it
 * (`handleSubmit` in HealthTrackerApp.jsx).
 */
module EntryStore {

  import opened Categories
  import opened DateKeys

  /** One day's record. `timestamp` is the save time the clock supplied. */
  datatype DayEntry = DayEntry(
    dolor: string, libido: string, sueno: string, estadoAnimo: string, emocion: string,
    comentarios: string, timestamp: string)

  /** The form being filled in; an empty string is a field not chosen yet. */
  datatype FormData = FormData(
    dolor: string, libido: string, sueno: string, estadoAnimo: string, emocion: string,
    comentarios: string)

  type Entries = map<string, DayEntry>

  /** `entry[key]` for a rated field. */
  function Field(e: DayEntry, c: Category): string {
    match c
    case Dolor => e.dolor
    case Libido => e.libido
    case Sueno => e.sueno
    case EstadoAnimo => e.estadoAnimo
    case Emocion => e.emocion
  }

  /** The submission guard: all five ratings chosen; the comment is optional. */
  predicate IsComplete(form: FormData) {
    form.dolor != "" && form.libido != "" && form.sueno != "" && form.estadoAnimo != "" && form.emocion != ""
  }

  /** The record stored for a submitted form. */
  function RecordOf(form: FormData, now: string): DayEntry {
    DayEntry(form.dolor, form.libido, form.sueno, form.estadoAnimo, form.emocion, form.comentarios, now)
  }

  /**
   * The entry map after a submission for `selectedDate`: unchanged when a
   * rating is missing; otherwise exactly one record at `selectedDate`,
   * replacing any earlier one, with every other date untouched.
   */
  function Submitted(entries: Entries, form: FormData, selectedDate: string, now: string): (r: Entries)
    ensures !IsComplete(form) ==> r == entries
    ensures IsComplete(form) ==>
      && r.Keys == entries.Keys + {selectedDate}
      && r[selectedDate] == RecordOf(form, now)
      && forall d :: d in entries && d != selectedDate ==> r[d] == entries[d]
    ensures IsComplete(form) ==> forall c :: Field(r[selectedDate], c) != ""
  {
    if !IsComplete(form) then entries
    else entries[selectedDate := RecordOf(form, now)]
  }

  /** A later submission for the same day replaces the earlier one completely. */
  lemma ResubmitOverwrites(entries: Entries, f1: FormData, f2: FormData, d: string, t1: string, t2: string)
    requires IsComplete(f2)
    ensures Submitted(Submitted(entries, f1, d, t1), f2, d, t2) == Submitted(entries, f2, d, t2)
  {
  }

  /** The keys the statistics views look at: those within `[start, end]`. */
  function InRangeDates(entries: Entries, start: string, end: string): (r: set<string>)
    ensures r <= entries.Keys
    ensures forall d :: d in r <==> d in entries && InRange(d, start, end)
  {
    set d | d in entries.Keys && InRange(d, start, end)
  }
}
