/**
 * The persisted state of the React `HealthTrackerApp` component and the
 * handlers that change it. `customCategories` and `entries` are the two
 * pieces of state the component keeps (and mirrors to local storage); each
 * handler copies the current value, changes the copy and stores it back.
 * Values the handlers read from other UI state (the index being edited, the
 * form, the selected date) and the clock are parameters.
 */
module HealthTracker {

  import opened Wrappers
  import opened EmotionCatalog
  import opened EntryStore

  class HealthTrackerApp {
    var customCategories: seq<CustomEmotion>
    var entries: Entries

    /** The component's initial state: no custom emotions, no records. */
    constructor ()
      ensures customCategories == [] && entries == map[]
    {
      customCategories := [];
      entries := map[];
    }

    /** `addOrUpdateCustomCategory`, with `editIndex` the value of `editingCategory` (`None` for `null`). */
    method AddOrUpdateCustomCategory(name: string, color: string, editIndex: Option<nat>)
      requires editIndex.Some? ==> editIndex.value < |customCategories|
      modifies this
      ensures customCategories == AddedOrUpdated(old(customCategories), name, color, editIndex)
      ensures entries == old(entries)
    {
      if editIndex.Some? {
        var i := editIndex.value;
        var updated := customCategories;
        updated := updated[i := CustomEmotion(name, color, updated[i].archived)];
        customCategories := updated;
      } else {
        customCategories := customCategories + [CustomEmotion(name, color, false)];
      }
    }

    /** `archiveCustomCategory` */
    method ArchiveCustomCategory(index: nat)
      requires index < |customCategories|
      modifies this
      ensures customCategories == WithArchived(old(customCategories), index, true)
      ensures entries == old(entries)
    {
      var updated := customCategories;
      updated := updated[index := updated[index].(archived := true)];
      customCategories := updated;
    }

    /** `unarchiveCustomCategory` */
    method UnarchiveCustomCategory(index: nat)
      requires index < |customCategories|
      modifies this
      ensures customCategories == WithArchived(old(customCategories), index, false)
      ensures entries == old(entries)
    {
      var updated := customCategories;
      updated := updated[index := updated[index].(archived := false)];
      customCategories := updated;
    }

    /** `deleteCustomCategory` */
    method DeleteCustomCategory(index: int)
      modifies this
      ensures customCategories == DeletedAt(old(customCategories), index)
      ensures entries == old(entries)
    {
      customCategories := DeletedAt(customCategories, index);
    }

    /** `moveCategory`: the state is stored back only when the neighbour exists. */
    method MoveCategory(index: nat, direction: int)
      requires index < |customCategories|
      modifies this
      ensures customCategories == Moved(old(customCategories), index, direction)
      ensures entries == old(entries)
    {
      var updated := customCategories;
      var newIndex := index + direction;
      if 0 <= newIndex < |updated| {
        updated := updated[index := updated[newIndex]][newIndex := updated[index]];
        customCategories := updated;
      }
    }

    /**
     * `handleSubmit`: refuses an incomplete form and leaves the records
     * alone; otherwise stores the form as the one record of `selectedDate`.
     * `saved` tells which of the two happened.
     */
    method HandleSubmit(form: FormData, selectedDate: string, now: string) returns (saved: bool)
      modifies this
      ensures saved == IsComplete(form)
      ensures entries == Submitted(old(entries), form, selectedDate, now)
      ensures customCategories == old(customCategories)
    {
      if form.dolor == "" || form.libido == "" || form.sueno == "" || form.estadoAnimo == "" || form.emocion == "" {
        return false;
      }
      var newEntries := entries;
      newEntries := newEntries[selectedDate := DayEntry(
        form.dolor, form.libido, form.sueno, form.estadoAnimo, form.emocion, form.comentarios, now)];
      entries := newEntries;
      saved := true;
    }
  }
}
