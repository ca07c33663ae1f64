/** The student's schedule page, frontend/src/pages/StudentScheduleTracking.tsx:
    the status badge, the cancel button and the deletion of one entry. */
module StudentScheduleTracking {
  import opened Wrappers
  import Seqs
  import opened SessionViews

  /** Lines 121-125. */
  function StatusLabel(statusId: int): (l: string)
    ensures l == "Approved" <==> statusId == 1
    ensures l == "Declined" <==> statusId == 2
    ensures l == "Pending" <==> statusId != 1 && statusId != 2
  {
    if statusId == 1 then "Approved" else if statusId == 2 then "Declined" else "Pending"
  }

  /** Lines 131-133: the button is enabled unless the tutor has answered. */
  function CanCancel(statusId: int): (b: bool)
    ensures b <==> statusId != 1 && statusId != 2
  {
    !(statusId == 1 || statusId == 2)
  }

  /** Lines 140-142. */
  function ButtonText(statusId: int): (t: string)
    ensures t == "Cancel" <==> statusId != 1 && statusId != 2
    ensures t == "Delete" <==> statusId == 1 || statusId == 2
  {
    if statusId == 1 || statusId == 2 then "Delete" else "Cancel"
  }

  /** The badge, the enabled state and the button text agree: exactly the
      pending sessions can be cancelled, and their button says so. */
  lemma CancelOnlyPending(statusId: int)
    ensures CanCancel(statusId) <==> StatusLabel(statusId) == "Pending"
    ensures CanCancel(statusId) <==> ButtonText(statusId) == "Cancel"
  {
  }

  /** The page's list of sessions and its loading flag. */
  class ScheduleList {
    var schedules: seq<Schedule>
    var loading: bool

    constructor ()
      ensures schedules == [] && !loading
    {
      schedules := [];
      loading := false;
    }

    /** Lines 27-41: the fetched list is shown as it is; a failed fetch
        leaves the list alone. */
    method FetchSchedule(fetched: Option<seq<Schedule>>)
      modifies this
      ensures schedules == (if fetched.Some? then fetched.value else old(schedules))
      ensures !loading
    {
      loading := true;
      if fetched.Some? {
        schedules := fetched.value;
      }
      loading := false;
    }

    /** Lines 43-63. Nothing happens unless the user confirms. Reading the
        id of an index past the list throws before any request, and a
        failed delete is caught; in both cases the list stays as it was.
        After a successful delete exactly that entry is gone. */
    method HandleDelete(index: int, confirmed: bool, deleteSucceeds: bool) returns (deleted: Option<string>)
      modifies this
      ensures deleted.Some? <==> confirmed && 0 <= index < |old(schedules)|
      ensures deleted.Some? ==> deleted.value == old(schedules)[index].sessionId
      ensures deleted.Some? && deleteSucceeds ==> schedules == Seqs.RemoveAt(old(schedules), index)
      ensures deleted.None? || !deleteSucceeds ==> schedules == old(schedules)
      ensures !loading
    {
      deleted := None;
      if confirmed {
        loading := true;
        if 0 <= index < |schedules| {
          deleted := Some(schedules[index].sessionId);
          if deleteSucceeds {
            schedules := Seqs.RemoveAt(schedules, index);
          }
        }
      }
      loading := false;
    }
  }
}
