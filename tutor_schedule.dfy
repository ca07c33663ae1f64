/** The tutor's schedule page, frontend/src/pages/TutorSchedule.tsx: two
    fetches of the same list, one keeping the sessions still to come and
    one keeping those in the past. */
module TutorSchedule {
  import opened Wrappers
  import opened SessionViews

  /** The page state that the two fetches write. */
  datatype Page = Page(schedules: seq<Schedule>, history: seq<Schedule>, loading: bool)

  /** Lines 49-70: a fetched list (`None` when the request fails) is
      filtered to the sessions dated now or later; the loading flag is
      cleared in `finally` either way. */
  function FetchUpcoming(p: Page, fetched: Option<seq<Schedule>>, now: int): (q: Page)
    ensures !q.loading
    ensures q.history == p.history
    ensures fetched.None? ==> q.schedules == p.schedules
    ensures fetched.Some? ==> forall s :: s in q.schedules <==> s in fetched.value && NotBefore(s.date, now)
    ensures fetched.Some? ==> q.schedules == Upcoming(fetched.value, ScheduleDate, now)
  {
    match fetched
    case None => p.(loading := false)
    case Some(all) => p.(schedules := Upcoming(all, ScheduleDate, now), loading := false)
  }

  /** Lines 29-47: the same for the sessions dated before now. */
  function FetchHistory(p: Page, fetched: Option<seq<Schedule>>, now: int): (q: Page)
    ensures !q.loading
    ensures q.schedules == p.schedules
    ensures fetched.None? ==> q.history == p.history
    ensures fetched.Some? ==> forall s :: s in q.history <==> s in fetched.value && Before(s.date, now)
    ensures fetched.Some? ==> q.history == History(fetched.value, ScheduleDate, now)
  {
    match fetched
    case None => p.(loading := false)
    case Some(all) => p.(history := History(all, ScheduleDate, now), loading := false)
  }

  /** Running both fetches on the same list at the same "now" shows every
      session with a readable date exactly once, in one view or the other. */
  lemma BothFetchesPartition(p: Page, all: seq<Schedule>, now: int)
    requires forall s :: s in all ==> s.date.At?
    ensures var q := FetchHistory(FetchUpcoming(p, Some(all), now), Some(all), now);
      && multiset(q.schedules) + multiset(q.history) == multiset(all)
      && (forall s :: !(s in q.schedules && s in q.history))
  {
    Partition(all, ScheduleDate, now);
    Disjoint(all, ScheduleDate, now);
  }
}
