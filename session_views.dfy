/** The split of a fetched list into upcoming and past entries around
    "now", shared by frontend/src/pages/StudentTracking.tsx and
    frontend/src/pages/TutorSchedule.tsx. */
module SessionViews {

  /** `new Date(text)`: a point in time, or an Invalid Date, which compares
      false with everything. */
  datatype Moment = Invalid | At(t: int)

  /** `date >= now`. */
  predicate NotBefore(m: Moment, now: int) {
    m.At? && m.t >= now
  }

  /** `date < now`. */
  predicate Before(m: Moment, now: int) {
    m.At? && m.t < now
  }

  /** A session row as the schedule pages receive it (the `Schedule` type
      of the client). */
  datatype Schedule = Schedule(
    name: string, date: Moment, time: string, subject: string, statusId: int, sessionId: string)

  function ScheduleDate(s: Schedule): Moment {
    s.date
  }

  /** `xs.filter(p)`. */
  function Filter<T(==,!new)>(xs: seq<T>, p: T -> bool): (r: seq<T>)
    ensures |r| <= |xs|
    ensures forall x :: x in r <==> x in xs && p(x)
  {
    if xs == [] then []
    else if p(xs[0]) then [xs[0]] + Filter(xs[1..], p)
    else Filter(xs[1..], p)
  }

  /** A filter keeps the survivors in the order they were fetched. */
  lemma {:induction false} FilterAppend<T(!new)>(a: seq<T>, b: seq<T>, p: T -> bool)
    ensures Filter(a + b, p) == Filter(a, p) + Filter(b, p)
  {
    if a == [] {
      assert a + b == b;
    } else {
      assert (a + b)[1..] == a[1..] + b;
      FilterAppend(a[1..], b, p);
    }
  }

  /** Two filters whose conditions never both hold and, between them,
      cover every element split the list: each element lands in exactly
      one of them, as often as it occurs. */
  lemma {:induction false} FilterSplit<T(!new)>(xs: seq<T>, p: T -> bool, q: T -> bool)
    requires forall x :: x in xs ==> (p(x) <==> !q(x))
    ensures multiset(Filter(xs, p)) + multiset(Filter(xs, q)) == multiset(xs)
  {
    if xs != [] {
      assert xs == [xs[0]] + xs[1..];
      assert forall x :: x in xs[1..] ==> x in xs;
      FilterSplit(xs[1..], p, q);
    }
  }

  /** Lines 41-44 of StudentTracking.tsx and 59-62 of TutorSchedule.tsx. */
  function Upcoming<T(==,!new)>(xs: seq<T>, dateOf: T -> Moment, now: int): (r: seq<T>)
    ensures forall x :: x in r <==> x in xs && NotBefore(dateOf(x), now)
  {
    Filter(xs, x => NotBefore(dateOf(x), now))
  }

  /** Lines 61-64 of StudentTracking.tsx and 37-40 of TutorSchedule.tsx. */
  function History<T(==,!new)>(xs: seq<T>, dateOf: T -> Moment, now: int): (r: seq<T>)
    ensures forall x :: x in r <==> x in xs && Before(dateOf(x), now)
  {
    Filter(xs, x => Before(dateOf(x), now))
  }

  /** No entry is both upcoming and past. */
  lemma Disjoint<T(!new)>(xs: seq<T>, dateOf: T -> Moment, now: int)
    ensures forall x :: !(x in Upcoming(xs, dateOf, now) && x in History(xs, dateOf, now))
  {
  }

  /** With every date readable, the two views together hold each fetched
      entry exactly once. */
  lemma Partition<T(!new)>(xs: seq<T>, dateOf: T -> Moment, now: int)
    requires forall x :: x in xs ==> dateOf(x).At?
    ensures multiset(Upcoming(xs, dateOf, now)) + multiset(History(xs, dateOf, now)) == multiset(xs)
    ensures |Upcoming(xs, dateOf, now)| + |History(xs, dateOf, now)| == |xs|
  {
    FilterSplit(xs, x => NotBefore(dateOf(x), now), x => Before(dateOf(x), now));
    assert |multiset(Upcoming(xs, dateOf, now))| + |multiset(History(xs, dateOf, now))| == |multiset(xs)|;
  }

  /** An unreadable date puts the entry in neither view. */
  lemma InvalidDateShownNowhere<T(!new)>(xs: seq<T>, dateOf: T -> Moment, now: int, x: T)
    requires dateOf(x) == Invalid
    ensures x !in Upcoming(xs, dateOf, now) && x !in History(xs, dateOf, now)
  {
  }
}
