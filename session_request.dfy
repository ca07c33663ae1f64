/** The tutoring-session router of backend/router/session_request.py: a
    tutor changes the status of one of their sessions, and two listings
    return the caller's accepted sessions joined with names and topics. */
module SessionRequest {
  import opened Wrappers

  /** A time of day; the listings print it as hours and minutes only. */
  datatype Clock = Clock(hour: int, minute: int, second: int)

  /** A row of the `session` table (backend/models/session/session.py).
      Identifiers are the canonical strings of their UUIDs, which is how
      the handler compares them; dates are abstract ordered values. */
  datatype Session = Session(
    sessionId: string,
    date: int,
    time: Clock,
    tutorId: string,
    studentId: string,
    topicId: Option<string>,
    status: int,
    timeStarted: Option<Clock>,
    timeEnded: Option<Clock>,
    duration: Option<int>,
    roomNumber: Option<string>,
    modality: string)

  /** The authenticated user handed over by the role guard. */
  datatype Caller = Caller(userId: string, roles: seq<int>)

  /** The request body `SessionStatusUpdate`. */
  datatype StatusUpdate = StatusUpdate(sessionId: string, statusId: int)

  /** Why an update is refused, in the order the handler checks. */
  datatype Failure = RoleDenied | NotFound | NotTutor | UnknownStatus

  datatype Outcome = Applied(sessions: map<string, Session>) | Rejected(failure: Failure)

  /** The guard `require_role([1])`, taken to admit callers holding role 1. */
  predicate IsTutor(caller: Caller) {
    1 in caller.roles
  }

  /** What `update_session_status` does to the session table, given the
      ids of the `status_detail` catalog. */
  function Transition(sessions: map<string, Session>, catalog: set<int>, caller: Caller, update: StatusUpdate): (o: Outcome)
    ensures o.Rejected? <==>
      !IsTutor(caller) || update.sessionId !in sessions ||
      sessions[update.sessionId].tutorId != caller.userId || update.statusId !in catalog
    ensures o == Rejected(NotFound) <==> IsTutor(caller) && update.sessionId !in sessions
    ensures o == Rejected(UnknownStatus) ==> update.statusId !in catalog
    ensures o.Applied? ==> o.sessions.Keys == sessions.Keys
    ensures o.Applied? ==> o.sessions[update.sessionId].status == update.statusId
    ensures o.Applied? ==>
      forall id :: id in sessions && id != update.sessionId ==> o.sessions[id] == sessions[id]
    ensures o.Applied? ==>
      o.sessions[update.sessionId] == sessions[update.sessionId].(status := update.statusId)
  {
    if !IsTutor(caller) then Rejected(RoleDenied)
    else if update.sessionId !in sessions then Rejected(NotFound)
    else if sessions[update.sessionId].tutorId != caller.userId then Rejected(NotTutor)
    else if update.statusId !in catalog then Rejected(UnknownStatus)
    else
      var s := sessions[update.sessionId];
      Applied(sessions[update.sessionId := s.(status := update.statusId)])
  }

  /** `session_id` is the primary key: each row is stored under its own id. */
  predicate KeyedById(sessions: map<string, Session>) {
    forall id :: id in sessions ==> sessions[id].sessionId == id
  }

  /** A status update keeps the table keyed by id. */
  lemma TransitionKeepsKeys(sessions: map<string, Session>, catalog: set<int>, caller: Caller, update: StatusUpdate)
    requires KeyedById(sessions)
    ensures KeyedById(After(sessions, Transition(sessions, catalog, caller, update)))
  {
  }

  /** The table after the request: unchanged whenever the update is refused. */
  function After(sessions: map<string, Session>, o: Outcome): map<string, Session> {
    if o.Applied? then o.sessions else sessions
  }

  /** The HTTP answer to an update. */
  datatype Reply = Ok | GuardRejected | HttpError(code: int, detail: string)

  const CatchAllDetail: string := "Internal server error during authentication"

  /** The answer as written. The 404 and the first 403 are raised inside
      the `try`. The second 403 never is: building its detail reads
      `payload.status`, a field the update model does not declare, so an
      `AttributeError` is raised in its place. The `except Exception`
      turns each of the three into the same 500. */
  function AsWrittenReply(o: Outcome): (r: Reply)
    ensures o.Applied? <==> r == Ok
    ensures o == Rejected(RoleDenied) <==> r == GuardRejected
    ensures o.Rejected? && o.failure != RoleDenied ==> r == HttpError(500, CatchAllDetail)
  {
    match o
    case Applied(_) => Ok
    case Rejected(RoleDenied) => GuardRejected
    case Rejected(_) => HttpError(500, CatchAllDetail)
  }

  /** The as-written answer cannot tell a missing session from a foreign
      one: both come back as the same 500. */
  lemma CatchAllMasksNotFound()
    ensures var sessions: map<string, Session> := map[];
      var caller := Caller("t", [1]);
      var update := StatusUpdate("s", 1);
      Transition(sessions, {1}, caller, update) == Rejected(NotFound) &&
      AsWrittenReply(Transition(sessions, {1}, caller, update)) == HttpError(500, CatchAllDetail)
  {
  }

  const NotFoundDetail: string := "Session not found"
  const NotTutorDetail: string := "Permission denied."
  /** Python's `str` of an integer: optional '-', then decimal digits. */
  function DecimalText(n: int): (r: string)
    ensures |r| >= 1
    decreases if n < 0 then 1 - n else n
  {
    if n < 0 then "-" + DecimalText(-n)
    else if n < 10 then [(n + '0' as int) as char]
    else DecimalText(n / 10) + [(n % 10 + '0' as int) as char]
  }

  /** The detail the unknown-status raise evidently means to build: the
      requested `status_id` set in its sentence. */
  function UnknownStatusDetail(statusId: int): (r: string)
    ensures |r| > 7 + |DecimalText(statusId)| && r[..7] == "Status "
    ensures r[7..7 + |DecimalText(statusId)|] == DecimalText(statusId)
  {
    "Status " + DecimalText(statusId) + " did not match the desired status value."
  }

  /** The answer the raise sites ask for: 404 for a missing session, 403
      for a foreign session and for a status outside the catalog, whose
      detail names the requested status. */
  function IntendedReply(o: Outcome, statusId: int): (r: Reply)
    ensures o.Applied? <==> r == Ok
    ensures o == Rejected(RoleDenied) <==> r == GuardRejected
    ensures r.HttpError? ==> r.code == 404 || r.code == 403
    ensures r.HttpError? && r.code == 404 <==> o == Rejected(NotFound)
    ensures r == HttpError(403, NotTutorDetail) <==> o == Rejected(NotTutor)
    ensures r == HttpError(403, UnknownStatusDetail(statusId)) <==> o == Rejected(UnknownStatus)
  {
    match o
    case Applied(_) => Ok
    case Rejected(RoleDenied) => GuardRejected
    case Rejected(NotFound) => HttpError(404, NotFoundDetail)
    case Rejected(NotTutor) => HttpError(403, NotTutorDetail)
    case Rejected(UnknownStatus) =>
      assert UnknownStatusDetail(statusId)[0] == 'S';
      HttpError(403, UnknownStatusDetail(statusId))
  }

  /** With the intended answers, distinct failures give distinct replies. */
  lemma IntendedReplyInjective(o1: Outcome, o2: Outcome, statusId: int)
    requires o1.Rejected? && o2.Rejected? && o1 != o2
    ensures IntendedReply(o1, statusId) != IntendedReply(o2, statusId)
  {
  }

  /** The `session` table and the `status_detail` catalog. */
  class SessionStore {
    var sessions: map<string, Session>
    var catalog: set<int>

    predicate Valid()
      reads this
    {
      KeyedById(sessions)
    }

    constructor (sessions0: map<string, Session>, catalog0: set<int>)
      requires KeyedById(sessions0)
      ensures Valid()
      ensures sessions == sessions0 && catalog == catalog0
    {
      sessions := sessions0;
      catalog := catalog0;
    }

    /** `update_session_status`: look the session up, check the tutor and
        the status, overwrite `status` in place and commit. The refusals are
        answered with the intended replies; the as-written answer to the same
        outcome is `AsWrittenReply`. */
    method UpdateSessionStatus(caller: Caller, update: StatusUpdate) returns (reply: Reply)
      requires Valid()
      modifies this
      ensures Valid()
      ensures catalog == old(catalog)
      ensures sessions == After(old(sessions), Transition(old(sessions), catalog, caller, update))
      ensures reply == IntendedReply(Transition(old(sessions), catalog, caller, update), update.statusId)
    {
      if !IsTutor(caller) {
        return GuardRejected;
      }
      if update.sessionId !in sessions {
        return HttpError(404, NotFoundDetail);
      }
      var session := sessions[update.sessionId];
      if session.tutorId != caller.userId {
        return HttpError(403, NotTutorDetail);
      }
      if update.statusId !in catalog {
        return HttpError(403, UnknownStatusDetail(update.statusId));
      }
      session := session.(status := update.statusId);
      sessions := sessions[update.sessionId := session];
      reply := Ok;
    }
  }

  /** The rows the listings join against. */
  datatype Topic = Topic(title: string, subjectId: string)
  datatype Catalogs = Catalogs(
    students: set<string>,                // student_detail.student_id
    userNames: map<string, string>,       // user_detail.userid -> name
    topics: map<string, Topic>,           // topic_detail.topic_id
    subjectNames: map<string, string>)    // subject_detail.subject_id -> subject_name

  /** One output entry of a listing; `time` keeps hours and minutes. */
  datatype Entry = Entry(name: string, subject: string, topic: string, date: int,
                         hour: int, minute: int, sessionId: string, status: int)

  /** The four inner joins find a matching row. */
  predicate Joinable(c: Catalogs, s: Session) {
    s.studentId in c.students && s.studentId in c.userNames &&
    s.topicId.Some? && s.topicId.value in c.topics &&
    c.topics[s.topicId.value].subjectId in c.subjectNames
  }

  /** The two filters of the query. */
  predicate Selected(uid: string, s: Session) {
    s.tutorId == uid && s.status == 1
  }

  function ToEntry(c: Catalogs, s: Session): (e: Entry)
    requires Joinable(c, s)
    ensures e.sessionId == s.sessionId && e.status == s.status && e.date == s.date
  {
    var topic := c.topics[s.topicId.value];
    Entry(c.userNames[s.studentId], c.subjectNames[topic.subjectId], topic.title,
          s.date, s.time.hour, s.time.minute, s.sessionId, s.status)
  }

  /** The joined and filtered query, one entry per surviving row, in row order. */
  function Listing(c: Catalogs, rows: seq<Session>, uid: string): (r: seq<Entry>)
    ensures |r| <= |rows|
  {
    if rows == [] then []
    else
      var rest := Listing(c, rows[1..], uid);
      if Joinable(c, rows[0]) && Selected(uid, rows[0]) then [ToEntry(c, rows[0])] + rest else rest
  }

  /** Every listed entry is an accepted session of the caller. */
  lemma {:induction false} ListingSound(c: Catalogs, rows: seq<Session>, uid: string, e: Entry)
    requires e in Listing(c, rows, uid)
    ensures e.status == 1
    ensures exists s :: s in rows && Joinable(c, s) && Selected(uid, s) && e == ToEntry(c, s)
  {
    if rows != [] {
      if Joinable(c, rows[0]) && Selected(uid, rows[0]) && e == ToEntry(c, rows[0]) {
      } else {
        ListingSound(c, rows[1..], uid, e);
        var s :| s in rows[1..] && Joinable(c, s) && Selected(uid, s) && e == ToEntry(c, s);
        assert s in rows;
      }
    }
  }

  /** Every accepted session of the caller that the joins match is listed. */
  lemma {:induction false} ListingComplete(c: Catalogs, rows: seq<Session>, uid: string, s: Session)
    requires s in rows && Joinable(c, s) && Selected(uid, s)
    ensures ToEntry(c, s) in Listing(c, rows, uid)
  {
    if rows[0] != s {
      ListingComplete(c, rows[1..], uid, s);
    }
  }

  /** The listing of two blocks of rows is the two listings in order. */
  lemma {:induction false} ListingAppend(c: Catalogs, a: seq<Session>, b: seq<Session>, uid: string)
    ensures Listing(c, a + b, uid) == Listing(c, a, uid) + Listing(c, b, uid)
  {
    if a == [] {
      assert a + b == b;
    } else {
      assert (a + b)[1..] == a[1..] + b;
      ListingAppend(c, a[1..], b, uid);
    }
  }

  datatype ListReply = ListGuardRejected | Listed(session: seq<Entry>)

  /** `get_student_accepted_requests`, behind `require_role([0])`. */
  function AcceptedRequests(caller: Caller, c: Catalogs, rows: seq<Session>): (r: ListReply)
    ensures r.Listed? <==> 0 in caller.roles
    ensures r.Listed? ==> forall e :: e in r.session ==> e.status == 1
  {
    if 0 in caller.roles then
      var entries := Listing(c, rows, caller.userId);
      assert forall e :: e in entries ==> e.status == 1 by {
        forall e | e in entries ensures e.status == 1 {
          ListingSound(c, rows, caller.userId, e);
        }
      }
      Listed(entries)
    else ListGuardRejected
  }

  /** `get_approved_requests`, behind `require_role([1])`. */
  function ApprovedRequests(caller: Caller, c: Catalogs, rows: seq<Session>): (r: ListReply)
    ensures r.Listed? <==> 1 in caller.roles
    ensures r.Listed? ==> forall e :: e in r.session ==> e.status == 1
  {
    if 1 in caller.roles then
      var entries := Listing(c, rows, caller.userId);
      assert forall e :: e in entries ==> e.status == 1 by {
        forall e | e in entries ensures e.status == 1 {
          ListingSound(c, rows, caller.userId, e);
        }
      }
      Listed(entries)
    else ListGuardRejected
  }

  /** The two listings run the same query: a caller admitted by both
      guards gets the same entries from each. */
  lemma ListingsAgree(caller: Caller, c: Catalogs, rows: seq<Session>)
    requires 0 in caller.roles && 1 in caller.roles
    ensures AcceptedRequests(caller, c, rows) == ApprovedRequests(caller, c, rows)
  {
  }

  /** A session the tutor has just set to status 1 shows up in the
      tutor's listing once its row is read back and the joins match. */
  lemma AcceptedSessionIsListed(sessions: map<string, Session>, catalog: set<int>, caller: Caller,
                                update: StatusUpdate, c: Catalogs, rows: seq<Session>)
    requires KeyedById(sessions)
    requires Transition(sessions, catalog, caller, update).Applied?
    requires update.statusId == 1
    requires After(sessions, Transition(sessions, catalog, caller, update))[update.sessionId] in rows
    requires Joinable(c, sessions[update.sessionId])
    ensures exists e :: e in Listing(c, rows, caller.userId) && e.sessionId == update.sessionId
  {
    var s := After(sessions, Transition(sessions, catalog, caller, update))[update.sessionId];
    assert Joinable(c, s) && Selected(caller.userId, s);
    ListingComplete(c, rows, caller.userId, s);
    assert ToEntry(c, s).sessionId == update.sessionId;
  }
}
