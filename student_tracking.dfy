/** The tutor's request queue, frontend/src/pages/StudentTracking.tsx: the
    upcoming and past request lists and the accept and reject buttons. */
module StudentTracking {
  import opened Wrappers
  import opened SessionViews
  import SessionRequest

  /** A request row (`StudentResponse` on the client). */
  datatype StudentRequest = StudentRequest(
    name: string, subject: string, topic: string, date: Moment, time: string, sessionId: string)

  function RequestDate(r: StudentRequest): Moment {
    r.date
  }

  /** The body of `/tutor/student-requests`: the upcoming fetch reads it as
      a bare array, the history fetch reads its `session` field. */
  datatype Body = Bare(rows: seq<StudentRequest>) | Wrapped(session: seq<StudentRequest>)

  /** Lines 193 and 201. */
  const RejectStatus := 2
  const AcceptStatus := 1

  /** Lines 80-82: every row of that session goes, the rest keep their order. */
  function WithoutSession(xs: seq<StudentRequest>, sessionId: string): (r: seq<StudentRequest>)
    ensures forall x :: x in r <==> x in xs && x.sessionId != sessionId
    ensures |r| <= |xs|
  {
    Filter(xs, (x: StudentRequest) => x.sessionId != sessionId)
  }

  /** Removing a session from a list made of two parts removes it from
      each part, so the order of the rest is kept. */
  lemma WithoutSessionAppend(a: seq<StudentRequest>, b: seq<StudentRequest>, sessionId: string)
    ensures WithoutSession(a + b, sessionId) == WithoutSession(a, sessionId) + WithoutSession(b, sessionId)
  {
    FilterAppend(a, b, (x: StudentRequest) => x.sessionId != sessionId);
  }

  class Queue {
    var students: seq<StudentRequest>
    var historyRequests: seq<StudentRequest>
    var loading: bool

    constructor ()
      ensures students == [] && historyRequests == [] && !loading
    {
      students := [];
      historyRequests := [];
      loading := false;
    }

    /** Lines 30-51: the rows dated now or later. Filtering a wrapped body
        throws, as does a failed request (`None`); both leave the list as
        it was. The flag is cleared by a timer, taken here as having fired. */
    method FetchStudents(response: Option<Body>, now: int)
      modifies this
      ensures response.Some? && response.value.Bare? ==>
        students == Upcoming(response.value.rows, RequestDate, now)
      ensures !(response.Some? && response.value.Bare?) ==> students == old(students)
      ensures historyRequests == old(historyRequests)
      ensures !loading
    {
      loading := true;
      if response.Some? && response.value.Bare? {
        students := Upcoming(response.value.rows, RequestDate, now);
      }
      loading := false;
    }

    /** Lines 53-71: the rows dated before now, read from the `session`
        field; a bare array has none, so the list is not updated then. */
    method FetchHistory(response: Option<Body>, now: int)
      modifies this
      ensures response.Some? && response.value.Wrapped? ==>
        historyRequests == History(response.value.session, RequestDate, now)
      ensures !(response.Some? && response.value.Wrapped?) ==> historyRequests == old(historyRequests)
      ensures students == old(students)
      ensures !loading
    {
      loading := true;
      if response.Some? && response.value.Wrapped? {
        historyRequests := History(response.value.session, RequestDate, now);
      }
      loading := false;
    }

    /** Lines 73-93: the update is posted; on success that session's rows
        leave the list, on failure nothing changes. */
    method HandleStatusUpdate(sessionId: string, statusId: int, postSucceeds: bool)
      returns (sent: SessionRequest.StatusUpdate)
      modifies this
      ensures sent == SessionRequest.StatusUpdate(sessionId, statusId)
      ensures postSucceeds ==> students == WithoutSession(old(students), sessionId)
      ensures !postSucceeds ==> students == old(students)
      ensures historyRequests == old(historyRequests)
      ensures !loading
    {
      sent := SessionRequest.StatusUpdate(sessionId, statusId);
      if postSucceeds {
        students := WithoutSession(students, sessionId);
      }
      loading := false;
    }
  }

  /** The two fetches read the same endpoint in two shapes, so no body
      updates both lists. */
  lemma NoBodyFeedsBoth(body: Body)
    ensures !(body.Bare? && body.Wrapped?)
  {
  }

  /** A request the tutor accepts, once the server applies it, is among the
      approved sessions the tutor's listing returns. */
  lemma AcceptedRequestIsListed(sessions: map<string, SessionRequest.Session>, catalog: set<int>,
                                caller: SessionRequest.Caller, sessionId: string,
                                c: SessionRequest.Catalogs, rows: seq<SessionRequest.Session>)
    requires SessionRequest.KeyedById(sessions)
    requires SessionRequest.Transition(sessions, catalog, caller, SessionRequest.StatusUpdate(sessionId, AcceptStatus)).Applied?
    requires sessionId in sessions && SessionRequest.Joinable(c, sessions[sessionId])
    requires sessions[sessionId].(status := AcceptStatus) in rows
    ensures exists e :: e in SessionRequest.Listing(c, rows, caller.userId) && e.sessionId == sessionId
  {
    var u := SessionRequest.StatusUpdate(sessionId, AcceptStatus);
    SessionRequest.AcceptedSessionIsListed(sessions, catalog, caller, u, c, rows);
  }

  /** A rejected request, once applied, is no longer selected by either
      listing, which keep only status 1. */
  lemma RejectedRequestNotSelected(sessions: map<string, SessionRequest.Session>, catalog: set<int>,
                                   caller: SessionRequest.Caller, sessionId: string, uid: string)
    requires SessionRequest.Transition(sessions, catalog, caller, SessionRequest.StatusUpdate(sessionId, RejectStatus)).Applied?
    ensures var o := SessionRequest.Transition(sessions, catalog, caller, SessionRequest.StatusUpdate(sessionId, RejectStatus));
      !SessionRequest.Selected(uid, SessionRequest.After(sessions, o)[sessionId])
  {
  }
}
