/** The session request page of frontend/src/pages/IndividualTutor.tsx: the
    tutor card's text fields, the request payload, and the request handler
    with its ordered checks and its reset of the selections. */
module IndividualTutor {
  import opened Wrappers
  import opened Strings
  import DropdownDates
  import DropdownTopics

  /** A field of the fetched tutor record that is shown as text. */
  datatype Shown = Missing | Single(s: string) | Several(xs: seq<string>)

  /** Lines 69-78: a list is joined with the separator, and the default
      stands in for a missing value, an empty string or an empty join. */
  function SafeJoin(value: Shown, sep: string, default: string): (r: string)
    ensures value.Missing? ==> r == default
    ensures value.Single? && value.s == [] ==> r == default
    ensures value.Single? && value.s != [] ==> r == value.s
    ensures value.Several? && value.xs == [] ==> r == default
    ensures value.Several? && (exists i :: 0 <= i < |value.xs| && value.xs[i] != []) ==> r == Join(value.xs, sep)
    ensures value.Several? && |value.xs| >= 2 && sep != [] ==> r == Join(value.xs, sep)
    ensures value.Several? && |value.xs| == 1 && value.xs[0] == [] ==> r == default
    ensures default != [] ==> r != []
  {
    match value
    case Missing => default
    case Single(s) => if s == [] then default else s
    case Several(xs) =>
      JoinEmpty(xs, sep);
      var j := Join(xs, sep);
      if j == [] then default else j
  }

  /** The card shows "Not specified" rather than an empty field. */
  const NotSpecified := "Not specified"

  /** Lines 186-187 and 204-206 use the default separator or ','. */
  lemma CardFieldsNeverEmpty(value: Shown, sep: string)
    ensures SafeJoin(value, sep, NotSpecified) != []
  {
  }

  /** The body of the request (lines 85-97). */
  datatype SessionPayload = SessionPayload(
    date: Option<string>,
    time: Option<string>,
    tutorId: string,
    studentId: Option<string>,
    topicId: Option<string>,
    status: int,
    timeStarted: Option<string>,
    timeEnded: Option<string>,
    duration: Option<int>,
    roomNumber: Option<string>,
    modality: string)

  /** `const [x] = xs`: the first element, if any. */
  function First(xs: seq<string>): (r: Option<string>)
    ensures r.None? <==> xs == []
    ensures r.Some? ==> r.value == xs[0]
  {
    if xs == [] then None else Some(xs[0])
  }

  /** Lines 26-27: the date and start time taken from the first selected
      key; a key without '|' leaves `time_from` undefined. */
  function DateAndTime(selectedDates: seq<string>): (r: (Option<string>, Option<string>))
    ensures selectedDates == [] ==> r == (None, None)
    ensures selectedDates != [] ==> r.0 == Some(Split(selectedDates[0], '|')[0])
    ensures r.1.Some? <==> selectedDates != [] && '|' in selectedDates[0]
    ensures r.1.Some? ==> r.1 == Some(Split(selectedDates[0], '|')[1])
  {
    if selectedDates == [] then (None, None)
    else
      var parts := Split(selectedDates[0], '|');
      (Some(parts[0]), if |parts| >= 2 then Some(parts[1]) else None)
  }

  /** Lines 85-97. */
  function BuildPayload(selectedDates: seq<string>, tutorId: string, studentId: Option<string>,
                        topicIds: seq<string>, roomNumber: Option<string>, modality: string): (p: SessionPayload)
    ensures p.status == 0 && p.timeStarted.None? && p.timeEnded.None? && p.duration.None?
    ensures p.date.None? <==> selectedDates == []
    ensures p.topicId == First(topicIds)
    ensures p.tutorId == tutorId && p.studentId == studentId
    ensures p.roomNumber == roomNumber && p.modality == modality
  {
    var (date, time) := DateAndTime(selectedDates);
    SessionPayload(date, time, tutorId, studentId, First(topicIds), 0, None, None, None, roomNumber, modality)
  }

  /** A slot picked in the date dropdown reaches the payload as its own
      date and start time, when its parts contain no '|'. */
  lemma PayloadCarriesSlot(a: string, f: string, t: string, rest: seq<string>, tutorId: string,
                           studentId: Option<string>, topicIds: seq<string>, room: Option<string>, modality: string)
    requires '|' !in a && '|' !in f && '|' !in t
    ensures var p := BuildPayload([DropdownDates.DateKey(a, f, t)] + rest, tutorId, studentId, topicIds, room, modality);
      p.date == Some(a) && p.time == Some(f)
  {
    DropdownDates.KeyRoundTrip(a, f, t);
  }

  const NoDateChosen := "Please select a date and time."
  const NoRoomGiven := "Please input room number."
  const NotAStudent := "You are not allowed to request a session. Please login as a student."

  /** `!x` for an optional string: null and '' are both falsy. */
  predicate Falsy(x: Option<string>) {
    x.None? || x.value == []
  }

  predicate NoSlotChosen(selectedDates: seq<string>) {
    selectedDates == [] || selectedDates[0] == []
  }

  /** Lines 102-118: the three checks in order; the first that fails gives
      the message. */
  function RequestError(selectedDates: seq<string>, modality: string, roomNumber: Option<string>,
                        activeRole: Option<int>): (r: Option<string>)
    ensures r == Some(NoDateChosen) <==> NoSlotChosen(selectedDates)
    ensures r == Some(NoRoomGiven) <==>
      !NoSlotChosen(selectedDates) && modality == "in-person" && Falsy(roomNumber)
    ensures r == Some(NotAStudent) <==>
      !NoSlotChosen(selectedDates) && !(modality == "in-person" && Falsy(roomNumber)) && activeRole != Some(0)
    ensures r.None? <==>
      !NoSlotChosen(selectedDates) && !(modality == "in-person" && Falsy(roomNumber)) && activeRole == Some(0)
  {
    if NoSlotChosen(selectedDates) then Some(NoDateChosen)
    else if modality == "in-person" && Falsy(roomNumber) then Some(NoRoomGiven)
    else if activeRole != Some(0) then Some(NotAStudent)
    else None
  }

  /** The room number is never filled in, so an in-person request is never
      sent. */
  lemma InPersonNeverSent(selectedDates: seq<string>, activeRole: Option<int>)
    ensures RequestError(selectedDates, "in-person", None, activeRole).Some?
  {
  }

  const Requested := "Successfully requested session. Please wait for the tutor to accept."
  const RequestFailed := "Failed to request session. Please try again later."

  /** The page's request state. */
  class RequestForm {
    const tutorId: string
    const studentId: Option<string>
    var selectedDates: seq<string>
    var modality: string
    var roomNumber: Option<string>
    var selectedTopics: seq<string>
    var selectedTopicIds: seq<string>
    var validateError: Option<string>
    var requestLoading: bool

    /** Lines 24, 141 and 158 only ever store null in the room number. */
    predicate Valid()
      reads this
    {
      roomNumber.None?
    }

    /** Lines 21-31: nothing selected, online, no message. */
    constructor (tutorId: string, studentId: Option<string>)
      ensures Valid()
      ensures this.tutorId == tutorId && this.studentId == studentId
      ensures selectedDates == [] && selectedTopics == [] && selectedTopicIds == []
      ensures modality == "online" && validateError.None? && !requestLoading
    {
      this.tutorId := tutorId;
      this.studentId := studentId;
      selectedDates := [];
      modality := "online";
      roomNumber := None;
      selectedTopics := [];
      selectedTopicIds := [];
      validateError := None;
      requestLoading := false;
    }

    /** The date dropdown's toggle, applied to this page's selection. */
    method SelectDate(key: string)
      requires Valid()
      modifies this
      ensures Valid()
      ensures selectedDates == DropdownDates.Toggle(old(selectedDates), key)
      ensures modality == old(modality) && selectedTopics == old(selectedTopics)
      ensures selectedTopicIds == old(selectedTopicIds) && validateError == old(validateError)
      ensures requestLoading == old(requestLoading)
    {
      selectedDates := DropdownDates.Toggle(selectedDates, key);
    }

    /** The topic dropdown's paired toggle. */
    method SelectTopic(title: string, id: string)
      requires Valid()
      modifies this
      ensures Valid()
      ensures (selectedTopics, selectedTopicIds) ==
        DropdownTopics.SelectTopic(old(selectedTopics), old(selectedTopicIds), title, id)
      ensures selectedDates == old(selectedDates) && modality == old(modality)
      ensures validateError == old(validateError) && requestLoading == old(requestLoading)
    {
      var r := DropdownTopics.SelectTopic(selectedTopics, selectedTopicIds, title, id);
      selectedTopics, selectedTopicIds := r.0, r.1;
    }

    /** Lines 80-83. */
    method ChangeModality(value: string)
      requires Valid()
      modifies this
      ensures Valid()
      ensures modality == value
      ensures selectedDates == old(selectedDates) && selectedTopics == old(selectedTopics)
      ensures selectedTopicIds == old(selectedTopicIds) && validateError == old(validateError)
      ensures requestLoading == old(requestLoading)
    {
      modality := value;
    }

    /** Lines 99-165. A failed check shows its message and returns before
        the `try`, so the selections stay. Otherwise the payload is posted;
        whether the post succeeds or not, the `finally` block clears the
        selections and the message and goes back to online. */
    method RequestSession(activeRole: Option<int>, postSucceeds: bool)
      returns (sent: Option<SessionPayload>, notice: Option<string>)
      requires Valid()
      modifies this
      ensures Valid()
      ensures !requestLoading
      ensures sent.Some? <==> RequestError(old(selectedDates), old(modality), old(roomNumber), activeRole).None?
      ensures sent.Some? ==>
        sent.value == BuildPayload(old(selectedDates), tutorId, studentId, old(selectedTopicIds), old(roomNumber), old(modality))
      ensures sent.None? ==>
        && validateError == RequestError(old(selectedDates), old(modality), old(roomNumber), activeRole)
        && selectedDates == old(selectedDates) && selectedTopics == old(selectedTopics)
        && selectedTopicIds == old(selectedTopicIds) && modality == old(modality)
        && notice.None?
      ensures sent.Some? ==>
        && validateError.None? && selectedDates == [] && selectedTopics == [] && selectedTopicIds == []
        && modality == "online"
        && notice == Some(if postSucceeds then Requested else RequestFailed)
    {
      requestLoading := true;
      var err := RequestError(selectedDates, modality, roomNumber, activeRole);
      if err.Some? {
        validateError := err;
        requestLoading := false;
        return None, None;
      }
      sent := Some(BuildPayload(selectedDates, tutorId, studentId, selectedTopicIds, roomNumber, modality));
      if postSucceeds {
        notice := Some(Requested);
        validateError := None;
        selectedDates := [];
        roomNumber := None;
      } else {
        notice := Some(RequestFailed);
      }
      validateError := None;
      roomNumber := None;
      selectedDates := [];
      selectedTopics := [];
      selectedTopicIds := [];
      modality := "online";
      requestLoading := false;
    }
  }
}
