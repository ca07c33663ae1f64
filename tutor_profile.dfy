/** The profile editor of frontend/src/pages/TutorProfile.tsx: the two edit
    dialogs (personal and tutoring), their add/remove helpers, and the two
    save handlers with the payloads they send. */
module TutorProfile {
  import opened Wrappers
  import opened Strings
  import Seqs

  /** A calendar day, as the ISO `YYYY-MM-DD` text the date formats to. */
  type Day = string

  /** The profile as shown (lines 14-25). */
  datatype Tutor = Tutor(
    name: string,
    email: string,
    facebookLink: string,
    linkedinLink: string,
    subjects: seq<string>,
    topics: map<string, seq<string>>,
    affiliations: seq<string>,
    expertise: seq<string>,
    description: string,
    dates: seq<Day>)

  /** The personal dialog (lines 31-34). */
  datatype PersonalEdit = PersonalEdit(name: string, socialLinks: seq<string>)

  /** The tutoring dialog (lines 35-42). */
  datatype TutoringEdit = TutoringEdit(
    subjects: seq<string>,
    topics: map<string, seq<string>>,
    affiliations: seq<string>,
    expertise: seq<string>,
    description: string,
    dates: seq<Day>)

  /** `xs[i] || ''`: the entry at `i`, or the empty string when there is none. */
  function EntryOrEmpty(xs: seq<string>, i: nat): (r: string)
    ensures i < |xs| ==> r == xs[i]
    ensures i >= |xs| ==> r == ""
  {
    if i < |xs| then xs[i] else ""
  }

  /** Lines 461-469: the first two fetched socials become the Facebook and
      LinkedIn links. */
  function LinksFromSocials(t: Tutor, socials: seq<string>): (r: Tutor)
    ensures r.facebookLink == EntryOrEmpty(socials, 0)
    ensures r.linkedinLink == EntryOrEmpty(socials, 1)
    ensures r.(facebookLink := t.facebookLink, linkedinLink := t.linkedinLink) == t
  {
    t.(facebookLink := EntryOrEmpty(socials, 0), linkedinLink := EntryOrEmpty(socials, 1))
  }

  /** Lines 56-66: the dialog lists the links that are set, in order. */
  function OpenPersonal(t: Tutor): (e: PersonalEdit)
    ensures e.name == t.name
    ensures |e.socialLinks| == (if t.facebookLink != "" then 1 else 0) + (if t.linkedinLink != "" then 1 else 0)
    ensures forall i :: 0 <= i < |e.socialLinks| ==> e.socialLinks[i] != ""
    ensures t.facebookLink != "" ==> e.socialLinks[0] == t.facebookLink
    ensures t.linkedinLink != "" ==> e.socialLinks[|e.socialLinks| - 1] == t.linkedinLink
  {
    PersonalEdit(t.name,
      (if t.facebookLink != "" then [t.facebookLink] else []) +
      (if t.linkedinLink != "" then [t.linkedinLink] else []))
  }

  /** Lines 68-80: the tutoring dialog starts from copies of the profile. */
  function OpenTutoring(t: Tutor): (e: TutoringEdit)
    ensures e.subjects == t.subjects && e.topics == t.topics && e.affiliations == t.affiliations
    ensures e.expertise == t.expertise && e.description == t.description && e.dates == t.dates
  {
    TutoringEdit(t.subjects, t.topics, t.affiliations, t.expertise, t.description, t.dates)
  }

  // ---------------------------------------------------------------------
  // Add and remove helpers
  // ---------------------------------------------------------------------

  /** The shape shared by `addSocialLink`, `addSubject`, `addAffiliation`
      and `addExpertise`: a non-blank input is appended trimmed and the input
      box is cleared; a blank input changes nothing. */
  function AddEntry(xs: seq<string>, input: string): (r: (seq<string>, string))
    ensures IsBlank(input) ==> r == (xs, input)
    ensures !IsBlank(input) ==> |r.0| == |xs| + 1 && r.0[..|xs|] == xs && r.1 == ""
    ensures !IsBlank(input) ==> r.0[|xs|] == Trim(input) && !IsBlank(r.0[|xs|])
  {
    if IsBlank(input) then (xs, input)
    else
      TrimIdempotent(input);
      (xs + [Trim(input)], "")
  }

  /** Lines 82-90. */
  function AddSocialLink(e: PersonalEdit, input: string): (r: (PersonalEdit, string))
    ensures r.0.name == e.name
    ensures (r.0.socialLinks, r.1) == AddEntry(e.socialLinks, input)
  {
    var (links, rest) := AddEntry(e.socialLinks, input);
    (e.(socialLinks := links), rest)
  }

  /** Lines 92-97. */
  function RemoveSocialLink(e: PersonalEdit, index: int): (r: PersonalEdit)
    ensures r.name == e.name
    ensures r.socialLinks == Seqs.RemoveAt(e.socialLinks, index)
  {
    e.(socialLinks := Seqs.RemoveAt(e.socialLinks, index))
  }

  /** Lines 99-107. */
  function AddSubject(e: TutoringEdit, input: string): (r: (TutoringEdit, string))
    ensures (r.0.subjects, r.1) == AddEntry(e.subjects, input)
    ensures r.0.(subjects := e.subjects) == e
  {
    var (xs, rest) := AddEntry(e.subjects, input);
    (e.(subjects := xs), rest)
  }

  /** The key that `delete updatedTopics[prev.subjects[index]]` removes:
      for an index past the list it is the text "undefined". */
  function SubjectKey(subjects: seq<string>, index: int): string {
    if 0 <= index < |subjects| then subjects[index] else "undefined"
  }

  /** Lines 109-124: the subject is dropped together with its topics;
      every other subject's topics stay as they were. */
  function RemoveSubject(e: TutoringEdit, index: int): (r: TutoringEdit)
    ensures r.subjects == Seqs.RemoveAt(e.subjects, index)
    ensures r.topics == e.topics - {SubjectKey(e.subjects, index)}
    ensures 0 <= index < |e.subjects| ==> e.subjects[index] !in r.topics
    ensures forall k :: k in e.topics && k != SubjectKey(e.subjects, index) ==>
      k in r.topics && r.topics[k] == e.topics[k]
    ensures r.(subjects := e.subjects, topics := e.topics) == e
  {
    e.(subjects := Seqs.RemoveAt(e.subjects, index),
       topics := e.topics - {SubjectKey(e.subjects, index)})
  }

  /** Lines 126-134. */
  function AddAffiliation(e: TutoringEdit, input: string): (r: (TutoringEdit, string))
    ensures (r.0.affiliations, r.1) == AddEntry(e.affiliations, input)
    ensures r.0.(affiliations := e.affiliations) == e
  {
    var (xs, rest) := AddEntry(e.affiliations, input);
    (e.(affiliations := xs), rest)
  }

  /** Lines 136-141. */
  function RemoveAffiliation(e: TutoringEdit, index: int): (r: TutoringEdit)
    ensures r.affiliations == Seqs.RemoveAt(e.affiliations, index)
    ensures r.(affiliations := e.affiliations) == e
  {
    e.(affiliations := Seqs.RemoveAt(e.affiliations, index))
  }

  /** Lines 143-151. */
  function AddExpertise(e: TutoringEdit, input: string): (r: (TutoringEdit, string))
    ensures (r.0.expertise, r.1) == AddEntry(e.expertise, input)
    ensures r.0.(expertise := e.expertise) == e
  {
    var (xs, rest) := AddEntry(e.expertise, input);
    (e.(expertise := xs), rest)
  }

  /** Lines 153-158. */
  function RemoveExpertise(e: TutoringEdit, index: int): (r: TutoringEdit)
    ensures r.expertise == Seqs.RemoveAt(e.expertise, index)
    ensures r.(expertise := e.expertise) == e
  {
    e.(expertise := Seqs.RemoveAt(e.expertise, index))
  }

  /** Lines 160-174: with a non-blank topic and a selected subject (an
      empty selection counts as none), the trimmed topic is appended to
      that subject's list, which is created when missing; the topic box is
      then cleared. */
  function AddTopic(e: TutoringEdit, input: string, selected: Option<string>): (r: (TutoringEdit, string))
    ensures IsBlank(input) || selected.None? || selected.value == "" ==> r == (e, input)
    ensures !IsBlank(input) && selected.Some? && selected.value != "" ==>
      var s := selected.value;
      && s in r.0.topics
      && r.0.topics[s] == (if s in e.topics then e.topics[s] else []) + [Trim(input)]
      && r.1 == ""
    ensures forall k :: k in e.topics && (selected.None? || k != selected.value) ==>
      k in r.0.topics && r.0.topics[k] == e.topics[k]
    ensures r.0.topics.Keys <= e.topics.Keys + (if selected.Some? then {selected.value} else {})
    ensures r.0.(topics := e.topics) == e
  {
    if IsBlank(input) || selected.None? || selected.value == "" then (e, input)
    else
      var s := selected.value;
      var prior := if s in e.topics then e.topics[s] else [];
      (e.(topics := e.topics[s := prior + [Trim(input)]]), "")
  }

  /** Lines 176-184: `prev.topics[subject].filter(...)` throws when the
      subject has no list; that is `None` here. */
  function RemoveTopic(e: TutoringEdit, subject: string, index: int): (r: Option<TutoringEdit>)
    ensures r.None? <==> subject !in e.topics
    ensures r.Some? ==> r.value.topics == e.topics[subject := Seqs.RemoveAt(e.topics[subject], index)]
    ensures r.Some? ==> r.value.(topics := e.topics) == e
  {
    if subject !in e.topics then None
    else Some(e.(topics := e.topics[subject := Seqs.RemoveAt(e.topics[subject], index)]))
  }

  /** Lines 186-193: a picked date is appended; clearing the picker does
      nothing. */
  function HandleDateChange(e: TutoringEdit, date: Option<Day>): (r: TutoringEdit)
    ensures date.None? ==> r == e
    ensures date.Some? ==> r.dates == e.dates + [date.value]
    ensures r.(dates := e.dates) == e
  {
    if date.Some? then e.(dates := e.dates + [date.value]) else e
  }

  /** Lines 195-200. */
  function RemoveDate(e: TutoringEdit, index: int): (r: TutoringEdit)
    ensures r.dates == Seqs.RemoveAt(e.dates, index)
    ensures r.(dates := e.dates) == e
  {
    e.(dates := Seqs.RemoveAt(e.dates, index))
  }

  // ---------------------------------------------------------------------
  // Saving
  // ---------------------------------------------------------------------

  /** What the update endpoint answered; a rejection may carry a `detail`,
      a `message` and an HTTP status. */
  datatype Response = Accepted | Refused(detail: string, message: string, status: int)

  datatype PersonalRequest = PersonalRequest(name: string, socials: seq<string>)

  /** The outcome of a save: the request sent (if any), the message shown
      and the profile afterwards. */
  datatype Saved<R> = Saved(request: Option<R>, error: string, success: string, tutor: Tutor)

  const PersonalFailed := "Failed to update personal information. Please try again."
  const NameRequired := "Name is required"
  const PersonalSaved := "Personal information updated successfully!"

  /** Lines 202-256. A missing login throws an error without a response,
      so the generic failure text is shown. A blank name sends nothing.
      On success the profile takes the untrimmed name and the first two
      links; on failure the server's `detail` is shown when it has one. */
  function SavePersonal(t: Tutor, e: PersonalEdit, authenticated: bool, response: Response): (o: Saved<PersonalRequest>)
    ensures o.request.Some? <==> authenticated && !IsBlank(e.name)
    ensures o.request.Some? ==> o.request.value == PersonalRequest(Trim(e.name), e.socialLinks)
    ensures !authenticated ==> o.error == PersonalFailed
    ensures authenticated && IsBlank(e.name) ==> o.error == NameRequired
    ensures o.request.None? || response.Refused? ==> o.tutor == t && o.success == ""
    ensures o.request.Some? && response.Accepted? ==>
      o.tutor == LinksFromSocials(t.(name := e.name), e.socialLinks) && o.success == PersonalSaved && o.error == ""
    ensures o.request.Some? && response.Refused? ==>
      o.error == (if response.detail != "" then response.detail else PersonalFailed)
  {
    if !authenticated then Saved(None, PersonalFailed, "", t)
    else if IsBlank(e.name) then Saved(None, NameRequired, "", t)
    else
      var req := PersonalRequest(Trim(e.name), e.socialLinks);
      match response
      case Accepted => Saved(Some(req), "", PersonalSaved, LinksFromSocials(t.(name := e.name), e.socialLinks))
      case Refused(detail, _, _) =>
        Saved(Some(req), if detail != "" then detail else PersonalFailed, "", t)
  }

  /** Saving links that are all set and at most two, then reopening the
      dialog, shows the same links again. */
  lemma PersonalLinksRoundTrip(t: Tutor, e: PersonalEdit)
    requires |e.socialLinks| <= 2
    requires forall i :: 0 <= i < |e.socialLinks| ==> e.socialLinks[i] != ""
    requires !IsBlank(e.name)
    ensures OpenPersonal(SavePersonal(t, e, true, Accepted).tutor).socialLinks == e.socialLinks
  {
    var saved := LinksFromSocials(t.(name := e.name), e.socialLinks);
    assert SavePersonal(t, e, true, Accepted).tutor == saved;
    LinksReopen(t.(name := e.name), e.socialLinks);
  }

  /** Up to two set links stored in the two columns read back in order. */
  lemma LinksReopen(t: Tutor, socials: seq<string>)
    requires |socials| <= 2
    requires forall i :: 0 <= i < |socials| ==> socials[i] != ""
    ensures OpenPersonal(LinksFromSocials(t, socials)).socialLinks == socials
  {
    var r := LinksFromSocials(t, socials);
    if |socials| == 0 {
      assert r.facebookLink == "" && r.linkedinLink == "";
    } else if |socials| == 1 {
      assert r.facebookLink == socials[0] && r.linkedinLink == "";
      assert socials == [socials[0]];
    } else {
      assert r.facebookLink == socials[0] && r.linkedinLink == socials[1];
      assert socials == [socials[0]] + [socials[1]];
    }
  }

  datatype TutoringRequest = TutoringRequest(
    description: string,
    status: string,
    availability: seq<Day>,
    timeFrom: seq<string>,
    timeTo: seq<string>,
    affiliation: seq<string>,
    expertise: seq<string>,
    subjectNames: seq<string>,
    topics: map<string, seq<string>>)

  const DayStart := "09:00:00.000Z"
  const DayEnd := "17:00:00.000Z"
  const TutoringFailed := "Failed to update tutoring information. Please try again."
  const DescriptionRequired := "Description is required"
  const TutoringSaved := "Tutoring information updated successfully!"
  const BadFormat := "Invalid data format. Please check your inputs."
  const AuthFailed := "Authentication failed. Please log in again."

  /** The topics of the listed subjects that have at least one topic. */
  predicate KeptTopic(subjects: seq<string>, topics: map<string, seq<string>>, s: string) {
    s in subjects && s in topics && topics[s] != []
  }

  /** Lines 284-292: a subject's topics are copied when it is still listed
      and has at least one topic. */
  method TopicsPayload(subjects: seq<string>, topics: map<string, seq<string>>)
    returns (payload: map<string, seq<string>>)
    ensures forall s :: s in payload <==> KeptTopic(subjects, topics, s)
    ensures payload.Keys <= topics.Keys
    ensures forall s :: s in payload ==> payload[s] == topics[s] && payload[s] != []
  {
    payload := map[];
    var i := 0;
    while i < |subjects|
      invariant 0 <= i <= |subjects|
      invariant forall s :: s in payload <==> KeptTopic(subjects[..i], topics, s)
      invariant forall s :: s in payload ==> s in topics && payload[s] == topics[s]
    {
      var s := subjects[i];
      if s in topics && |topics[s]| > 0 {
        payload := payload[s := topics[s]];
      }
      assert subjects[..i + 1] == subjects[..i] + [s];
      i := i + 1;
    }
    assert subjects[..i] == subjects;
  }

  /** `Array(n).fill(v)` as built by `formattedDates.map(() => v)`. */
  function Constant(n: nat, v: string): (r: seq<string>)
    ensures |r| == n
    ensures forall i :: 0 <= i < n ==> r[i] == v
  {
    seq(n, _ => v)
  }

  /** Lines 355-366: the message shown for a refused update. */
  function TutoringError(response: Response): (m: string)
    requires response.Refused?
    ensures response.detail != "" ==> m == response.detail
    ensures response.detail == "" && response.message != "" ==> m == response.message
    ensures response.detail == "" && response.message == "" ==>
      m == (if response.status == 400 then BadFormat
            else if response.status == 401 || response.status == 403 then AuthFailed
            else TutoringFailed)
  {
    if response.detail != "" then response.detail
    else if response.message != "" then response.message
    else if response.status == 400 then BadFormat
    else if response.status == 401 || response.status == 403 then AuthFailed
    else TutoringFailed
  }

  /** Lines 258-372. A missing login shows the generic failure text and a
      blank description sends nothing. Otherwise the request carries the
      trimmed description, status 'active', one 09:00-17:00 window per
      date and the topics of the listed subjects; on success the profile
      takes the edited lists and those topics. */
  method SaveTutoring(t: Tutor, e: TutoringEdit, authenticated: bool, response: Response)
    returns (o: Saved<TutoringRequest>)
    ensures o.request.Some? <==> authenticated && !IsBlank(e.description)
    ensures !authenticated ==> o.error == TutoringFailed
    ensures authenticated && IsBlank(e.description) ==> o.error == DescriptionRequired
    ensures o.request.Some? ==>
      var q := o.request.value;
      && q.description == Trim(e.description) && q.status == "active"
      && q.availability == e.dates
      && |q.timeFrom| == |e.dates| && |q.timeTo| == |e.dates|
      && (forall i :: 0 <= i < |e.dates| ==> q.timeFrom[i] == DayStart && q.timeTo[i] == DayEnd)
      && q.affiliation == e.affiliations && q.expertise == e.expertise && q.subjectNames == e.subjects
      && (forall s :: s in q.topics <==> KeptTopic(e.subjects, e.topics, s))
      && (forall s :: s in q.topics ==> q.topics[s] == e.topics[s])
    ensures o.request.None? || response.Refused? ==> o.tutor == t && o.success == ""
    ensures o.request.Some? && response.Refused? ==> o.error == TutoringError(response)
    ensures o.request.Some? && response.Accepted? ==>
      && o.tutor == t.(subjects := e.subjects, affiliations := e.affiliations, expertise := e.expertise,
                       description := e.description, dates := e.dates, topics := o.request.value.topics)
      && o.success == TutoringSaved && o.error == ""
  {
    if !authenticated {
      return Saved(None, TutoringFailed, "", t);
    }
    if IsBlank(e.description) {
      return Saved(None, DescriptionRequired, "", t);
    }
    var topics := TopicsPayload(e.subjects, e.topics);
    var req := TutoringRequest(Trim(e.description), "active", e.dates,
                               Constant(|e.dates|, DayStart), Constant(|e.dates|, DayEnd),
                               e.affiliations, e.expertise, e.subjects, topics);
    if response.Accepted? {
      var t' := t.(subjects := e.subjects, affiliations := e.affiliations, expertise := e.expertise,
                   description := e.description, dates := e.dates, topics := topics);
      o := Saved(Some(req), "", TutoringSaved, t');
    } else {
      o := Saved(Some(req), TutoringError(response), "", t);
    }
  }

  /** After a successful save every subject shown with topics is one of
      the listed subjects, so a removed subject's topics do not come back. */
  lemma RemovedSubjectTopicsGone(e: TutoringEdit, index: int, q: TutoringRequest)
    requires 0 <= index < |e.subjects|
    requires forall s :: s in q.topics <==> KeptTopic(RemoveSubject(e, index).subjects, RemoveSubject(e, index).topics, s)
    ensures e.subjects[index] !in q.topics
  {
  }
}
