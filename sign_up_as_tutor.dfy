/** The tutor sign-up form of frontend/src/pages/SignUpAsTutor.tsx: the
    editors of its repeatable fields, the validation run before submitting,
    and the payload it posts to the tutor sign-up handler. */
module SignUpAsTutor {
  import opened Strings
  import Seqs
  import ErrorValidations
  import Signup

  // ---------------------------------------------------------------------
  // Repeatable fields
  // ---------------------------------------------------------------------

  /** One row of the availability editor (lines 27-29). */
  datatype Slot = Slot(date: string, timeFrom: string, timeTo: string)

  datatype SlotField = Date | TimeFrom | TimeTo

  const BlankSlot := Slot("", "", "")

  /** Lines 44-49: one blank entry is appended. */
  function AddFieldItem(items: seq<string>): (r: seq<string>)
    ensures |r| == |items| + 1
    ensures r[..|items|] == items && r[|items|] == ""
  {
    items + [""]
  }

  /** Lines 52-60: the entry at `index` is dropped, unless it is the only
      one left. */
  function RemoveFieldItem(items: seq<string>, index: int): (r: seq<string>)
    ensures |r| <= |items|
    ensures |items| <= 1 || !(0 <= index < |items|) ==> r == items
    ensures |items| > 1 && 0 <= index < |items| ==> |r| == |items| - 1
    ensures |items| > 1 ==> forall j :: 0 <= j < index && j < |r| ==> r[j] == items[j]
    ensures |items| > 1 ==> forall j :: 0 <= index <= j < |r| ==> r[j] == items[j + 1]
    ensures |items| >= 1 ==> |r| >= 1
  {
    if |items| > 1 then Seqs.RemoveAt(items, index) else items
  }

  /** Lines 63-68: one blank slot is appended. */
  function AddAvailability(slots: seq<Slot>): (r: seq<Slot>)
    ensures |r| == |slots| + 1
    ensures r[..|slots|] == slots && r[|slots|] == BlankSlot
  {
    slots + [BlankSlot]
  }

  /** Lines 71-78: as for the other fields, the last slot is never removed. */
  function RemoveAvailability(slots: seq<Slot>, index: int): (r: seq<Slot>)
    ensures |r| <= |slots|
    ensures |slots| <= 1 || !(0 <= index < |slots|) ==> r == slots
    ensures |slots| > 1 && 0 <= index < |slots| ==> |r| == |slots| - 1
    ensures |slots| > 1 ==> forall j :: 0 <= j < index && j < |r| ==> r[j] == slots[j]
    ensures |slots| > 1 ==> forall j :: 0 <= index <= j < |r| ==> r[j] == slots[j + 1]
    ensures |slots| >= 1 ==> |r| >= 1
  {
    if |slots| > 1 then Seqs.RemoveAt(slots, index) else slots
  }

  function SetField(s: Slot, field: SlotField, value: string): Slot {
    match field
    case Date => s.(date := value)
    case TimeFrom => s.(timeFrom := value)
    case TimeTo => s.(timeTo := value)
  }

  /** Lines 81-91: one field of one slot is overwritten. The editor only
      passes the index of a rendered slot. */
  function UpdateAvailability(slots: seq<Slot>, index: int, field: SlotField, value: string): (r: seq<Slot>)
    requires 0 <= index < |slots|
    ensures |r| == |slots|
    ensures forall j :: 0 <= j < |slots| && j != index ==> r[j] == slots[j]
    ensures field.Date? ==> r[index] == slots[index].(date := value)
    ensures field.TimeFrom? ==> r[index] == slots[index].(timeFrom := value)
    ensures field.TimeTo? ==> r[index] == slots[index].(timeTo := value)
  {
    slots[index := SetField(slots[index], field, value)]
  }

  /** Lines 94-103: one entry is overwritten; the index is that of a
      rendered entry. */
  function UpdateFieldItem(items: seq<string>, index: int, value: string): (r: seq<string>)
    requires 0 <= index < |items|
    ensures |r| == |items|
    ensures r[index] == value
    ensures forall j :: 0 <= j < |items| && j != index ==> r[j] == items[j]
  {
    items[index := value]
  }

  /** What the user can do to one repeatable text field. */
  datatype Edit = Add | Remove(index: int) | Update(index: int, value: string)

  /** An update is only offered for an entry that is on screen. */
  predicate Offered(items: seq<string>, e: Edit) {
    e.Update? ==> 0 <= e.index < |items|
  }

  function ApplyEdit(items: seq<string>, e: Edit): seq<string>
    requires Offered(items, e)
  {
    match e
    case Add => AddFieldItem(items)
    case Remove(i) => RemoveFieldItem(items, i)
    case Update(i, v) => UpdateFieldItem(items, i, v)
  }

  /** A session of edits in which every update targets a rendered entry. */
  predicate OfferedAll(items: seq<string>, es: seq<Edit>)
    decreases |es|
  {
    es == [] || (Offered(items, es[0]) && OfferedAll(ApplyEdit(items, es[0]), es[1..]))
  }

  function ApplyEdits(items: seq<string>, es: seq<Edit>): seq<string>
    requires OfferedAll(items, es)
    decreases |es|
  {
    if es == [] then items else ApplyEdits(ApplyEdit(items, es[0]), es[1..])
  }

  /** Starting from the initial `['']`, no sequence of edits empties a
      field: every list keeps at least one entry. */
  lemma {:induction false} EditsKeepNonEmpty(items: seq<string>, es: seq<Edit>)
    requires |items| >= 1
    requires OfferedAll(items, es)
    ensures |ApplyEdits(items, es)| >= 1
    decreases |es|
  {
    if es != [] {
      EditsKeepNonEmpty(ApplyEdit(items, es[0]), es[1..]);
    }
  }

  // ---------------------------------------------------------------------
  // Validation
  // ---------------------------------------------------------------------

  datatype FormErrors = FormErrors(
    firstName: string, lastName: string, email: string, password: string, subject: string)

  const NoErrors := FormErrors("", "", "", "", "")

  /** The conditions under which `validateForm` lets the form through. */
  predicate FormAccepted(firstName: string, lastName: string, email: string, password: string) {
    !IsBlank(firstName) && !IsBlank(lastName) && !IsBlank(email) &&
    ErrorValidations.IsValidUpEmail(email) && |password| >= 8
  }

  /** Lines 110-160: each check that fails records its message and clears
      the flag. The subject check compares the list with itself, so it
      never fires and the subject message stays empty. */
  method ValidateForm(firstName: string, lastName: string, email: string, password: string, subject: seq<string>)
    returns (valid: bool, errors: FormErrors)
    ensures valid <==> FormAccepted(firstName, lastName, email, password)
    ensures valid <==> errors == NoErrors
    ensures errors.firstName == (if IsBlank(firstName) then "First name is required" else "")
    ensures errors.lastName == (if IsBlank(lastName) then "Last name is required" else "")
    ensures errors.email ==
      if IsBlank(email) then "Email is required"
      else if !ErrorValidations.IsValidUpEmail(email) then "Please enter a valid UP email address"
      else ""
    ensures errors.password ==
      if password == [] then "Password is required"
      else if |password| < 8 then "Password must be at least 8 characters long"
      else ""
    ensures errors.subject == ""
  {
    valid := true;
    var first, last, mail, pass, subj := "", "", "", "", "";
    if IsBlank(firstName) {
      first := "First name is required";
      valid := false;
    }
    if IsBlank(lastName) {
      last := "Last name is required";
      valid := false;
    }
    if IsBlank(email) {
      mail := "Email is required";
      valid := false;
    } else if !ErrorValidations.IsValidUpEmail(email) {
      mail := "Please enter a valid UP email address";
      valid := false;
    }
    if password == [] {
      pass := "Password is required";
      valid := false;
    } else if |password| < 8 {
      pass := "Password must be at least 8 characters long";
      valid := false;
    }
    if subject != subject {
      subj := "Subject is required.";
      valid := false;
    }
    errors := FormErrors(first, last, mail, pass, subj);
  }

  // ---------------------------------------------------------------------
  // The posted payload
  // ---------------------------------------------------------------------

  datatype Form = Form(
    firstName: string,
    lastName: string,
    middleInitial: string,
    email: string,
    password: string,
    description: string,
    availability: seq<Slot>,
    affiliations: seq<string>,
    expertise: seq<string>,
    socials: seq<string>,
    subjects: seq<string>)

  datatype Payload = Payload(
    name: string,
    email: string,
    password: string,
    description: string,
    status: string,
    dates: seq<string>,
    timesFrom: seq<string>,
    timesTo: seq<string>,
    affiliation: seq<string>,
    expertise: seq<string>,
    socials: seq<string>,
    subjectNames: seq<string>)

  /** `xs.filter(x => x.trim() !== '')`. */
  function KeepNonBlank(xs: seq<string>): (r: seq<string>)
    ensures |r| <= |xs|
    ensures forall i :: 0 <= i < |r| ==> !IsBlank(r[i])
    ensures forall x :: x in r <==> x in xs && !IsBlank(x)
  {
    if xs == [] then []
    else if IsBlank(xs[0]) then KeepNonBlank(xs[1..])
    else [xs[0]] + KeepNonBlank(xs[1..])
  }

  /** The filter keeps the survivors in their original order. */
  lemma {:induction false} KeepNonBlankAppend(a: seq<string>, b: seq<string>)
    ensures KeepNonBlank(a + b) == KeepNonBlank(a) + KeepNonBlank(b)
  {
    if a == [] {
      assert a + b == b;
    } else {
      assert (a + b)[1..] == a[1..] + b;
      KeepNonBlankAppend(a[1..], b);
    }
  }

  /** A list without blank entries passes through unchanged. */
  lemma {:induction false} KeepNonBlankNoop(xs: seq<string>)
    requires forall i :: 0 <= i < |xs| ==> !IsBlank(xs[i])
    ensures KeepNonBlank(xs) == xs
  {
    if xs != [] {
      KeepNonBlankNoop(xs[1..]);
    }
  }

  function SubjectName(s: string): string {
    Upper(Trim(s))
  }

  function Dates(slots: seq<Slot>): (r: seq<string>)
    ensures |r| == |slots|
    ensures forall i :: 0 <= i < |slots| ==> r[i] == slots[i].date
  {
    seq(|slots|, i requires 0 <= i < |slots| => slots[i].date)
  }

  function TimesFrom(slots: seq<Slot>): (r: seq<string>)
    ensures |r| == |slots|
    ensures forall i :: 0 <= i < |slots| ==> r[i] == slots[i].timeFrom
  {
    seq(|slots|, i requires 0 <= i < |slots| => slots[i].timeFrom)
  }

  function TimesTo(slots: seq<Slot>): (r: seq<string>)
    ensures |r| == |slots|
    ensures forall i :: 0 <= i < |slots| ==> r[i] == slots[i].timeTo
  {
    seq(|slots|, i requires 0 <= i < |slots| => slots[i].timeTo)
  }

  /** Line 164: "first last middle", then trimmed. */
  function FullName(f: Form): string {
    Trim(f.firstName + " " + f.lastName + " " + f.middleInitial)
  }

  /** Lines 163-195: the payload that is posted. */
  function PrepareFormData(f: Form): (p: Payload)
    ensures p.name == FullName(f) && p.status == "pending"
    ensures p.email == f.email && p.password == f.password && p.description == f.description
    ensures |p.dates| == |f.availability| && |p.timesFrom| == |f.availability| && |p.timesTo| == |f.availability|
    ensures forall i :: 0 <= i < |f.availability| ==>
      f.availability[i] == Slot(p.dates[i], p.timesFrom[i], p.timesTo[i])
    ensures p.affiliation == KeepNonBlank(f.affiliations)
    ensures p.expertise == KeepNonBlank(f.expertise)
    ensures p.socials == KeepNonBlank(f.socials)
    ensures |p.subjectNames| == |f.subjects|
    ensures forall i :: 0 <= i < |f.subjects| ==> p.subjectNames[i] == Upper(Trim(f.subjects[i]))
    ensures forall i :: 0 <= i < |f.subjects| && IsBlank(f.subjects[i]) ==> p.subjectNames[i] == ""
  {
    Payload(FullName(f), f.email, f.password, f.description, "pending",
            Dates(f.availability), TimesFrom(f.availability), TimesTo(f.availability),
            KeepNonBlank(f.affiliations), KeepNonBlank(f.expertise), KeepNonBlank(f.socials),
            Seqs.Map(SubjectName, f.subjects))
  }

  /** With no middle initial and tidy names, the name is "first last". */
  lemma NameWithoutMiddle(f: Form)
    requires f.middleInitial == []
    requires f.firstName != [] && !IsWhitespace(f.firstName[0])
    requires f.lastName != [] && !IsWhitespace(f.lastName[|f.lastName| - 1])
    ensures FullName(f) == f.firstName + " " + f.lastName
  {
    var core := f.firstName + " " + f.lastName;
    var s := core + " " + [];
    assert s == core + " ";
    assert s[0] == f.firstName[0];
    assert TrimStart(s) == s;
    assert s[..|s| - 1] == core;
    assert core[|core| - 1] == f.lastName[|f.lastName| - 1];
    assert TrimEnd(core) == core;
    assert TrimEnd(s) == core;
  }

  /** A string with a non-whitespace character somewhere is not blank. */
  lemma NotBlankAt(s: string, i: int)
    requires 0 <= i < |s| && !IsWhitespace(s[i])
    ensures !IsBlank(s)
  {
    BlankIffAllWhitespace(s);
  }

  lemma NameNotBlank(first: string, last: string, middle: string)
    requires !IsBlank(first)
    ensures !IsBlank(Trim(first + " " + last + " " + middle))
  {
    var s := first + " " + last + " " + middle;
    BlankIffAllWhitespace(first);
    var i :| 0 <= i < |first| && !IsWhitespace(first[i]);
    assert s[i] == first[i];
    NotBlankAt(s, i);
    TrimIdempotent(s);
  }

  /** A form that passed validation yields a non-blank name. */
  lemma AcceptedFormHasName(f: Form)
    requires FormAccepted(f.firstName, f.lastName, f.email, f.password)
    ensures !IsBlank(FullName(f))
  {
    NameNotBlank(f.firstName, f.lastName, f.middleInitial);
  }

  /** The two parts of the posted body as the tutor sign-up handler reads
      them; the date and time strings are passed through as they are. */
  function UserPart(p: Payload): Signup.UserForm {
    Signup.UserForm(p.name, p.email, p.password)
  }

  function TutorPart(p: Payload): Signup.TutorForm {
    Signup.TutorForm(p.description, p.dates, p.timesFrom, p.timesTo,
                     p.affiliation, p.expertise, p.socials, p.subjectNames)
  }

  /** The lists the tutor sign-up handler stores come back unchanged
      from the new account's metadata. */
  lemma SignUpDataLists(user: Signup.UserForm, tutor: Signup.TutorForm)
    ensures Signup.MetaTexts(Signup.TutorSignUpData(user, tutor), "availability") == tutor.availability
    ensures Signup.MetaTexts(Signup.TutorSignUpData(user, tutor), "available_time_from") == tutor.timeFrom
    ensures Signup.MetaTexts(Signup.TutorSignUpData(user, tutor), "available_time_to") == tutor.timeTo
  {
    var m := Signup.TutorSignUpData(user, tutor);
    assert m["availability"] == Signup.Texts(tutor.availability);
    assert m["available_time_from"] == Signup.Texts(tutor.timeFrom);
    assert m["available_time_to"] == Signup.Texts(tutor.timeTo);
  }

  /** The payload always meets the precondition of the availability loop
      of `create_tutor_profile`: when the account created from it is
      verified, there is one availability row per slot, pairing the
      slot's date with its own start and end time. */
  lemma PayloadFitsAvailabilityLoop(f: Form, u: Signup.AuthUser)
    requires u.meta == Signup.TutorSignUpData(UserPart(PrepareFormData(f)), TutorPart(PrepareFormData(f)))
    ensures Signup.TutorRowsBatch(u).Some?
    ensures Signup.MetaTexts(u.meta, "availability") == Dates(f.availability)
    ensures Signup.MetaTexts(u.meta, "available_time_from") == TimesFrom(f.availability)
    ensures Signup.MetaTexts(u.meta, "available_time_to") == TimesTo(f.availability)
  {
    var p := PrepareFormData(f);
    SignUpDataLists(UserPart(p), TutorPart(p));
  }
}
