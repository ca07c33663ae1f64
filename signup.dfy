/** Sign-up and profile provisioning of backend/router/auth/signup.py.

    The auth provider is an oracle: what `list_users` returned (or that it
    raised) is an input, and the `update_user_by_id` / `sign_up` call a
    handler makes is an output. The database is a `ProfileDb` holding the
    tables the handlers write; `db.add` queues an insert and `db.commit`
    applies the queued batch atomically or, when a constraint is broken,
    raises and applies nothing. */
module Signup {
  import opened Wrappers
  import opened Strings

  // ---------------------------------------------------------------------
  // Provider-side users and their metadata

  /** A value of the provider's user metadata: a string or a list of strings. */
  datatype MetaValue = Text(s: string) | Texts(xs: seq<string>)

  type Metadata = map<string, MetaValue>

  datatype AuthUser = AuthUser(
    id: string,
    email: Option<string>,
    emailConfirmedAt: Option<int>,
    createdDate: int,
    meta: Metadata)

  /** `meta.get(key)` used as a column value; anything but a string is lost. */
  function MetaText(meta: Metadata, key: string): (r: Option<string>)
    ensures r.Some? <==> key in meta && meta[key].Text?
    ensures r.Some? ==> r.value == meta[key].s
  {
    if key in meta && meta[key].Text? then Some(meta[key].s) else None
  }

  /** The one-character strings that iterating a Python string yields. */
  function Characters(s: string): (r: seq<string>)
    ensures |r| == |s|
    ensures forall i :: 0 <= i < |s| ==> r[i] == [s[i]]
  {
    seq(|s|, i requires 0 <= i < |s| => [s[i]])
  }

  /** `meta.get(key, [])` as the loops of `create_tutor_profile` iterate it. */
  function MetaTexts(meta: Metadata, key: string): (r: seq<string>)
    ensures key !in meta ==> r == []
    ensures key in meta && meta[key].Texts? ==> r == meta[key].xs
    ensures key in meta && meta[key].Text? ==> r == Characters(meta[key].s)
  {
    if key !in meta then []
    else match meta[key]
      case Texts(xs) => xs
      case Text(s) => Characters(s)
  }

  /** `user_metadata.get("role", [])`. */
  function RoleOf(meta: Metadata): MetaValue {
    if "role" in meta then meta["role"] else Texts([])
  }

  /** Python's `r in role`: membership for a list, substring for a string. */
  predicate HoldsRole(role: MetaValue, r: string) {
    match role
    case Texts(xs) => r in xs
    case Text(s) => IsSubstring(r, s)
  }

  /** For a one-character role id, the substring test on a string role is
      the character test, so "0" and "1" are both held by the string "10". */
  lemma HoldsSingleCharRole(s: string, c: char)
    ensures HoldsRole(Text(s), [c]) <==> c in s
  {
    SingleCharSubstring(c, s);
  }

  /** Lines 186-189 and 254-257: a string role becomes a one-element list. */
  function RoleList(role: MetaValue): (r: seq<string>)
    ensures role.Text? ==> r == [role.s]
    ensures role.Texts? ==> r == role.xs
  {
    match role
    case Text(s) => [s]
    case Texts(xs) => xs
  }

  // ---------------------------------------------------------------------
  // Role merge and existing-user lookup

  /** Lines 186-195 and 254-262: normalise the role to a list and append
      the new role when it is absent. `already` reports that it was present. */
  method MergeRole(current: MetaValue, newRole: string) returns (already: bool, roles: seq<string>)
    ensures already <==> newRole in RoleList(current)
    ensures already ==> roles == RoleList(current)
    ensures !already ==> roles == RoleList(current) + [newRole]
    ensures newRole in roles
    ensures forall r :: r in RoleList(current) ==> r in roles
    ensures !already ==> multiset(roles)[newRole] == 1
  {
    var currentRole: seq<string>;
    match current {
      case Text(s) => currentRole := [s];
      case Texts(xs) => currentRole := xs;
    }
    if newRole !in currentRole {
      assert multiset(currentRole)[newRole] == 0;
      currentRole := currentRole + [newRole];
      already := false;
    } else {
      already := true;
    }
    roles := currentRole;
  }

  /** How the generator in `get_existing_user` ends: a match, no match,
      or an exception from `.lower()` on a user without an email. */
  datatype Lookup = Found(user: AuthUser) | NoMatch | Raised

  predicate SameEmailIgnoringCase(u: AuthUser, email: string) {
    u.email.Some? && Lower(u.email.value) == Lower(email)
  }

  /** Every user before position `i` has an email, and none matches. */
  predicate PassedOver(users: seq<AuthUser>, email: string, i: int)
    requires 0 <= i <= |users|
  {
    forall j :: 0 <= j < i ==> users[j].email.Some? && !SameEmailIgnoringCase(users[j], email)
  }

  /** Lines 319-322: the generator stops at the first user that either
      matches, by lower-cased email, or has no email to lower-case. */
  function FindIgnoringCase(users: seq<AuthUser>, email: string): (r: Lookup)
    ensures r.Found? ==>
      exists i :: 0 <= i < |users| && users[i] == r.user && SameEmailIgnoringCase(users[i], email) && PassedOver(users, email, i)
    ensures r.NoMatch? <==> PassedOver(users, email, |users|)
    ensures r.Raised? ==> exists i :: 0 <= i < |users| && users[i].email.None? && PassedOver(users, email, i)
  {
    if users == [] then NoMatch
    else if users[0].email.None? then
      assert PassedOver(users, email, 0);
      Raised
    else if SameEmailIgnoringCase(users[0], email) then
      assert PassedOver(users, email, 0);
      Found(users[0])
    else
      var r := FindIgnoringCase(users[1..], email);
      PassedOverCons(users, email);
      r
  }

  /** Passing over the first user and then `i` more is passing over `i + 1`. */
  lemma PassedOverCons(users: seq<AuthUser>, email: string)
    requires users != [] && users[0].email.Some? && !SameEmailIgnoringCase(users[0], email)
    ensures forall i :: 0 <= i <= |users| - 1 ==>
      (PassedOver(users[1..], email, i) <==> PassedOver(users, email, i + 1))
  {
    forall i | 0 <= i <= |users| - 1
      ensures PassedOver(users[1..], email, i) <==> PassedOver(users, email, i + 1)
    {
      assert forall j :: 0 <= j < i ==> users[1..][j] == users[j + 1];
    }
  }

  /** Lines 311-327: `None` when the provider call fails or the scan raises. */
  function GetExistingUser(listing: Option<seq<AuthUser>>, email: string): (r: Option<AuthUser>)
    ensures listing.None? ==> r.None?
    ensures r.Some? ==> listing.Some? && r.value in listing.value && SameEmailIgnoringCase(r.value, email)
  {
    if listing.None? then None
    else match FindIgnoringCase(listing.value, email)
      case Found(u) => Some(u)
      case _ => None
  }

  /** The lookup only sees the lower-cased email. */
  lemma {:induction false} LookupIgnoresCase(users: seq<AuthUser>, e1: string, e2: string)
    requires Lower(e1) == Lower(e2)
    ensures FindIgnoringCase(users, e1) == FindIgnoringCase(users, e2)
  {
    if users != [] && users[0].email.Some? {
      LookupIgnoresCase(users[1..], e1, e2);
    }
  }

  /** When every listed user has an email, a user matching up to case is found. */
  lemma {:induction false} LookupComplete(users: seq<AuthUser>, email: string, u: AuthUser)
    requires forall v :: v in users ==> v.email.Some?
    requires u in users && SameEmailIgnoringCase(u, email)
    ensures GetExistingUser(Some(users), email).Some?
  {
    if users[0] != u && !SameEmailIgnoringCase(users[0], email) {
      LookupComplete(users[1..], email, u);
    }
  }

  // ---------------------------------------------------------------------
  // The two sign-up handlers

  datatype UserForm = UserForm(name: string, email: string, password: string)
  datatype StudentForm = StudentForm(studentNumber: string, degreeProgram: string)
  /** The tutor payload, with dates and times already in ISO text. */
  datatype TutorForm = TutorForm(
    description: string,
    availability: seq<string>,
    timeFrom: seq<string>,
    timeTo: seq<string>,
    affiliation: seq<string>,
    expertise: seq<string>,
    socials: seq<string>,
    subjectNames: seq<string>)

  datatype ProviderCall =
    | UpdateUserById(id: string, meta: Metadata)
    | SignUp(email: string, password: string, data: Metadata)

  datatype SignupReply = Replied(message: string) | BadRequest

  /** The messages of one handler. */
  datatype Messages = Messages(already: string, extended: string, registered: string)

  const StudentMessages := Messages("User is already a student.",
    "Signup successful. Student is now a tutor.",
    "Student registered successfully. Email verification sent.")
  const TutorMessages := Messages("User is already a tutor.",
    "Signup successful. Tutor is also a student.",
    "Tutor registered successfully. Email verification sent.")

  /** Lines 202-206: the metadata written for an existing user turning student. */
  function StudentFields(student: StudentForm): Metadata {
    map["student_number" := Text(student.studentNumber), "degree_program" := Text(student.degreeProgram)]
  }

  /** Lines 216-221: the metadata of a new student account. */
  function StudentSignUpData(user: UserForm, student: StudentForm): Metadata {
    StudentFields(student)["name" := Text(user.name)]["role" := Text("0")]
  }

  /** Lines 268-279: the metadata written for an existing user turning tutor. */
  function TutorFields(tutor: TutorForm): Metadata {
    map["availability" := Texts(tutor.availability),
        "available_time_from" := Texts(tutor.timeFrom),
        "available_time_to" := Texts(tutor.timeTo),
        "description" := Text(tutor.description),
        "expertise" := Texts(tutor.expertise),
        "affiliation" := Texts(tutor.affiliation),
        "socials" := Texts(tutor.socials),
        "status" := Text("0"),
        "subject" := Texts(tutor.subjectNames)]
  }

  /** Lines 289-300: the metadata of a new tutor account. */
  function TutorSignUpData(user: UserForm, tutor: TutorForm): Metadata {
    TutorFields(tutor)["name" := Text(user.name)]["role" := Text("1")]
  }

  /** The shared shape of both handlers: an existing user gets the role
      merged into their metadata, a new one is signed up; a failing
      provider call is answered with 400. */
  method Enrol(listing: Option<seq<AuthUser>>, email: string, role: string, fields: Metadata,
               signUp: ProviderCall, msgs: Messages, providerOk: bool)
    returns (reply: SignupReply, call: Option<ProviderCall>)
    ensures GetExistingUser(listing, email).None? ==> call == Some(signUp)
    ensures (GetExistingUser(listing, email).Some? &&
             role in RoleList(RoleOf(GetExistingUser(listing, email).value.meta))) ==>
        call.None? && reply == Replied(msgs.already)
    ensures (GetExistingUser(listing, email).Some? &&
             role !in RoleList(RoleOf(GetExistingUser(listing, email).value.meta))) ==>
        var u := GetExistingUser(listing, email).value;
        call == Some(UpdateUserById(u.id, fields["role" := Texts(RoleList(RoleOf(u.meta)) + [role])]))
    ensures call.Some? ==> (reply.BadRequest? <==> !providerOk)
    ensures call.Some? && providerOk ==>
      reply == Replied(if GetExistingUser(listing, email).Some? then msgs.extended else msgs.registered)
  {
    var existing := GetExistingUser(listing, email);
    if existing.Some? {
      var already, roles := MergeRole(RoleOf(existing.value.meta), role);
      if already {
        return Replied(msgs.already), None;
      }
      call := Some(UpdateUserById(existing.value.id, fields["role" := Texts(roles)]));
      reply := if providerOk then Replied(msgs.extended) else BadRequest;
    } else {
      call := Some(signUp);
      reply := if providerOk then Replied(msgs.registered) else BadRequest;
    }
  }

  /** `signup_student`, lines 174-228. */
  method SignupStudent(listing: Option<seq<AuthUser>>, user: UserForm, student: StudentForm, providerOk: bool)
    returns (reply: SignupReply, call: Option<ProviderCall>)
    ensures GetExistingUser(listing, user.email).None? ==>
      call == Some(SignUp(user.email, user.password, StudentSignUpData(user, student)))
    ensures (GetExistingUser(listing, user.email).Some? &&
             "0" in RoleList(RoleOf(GetExistingUser(listing, user.email).value.meta))) ==>
        call.None? && reply == Replied("User is already a student.")
    ensures (GetExistingUser(listing, user.email).Some? &&
             "0" !in RoleList(RoleOf(GetExistingUser(listing, user.email).value.meta))) ==>
        var u := GetExistingUser(listing, user.email).value;
        call == Some(UpdateUserById(u.id, StudentFields(student)["role" := Texts(RoleList(RoleOf(u.meta)) + ["0"])]))
    ensures call.Some? ==> (reply.BadRequest? <==> !providerOk)
    ensures call.Some? && providerOk ==>
      reply == Replied(if GetExistingUser(listing, user.email).Some? then "Signup successful. Student is now a tutor."
                       else "Student registered successfully. Email verification sent.")
  {
    reply, call := Enrol(listing, user.email, "0", StudentFields(student),
                         SignUp(user.email, user.password, StudentSignUpData(user, student)),
                         StudentMessages, providerOk);
  }

  /** `signup_tutor`, lines 230-308. */
  method SignupTutor(listing: Option<seq<AuthUser>>, user: UserForm, tutor: TutorForm, providerOk: bool)
    returns (reply: SignupReply, call: Option<ProviderCall>)
    ensures GetExistingUser(listing, user.email).None? ==>
      call == Some(SignUp(user.email, user.password, TutorSignUpData(user, tutor)))
    ensures (GetExistingUser(listing, user.email).Some? &&
             "1" in RoleList(RoleOf(GetExistingUser(listing, user.email).value.meta))) ==>
        call.None? && reply == Replied("User is already a tutor.")
    ensures (GetExistingUser(listing, user.email).Some? &&
             "1" !in RoleList(RoleOf(GetExistingUser(listing, user.email).value.meta))) ==>
        var u := GetExistingUser(listing, user.email).value;
        call == Some(UpdateUserById(u.id, TutorFields(tutor)["role" := Texts(RoleList(RoleOf(u.meta)) + ["1"])]))
    ensures call.Some? ==> (reply.BadRequest? <==> !providerOk)
    ensures call.Some? && providerOk ==>
      reply == Replied(if GetExistingUser(listing, user.email).Some? then "Signup successful. Tutor is also a student."
                       else "Tutor registered successfully. Email verification sent.")
  {
    reply, call := Enrol(listing, user.email, "1", TutorFields(tutor),
                         SignUp(user.email, user.password, TutorSignUpData(user, tutor)),
                         TutorMessages, providerOk);
  }

  /** A fresh sign-up stores the role as the bare string "0" or "1", which
      `add_detail`'s test then reads as holding exactly that role. */
  lemma FreshRolesAreExclusive(user: UserForm, student: StudentForm, tutor: TutorForm)
    ensures HoldsRole(RoleOf(StudentSignUpData(user, student)), "0")
    ensures !HoldsRole(RoleOf(StudentSignUpData(user, student)), "1")
    ensures HoldsRole(RoleOf(TutorSignUpData(user, tutor)), "1")
    ensures !HoldsRole(RoleOf(TutorSignUpData(user, tutor)), "0")
  {
    HoldsSingleCharRole("0", '0');
    HoldsSingleCharRole("0", '1');
    HoldsSingleCharRole("1", '1');
    HoldsSingleCharRole("1", '0');
  }

  // ---------------------------------------------------------------------
  // Tables and atomic commits

  datatype UserDetailRow = UserDetailRow(name: Option<string>, email: string, dateJoined: int)
  datatype StudentRow = StudentRow(studentNumber: string, degreeProgram: string)
  datatype TutorRow = TutorRow(status: int, description: string)
  /** A row of `user_role_detail`, whose primary key is the whole pair. */
  datatype RoleAssignment = RoleAssignment(userId: string, roleId: int)
  /** The four one-string-per-row tutor tables. */
  datatype ListKind = Affiliation | Expertise | Social | Subject
  datatype OwnedText = OwnedText(tutorId: string, text: string)
  datatype AvailabilityRow = AvailabilityRow(tutorId: string, date: string, timeFrom: string, timeTo: string)

  /** The tables the handlers touch; `statuses` is `status_detail`. Rows
      with generated keys are kept in insertion order. */
  datatype Tables = Tables(
    userDetails: map<string, UserDetailRow>,
    students: map<string, StudentRow>,
    tutors: map<string, TutorRow>,
    userRoles: seq<RoleAssignment>,
    affiliations: seq<OwnedText>,
    expertise: seq<OwnedText>,
    socials: seq<OwnedText>,
    availability: seq<AvailabilityRow>,
    subjects: seq<OwnedText>,
    statuses: set<int>)

  function Owned(t: Tables, k: ListKind): seq<OwnedText> {
    match k
    case Affiliation => t.affiliations
    case Expertise => t.expertise
    case Social => t.socials
    case Subject => t.subjects
  }

  /** One `db.add`. A missing value for a NOT NULL column is `None`. */
  datatype Insert =
    | AddUserDetail(id: string, detail: UserDetailRow)
    | AddStudent(id: string, studentNumber: Option<string>, degreeProgram: Option<string>)
    | AddTutor(id: string, status: int, description: Option<string>)
    | AddRole(assignment: RoleAssignment)
    | AddOwned(kind: ListKind, row: OwnedText)
    | AddAvailability(slot: AvailabilityRow)

  predicate UniqueEmails(t: Tables) {
    forall a, b :: a in t.userDetails && b in t.userDetails && a != b ==>
      t.userDetails[a].email != t.userDetails[b].email
  }

  predicate UniqueStudentNumbers(t: Tables) {
    forall a, b :: a in t.students && b in t.students && a != b ==>
      t.students[a].studentNumber != t.students[b].studentNumber
  }

  /** The composite primary key of `user_role_detail`. */
  predicate UniqueRoles(roles: seq<RoleAssignment>) {
    forall i, j :: 0 <= i < j < |roles| ==> roles[i] != roles[j]
  }

  predicate ForeignKeys(t: Tables) {
    t.students.Keys <= t.userDetails.Keys &&
    t.tutors.Keys <= t.userDetails.Keys &&
    (forall id :: id in t.tutors ==> t.tutors[id].status in t.statuses) &&
    (forall a :: a in t.userRoles ==> a.userId in t.userDetails) &&
    (forall r :: r in t.affiliations ==> r.tutorId in t.tutors) &&
    (forall r :: r in t.expertise ==> r.tutorId in t.userDetails) &&
    (forall r :: r in t.socials ==> r.tutorId in t.tutors) &&
    (forall r :: r in t.subjects ==> r.tutorId in t.tutors) &&
    (forall r :: r in t.availability ==> r.tutorId in t.tutors)
  }

  /** The constraints the tables declare. */
  predicate Consistent(t: Tables) {
    UniqueEmails(t) && UniqueStudentNumbers(t) && UniqueRoles(t.userRoles) && ForeignKeys(t)
  }

  /** Whether the database accepts one insert. */
  predicate Admits(t: Tables, ins: Insert) {
    match ins
    case AddUserDetail(id, d) =>
      id !in t.userDetails && forall k :: k in t.userDetails ==> t.userDetails[k].email != d.email
    case AddStudent(id, sn, dp) =>
      sn.Some? && dp.Some? && id !in t.students && id in t.userDetails &&
      forall k :: k in t.students ==> t.students[k].studentNumber != sn.value
    case AddTutor(id, st, d) =>
      d.Some? && id !in t.tutors && id in t.userDetails && st in t.statuses
    case AddRole(a) => a !in t.userRoles && a.userId in t.userDetails
    case AddOwned(k, r) => if k == Expertise then r.tutorId in t.userDetails else r.tutorId in t.tutors
    case AddAvailability(s) => s.tutorId in t.tutors
  }

  function Apply(t: Tables, ins: Insert): Tables
    requires Admits(t, ins)
  {
    match ins
    case AddUserDetail(id, d) => t.(userDetails := t.userDetails[id := d])
    case AddStudent(id, sn, dp) => t.(students := t.students[id := StudentRow(sn.value, dp.value)])
    case AddTutor(id, st, d) => t.(tutors := t.tutors[id := TutorRow(st, d.value)])
    case AddRole(a) => t.(userRoles := t.userRoles + [a])
    case AddOwned(Affiliation, r) => t.(affiliations := t.affiliations + [r])
    case AddOwned(Expertise, r) => t.(expertise := t.expertise + [r])
    case AddOwned(Social, r) => t.(socials := t.socials + [r])
    case AddOwned(Subject, r) => t.(subjects := t.subjects + [r])
    case AddAvailability(s) => t.(availability := t.availability + [s])
  }

  lemma AddUserDetailConsistent(t: Tables, id: string, d: UserDetailRow)
    requires Consistent(t) && Admits(t, AddUserDetail(id, d))
    ensures Consistent(Apply(t, AddUserDetail(id, d)))
  {
    var t' := Apply(t, AddUserDetail(id, d));
    assert UniqueEmails(t');
    assert ForeignKeys(t');
  }

  lemma AddStudentConsistent(t: Tables, id: string, sn: Option<string>, dp: Option<string>)
    requires Consistent(t) && Admits(t, AddStudent(id, sn, dp))
    ensures Consistent(Apply(t, AddStudent(id, sn, dp)))
  {
    var t' := Apply(t, AddStudent(id, sn, dp));
    assert UniqueStudentNumbers(t');
    assert ForeignKeys(t');
  }

  lemma AddTutorConsistent(t: Tables, id: string, st: int, d: Option<string>)
    requires Consistent(t) && Admits(t, AddTutor(id, st, d))
    ensures Consistent(Apply(t, AddTutor(id, st, d)))
  {
    var t' := Apply(t, AddTutor(id, st, d));
    assert ForeignKeys(t');
  }

  lemma AddRoleConsistent(t: Tables, a: RoleAssignment)
    requires Consistent(t) && Admits(t, AddRole(a))
    ensures Consistent(Apply(t, AddRole(a)))
  {
    var t' := Apply(t, AddRole(a));
    assert UniqueRoles(t'.userRoles);
    assert ForeignKeys(t');
  }

  lemma AddOwnedConsistent(t: Tables, k: ListKind, r: OwnedText)
    requires Consistent(t) && Admits(t, AddOwned(k, r))
    ensures Consistent(Apply(t, AddOwned(k, r)))
  {
    var t' := Apply(t, AddOwned(k, r));
    match k {
      case Affiliation => assert forall x :: x in t'.affiliations ==> x in t.affiliations || x == r;
      case Expertise => assert forall x :: x in t'.expertise ==> x in t.expertise || x == r;
      case Social => assert forall x :: x in t'.socials ==> x in t.socials || x == r;
      case Subject => assert forall x :: x in t'.subjects ==> x in t.subjects || x == r;
    }
  }

  lemma AddAvailabilityConsistent(t: Tables, slot: AvailabilityRow)
    requires Consistent(t) && Admits(t, AddAvailability(slot))
    ensures Consistent(Apply(t, AddAvailability(slot)))
  {
    var t' := Apply(t, AddAvailability(slot));
    assert forall x :: x in t'.availability ==> x in t.availability || x == slot;
  }

  /** An admitted insert keeps the declared constraints. */
  lemma ApplyConsistent(t: Tables, ins: Insert)
    requires Consistent(t) && Admits(t, ins)
    ensures Consistent(Apply(t, ins))
  {
    match ins {
      case AddUserDetail(id, d) => AddUserDetailConsistent(t, id, d);
      case AddStudent(id, sn, dp) => AddStudentConsistent(t, id, sn, dp);
      case AddTutor(id, st, d) => AddTutorConsistent(t, id, st, d);
      case AddRole(a) => AddRoleConsistent(t, a);
      case AddOwned(k, r) => AddOwnedConsistent(t, k, r);
      case AddAvailability(slot) => AddAvailabilityConsistent(t, slot);
    }
  }

  /** A commit: the queued inserts in order, or `None` when one is refused. */
  function ApplyBatch(t: Tables, batch: seq<Insert>): Option<Tables> {
    if batch == [] then Some(t)
    else match ApplyBatch(t, batch[..|batch| - 1])
      case None => None
      case Some(t1) =>
        if Admits(t1, batch[|batch| - 1]) then Some(Apply(t1, batch[|batch| - 1])) else None
  }

  /** A committed batch keeps the declared constraints. */
  lemma {:induction false} ApplyBatchConsistent(t: Tables, batch: seq<Insert>)
    requires Consistent(t)
    ensures ApplyBatch(t, batch).Some? ==> Consistent(ApplyBatch(t, batch).value)
  {
    if batch != [] {
      ApplyBatchConsistent(t, batch[..|batch| - 1]);
      var prior := ApplyBatch(t, batch[..|batch| - 1]);
      if prior.Some? && Admits(prior.value, batch[|batch| - 1]) {
        ApplyConsistent(prior.value, batch[|batch| - 1]);
      }
    }
  }

  /** The state after a commit and whether it raised. */
  datatype Step = Step(tables: Tables, ok: bool)

  function CommitStep(t: Tables, batch: seq<Insert>): (s: Step)
    ensures s.ok <==> ApplyBatch(t, batch).Some?
    ensures !s.ok ==> s.tables == t
  {
    match ApplyBatch(t, batch)
    case Some(t1) => Step(t1, true)
    case None => Step(t, false)
  }

  /** Unfolding a commit by its last insert. */
  lemma ApplyBatchSnoc(t: Tables, batch: seq<Insert>, ins: Insert)
    ensures ApplyBatch(t, batch + [ins]) ==
      match ApplyBatch(t, batch)
      case None => None
      case Some(t1) => if Admits(t1, ins) then Some(Apply(t1, ins)) else None
  {
    assert (batch + [ins])[..|batch|] == batch;
  }

  lemma ApplyBatchSingle(t: Tables, ins: Insert)
    ensures ApplyBatch(t, [ins]) == if Admits(t, ins) then Some(Apply(t, ins)) else None
  {
    ApplyBatchSnoc(t, [], ins);
    assert [] + [ins] == [ins];
  }

  /** The rows a batch appends to each list table. */
  datatype Queued = Queued(
    affiliations: seq<OwnedText>,
    expertise: seq<OwnedText>,
    socials: seq<OwnedText>,
    subjects: seq<OwnedText>,
    availability: seq<AvailabilityRow>,
    userRoles: seq<RoleAssignment>)
  {
    function Plus(o: Queued): Queued {
      Queued(affiliations + o.affiliations, expertise + o.expertise, socials + o.socials,
             subjects + o.subjects, availability + o.availability, userRoles + o.userRoles)
    }
  }

  const NoRows := Queued([], [], [], [], [], [])

  lemma PlusAssoc(a: Queued, b: Queued, c: Queued)
    ensures a.Plus(b).Plus(c) == a.Plus(b.Plus(c))
  {
    assert a.affiliations + b.affiliations + c.affiliations == a.affiliations + (b.affiliations + c.affiliations);
    assert a.expertise + b.expertise + c.expertise == a.expertise + (b.expertise + c.expertise);
    assert a.socials + b.socials + c.socials == a.socials + (b.socials + c.socials);
    assert a.subjects + b.subjects + c.subjects == a.subjects + (b.subjects + c.subjects);
    assert a.availability + b.availability + c.availability == a.availability + (b.availability + c.availability);
    assert a.userRoles + b.userRoles + c.userRoles == a.userRoles + (b.userRoles + c.userRoles);
  }

  lemma PlusNoRows(a: Queued)
    ensures a.Plus(NoRows) == a && NoRows.Plus(a) == a
  {
    assert a.affiliations + [] == a.affiliations && a.expertise + [] == a.expertise;
    assert a.socials + [] == a.socials && a.subjects + [] == a.subjects;
    assert a.availability + [] == a.availability && a.userRoles + [] == a.userRoles;
  }

  /** The list tables' contents. */
  function ListsOf(t: Tables): Queued {
    Queued(t.affiliations, t.expertise, t.socials, t.subjects, t.availability, t.userRoles)
  }

  /** `rows` in the list table of kind `k`, nothing elsewhere. */
  function OwnedQueue(k: ListKind, rows: seq<OwnedText>): Queued {
    match k
    case Affiliation => NoRows.(affiliations := rows)
    case Expertise => NoRows.(expertise := rows)
    case Social => NoRows.(socials := rows)
    case Subject => NoRows.(subjects := rows)
  }

  /** The row one insert appends, if it goes to a list table. */
  function QueuedBy(ins: Insert): Queued {
    match ins
    case AddRole(a) => NoRows.(userRoles := [a])
    case AddOwned(k, r) => OwnedQueue(k, [r])
    case AddAvailability(s) => NoRows.(availability := [s])
    case _ => NoRows
  }

  function QueuedOf(batch: seq<Insert>): Queued {
    if batch == [] then NoRows
    else QueuedOf(batch[..|batch| - 1]).Plus(QueuedBy(batch[|batch| - 1]))
  }

  /** A batch of row inserts only: no user, student or tutor records. */
  predicate RowInsertsOnly(batch: seq<Insert>) {
    forall i :: 0 <= i < |batch| ==> batch[i].AddOwned? || batch[i].AddAvailability? || batch[i].AddRole?
  }

  /** One admitted insert appends its row and leaves the catalog alone;
      a row insert leaves the keyed tables alone. */
  lemma ApplyEffect(t: Tables, ins: Insert)
    requires Admits(t, ins)
    ensures ListsOf(Apply(t, ins)) == ListsOf(t).Plus(QueuedBy(ins))
    ensures Apply(t, ins).statuses == t.statuses
    ensures ins.AddOwned? || ins.AddAvailability? || ins.AddRole? ==>
      Apply(t, ins).userDetails == t.userDetails && Apply(t, ins).students == t.students &&
      Apply(t, ins).tutors == t.tutors
  {
    match ins {
      case AddOwned(k, r) =>
        match k {
          case Affiliation =>
          case Expertise =>
          case Social =>
          case Subject =>
        }
      case _ =>
    }
  }

  /** What a committed batch does to the tables: every list table grows by
      exactly the rows queued for it, in order; the catalog is untouched. */
  lemma {:induction false} BatchLists(t: Tables, batch: seq<Insert>)
    requires ApplyBatch(t, batch).Some?
    ensures ListsOf(ApplyBatch(t, batch).value) == ListsOf(t).Plus(QueuedOf(batch))
    ensures ApplyBatch(t, batch).value.statuses == t.statuses
  {
    if batch == [] {
      PlusNoRows(ListsOf(t));
    } else {
      var init := batch[..|batch| - 1];
      var last := batch[|batch| - 1];
      BatchLists(t, init);
      ApplyEffect(ApplyBatch(t, init).value, last);
      PlusAssoc(ListsOf(t), QueuedOf(init), QueuedBy(last));
    }
  }

  /** A committed batch of row inserts leaves the keyed tables alone. */
  lemma {:induction false} BatchKeyed(t: Tables, batch: seq<Insert>)
    requires ApplyBatch(t, batch).Some? && RowInsertsOnly(batch)
    ensures ApplyBatch(t, batch).value.userDetails == t.userDetails
    ensures ApplyBatch(t, batch).value.students == t.students
    ensures ApplyBatch(t, batch).value.tutors == t.tutors
  {
    if batch != [] {
      var init := batch[..|batch| - 1];
      assert RowInsertsOnly(init) by {
        forall i | 0 <= i < |init| ensures init[i].AddOwned? || init[i].AddAvailability? || init[i].AddRole? {
          assert init[i] == batch[i];
        }
      }
      BatchKeyed(t, init);
      ApplyEffect(ApplyBatch(t, init).value, batch[|batch| - 1]);
    }
  }

  /** Queued rows of two batches in sequence. */
  lemma {:induction false} QueuedOfAppend(a: seq<Insert>, b: seq<Insert>)
    ensures QueuedOf(a + b) == QueuedOf(a).Plus(QueuedOf(b))
  {
    if b == [] {
      assert a + b == a;
      PlusNoRows(QueuedOf(a));
    } else {
      assert (a + b)[..|a + b| - 1] == a + b[..|b| - 1];
      QueuedOfAppend(a, b[..|b| - 1]);
      PlusAssoc(QueuedOf(a), QueuedOf(b[..|b| - 1]), QueuedBy(b[|b| - 1]));
    }
  }

  function OwnedInserts(k: ListKind, id: string, xs: seq<string>): (r: seq<Insert>)
    ensures |r| == |xs|
    ensures forall i :: 0 <= i < |xs| ==> r[i] == AddOwned(k, OwnedText(id, xs[i]))
  {
    seq(|xs|, i requires 0 <= i < |xs| => AddOwned(k, OwnedText(id, xs[i])))
  }

  function OwnedTexts(id: string, xs: seq<string>): (r: seq<OwnedText>)
    ensures |r| == |xs|
    ensures forall i :: 0 <= i < |xs| ==> r[i] == OwnedText(id, xs[i])
  {
    seq(|xs|, i requires 0 <= i < |xs| => OwnedText(id, xs[i]))
  }

  /** Lines 152-159: row *i* pairs date *i* with from[*i*] and to[*i*]. */
  function AvailabilityRows(id: string, dates: seq<string>, froms: seq<string>, tos: seq<string>): (r: seq<AvailabilityRow>)
    requires |froms| >= |dates| && |tos| >= |dates|
    ensures |r| == |dates|
    ensures forall i :: 0 <= i < |dates| ==> r[i] == AvailabilityRow(id, dates[i], froms[i], tos[i])
  {
    seq(|dates|, i requires 0 <= i < |dates| => AvailabilityRow(id, dates[i], froms[i], tos[i]))
  }

  function AvailabilityInserts(rows: seq<AvailabilityRow>): (r: seq<Insert>)
    ensures |r| == |rows|
    ensures forall i :: 0 <= i < |rows| ==> r[i] == AddAvailability(rows[i])
  {
    seq(|rows|, i requires 0 <= i < |rows| => AddAvailability(rows[i]))
  }

  lemma OwnedQueueSnoc(k: ListKind, rows: seq<OwnedText>, r: OwnedText)
    ensures OwnedQueue(k, rows).Plus(QueuedBy(AddOwned(k, r))) == OwnedQueue(k, rows + [r])
  {
    match k {
      case Affiliation =>
      case Expertise =>
      case Social =>
      case Subject =>
    }
  }

  /** A block of list inserts queues one row per entry, in order, in its
      own table only. */
  lemma {:induction false} OwnedInsertsQueue(k: ListKind, id: string, xs: seq<string>)
    ensures QueuedOf(OwnedInserts(k, id, xs)) == OwnedQueue(k, OwnedTexts(id, xs))
  {
    if xs != [] {
      var init := xs[..|xs| - 1];
      OwnedInsertsQueue(k, id, init);
      assert OwnedInserts(k, id, xs)[..|xs| - 1] == OwnedInserts(k, id, init);
      assert OwnedTexts(id, xs) == OwnedTexts(id, init) + [OwnedText(id, xs[|xs| - 1])];
      OwnedQueueSnoc(k, OwnedTexts(id, init), OwnedText(id, xs[|xs| - 1]));
    }
  }

  lemma {:induction false} AvailabilityInsertsQueue(rows: seq<AvailabilityRow>)
    ensures QueuedOf(AvailabilityInserts(rows)) == NoRows.(availability := rows)
  {
    if rows != [] {
      var init := rows[..|rows| - 1];
      AvailabilityInsertsQueue(init);
      assert AvailabilityInserts(rows)[..|rows| - 1] == AvailabilityInserts(init);
      assert rows == init + [rows[|rows| - 1]];
      assert NoRows.(availability := init).Plus(QueuedBy(AddAvailability(rows[|rows| - 1])))
          == NoRows.(availability := rows);
    }
  }

  // ---------------------------------------------------------------------
  // Profile creation as specification functions

  /** Lines 93-109: the student record and role "0", one commit. */
  function StudentBatch(user: AuthUser): seq<Insert> {
    [AddStudent(user.id, MetaText(user.meta, "student_number"), MetaText(user.meta, "degree_program")),
     AddRole(RoleAssignment(user.id, 0))]
  }

  function StudentProfileStep(t: Tables, user: AuthUser): Step {
    CommitStep(t, StudentBatch(user))
  }

  /** Lines 121-171: the tutor's rows, or `None` when the availability loop
      indexes past the end of the from/to lists. */
  function TutorRowsBatch(user: AuthUser): Option<seq<Insert>> {
    var dates := MetaTexts(user.meta, "availability");
    var froms := MetaTexts(user.meta, "available_time_from");
    var tos := MetaTexts(user.meta, "available_time_to");
    if |froms| >= |dates| && |tos| >= |dates| then
      Some(OwnedInserts(Affiliation, user.id, MetaTexts(user.meta, "affiliation")) +
           OwnedInserts(Expertise, user.id, MetaTexts(user.meta, "expertise")) +
           OwnedInserts(Social, user.id, MetaTexts(user.meta, "socials")) +
           AvailabilityInserts(AvailabilityRows(user.id, dates, froms, tos)) +
           OwnedInserts(Subject, user.id, MetaTexts(user.meta, "subject")) +
           [AddRole(RoleAssignment(user.id, 1))])
    else None
  }

  /** Lines 111-171: without a status row the attribute access raises
      before anything is queued; the tutor record is committed on its own
      before the rows, so a later failure leaves it in place. */
  function TutorProfileStep(t: Tables, user: AuthUser, tutorStatus: Option<int>): Step {
    if tutorStatus.None? then Step(t, false)
    else
      var s1 := CommitStep(t, [AddTutor(user.id, tutorStatus.value, MetaText(user.meta, "description"))]);
      if !s1.ok then s1
      else match TutorRowsBatch(user)
        case None => Step(s1.tables, false)
        case Some(rows) => CommitStep(s1.tables, rows)
  }

  /** `StatusDetail.status_id == '0'`, `.first()`. */
  function PendingStatus(t: Tables): Option<int> {
    if 0 in t.statuses then Some(0) else None
  }

  /** Lines 81-91. */
  function AddDetailStep(t: Tables, user: AuthUser, role: MetaValue): Step {
    var s1 := if HoldsRole(role, "0") then StudentProfileStep(t, user) else Step(t, true);
    if !s1.ok then s1
    else if HoldsRole(role, "1") then TutorProfileStep(s1.tables, user, PendingStatus(s1.tables))
    else s1
  }

  // ---------------------------------------------------------------------
  // Properties of profile creation

  /** A student profile commits exactly when its values are present, the
      user has a detail row and no student record, the student number is
      unused and role "0" is not yet assigned; it then adds the record and
      exactly one role assignment, "0". */
  lemma StudentProfileEffect(t: Tables, user: AuthUser)
    ensures var s := StudentProfileStep(t, user);
      var sn := MetaText(user.meta, "student_number");
      var dp := MetaText(user.meta, "degree_program");
      (s.ok <==> sn.Some? && dp.Some? && user.id in t.userDetails && user.id !in t.students &&
                 (forall k :: k in t.students ==> t.students[k].studentNumber != sn.value) &&
                 RoleAssignment(user.id, 0) !in t.userRoles) &&
      (s.ok ==> s.tables == t.(students := t.students[user.id := StudentRow(sn.value, dp.value)],
                               userRoles := t.userRoles + [RoleAssignment(user.id, 0)]))
  {
    var b := StudentBatch(user);
    assert b == [b[0]] + [b[1]];
    ApplyBatchSingle(t, b[0]);
    ApplyBatchSnoc(t, [b[0]], b[1]);
  }

  /** Queued rows of two batches whose queues are known. */
  lemma QueuedOfJoin(x: seq<Insert>, y: seq<Insert>, qx: Queued, qy: Queued)
    requires QueuedOf(x) == qx && QueuedOf(y) == qy
    ensures QueuedOf(x + y) == qx.Plus(qy)
  {
    QueuedOfAppend(x, y);
  }

  /** The rows queued by the list and availability blocks of a tutor's
      batch, one block at a time. */
  lemma QueueAffiliationExpertise(id: string, affs: seq<string>, exps: seq<string>)
    ensures QueuedOf(OwnedInserts(Affiliation, id, affs) + OwnedInserts(Expertise, id, exps)) ==
      Queued(OwnedTexts(id, affs), OwnedTexts(id, exps), [], [], [], [])
  {
    OwnedInsertsQueue(Affiliation, id, affs);
    OwnedInsertsQueue(Expertise, id, exps);
    var A, E := OwnedTexts(id, affs), OwnedTexts(id, exps);
    QueuedOfJoin(OwnedInserts(Affiliation, id, affs), OwnedInserts(Expertise, id, exps),
      NoRows.(affiliations := A), NoRows.(expertise := E));
    assert A + [] == A && [] + E == E;
    assert NoRows.(affiliations := A).Plus(NoRows.(expertise := E)) == Queued(A, E, [], [], [], []);
  }

  lemma QueueSocials(prefix: seq<Insert>, q: Queued, id: string, socs: seq<string>)
    requires QueuedOf(prefix) == q && q.socials == []
    ensures QueuedOf(prefix + OwnedInserts(Social, id, socs)) == q.(socials := OwnedTexts(id, socs))
  {
    var S := OwnedTexts(id, socs);
    OwnedInsertsQueue(Social, id, socs);
    QueuedOfJoin(prefix, OwnedInserts(Social, id, socs), q, NoRows.(socials := S));
    PlusSocials(q, S);
  }

  lemma PlusSocials(q: Queued, S: seq<OwnedText>)
    requires q.socials == []
    ensures q.Plus(NoRows.(socials := S)) == q.(socials := S)
  {
  }

  lemma QueueAvailability(prefix: seq<Insert>, q: Queued, av: seq<AvailabilityRow>)
    requires QueuedOf(prefix) == q && q.availability == []
    ensures QueuedOf(prefix + AvailabilityInserts(av)) == q.(availability := av)
  {
    AvailabilityInsertsQueue(av);
    QueuedOfJoin(prefix, AvailabilityInserts(av), q, NoRows.(availability := av));
    PlusAvailability(q, av);
  }

  lemma PlusAvailability(q: Queued, av: seq<AvailabilityRow>)
    requires q.availability == []
    ensures q.Plus(NoRows.(availability := av)) == q.(availability := av)
  {
    assert q.affiliations + [] == q.affiliations && q.expertise + [] == q.expertise;
    assert q.socials + [] == q.socials && q.subjects + [] == q.subjects;
    assert q.availability + av == av && q.userRoles + [] == q.userRoles;
  }

  lemma QueueSubjects(prefix: seq<Insert>, q: Queued, id: string, subs: seq<string>)
    requires QueuedOf(prefix) == q && q.subjects == []
    ensures QueuedOf(prefix + OwnedInserts(Subject, id, subs)) == q.(subjects := OwnedTexts(id, subs))
  {
    var U := OwnedTexts(id, subs);
    OwnedInsertsQueue(Subject, id, subs);
    QueuedOfJoin(prefix, OwnedInserts(Subject, id, subs), q, NoRows.(subjects := U));
    PlusSubjects(q, U);
  }

  lemma PlusSubjects(q: Queued, U: seq<OwnedText>)
    requires q.subjects == []
    ensures q.Plus(NoRows.(subjects := U)) == q.(subjects := U)
  {
  }

  lemma QueueRole(prefix: seq<Insert>, q: Queued, a: RoleAssignment)
    requires QueuedOf(prefix) == q && q.userRoles == []
    ensures QueuedOf(prefix + [AddRole(a)]) == q.(userRoles := [a])
  {
    assert (prefix + [AddRole(a)])[..|prefix|] == prefix;
    PlusRole(q, a);
  }

  lemma PlusRole(q: Queued, a: RoleAssignment)
    requires q.userRoles == []
    ensures q.Plus(NoRows.(userRoles := [a])) == q.(userRoles := [a])
  {
  }

  lemma RowBlocksQueue(id: string, affs: seq<string>, exps: seq<string>, socs: seq<string>,
                       av: seq<AvailabilityRow>, subs: seq<string>)
    ensures QueuedOf(OwnedInserts(Affiliation, id, affs) + OwnedInserts(Expertise, id, exps) +
                     OwnedInserts(Social, id, socs) + AvailabilityInserts(av) +
                     OwnedInserts(Subject, id, subs) + [AddRole(RoleAssignment(id, 1))]) ==
      Queued(OwnedTexts(id, affs), OwnedTexts(id, exps), OwnedTexts(id, socs), OwnedTexts(id, subs),
             av, [RoleAssignment(id, 1)])
  {
    var p1 := OwnedInserts(Affiliation, id, affs) + OwnedInserts(Expertise, id, exps);
    var q1 := Queued(OwnedTexts(id, affs), OwnedTexts(id, exps), [], [], [], []);
    QueueAffiliationExpertise(id, affs, exps);
    var p2 := p1 + OwnedInserts(Social, id, socs);
    QueueSocials(p1, q1, id, socs);
    var q2 := q1.(socials := OwnedTexts(id, socs));
    var p3 := p2 + AvailabilityInserts(av);
    QueueAvailability(p2, q2, av);
    var q3 := q2.(availability := av);
    var p4 := p3 + OwnedInserts(Subject, id, subs);
    QueueSubjects(p3, q3, id, subs);
    QueueRole(p4, q3.(subjects := OwnedTexts(id, subs)), RoleAssignment(id, 1));
  }

  /** The row batch of a tutor profile queues one row per affiliation,
      expertise, social and subject entry, one availability row per date
      pairing index *i* of the three lists, and the role assignment "1". */
  lemma TutorRowsQueue(user: AuthUser)
    requires TutorRowsBatch(user).Some?
    ensures var meta := user.meta;
      QueuedOf(TutorRowsBatch(user).value) ==
        Queued(OwnedTexts(user.id, MetaTexts(meta, "affiliation")),
               OwnedTexts(user.id, MetaTexts(meta, "expertise")),
               OwnedTexts(user.id, MetaTexts(meta, "socials")),
               OwnedTexts(user.id, MetaTexts(meta, "subject")),
               AvailabilityRows(user.id, MetaTexts(meta, "availability"),
                 MetaTexts(meta, "available_time_from"), MetaTexts(meta, "available_time_to")),
               [RoleAssignment(user.id, 1)])
  {
    var meta := user.meta;
    RowBlocksQueue(user.id, MetaTexts(meta, "affiliation"), MetaTexts(meta, "expertise"),
      MetaTexts(meta, "socials"),
      AvailabilityRows(user.id, MetaTexts(meta, "availability"),
        MetaTexts(meta, "available_time_from"), MetaTexts(meta, "available_time_to")),
      MetaTexts(meta, "subject"));
  }

  /** The row batch holds row inserts only. */
  lemma TutorRowsOnly(user: AuthUser)
    requires TutorRowsBatch(user).Some?
    ensures RowInsertsOnly(TutorRowsBatch(user).value)
  {
  }

  /** A committed tutor profile adds the tutor record and exactly the rows
      `TutorRowsQueue` describes, and creates the profile only when the
      from/to lists are at least as long as the date list. */
  lemma TutorProfileEffect(t: Tables, user: AuthUser, tutorStatus: Option<int>)
    requires TutorProfileStep(t, user, tutorStatus).ok
    ensures var t' := TutorProfileStep(t, user, tutorStatus).tables;
      var meta := user.meta;
      tutorStatus.Some? && TutorRowsBatch(user).Some? &&
      user.id !in t.tutors && MetaText(meta, "description").Some? &&
      t'.tutors == t.tutors[user.id := TutorRow(tutorStatus.value, MetaText(meta, "description").value)] &&
      ListsOf(t') == ListsOf(t).Plus(QueuedOf(TutorRowsBatch(user).value)) &&
      t'.userDetails == t.userDetails && t'.students == t.students
  {
    var ins := AddTutor(user.id, tutorStatus.value, MetaText(user.meta, "description"));
    ApplyBatchSingle(t, ins);
    var t1 := Apply(t, ins);
    ApplyEffect(t, ins);
    var rows := TutorRowsBatch(user).value;
    TutorRowsOnly(user);
    BatchLists(t1, rows);
    BatchKeyed(t1, rows);
  }

  /** Table by table: one row per affiliation, expertise, social and
      subject entry, in order; availability row *i* pairs date *i* with
      from[*i*] and to[*i*]; exactly one new role assignment, "1". */
  lemma TutorProfileRows(t: Tables, user: AuthUser, tutorStatus: Option<int>)
    requires TutorProfileStep(t, user, tutorStatus).ok
    ensures var t' := TutorProfileStep(t, user, tutorStatus).tables;
      var meta := user.meta;
      var dates := MetaTexts(meta, "availability");
      var froms := MetaTexts(meta, "available_time_from");
      var tos := MetaTexts(meta, "available_time_to");
      |froms| >= |dates| && |tos| >= |dates| &&
      t'.affiliations == t.affiliations + OwnedTexts(user.id, MetaTexts(meta, "affiliation")) &&
      t'.expertise == t.expertise + OwnedTexts(user.id, MetaTexts(meta, "expertise")) &&
      t'.socials == t.socials + OwnedTexts(user.id, MetaTexts(meta, "socials")) &&
      t'.subjects == t.subjects + OwnedTexts(user.id, MetaTexts(meta, "subject")) &&
      t'.availability == t.availability + AvailabilityRows(user.id, dates, froms, tos) &&
      t'.userRoles == t.userRoles + [RoleAssignment(user.id, 1)]
  {
    TutorProfileEffect(t, user, tutorStatus);
    TutorRowsQueue(user);
  }

  /** When the from/to lists are shorter than the date list, the loop raises
      after the tutor record was committed: the record stays, and no row and
      no role assignment is written. */
  lemma ShortTimesLeaveBareTutor(t: Tables, user: AuthUser, tutorStatus: Option<int>)
    requires tutorStatus.Some?
    requires Admits(t, AddTutor(user.id, tutorStatus.value, MetaText(user.meta, "description")))
    requires |MetaTexts(user.meta, "available_time_from")| < |MetaTexts(user.meta, "availability")|
    ensures var s := TutorProfileStep(t, user, tutorStatus);
      !s.ok && user.id in s.tables.tutors && ListsOf(s.tables) == ListsOf(t) &&
      s.tables.userDetails == t.userDetails && s.tables.students == t.students
  {
    ApplyBatchSingle(t, AddTutor(user.id, tutorStatus.value, MetaText(user.meta, "description")));
  }

  /** `add_detail` creates a student profile exactly when "0" is held and
      a tutor profile exactly when "1" is, for a user with neither yet. */
  lemma AddDetailProfiles(t: Tables, user: AuthUser, role: MetaValue)
    requires user.id !in t.students && user.id !in t.tutors
    requires AddDetailStep(t, user, role).ok
    ensures user.id in AddDetailStep(t, user, role).tables.students <==> HoldsRole(role, "0")
    ensures user.id in AddDetailStep(t, user, role).tables.tutors <==> HoldsRole(role, "1")
    ensures AddDetailStep(t, user, role).tables.userDetails == t.userDetails
  {
    var s1 := if HoldsRole(role, "0") then StudentProfileStep(t, user) else Step(t, true);
    if HoldsRole(role, "0") {
      StudentProfileEffect(t, user);
    }
    assert user.id !in s1.tables.tutors;
    if HoldsRole(role, "1") {
      TutorProfileEffect(s1.tables, user, PendingStatus(s1.tables));
    }
  }

  /** Running `add_detail` again for a user who already has a student
      profile fails on the primary key of `student_detail`. */
  lemma AddDetailTwiceFails(t: Tables, user: AuthUser, role: MetaValue)
    requires HoldsRole(role, "0") && user.id in t.students
    ensures !AddDetailStep(t, user, role).ok
    ensures AddDetailStep(t, user, role).tables == t
  {
    StudentProfileEffect(t, user);
  }

  // ---------------------------------------------------------------------
  // Email verification

  datatype VerifyReply = Verified(message: string, email: string) | VerifyError(code: int, detail: string)

  datatype Verification = Verification(tables: Tables, reply: VerifyReply)

  const ServiceErrorDetail: string := "Error connecting to authentication service"
  const VerificationFailedDetail: string := "Verification failed"

  /** Line 30: the first user whose email is exactly the requested one. */
  /** No user before position `i` has exactly that email. */
  predicate NoEarlierEmail(users: seq<AuthUser>, email: string, i: int)
    requires 0 <= i <= |users|
  {
    forall j :: 0 <= j < i ==> users[j].email != Some(email)
  }

  function FindExact(users: seq<AuthUser>, email: string): (r: Option<AuthUser>)
    ensures r.Some? ==>
      exists i :: 0 <= i < |users| && users[i] == r.value && r.value.email == Some(email) && NoEarlierEmail(users, email, i)
    ensures r.None? <==> forall u :: u in users ==> u.email != Some(email)
  {
    if users == [] then None
    else if users[0].email == Some(email) then Some(users[0])
    else
      var r := FindExact(users[1..], email);
      assert forall j :: 1 <= j < |users| ==> users[j] == users[1..][j - 1];
      r
  }

  /** `verify_email`, lines 19-79, given what `list_users` returned. */
  function VerifyStep(t: Tables, email: string, listing: Option<seq<AuthUser>>): Verification {
    if listing.None? then Verification(t, VerifyError(500, ServiceErrorDetail))
    else match FindExact(listing.value, email)
      case None => Verification(t, VerifyError(404, "User not found"))
      case Some(u) =>
        var role := RoleOf(u.meta);
        if u.emailConfirmedAt.None? then Verification(t, Verified("Email not yet verified", email))
        else if u.id in t.userDetails then
          var s := AddDetailStep(t, u, role);
          Verification(s.tables, if s.ok then Verified("User profile updated.", email)
                                 else VerifyError(500, VerificationFailedDetail))
        else
          var detail := UserDetailRow(MetaText(u.meta, "name"), email, u.createdDate);
          var s0 := CommitStep(t, [AddUserDetail(u.id, detail)]);
          if !s0.ok then Verification(s0.tables, VerifyError(500, VerificationFailedDetail))
          else
            var s := AddDetailStep(s0.tables, u, role);
            Verification(s.tables, if s.ok then Verified("Account was successfully created.", email)
                                   else VerifyError(500, VerificationFailedDetail))
  }

  /** No user with exactly that email: 404 and no write. */
  lemma VerifyUnknownEmail(t: Tables, email: string, users: seq<AuthUser>)
    requires forall u :: u in users ==> u.email != Some(email)
    ensures VerifyStep(t, email, Some(users)) == Verification(t, VerifyError(404, "User not found"))
  {
  }

  /** An unconfirmed email writes nothing. */
  lemma VerifyUnconfirmed(t: Tables, email: string, users: seq<AuthUser>)
    requires FindExact(users, email).Some? && FindExact(users, email).value.emailConfirmedAt.None?
    ensures VerifyStep(t, email, Some(users)).tables == t
    ensures VerifyStep(t, email, Some(users)).reply == Verified("Email not yet verified", email)
  {
  }

  /** A confirmed user without a detail row gets exactly one, keyed by
      their id, before the profiles are created; the profiles then follow
      the roles. */
  lemma VerifyCreatesOneDetail(t: Tables, email: string, users: seq<AuthUser>)
    requires FindExact(users, email).Some?
    requires var u := FindExact(users, email).value;
      u.emailConfirmedAt.Some? && u.id !in t.userDetails && u.id !in t.students && u.id !in t.tutors
    requires VerifyStep(t, email, Some(users)).reply.Verified?
    ensures var u := FindExact(users, email).value;
      var t' := VerifyStep(t, email, Some(users)).tables;
      t'.userDetails == t.userDetails[u.id := UserDetailRow(MetaText(u.meta, "name"), email, u.createdDate)] &&
      (u.id in t'.students <==> HoldsRole(RoleOf(u.meta), "0")) &&
      (u.id in t'.tutors <==> HoldsRole(RoleOf(u.meta), "1"))
  {
    var u := FindExact(users, email).value;
    var detail := UserDetailRow(MetaText(u.meta, "name"), email, u.createdDate);
    ApplyBatchSingle(t, AddUserDetail(u.id, detail));
    var t0 := CommitStep(t, [AddUserDetail(u.id, detail)]).tables;
    assert t0 == t.(userDetails := t.userDetails[u.id := detail]);
    AddDetailProfiles(t0, u, RoleOf(u.meta));
  }

  /** Verifying again a confirmed student whose profile exists ends in the
      500 of the duplicate student record, and writes nothing. */
  lemma ReverifyStudentFails(t: Tables, email: string, users: seq<AuthUser>)
    requires FindExact(users, email).Some?
    requires var u := FindExact(users, email).value;
      u.emailConfirmedAt.Some? && u.id in t.userDetails && u.id in t.students &&
      HoldsRole(RoleOf(u.meta), "0")
    ensures VerifyStep(t, email, Some(users)) == Verification(t, VerifyError(500, VerificationFailedDetail))
  {
    var u := FindExact(users, email).value;
    AddDetailTwiceFails(t, u, RoleOf(u.meta));
  }

  lemma CommitKeepsConstraints(t: Tables, batch: seq<Insert>)
    requires Consistent(t)
    ensures Consistent(CommitStep(t, batch).tables)
  {
    ApplyBatchConsistent(t, batch);
  }

  lemma AddDetailKeepsConstraints(t: Tables, user: AuthUser, role: MetaValue)
    requires Consistent(t)
    ensures Consistent(AddDetailStep(t, user, role).tables)
  {
    var s1 := if HoldsRole(role, "0") then StudentProfileStep(t, user) else Step(t, true);
    assert Consistent(s1.tables) by {
      if HoldsRole(role, "0") {
        CommitKeepsConstraints(t, StudentBatch(user));
      }
    }
    TutorStepKeepsConstraints(s1.tables, user, PendingStatus(s1.tables));
  }

  /** The tutor half of the profile creation keeps the constraints. */
  lemma TutorStepKeepsConstraints(t: Tables, user: AuthUser, status: Option<int>)
    requires Consistent(t)
    ensures Consistent(TutorProfileStep(t, user, status).tables)
  {
    if status.Some? {
      var tb := [AddTutor(user.id, status.value, MetaText(user.meta, "description"))];
      CommitKeepsConstraints(t, tb);
      var s1 := CommitStep(t, tb);
      if TutorRowsBatch(user).Some? {
        CommitKeepsConstraints(s1.tables, TutorRowsBatch(user).value);
      }
    }
  }

  /** Whatever `verify_email` does, the tables keep their declared
      constraints; in particular no (user, role) pair is assigned twice. */
  lemma VerifyKeepsConstraints(t: Tables, email: string, listing: Option<seq<AuthUser>>)
    requires Consistent(t)
    ensures Consistent(VerifyStep(t, email, listing).tables)
    ensures UniqueRoles(VerifyStep(t, email, listing).tables.userRoles)
  {
    var v := VerifyStep(t, email, listing);
    if listing.Some? && FindExact(listing.value, email).Some? {
      var u := FindExact(listing.value, email).value;
      var role := RoleOf(u.meta);
      if u.emailConfirmedAt.Some? {
        if u.id in t.userDetails {
          AddDetailKeepsConstraints(t, u, role);
          assert v.tables == AddDetailStep(t, u, role).tables;
        } else {
          var detail := UserDetailRow(MetaText(u.meta, "name"), email, u.createdDate);
          CommitKeepsConstraints(t, [AddUserDetail(u.id, detail)]);
          var s0 := CommitStep(t, [AddUserDetail(u.id, detail)]);
          AddDetailKeepsConstraints(s0.tables, u, role);
          assert v.tables == s0.tables || v.tables == AddDetailStep(s0.tables, u, role).tables;
        }
      }
    }
    assert Consistent(v.tables);
  }

  // ---------------------------------------------------------------------
  // The database session

  class ProfileDb {
    var userDetails: map<string, UserDetailRow>
    var students: map<string, StudentRow>
    var tutors: map<string, TutorRow>
    var userRoles: seq<RoleAssignment>
    var affiliations: seq<OwnedText>
    var expertise: seq<OwnedText>
    var socials: seq<OwnedText>
    var availability: seq<AvailabilityRow>
    var subjects: seq<OwnedText>
    var statuses: set<int>

    function Snapshot(): Tables
      reads this
    {
      Tables(userDetails, students, tutors, userRoles, affiliations, expertise,
             socials, availability, subjects, statuses)
    }

    predicate Valid()
      reads this
    {
      Consistent(Snapshot())
    }

    constructor (t: Tables)
      requires Consistent(t)
      ensures Valid() && Snapshot() == t
    {
      userDetails, students, tutors, userRoles := t.userDetails, t.students, t.tutors, t.userRoles;
      affiliations, expertise, socials := t.affiliations, t.expertise, t.socials;
      availability, subjects, statuses := t.availability, t.subjects, t.statuses;
    }

    /** `db.commit()` of the queued inserts. */
    method Commit(batch: seq<Insert>) returns (ok: bool)
      requires Valid()
      modifies this
      ensures Valid()
      ensures Step(Snapshot(), ok) == CommitStep(old(Snapshot()), batch)
    {
      ApplyBatchConsistent(Snapshot(), batch);
      var s := CommitStep(Snapshot(), batch);
      Load(s.tables);
      ok := s.ok;
    }

    /** Overwrites every table with the given state. */
    method Load(t: Tables)
      modifies this
      ensures Snapshot() == t
    {
      userDetails, students, tutors, userRoles := t.userDetails, t.students, t.tutors, t.userRoles;
      affiliations, expertise, socials := t.affiliations, t.expertise, t.socials;
      availability, subjects, statuses := t.availability, t.subjects, t.statuses;
    }

    method CreateStudentProfile(user: AuthUser) returns (ok: bool)
      requires Valid()
      modifies this
      ensures Valid()
      ensures Step(Snapshot(), ok) == StudentProfileStep(old(Snapshot()), user)
    {
      var pending := [AddStudent(user.id, MetaText(user.meta, "student_number"), MetaText(user.meta, "degree_program"))];
      pending := pending + [AddRole(RoleAssignment(user.id, 0))];
      assert pending == StudentBatch(user);
      ok := Commit(pending);
    }

    method CreateTutorProfile(user: AuthUser, tutorStatus: Option<int>) returns (ok: bool)
      requires Valid()
      modifies this
      ensures Valid()
      ensures Step(Snapshot(), ok) == TutorProfileStep(old(Snapshot()), user, tutorStatus)
    {
      if tutorStatus.None? {
        return false;
      }
      ok := Commit([AddTutor(user.id, tutorStatus.value, MetaText(user.meta, "description"))]);
      if !ok {
        return;
      }
      var queued, pending := QueueTutorRows(user);
      if !queued {
        // IndexError: the queued rows are never committed.
        return false;
      }
      ok := Commit(pending);
    }

    method AddDetail(user: AuthUser, role: MetaValue) returns (ok: bool)
      requires Valid()
      modifies this
      ensures Valid()
      ensures Step(Snapshot(), ok) == AddDetailStep(old(Snapshot()), user, role)
    {
      ok := true;
      if HoldsRole(role, "0") {
        ok := CreateStudentProfile(user);
        if !ok {
          return;
        }
      }
      var tutorStatus := if 0 in statuses then Some(0) else None;
      if HoldsRole(role, "1") {
        ok := CreateTutorProfile(user, tutorStatus);
      }
    }

    method VerifyEmail(email: string, listing: Option<seq<AuthUser>>) returns (reply: VerifyReply)
      requires Valid()
      modifies this
      ensures Valid()
      ensures Verification(Snapshot(), reply) == VerifyStep(old(Snapshot()), email, listing)
    {
      if listing.None? {
        return VerifyError(500, ServiceErrorDetail);
      }
      var user := FindExact(listing.value, email);
      if user.None? {
        return VerifyError(404, "User not found");
      }
      var u := user.value;
      var role := RoleOf(u.meta);
      if u.emailConfirmedAt.None? {
        return Verified("Email not yet verified", email);
      }
      if u.id in userDetails {
        var ok := AddDetail(u, role);
        return if ok then Verified("User profile updated.", email) else VerifyError(500, VerificationFailedDetail);
      }
      var ok := Commit([AddUserDetail(u.id, UserDetailRow(MetaText(u.meta, "name"), email, u.createdDate))]);
      if !ok {
        return VerifyError(500, VerificationFailedDetail);
      }
      ok := AddDetail(u, role);
      reply := if ok then Verified("Account was successfully created.", email) else VerifyError(500, VerificationFailedDetail);
    }
  }

  /** Lines 121-168: the rows `create_tutor_profile` queues after the
      tutor record, in order; `false` when the availability loop would
      index past the end of the from/to lists. */
  method QueueTutorRows(user: AuthUser) returns (queued: bool, pending: seq<Insert>)
    ensures queued <==> TutorRowsBatch(user).Some?
    ensures queued ==> pending == TutorRowsBatch(user).value
  {
    pending := [];
    ghost var a := OwnedInserts(Affiliation, user.id, MetaTexts(user.meta, "affiliation"));
    pending := QueueOwned(pending, Affiliation, user.id, MetaTexts(user.meta, "affiliation"));
    pending := QueueOwned(pending, Expertise, user.id, MetaTexts(user.meta, "expertise"));
    pending := QueueOwned(pending, Social, user.id, MetaTexts(user.meta, "socials"));
    queued, pending := QueueSlots(pending, user.id, MetaTexts(user.meta, "availability"),
                                  MetaTexts(user.meta, "available_time_from"), MetaTexts(user.meta, "available_time_to"));
    if !queued {
      return;
    }
    pending := QueueOwned(pending, Subject, user.id, MetaTexts(user.meta, "subject"));
    pending := pending + [AddRole(RoleAssignment(user.id, 1))];
    assert [] + a == a;
  }

  /** The four list loops of `create_tutor_profile`: one queued insert per
      entry, in order. */
  method QueueOwned(pending: seq<Insert>, k: ListKind, id: string, xs: seq<string>) returns (r: seq<Insert>)
    ensures r == pending + OwnedInserts(k, id, xs)
  {
    r := pending;
    for j := 0 to |xs|
      invariant r == pending + OwnedInserts(k, id, xs[..j])
    {
      assert OwnedInserts(k, id, xs[..j + 1]) == OwnedInserts(k, id, xs[..j]) + [AddOwned(k, OwnedText(id, xs[j]))];
      r := r + [AddOwned(k, OwnedText(id, xs[j]))];
    }
    assert xs[..|xs|] == xs;
  }

  /** Lines 148-159: one availability insert per date, pairing date *i*
      with from[*i*] and to[*i*]; `false` when a from/to list runs out
      first, which raises `IndexError`. */
  method QueueSlots(pending: seq<Insert>, id: string, dates: seq<string>, froms: seq<string>, tos: seq<string>)
    returns (ok: bool, r: seq<Insert>)
    ensures ok <==> |froms| >= |dates| && |tos| >= |dates|
    ensures ok ==>
      |froms| >= |dates| && |tos| >= |dates| && r == pending + AvailabilityInserts(AvailabilityRows(id, dates, froms, tos))
  {
    r := pending;
    var i := 0;
    while i < |dates|
      invariant 0 <= i <= |dates| && i <= |froms| && i <= |tos|
      invariant r == pending + AvailabilityInserts(AvailabilityRows(id, dates[..i], froms, tos))
    {
      if i >= |froms| || i >= |tos| {
        return false, r;
      }
      assert AvailabilityInserts(AvailabilityRows(id, dates[..i + 1], froms, tos)) ==
             AvailabilityInserts(AvailabilityRows(id, dates[..i], froms, tos)) +
             [AddAvailability(AvailabilityRow(id, dates[i], froms[i], tos[i]))];
      r := r + [AddAvailability(AvailabilityRow(id, dates[i], froms[i], tos[i]))];
      i := i + 1;
    }
    assert dates[..i] == dates;
    ok := true;
  }
}
