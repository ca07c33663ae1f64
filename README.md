# Tutoring platform: sessions, sign-up and client-side editors

This project models the behavioural core of a peer-tutoring web application. Students request sessions
with tutors, and tutors accept or decline them. People sign up as students or tutors through a hosted
authentication provider. A verified email then gets a user-detail row and one profile per held role.
The model covers:

- **The session backend** (`backend/router/session_request.py`):
  - the status update of a session, guarded by existence, tutor ownership and the status catalog;
  - the two listings of accepted sessions.
- **The signup backend** (`backend/router/auth/signup.py`):
  - the role merge of `signup_student` / `signup_tutor`;
  - the case-insensitive lookup of an existing user;
  - `verify_email`, `add_detail` and the two profile constructors.
  - The database is modelled as tables with their primary-key, unique and not-null constraints.
  - Each `commit` is modelled as an atomic batch that either applies fully or fails.
- **The client's access guard and role store** (`ProtectedRoute.tsx`, `roleStore.ts`).
- **The client's recognisers** for UP email addresses and student numbers (`errorValidations.ts`).
- **The client's form and list editors:**
  - the tutor sign-up page;
  - the tutor profile dialogs and their save handlers;
  - the session request page;
  - the two dropdown toggles.
- **The schedule pages.** They split fetched sessions into upcoming and past around "now", and they
  update the lists after a cancel or a status change.

Each source file is one module:

| module | source |
|---|---|
| `SessionRequest` | `backend/router/session_request.py` |
| `Signup` | `backend/router/auth/signup.py` |
| `ProtectedRoute` | `frontend/src/wrapper/ProtectedRoute.tsx` |
| `RoleStore` | `frontend/src/stores/roleStore.ts` |
| `ErrorValidations` | `frontend/src/utils/errorValidations.ts` |
| `SignUpAsTutor` | `frontend/src/pages/SignUpAsTutor.tsx` |
| `TutorProfile` | `frontend/src/pages/TutorProfile.tsx` |
| `IndividualTutor` | `frontend/src/pages/IndividualTutor.tsx` |
| `DropdownDates` | `frontend/src/components/DropdownDatesAvail.tsx` |
| `DropdownTopics` | `frontend/src/components/DropdownTopicsAvail.tsx` |
| `StudentScheduleTracking` | `frontend/src/pages/StudentScheduleTracking.tsx` |
| `StudentTracking` | `frontend/src/pages/StudentTracking.tsx` |
| `TutorSchedule` | `frontend/src/pages/TutorSchedule.tsx` |

Shared modules:

- `SessionViews` holds the upcoming/past split used by the two schedule pages.
- `Wrappers`, `Seqs` and `Strings` hold the option type, list helpers and the JavaScript string
  operations used, such as `trim`, case mapping, `join` and `split`, restricted to ASCII (see "Left out").

The model follows the source's own form:

- State that the source updates in place is a class:
  - the session table (`SessionRequest.SessionStore`);
  - the database session of the signup router (`Signup.ProfileDb`);
  - the role store;
  - the request form of the session page;
  - the schedule lists.
- Each method of such a class is proved against a pure function of the old state, and the lemmas
  state the promised properties about that function.
- Loops in the source are loops in the model:
  - the availability loop of `create_tutor_profile`;
  - the per-entry insert loops;
  - `topicsPayload`;
  - the step-wise `validateForm`.
- Pure code is modelled as functions.

## Model

| member | source | states |
|---|---|---|
| SessionRequest.Transition | backend/router/session_request.py:18-38 | The update is refused exactly when the caller lacks role 1, the session is missing, the caller is not its tutor, or the status is not in the catalog. It is "not found" exactly when the session id is absent. On success only `status` of that session changes; every other session is untouched. |
| SessionRequest.TransitionKeepsKeys | backend/router/session_request.py:36-38 | A status update keeps every session stored under its own id. |
| SessionRequest.AsWrittenReply | backend/router/session_request.py:19-43 | As written, every refusal inside the `try` comes back as the catch-all 500: the 404, the foreign-session 403, and the `AttributeError` raised while building the unknown-status detail. The role guard and success keep their own answers. |
| SessionRequest.CatchAllMasksNotFound | backend/router/session_request.py:23-26 | For a missing session the transition says "not found" while the as-written reply is the 500. |
| SessionRequest.IntendedReply | backend/router/session_request.py:23-34 | 404 exactly for a missing session. 403 with its own detail for a foreign session. 403 for an unknown status, with a detail that names the requested `status_id`. Ok exactly on success. |
| SessionRequest.IntendedReplyInjective | backend/router/session_request.py:23-34 | Distinct failures give distinct intended replies. |
| SessionRequest.SessionStore.constructor | backend/models/session/session.py:9-20 | The store holds the given table keyed by session id and the given catalog. |
| SessionRequest.SessionStore.UpdateSessionStatus | backend/router/session_request.py:12-43 | The new table is the transition's result (unchanged on every refusal), the catalog is unchanged, the table stays keyed by id, and the reply is the intended one (404, 403, 403 naming the status), not the as-written 500 (see "Left out"). |
| SessionRequest.Listing | backend/router/session_request.py:62-85 | Never more entries than rows; which rows are listed is stated by the two lemmas below. |
| SessionRequest.ListingSound | backend/router/session_request.py:66-67 | Every listed entry comes from a row with `tutor_id` equal to the caller and status 1. |
| SessionRequest.ListingComplete | backend/router/session_request.py:66-67 | Every such row whose joins match is listed. |
| SessionRequest.ListingAppend | backend/router/session_request.py:72-85 | The listing of two blocks of rows is the two listings in order. |
| SessionRequest.AcceptedRequests | backend/router/session_request.py:46-89 | A listing is returned exactly when the caller holds role 0, and every listed entry has status 1. |
| SessionRequest.ApprovedRequests | backend/router/session_request.py:92-134 | A listing is returned exactly when the caller holds role 1, and every listed entry has status 1. |
| SessionRequest.ListingsAgree | backend/router/session_request.py:66-67 | A caller admitted by both guards gets the same entries from both listings. |
| SessionRequest.AcceptedSessionIsListed | backend/router/session_request.py:36-38 | A session just set to status 1 appears in its tutor's listing once read back with matching joins. |
| Signup.RoleList | backend/router/auth/signup.py:186-189 | A string role becomes a one-element list; a list stays as it is. |
| Signup.MergeRole | backend/router/auth/signup.py:186-195 | "Already" holds exactly when the new role is listed; otherwise the new list is the old list plus the new role, which then occurs exactly once; all prior roles are kept. |
| Signup.FindIgnoringCase | backend/router/auth/signup.py:319-322 | The scan stops at the first user that matches up to ASCII case or has no email. A found user matches and every earlier user has a non-matching email. "No match" holds exactly when every user has a non-matching email. A raise means some user without an email comes before any match. |
| Signup.GetExistingUser | backend/router/auth/signup.py:311-327 | A failed provider listing gives "no user"; a user returned is in the listing and matches the email ignoring case. |
| Signup.LookupIgnoresCase | backend/router/auth/signup.py:320-321 | Two emails equal up to case find the same user. |
| Signup.LookupComplete | backend/router/auth/signup.py:319-325 | When every listed user has an email, a matching user is always found. |
| Signup.Enrol | backend/router/auth/signup.py:174-308 | No existing user: the sign-up call. An existing user already holding the role: no call and the "already" message. Otherwise: one update call carrying the merged role list. A failed call is a 400. |
| Signup.SignupStudent | backend/router/auth/signup.py:174-228 | The above for role "0" and the student fields. Replies "User is already a student." when the role is held. On provider success it replies "Signup successful. Student is now a tutor." for an existing user and "Student registered successfully. Email verification sent." for a new one. |
| Signup.SignupTutor | backend/router/auth/signup.py:230-308 | The above for role "1" and the tutor fields. Replies "User is already a tutor." when the role is held. On provider success it replies "Signup successful. Tutor is also a student." for an existing user and "Tutor registered successfully. Email verification sent." for a new one. |
| Signup.FreshRolesAreExclusive | backend/router/auth/signup.py:216-221 | A fresh student sign-up holds "0" but not "1"; a fresh tutor sign-up holds "1" but not "0". |
| Signup.AvailabilityRows | backend/router/auth/signup.py:148-159 | Row *i* pairs date *i* with from[*i*] and to[*i*], one row per date. |
| Signup.ApplyBatchConsistent | backend/router/auth/signup.py:109 | A batch that commits keeps every table constraint. |
| Signup.StudentProfileEffect | backend/router/auth/signup.py:93-109 | The student profile commits exactly when its values are present, a detail row exists, no student record exists, the number is unused and role "0" is unassigned; it then adds the record and exactly one assignment, "0". |
| Signup.TutorProfileEffect | backend/router/auth/signup.py:111-171 | A committed tutor profile needed a status row, and the from/to lists at least as long as the dates. It adds the tutor record and exactly the queued rows. |
| Signup.TutorProfileRows | backend/router/auth/signup.py:121-171 | One row per affiliation, expertise, social and subject entry in order, index-paired availability rows, and exactly one new role assignment "1". |
| Signup.ShortTimesLeaveBareTutor | backend/router/auth/signup.py:112-159 | With fewer "from" times than dates, the loop raises after the tutor row was committed: the row stays; every list table (affiliations, expertise, socials, subjects, availability, roles), the user details and the students are unchanged. |
| Signup.AddDetailProfiles | backend/router/auth/signup.py:81-91 | For a user with neither profile, a student profile exists afterwards exactly when "0" is held and a tutor profile exactly when "1" is. |
| Signup.AddDetailTwiceFails | backend/router/auth/signup.py:81-109 | A second `add_detail` for an existing student fails and writes nothing. |
| Signup.FindExact | backend/router/auth/signup.py:30 | A found user sits at a position with exactly that email and no earlier user has it. None holds exactly when no user has it. |
| Signup.VerifyUnknownEmail | backend/router/auth/signup.py:38-40 | No user with exactly that email: 404 and no write. |
| Signup.VerifyUnconfirmed | backend/router/auth/signup.py:47-72 | An unconfirmed email writes nothing and answers "not yet verified". |
| Signup.VerifyCreatesOneDetail | backend/router/auth/signup.py:55-70 | A confirmed user without a detail row gets exactly one, under their id, and then the profiles of the held roles. |
| Signup.ReverifyStudentFails | backend/router/auth/signup.py:49-79 | Verifying an existing student again ends in the 500 and writes nothing. |
| Signup.CommitKeepsConstraints | backend/models/user_role_detail.py:10-11 | Every commit, whether it applies or fails, leaves the tables consistent. |
| Signup.AddDetailKeepsConstraints | backend/router/auth/signup.py:81-91 | `add_detail` keeps the tables consistent. |
| Signup.TutorStepKeepsConstraints | backend/router/auth/signup.py:111-171 | The tutor profile step keeps the tables consistent, whatever the status and metadata. |
| Signup.VerifyKeepsConstraints | backend/models/user_role_detail.py:10-11 | Whatever `verify_email` does, the tables stay consistent and no (user, role) pair is assigned twice. |
| Signup.ProfileDb.constructor | backend/router/auth/signup.py:19 | The session starts from consistent tables. |
| Signup.ProfileDb.Commit | backend/router/auth/signup.py:109 | The tables and the outcome are those of the atomic batch commit. |
| Signup.ProfileDb.CreateStudentProfile | backend/router/auth/signup.py:93-109 | The new tables and the outcome are those of the student profile step. |
| Signup.ProfileDb.CreateTutorProfile | backend/router/auth/signup.py:111-171 | The new tables and the outcome, built by the loops, are those of the tutor profile step. |
| Signup.ProfileDb.AddDetail | backend/router/auth/signup.py:81-91 | The new tables and the outcome are those of `add_detail`. |
| Signup.ProfileDb.VerifyEmail | backend/router/auth/signup.py:19-79 | The new tables and the reply are those of `verify_email`. |
| Signup.QueueOwned | backend/router/auth/signup.py:122-146 | The loop queues one row per entry, in order, after those already pending. |
| Signup.QueueSlots | backend/router/auth/signup.py:148-159 | The availability loop succeeds exactly when both time lists are at least as long as the date list, and then queues one row per date, pairing the i-th date with the i-th times. |
| Signup.QueueTutorRows | backend/router/auth/signup.py:121-170 | The queued rows are affiliations, expertise, socials, availability, subjects and then the tutor role, in that order; nothing is produced when the availability loop would fail. |
| ProtectedRoute.StringToNumber | frontend/src/wrapper/ProtectedRoute.tsx:14-16 | After trimming: a blank string is 0; a decimal numeral, optionally signed, is its value; a bare sign or any other text is NaN. |
| ProtectedRoute.NormaliseRoles | frontend/src/wrapper/ProtectedRoute.tsx:13-16 | Missing metadata gives no roles. A single value gives its number, or no role when it is NaN. A list is mapped element by element. |
| ProtectedRoute.HasAccessMeaning | frontend/src/wrapper/ProtectedRoute.tsx:18 | Access holds exactly when some normalised role is an allowed role. |
| ProtectedRoute.AccessMonotone | frontend/src/wrapper/ProtectedRoute.tsx:18 | More roles, or more allowed roles, never turn a grant into a denial. |
| ProtectedRoute.SingleDigitRole | frontend/src/wrapper/ProtectedRoute.tsx:14-16 | A one-digit string role such as "1" normalises to the list of that number. |
| ProtectedRoute.Guard | frontend/src/wrapper/ProtectedRoute.tsx:10-26 | The children are returned unchanged exactly when access holds; otherwise an alert and a redirect to "/"; missing metadata always redirects. |
| RoleStore.RoleStore.constructor | frontend/src/stores/roleStore.ts:11 | The store starts with no roles. |
| RoleStore.RoleStore.SetRoles | frontend/src/stores/roleStore.ts:12 | The list becomes exactly the given one. |
| RoleStore.RoleStore.ClearRoles | frontend/src/stores/roleStore.ts:13 | The list becomes empty and no role is held. |
| RoleStore.RoleStore.HasRole | frontend/src/stores/roleStore.ts:14 | True exactly when the role is in the list; it only reads the store. |
| RoleStore.StoreScenario | frontend/src/stores/roleStore.ts:11-14 | Nothing is held at the start, a role is held after setting exactly when it was set, and nothing after clearing. |
| ErrorValidations.StudentNumberMeaning | frontend/src/utils/errorValidations.ts:2-3 | Accepted exactly when the string is four digits, '-', five digits. |
| ErrorValidations.StudentNumberAnchored | frontend/src/utils/errorValidations.ts:2 | A leading or trailing extra character makes an accepted number rejected. |
| ErrorValidations.UpEmailMeaning | frontend/src/utils/errorValidations.ts:7 | Accepted exactly when a non-empty local part over [A-Za-z0-9._%+-] is followed by "@up.edu.ph" in lower case. |
| ErrorValidations.UpEmailHasOneAt | frontend/src/utils/errorValidations.ts:7 | An accepted address contains exactly one '@'. |
| ErrorValidations.UpEmailCaseSensitive | frontend/src/utils/errorValidations.ts:7 | The upper-case suffix "@UP.EDU.PH" is rejected. |
| SignUpAsTutor.AddFieldItem | frontend/src/pages/SignUpAsTutor.tsx:44-49 | Exactly one blank entry is appended. |
| SignUpAsTutor.RemoveFieldItem | frontend/src/pages/SignUpAsTutor.tsx:52-60 | A list of one entry, or an index out of range, is unchanged. Otherwise exactly index *i* goes and the rest keep their order. A non-empty list stays non-empty. |
| SignUpAsTutor.AddAvailability | frontend/src/pages/SignUpAsTutor.tsx:63-68 | Exactly one blank slot is appended. |
| SignUpAsTutor.RemoveAvailability | frontend/src/pages/SignUpAsTutor.tsx:71-78 | As for the other fields: never below one slot, otherwise exactly that slot goes in order. |
| SignUpAsTutor.UpdateAvailability | frontend/src/pages/SignUpAsTutor.tsx:81-91 | Only the named field of the slot at the index changes. |
| SignUpAsTutor.UpdateFieldItem | frontend/src/pages/SignUpAsTutor.tsx:94-103 | Only the entry at the index changes. |
| SignUpAsTutor.EditsKeepNonEmpty | frontend/src/pages/SignUpAsTutor.tsx:44-103 | Any sequence of the editor's add/remove/update actions keeps a non-empty list non-empty. |
| SignUpAsTutor.ValidateForm | frontend/src/pages/SignUpAsTutor.tsx:110-160 | Valid exactly when the names are non-blank, the email is non-blank and a UP address, and the password has at least 8 characters. That is also exactly when no message is set. Each field's message is given in full: the text of the first check that fails, or empty when every check passes. The subject message is never set. |
| SignUpAsTutor.KeepNonBlank | frontend/src/pages/SignUpAsTutor.tsx:182-190 | The kept entries are exactly the non-blank ones. |
| SignUpAsTutor.KeepNonBlankAppend | frontend/src/pages/SignUpAsTutor.tsx:182-190 | Filtering distributes over concatenation, so order is kept. |
| SignUpAsTutor.KeepNonBlankNoop | frontend/src/pages/SignUpAsTutor.tsx:182-190 | A list without blank entries is kept whole. |
| SignUpAsTutor.PrepareFormData | frontend/src/pages/SignUpAsTutor.tsx:163-195 | The name is the trimmed "first last middle"; email, password and description pass through. Status 'pending'. Three availability lists as long as the slots and index-aligned. Blank affiliations, expertise and socials are dropped. Subjects are trimmed and upper-cased, with blanks kept. |
| SignUpAsTutor.NameWithoutMiddle | frontend/src/pages/SignUpAsTutor.tsx:164 | Without a middle name the name is first and last joined by one space, trimmed. |
| SignUpAsTutor.AcceptedFormHasName | frontend/src/pages/SignUpAsTutor.tsx:164 | A form that passes validation posts a non-blank name. |
| SignUpAsTutor.PayloadFitsAvailabilityLoop | frontend/src/pages/SignUpAsTutor.tsx:177-181 | The posted lists meet the backend loop's requirement that from/to are as long as the dates, so it completes. |
| TutorProfile.LinksFromSocials | frontend/src/pages/TutorProfile.tsx:461-469 | Social 0 becomes the Facebook link and social 1 the LinkedIn link, '' when absent. |
| TutorProfile.OpenPersonal | frontend/src/pages/TutorProfile.tsx:56-66 | The dialog lists the set links, in order. |
| TutorProfile.OpenTutoring | frontend/src/pages/TutorProfile.tsx:68-80 | The dialog starts from copies of the profile's lists and topics. |
| TutorProfile.AddEntry | frontend/src/pages/TutorProfile.tsx:82-90 | A blank input changes nothing. Otherwise the trimmed input is appended and the box is cleared. |
| TutorProfile.AddSocialLink | frontend/src/pages/TutorProfile.tsx:82-90 | The add shape on the social links. |
| TutorProfile.RemoveSocialLink | frontend/src/pages/TutorProfile.tsx:92-97 | Exactly index *i* goes; the rest keep their order. |
| TutorProfile.AddSubject | frontend/src/pages/TutorProfile.tsx:99-107 | The add shape on the subjects; topics unchanged. |
| TutorProfile.RemoveSubject | frontend/src/pages/TutorProfile.tsx:109-124 | The subject at *i* goes together with its topics entry; other subjects' topics are untouched. |
| TutorProfile.AddAffiliation | frontend/src/pages/TutorProfile.tsx:126-134 | The add shape on the affiliations. |
| TutorProfile.RemoveAffiliation | frontend/src/pages/TutorProfile.tsx:136-141 | Exactly index *i* goes, in order. |
| TutorProfile.AddExpertise | frontend/src/pages/TutorProfile.tsx:143-151 | The add shape on the expertise list. |
| TutorProfile.RemoveExpertise | frontend/src/pages/TutorProfile.tsx:153-158 | Exactly index *i* goes, in order. |
| TutorProfile.AddTopic | frontend/src/pages/TutorProfile.tsx:160-174 | Acts only with a non-blank topic and a selected subject. It then appends to that subject's list, creating it if absent, and leaves the other keys alone. |
| TutorProfile.RemoveTopic | frontend/src/pages/TutorProfile.tsx:176-184 | It fails exactly when the subject has no topics entry. Otherwise exactly that topic goes. |
| TutorProfile.HandleDateChange | frontend/src/pages/TutorProfile.tsx:186-193 | A picked date is appended; clearing the picker changes nothing. |
| TutorProfile.RemoveDate | frontend/src/pages/TutorProfile.tsx:195-200 | Exactly index *i* goes, in order. |
| TutorProfile.SavePersonal | frontend/src/pages/TutorProfile.tsx:202-256 | A request is sent exactly when logged in with a non-blank name. Otherwise it shows "Name is required" or the failure text. On success the profile takes the name and links; on a refusal the profile is unchanged and the server's detail is shown. |
| TutorProfile.PersonalLinksRoundTrip | frontend/src/pages/TutorProfile.tsx:235-240 | Saving up to two set links and reopening the dialog shows the same links. |
| TutorProfile.TopicsPayload | frontend/src/pages/TutorProfile.tsx:284-292 | Keys are exactly the listed subjects that have a non-empty topics list, a subset of the map's keys, each with its own non-empty list. |
| TutorProfile.TutoringError | frontend/src/pages/TutorProfile.tsx:355-366 | The server's detail, else its message, else the text for 400, for 401/403, or the generic one. |
| TutorProfile.SaveTutoring | frontend/src/pages/TutorProfile.tsx:258-372 | A request is sent exactly when logged in with a non-blank description. It carries the trimmed description, status 'active', one 09:00-17:00 window per date and the kept topics. On success the profile takes the edits; otherwise it is unchanged. |
| TutorProfile.RemovedSubjectTopicsGone | frontend/src/pages/TutorProfile.tsx:109-124 | After removing a subject its topics are not in the saved payload. |
| IndividualTutor.SafeJoin | frontend/src/pages/IndividualTutor.tsx:69-78 | The joined list or the string itself; the default for a missing value, an empty string or an empty join; never empty with a non-empty default. |
| IndividualTutor.CardFieldsNeverEmpty | frontend/src/pages/IndividualTutor.tsx:186-206 | The card's text fields are never empty. |
| IndividualTutor.DateAndTime | frontend/src/pages/IndividualTutor.tsx:26-27 | Nothing selected gives no date and no time; otherwise the date is the first key's first '|' part, and a time exists exactly when that key contains '|', as its second part. |
| IndividualTutor.BuildPayload | frontend/src/pages/IndividualTutor.tsx:85-97 | Status 0, no start, end or duration; `date` is absent exactly when nothing is selected; `topic_id` is the first selected id. |
| IndividualTutor.PayloadCarriesSlot | frontend/src/pages/IndividualTutor.tsx:26-27 | A slot picked in the dropdown reaches the payload as its own date and start time. |
| IndividualTutor.RequestError | frontend/src/pages/IndividualTutor.tsx:102-118 | The three checks in order: no date, then in-person without a room, then a role other than 0. Each message holds exactly when its check is the first to fail. |
| IndividualTutor.InPersonNeverSent | frontend/src/pages/IndividualTutor.tsx:107-111 | With the room number never set, an in-person request is always refused. |
| IndividualTutor.RequestForm.constructor | frontend/src/pages/IndividualTutor.tsx:21-31 | Nothing selected, online, no message, not loading. |
| IndividualTutor.RequestForm.SelectDate | frontend/src/components/DropdownDatesAvail.tsx:29-33 | The page's date selection is toggled; nothing else changes. |
| IndividualTutor.RequestForm.SelectTopic | frontend/src/components/DropdownTopicsAvail.tsx:31-43 | Both topic lists are toggled; nothing else changes. |
| IndividualTutor.RequestForm.ChangeModality | frontend/src/pages/IndividualTutor.tsx:80-83 | Only the modality changes. |
| IndividualTutor.RequestForm.RequestSession | frontend/src/pages/IndividualTutor.tsx:99-165 | A payload is sent exactly when no check fails, and it is the built payload. A failed check sets its message and keeps the selections. After a post, success or not, the selections clear and the modality is online. |
| DropdownDates.Toggle | frontend/src/components/DropdownDatesAvail.tsx:29-33 | The key's membership flips and the others' does not. A present key is removed wherever it occurs; an absent one is appended at the end. |
| DropdownDates.ToggleKeepsOthers | frontend/src/components/DropdownDatesAvail.tsx:29-33 | Apart from the toggled key the list is the same, in order. |
| DropdownDates.ToggleTwice | frontend/src/components/DropdownDatesAvail.tsx:29-33 | Toggling an absent key twice restores the list. |
| DropdownDates.KeyRoundTrip | frontend/src/components/DropdownDatesAvail.tsx:56 | Splitting a key on '|' gives back its three parts when none contains '|'. |
| DropdownDates.KeyInjective | frontend/src/components/DropdownDatesAvail.tsx:56 | Under the same condition, distinct slots have distinct keys. |
| DropdownDates.Checked | frontend/src/components/DropdownDatesAvail.tsx:60 | A slot is ticked exactly when its key is selected. |
| DropdownTopics.SelectTopic | frontend/src/components/DropdownTopicsAvail.tsx:31-43 | The title list and the id list are both toggled, in the same call. |
| DropdownTopics.SelectKeepsPaired | frontend/src/components/DropdownTopicsAvail.tsx:31-43 | With one-to-one offered pairs, one click keeps the selection a list of offered pairs. |
| DropdownTopics.SelectAllPaired | frontend/src/components/DropdownTopicsAvail.tsx:31-43 | Any sequence of clicks on offered topics keeps the two lists of equal length and aligned. |
| DropdownTopics.TopicChecked | frontend/src/components/DropdownTopicsAvail.tsx:68 | A topic is ticked exactly when its id is in the prop; with the empty list, never. |
| StudentScheduleTracking.StatusLabel | frontend/src/pages/StudentScheduleTracking.tsx:121-125 | 1 is "Approved", 2 is "Declined", anything else "Pending". |
| StudentScheduleTracking.CanCancel | frontend/src/pages/StudentScheduleTracking.tsx:131-133 | Enabled exactly when the status is neither 1 nor 2. |
| StudentScheduleTracking.ButtonText | frontend/src/pages/StudentScheduleTracking.tsx:140-142 | "Cancel" exactly when the status is neither 1 nor 2, else "Delete". |
| StudentScheduleTracking.CancelOnlyPending | frontend/src/pages/StudentScheduleTracking.tsx:121-142 | Cancel is enabled exactly when the label is "Pending" and exactly when the button reads "Cancel". |
| StudentScheduleTracking.ScheduleList.FetchSchedule | frontend/src/pages/StudentScheduleTracking.tsx:27-41 | The fetched list is shown as it is, and a failed fetch keeps the old one. Loading ends either way. |
| StudentScheduleTracking.ScheduleList.HandleDelete | frontend/src/pages/StudentScheduleTracking.tsx:43-63 | A delete goes out exactly when confirmed with a valid index. On success exactly that entry is removed, in order. Declined or failed leaves the list unchanged. Loading ends. |
| SessionViews.Upcoming | frontend/src/pages/StudentTracking.tsx:41-44 | Exactly the entries dated now or later, in fetched order. |
| SessionViews.History | frontend/src/pages/StudentTracking.tsx:61-64 | Exactly the entries dated before now, in fetched order. |
| SessionViews.FilterAppend | frontend/src/pages/TutorSchedule.tsx:37-40 | A filter keeps the fetched order. |
| SessionViews.Disjoint | frontend/src/pages/TutorSchedule.tsx:37-62 | No entry is both upcoming and past. |
| SessionViews.Partition | frontend/src/pages/TutorSchedule.tsx:37-62 | With readable dates, the two views together hold each fetched entry exactly as often as fetched. |
| SessionViews.InvalidDateShownNowhere | frontend/src/pages/StudentTracking.tsx:41-64 | An unreadable date puts the entry in neither view. |
| StudentTracking.WithoutSession | frontend/src/pages/StudentTracking.tsx:80-82 | Exactly the entries of other sessions remain. |
| StudentTracking.WithoutSessionAppend | frontend/src/pages/StudentTracking.tsx:80-82 | The removal keeps the order of the rest. |
| StudentTracking.Queue.FetchStudents | frontend/src/pages/StudentTracking.tsx:30-51 | A plain list body becomes the upcoming rows. Any other response leaves the list. History is untouched and loading ends. |
| StudentTracking.Queue.FetchHistory | frontend/src/pages/StudentTracking.tsx:53-71 | A `session`-wrapped body becomes the past rows. Any other response leaves the list. Loading ends. |
| StudentTracking.Queue.HandleStatusUpdate | frontend/src/pages/StudentTracking.tsx:73-93 | The update sent is that session and status. On success every row of that session goes; on failure nothing changes. |
| StudentTracking.NoBodyFeedsBoth | frontend/src/pages/StudentTracking.tsx:30-71 | No response body updates both lists. |
| StudentTracking.AcceptedRequestIsListed | frontend/src/pages/StudentTracking.tsx:201 | Accepting sends status 1, and the accepted session then appears in the tutor's approved listing. |
| StudentTracking.RejectedRequestNotSelected | frontend/src/pages/StudentTracking.tsx:193 | Rejecting sends status 2, and the rejected session is not selected by the listings. |
| TutorSchedule.FetchUpcoming | frontend/src/pages/TutorSchedule.tsx:49-70 | The fetched sessions dated now or later, in order; a failed fetch keeps the list; loading ends. |
| TutorSchedule.FetchHistory | frontend/src/pages/TutorSchedule.tsx:29-47 | The fetched sessions dated before now, in order; a failed fetch keeps the list; loading ends. |
| TutorSchedule.BothFetchesPartition | frontend/src/pages/TutorSchedule.tsx:37-62 | After both fetches of the same list, the two lists partition it. |

## Left out

- The authentication provider is an input. `list_users` is modelled as an optional user list, and `sign_up` / `update_user_by_id` as a recorded call plus a success flag. Login and profile lookups are thin wrappers over it and are not part of this model.
- The ORM session, engine and configuration plumbing is not modelled. Commits are atomic batches checked against the declared keys.
- The foreign key from `user_role_detail` to `role_detail` is not modelled, because the role catalog rows are not part of the shown state.
- Dates and times are abstract:
  - `datejoined` comes from the provider's creation time;
  - JavaScript `Date` parsing is a `Moment`, readable or Invalid;
  - "now" is a parameter;
  - `isoformat` / `strftime` output is the stored value.
- ProtectedRoute.StringToNumber: models JavaScript `Number()` only for blank strings and optionally signed decimal integers. Other numeric forms (hex, exponents, fractions, `Infinity`) become NaN.
- SignUpAsTutor.UpdateFieldItem: requires the index to be in range. The page only calls it with the index of a rendered row, and an out-of-range write would grow a JavaScript array with holes.
- SignUpAsTutor.UpdateAvailability: requires the index to be in range, for the same reason.
- Toasts, alerts, rendering, navigation and the loading timers are not modelled. A timer that clears a loading flag is treated as having fired.
- The server side of session creation, session deletion and the tutor profile update endpoint is not in the shown backend and is not modelled. The client's calls to them are inputs: a success flag or a `Response`.
- `require_role` is a given guard that admits callers holding the listed role.
- In `StudentTracking.tsx`, the upcoming list reads a plain list body while the history reads a `session`-wrapped body, so no single body shape feeds both. The model keeps the two shapes apart rather than choosing one.
- The tutor sign-up page sends status 'pending', while the backend writes its own status row. The client-side status is not tied to the backend's.
- The user's name is modelled as text, and a missing name as none. A list value in a text column is treated as missing.
- Strings.IsWhitespace, Strings.Lower, Strings.Upper: cover ASCII only. JavaScript `trim` also strips Unicode spaces such as U+00A0 and U+2028. Python `str.lower()` and JavaScript `toUpperCase()` map all of Unicode. So a first name of U+00A0 alone is blank in the source but not in SignUpAsTutor.ValidateForm, and SignUpAsTutor.PrepareFormData keeps a subject "ñ" that the page sends as "Ñ".
- SignUpAsTutor.ValidateForm: counts the password's length in characters, while JavaScript `.length` counts UTF-16 code units. A password of four characters outside the Basic Multilingual Plane, such as emoji, passes the source's 8-character check but not the model's.
- Signup.SignupTutor: assumes the tutor payload carries its `subject_name` list, as the client sends it (SignUpAsTutor.tsx:191-193). As written, signup.py:242 reads `payload.subject`, but `TutorSignupSchema` (backend/schema/user_signup.py:7-13) declares no `subject`. So the read raises inside the `try`, and every tutor sign-up is answered 400 (signup.py:306-308). The model does not capture that 400.
- Signup.ProfileDb.VerifyEmail: like the function Signup.VerifyStep it follows, leaves out part of the 500 details. The details for a failed `list_users` call, and for any other exception, end with the text `: {str(e)}` of the caught exception (signup.py:35, 79). The model keeps only the fixed prefix, because the exception text comes from code outside this model. Likewise the 400 of the sign-up handlers carries no exception text (signup.py:228, 308).
- SessionRequest.SessionStore.UpdateSessionStatus: answers a missing session with 404, a foreign session with 403 and an unknown status with 403 naming the status, the replies the raise sites intend. As written, the endpoint answers all three with the catch-all 500 (see "Findings"); that reply is `SessionRequest.AsWrittenReply` of the same outcome, which the method does not return.

## Findings

| source | as written | input that shows it | evidently intended | confidence | as-written member | corrected member |
|---|---|---|---|---|---|---|
| backend/router/session_request.py:19-43 | The 404 and the foreign-session 403 are raised inside the `try`. The unknown-status 403 never is: its detail reads `payload.status`, which `SessionStatusUpdate` does not declare, so an `AttributeError` is raised instead. `except Exception` turns all three into a 500 "Internal server error during authentication". | An empty session table, the caller `Caller("t", [1])` and the update `StatusUpdate("s", 1)`: the session is missing, yet the reply is 500. | 404 for a missing session; 403 for a foreign session; 403 for an unknown status, with a detail that names `status_id`. | not executed | SessionRequest.AsWrittenReply, SessionRequest.CatchAllMasksNotFound | SessionRequest.IntendedReply, SessionRequest.IntendedReplyInjective |
