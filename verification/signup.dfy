/** The landing page's sign-up section (`SignupFormSection`): the parent's
    account and the first child's profile in one form. Submitting signs the
    parent up first; only when that succeeds, and a session exists, is the
    child's profile stored, and a failure there does not undo or fail the
    sign-up. */
module SignupForm {
  import opened Wrappers
  import opened Numbers
  import opened Schema
  import opened Interests
  import opened Ui

  datatype Form = Form(
    parentName: string,
    parentEmail: string,
    password: string,
    childName: string,
    childAge: string,
    childGrade: string,
    interests: seq<string>,
    favoriteShows: string,
    hobbies: string,
    schedule: DeliverySchedule)

  const EmptyForm: Form := Form("", "", "", "", "", "", [], "", "", Daily)

  /** `handleInterestChange`: a checked box appends the interest, an
      unchecked one removes every copy; no other field changes. */
  function InterestChanged(f: Form, interest: string, checked: bool): (r: Form)
    ensures r == f.(interests := r.interests)
    ensures checked ==> r.interests == f.interests + [interest]
    ensures !checked ==> interest !in r.interests && IsSubsequence(r.interests, f.interests)
    ensures !checked ==> r.interests == RemoveAll(f.interests, interest)
    ensures !checked ==> forall y :: y != interest ==> multiset(r.interests)[y] == multiset(f.interests)[y]
  {
    RemoveAllSubsequence(f.interests, interest);
    f.(interests := CheckInterest(f.interests, interest, checked))
  }

  /** The account request handed to `signUp`. */
  datatype SignUpRequest = SignUpRequest(email: string, password: string, fullName: string)

  /** What a submit did: the sign-up request, the child profile handed to
      the store (if any), the toast, and whether the page went on to the
      dashboard. */
  datatype Submission = Submission(
    signUp: SignUpRequest, childInsert: Option<ChildInsert>, toast: Toast, toDashboard: bool)

  /** The child profile the form stores under the new account; the active
      flag is left to the store's default. */
  function ChildRecord(f: Form, userId: string): (r: ChildInsert)
    ensures r.parentId == userId && r.name == f.childName && r.age == ParseInt(f.childAge)
    ensures r.interests == Given(f.interests) && r.schedule == Some(f.schedule)
    ensures r.isActive.Omitted?
  {
    ProfileInsert(userId, f.childName, f.childAge, f.childGrade, f.interests,
                  f.favoriteShows, f.hobbies, f.schedule, Omitted)
  }

  /** `handleSubmit`. `signedUp` is the answer of `signUp`, `session` the user
      id of the session read afterwards, `childStored` the store's answer to
      the child insert. */
  function Submit(f: Form, signedUp: Outcome, session: Option<string>, childStored: Outcome): (r: Submission)
    ensures r.signUp == SignUpRequest(f.parentEmail, f.password, f.parentName)
    ensures signedUp.Fail? ==>
      r.childInsert.None? && !r.toDashboard && r.toast == Toast("Error", signedUp.message, true)
    ensures signedUp.Pass? ==> r.toDashboard && !r.toast.destructive
    ensures r.childInsert.Some? <==> signedUp.Pass? && session.Some?
    ensures r.childInsert.Some? ==> r.childInsert.value == ChildRecord(f, session.value)
  {
    var request := SignUpRequest(f.parentEmail, f.password, f.parentName);
    match signedUp
    case Fail(message) => Submission(request, None, Toast("Error", message, true), false)
    case Pass =>
      var insert := if session.Some? then Some(ChildRecord(f, session.value)) else None;
      Submission(request, insert,
                 Toast("Welcome to the family! \U{1F389}",
                       f.childName + "'s first personalized newsletter will arrive within 24 hours! Please check your email to verify your account.",
                       false),
                 true)
  }

  /** A failed child insert is only logged: the submit ends exactly as if
      the insert had succeeded. */
  lemma ChildInsertFailureIgnored(f: Form, session: Option<string>, message: string)
    ensures Submit(f, Pass, session, Fail(message)) == Submit(f, Pass, session, Pass)
  {
  }
}
