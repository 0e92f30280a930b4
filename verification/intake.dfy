/** The dashboard's "add child" form (`ChildIntakeForm`): interests picked
    by toggling, extra interests typed as a comma-separated list, and a
    submit that stores an active profile for the signed-in parent and then
    empties the form. */
module IntakeForm {
  import opened Wrappers
  import opened Strings
  import opened Numbers
  import opened Schema
  import opened Interests
  import opened Ui

  datatype Form = Form(
    name: string,
    age: string,
    grade: string,
    interests: seq<string>,
    customInterests: string,
    favoriteShows: string,
    hobbies: string,
    schedule: DeliverySchedule)

  const EmptyForm: Form := Form("", "", "", [], "", "", "", Daily)

  /** `handleInterestToggle`: only the interest list changes. */
  function Toggle(f: Form, interest: string): (r: Form)
    ensures (interest in r.interests) <==> interest !in f.interests
    ensures forall y :: y != interest ==> ((y in r.interests) <==> (y in f.interests))
    ensures interest !in f.interests ==> r.interests == f.interests + [interest]
    ensures interest in f.interests ==> r.interests == RemoveAll(f.interests, interest)
    ensures NoDuplicates(f.interests) ==> NoDuplicates(r.interests)
    ensures r == f.(interests := r.interests)
  {
    f.(interests := ToggleInterest(f.interests, interest))
  }

  /** Toggling an interest that was not picked, then toggling it again,
      gives the form back. */
  lemma ToggleTwice(f: Form, interest: string)
    requires interest !in f.interests
    ensures Toggle(Toggle(f, interest), interest) == f
  {
    ToggleTwiceAbsent(f.interests, interest);
  }

  /** The profile the form submits for the signed-in parent: the picked
      interests followed by the typed ones, and the child active. */
  function Record(f: Form, userId: string): (r: ChildInsert)
    ensures r.parentId == userId && r.name == f.name && r.age == ParseInt(f.age)
    ensures r.isActive == Given(true) && r.schedule == Some(f.schedule)
    ensures r.interests.Given? && |r.interests.value| >= |f.interests|
    ensures r.interests.value[..|f.interests|] == f.interests
    ensures r.interests.value[|f.interests|..] == ParseCustomInterests(f.customInterests)
    ensures AllWhitespace(f.customInterests) ==> r.interests == Given(f.interests)
  {
    BlankCustomInterests(f.customInterests);
    ProfileInsert(userId, f.name, f.age, f.grade, CombineInterests(f.interests, f.customInterests),
                  f.favoriteShows, f.hobbies, f.schedule, Given(true))
  }

  /** What a submit did: the form afterwards, the row handed to the store
      (if any), the stored row passed on to the dashboard (if any), and the
      toast shown (if any). */
  datatype Submission = Submission(
    form: Form, inserted: Option<ChildInsert>, added: Option<ChildRow>, toast: Option<Toast>)

  /** `handleSubmit`. `user` is the signed-in user's id, `stored` the store's
      answer to the insert. */
  function Submit(f: Form, user: Option<string>, stored: StoreWrite<ChildRow>): (r: Submission)
    ensures user.None? ==> r == Submission(f, None, None, None)
    ensures user.Some? ==> r.inserted == Some(Record(f, user.value)) && r.toast.Some?
    ensures r.added.Some? <==> user.Some? && stored.Stored?
    ensures r.added.Some? ==> r.added.value == stored.row && r.form == EmptyForm && !r.toast.value.destructive
    ensures user.Some? && stored.StoreFailed? ==> r.form == f && r.toast.value.destructive
  {
    if user.None? then Submission(f, None, None, None)
    else
      var record := Record(f, user.value);
      match stored
      case Stored(row) =>
        Submission(EmptyForm, Some(record), Some(row),
                   Some(Toast("Success!", f.name + " has been added successfully.", false)))
      case StoreFailed(_) =>
        Submission(f, Some(record), None,
                   Some(Toast("Error", "Failed to add child. Please try again.", true)))
  }

  /** A failed submit keeps what was typed, so submitting again sends the
      same profile and behaves as if the first attempt had not happened;
      after a successful one the form is cleared, and a second submit sends
      an empty profile. */
  lemma RetryAfterFailure(f: Form, user: Option<string>, m: string, stored: StoreWrite<ChildRow>)
    ensures Submit(Submit(f, user, StoreFailed(m)).form, user, stored) == Submit(f, user, stored)
    ensures user.Some? && stored.Stored? ==>
      Submit(Submit(f, user, stored).form, user, StoreFailed(m)).inserted == Some(Record(EmptyForm, user.value))
  {
  }
}
