/** The stand-alone "add child profile" form (`AddChildForm`): checkbox
    interests, a schedule that starts as daily, and a submit that needs a
    signed-in parent and reports success only when the store accepted the
    profile. */
module AddChildForm {
  import opened Wrappers
  import opened Numbers
  import opened Schema
  import opened Interests
  import opened Ui

  datatype Form = Form(
    name: string,
    age: string,
    grade: string,
    interests: seq<string>,
    favoriteShows: string,
    hobbies: string,
    schedule: DeliverySchedule)

  /** The form as it opens. */
  const EmptyForm: Form := Form("", "", "", [], "", "", Daily)

  /** `handleInterestChange`: a checked box appends the interest, an
      unchecked one removes every copy; no other field changes. */
  function InterestChanged(f: Form, interest: string, checked: bool): (r: Form)
    ensures r == f.(interests := r.interests)
    ensures checked ==> r.interests == f.interests + [interest]
    ensures !checked ==> interest !in r.interests && IsSubsequence(r.interests, f.interests)
    ensures !checked ==> r.interests == RemoveAll(f.interests, interest)
    ensures !checked ==> forall y :: y != interest ==> multiset(r.interests)[y] == multiset(f.interests)[y]
  {
    RemoveAllSubsequence(f.interests, interest);
    f.(interests := CheckInterest(f.interests, interest, checked))
  }

  /** Ticks every box of `picks`, in order. */
  function TickAll(f: Form, picks: seq<string>): Form
    decreases |picks|
  {
    if |picks| == 0 then f
    else InterestChanged(TickAll(f, picks[..|picks| - 1]), picks[|picks| - 1], true)
  }

  /** Ticking boxes one after another appends the interests in the order
      they were ticked, and touches no other field. */
  lemma {:induction false} TickInOrder(f: Form, picks: seq<string>)
    ensures TickAll(f, picks) == f.(interests := f.interests + picks)
    decreases |picks|
  {
    if |picks| > 0 {
      var front := picks[..|picks| - 1];
      var last := picks[|picks| - 1];
      TickInOrder(f, front);
      var g := f.(interests := f.interests + front);
      assert TickAll(f, picks) == InterestChanged(g, last, true);
      AppendLast(f.interests, picks);
    }
  }

  lemma AppendLast(xs: seq<string>, picks: seq<string>)
    requires |picks| > 0
    ensures (xs + picks[..|picks| - 1]) + [picks[|picks| - 1]] == xs + picks
  {
    assert picks[..|picks| - 1] + [picks[|picks| - 1]] == picks;
  }

  /** The form opens on the daily schedule with no interests, so the
      interests it holds are exactly the ones ticked, in order. */
  lemma TickFromEmpty(picks: seq<string>)
    ensures TickAll(EmptyForm, picks).interests == picks
    ensures TickAll(EmptyForm, picks).schedule == Daily
  {
    TickFromBlank(EmptyForm, picks);
  }

  lemma TickFromBlank(f: Form, picks: seq<string>)
    requires f.interests == []
    ensures TickAll(f, picks).interests == picks
    ensures TickAll(f, picks).schedule == f.schedule
  {
    TickInOrder(f, picks);
    assert f.interests + picks == picks;
  }

  /** What a submit did: the profile handed to the store (if any), the
      toast (if any), and whether `onSuccess` was called. */
  datatype Submission = Submission(inserted: Option<ChildInsert>, toast: Option<Toast>, succeeded: bool)

  /** `handleSubmit`. `user` is the signed-in user's id, `stored` the store's
      answer to the insert. */
  function Submit(f: Form, user: Option<string>, stored: Outcome): (r: Submission)
    ensures user.None? ==> r == Submission(None, None, false)
    ensures r.inserted.Some? <==> user.Some?
    ensures r.inserted.Some? ==>
      && r.inserted.value.parentId == user.value
      && r.inserted.value.age == ParseInt(f.age)
      && r.inserted.value.interests == Given(f.interests)
      && r.inserted.value.schedule == Some(f.schedule)
    ensures r.succeeded <==> user.Some? && stored.Pass?
    ensures user.Some? ==> r.toast.Some? && (r.toast.value.destructive <==> !r.succeeded)
    ensures user.Some? && stored.Fail? ==> r.toast.value.description == stored.message
  {
    if user.None? then Submission(None, None, false)
    else
      var insert := ProfileInsert(user.value, f.name, f.age, f.grade, f.interests,
                                  f.favoriteShows, f.hobbies, f.schedule, Omitted);
      match stored
      case Pass =>
        Submission(Some(insert),
                   Some(Toast("Success! \U{1F389}",
                              f.name + "'s profile has been created. Their first newsletter will be generated soon!",
                              false)),
                   true)
      case Fail(message) => Submission(Some(insert), Some(Toast("Error", message, true)), false)
  }

  /** The form is never cleared by a submit, and the profile sent depends
      only on the form and the user: whatever the store answered, pressing
      submit again sends the same profile, and only an accepted insert
      calls `onSuccess`. */
  lemma RetrySendsSameProfile(f: Form, user: Option<string>, first: Outcome, again: Outcome)
    ensures Submit(f, user, first).inserted == Submit(f, user, again).inserted
    ensures first.Fail? ==> !Submit(f, user, first).succeeded
    ensures user.Some? && again.Pass? ==> Submit(f, user, again).succeeded
  {
  }
}
