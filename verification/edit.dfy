/** The profile editor (`ChildEditForm`): a form filled from the child's
    row, an interest toggle, and a save that updates exactly seven columns
    of the row with the child's id. */
module EditForm {
  import opened Wrappers
  import opened Numbers
  import opened Schema
  import opened Interests
  import opened Ui

  /** The form state. Grade and interests are copied from the row as they
      are, `null` included; the age is held as text. */
  datatype Form = Form(
    name: string,
    age: string,
    grade: Option<string>,
    interests: Option<seq<string>>,
    favoriteShows: string,
    hobbies: string,
    schedule: DeliverySchedule)

  /** The form as it opens: the row's values, the age as its decimal text,
      and missing shows or hobbies as empty text (`|| ''`). */
  function Initial(child: ChildRow): (r: Form)
    ensures r.name == child.name && r.grade == child.grade && r.interests == child.interests
    ensures r.schedule == child.schedule
    ensures ParseInt(r.age) == Int(child.age)
    ensures child.favoriteShows.Some? ==> r.favoriteShows == child.favoriteShows.value
    ensures child.favoriteShows.None? ==> r.favoriteShows == ""
    ensures child.hobbies.Some? ==> r.hobbies == child.hobbies.value
    ensures child.hobbies.None? ==> r.hobbies == ""
  {
    ParseIntToString(child.age);
    Form(child.name, IntToString(child.age), child.grade, child.interests,
         child.favoriteShows.GetOr(""), child.hobbies.GetOr(""), child.schedule)
  }

  /** `handleInterestToggle`: the interest is appended when it is not
      picked, and every copy of it is removed when it is. The form only
      shows when the row's interest list is an array: with a `null` list,
      drawing the checkboxes already reads `includes` on `null` and throws,
      so no box can be clicked (and the update itself would throw too).
      `None` marks that unreachable case; nothing is said about the page
      then. */
  function Toggle(f: Form, interest: string): (r: Option<Form>)
    ensures r.None? <==> f.interests.None?
    ensures r.Some? ==> r.value.interests.Some? && r.value == f.(interests := r.value.interests)
    ensures r.Some? ==> ((interest in r.value.interests.value) <==> interest !in f.interests.value)
    ensures r.Some? ==> forall y :: y != interest ==>
      ((y in r.value.interests.value) <==> (y in f.interests.value))
    ensures f.interests.Some? && interest !in f.interests.value ==>
      r == Some(f.(interests := Some(f.interests.value + [interest])))
    ensures f.interests.Some? && interest in f.interests.value ==>
      r == Some(f.(interests := Some(RemoveAll(f.interests.value, interest))))
  {
    match f.interests
    case None => None
    case Some(xs) => Some(f.(interests := Some(ToggleInterest(xs, interest))))
  }

  /** A value the form sends as it holds it: a string, or `null`. */
  function Sent<T>(v: Option<T>): (r: Field<T>)
    ensures v.None? <==> r.Null?
    ensures v.Some? ==> r == Given(v.value)
  {
    if v.Some? then Given(v.value) else Null
  }

  /** The update the save sends: name, age, grade, interests, shows, hobbies
      and schedule, and no other column. */
  function Payload(f: Form): (u: ChildUpdate)
    ensures u.id.None? && u.parentId.None? && u.isActive.Omitted?
    ensures u.createdAt.Omitted? && u.updatedAt.Omitted?
    ensures u.name == Some(f.name) && u.age == Some(ParseInt(f.age))
    ensures u.grade == Sent(f.grade) && u.interests == Sent(f.interests)
    ensures u.favoriteShows == Given(f.favoriteShows) && u.hobbies == Given(f.hobbies)
    ensures u.schedule == Some(f.schedule)
  {
    ChildUpdate(None, None, Some(f.name), Some(ParseInt(f.age)), Sent(f.grade), Sent(f.interests),
                Given(f.favoriteShows), Given(f.hobbies), Some(f.schedule), Omitted, Omitted, Omitted)
  }

  /** Saving the form as it opened writes the row back as it was, except that
      missing shows and hobbies are now stored as empty text. */
  lemma UneditedSave(child: ChildRow)
    ensures ApplyChildUpdate(child, Payload(Initial(child))) ==
      Some(child.(favoriteShows := Some(child.favoriteShows.GetOr("")),
                  hobbies := Some(child.hobbies.GetOr(""))))
  {
    ParseIntToString(child.age);
  }

  /** What a save did: the table afterwards, the toast, and whether the
      dashboard was told to refresh. */
  datatype Submission = Submission(table: seq<ChildRow>, toast: Toast, refreshed: bool)

  const UpdatedTitle: string := "Success!"
  const FailedToast: Toast := Toast("Error", "Failed to update profile. Please try again.", true)

  /** `handleSubmit` against the `children` table: the update applies to the
      rows whose id is the child's. `answer` is the store's answer apart
      from the table's own constraints (a refused request, a lost
      connection). A text age that does not parse becomes `null`, which the
      non-null `age` column refuses. Any error leaves the table as it was,
      shows the error toast and does not tell the dashboard to refresh. */
  function Submit(f: Form, childId: string, table: seq<ChildRow>, answer: Outcome): (r: Submission)
    ensures |r.table| == |table|
    ensures forall i | 0 <= i < |table| && table[i].id != childId :: r.table[i] == table[i]
    ensures forall i | 0 <= i < |table| ::
      && r.table[i].id == table[i].id
      && r.table[i].parentId == table[i].parentId
      && r.table[i].isActive == table[i].isActive
      && r.table[i].createdAt == table[i].createdAt
    ensures r.refreshed <==>
      && answer.Pass?
      && !(ParseInt(f.age).NaN? && exists i | 0 <= i < |table| :: table[i].id == childId)
    ensures r.refreshed ==> r.toast == Toast(UpdatedTitle, f.name + "'s profile has been updated.", false)
    ensures !r.refreshed ==> r.table == table && r.toast == FailedToast
    ensures ParseInt(f.age).Int? && answer.Pass? ==> forall i | 0 <= i < |table| && table[i].id == childId ::
        && r.table[i].name == f.name && r.table[i].age == ParseInt(f.age).value
        && r.table[i].interests == f.interests && r.table[i].schedule == f.schedule
        && r.table[i].grade == f.grade && r.table[i].favoriteShows == Some(f.favoriteShows)
        && r.table[i].hobbies == Some(f.hobbies)
  {
    var written := if answer.Fail? then None else UpdateWhereId(table, childId, Payload(f));
    match written
    case Some(updated) =>
      Submission(updated, Toast(UpdatedTitle, f.name + "'s profile has been updated.", false), true)
    case None =>
      Submission(table, FailedToast, false)
  }
}
