/** Pieces the React components share: the toast notifications they show,
    and the `children` insert that every profile form builds from its
    fields. */
module Ui {
  import opened Wrappers
  import opened Numbers
  import opened Schema

  /** A toast notification; `destructive` marks the error style. */
  datatype Toast = Toast(title: string, description: string, destructive: bool)

  /** The profile columns a form submits, with the age typed as text and read
      with `parseInt`, and every other column left to the store. Grade,
      shows and hobbies are sent as strings even when empty. */
  function ProfileInsert(parentId: string, name: string, age: string, grade: string,
                         interests: seq<string>, favoriteShows: string, hobbies: string,
                         schedule: DeliverySchedule, isActive: Field<bool>): (r: ChildInsert)
    ensures r.parentId == parentId && r.name == name && r.age == ParseInt(age)
    ensures r.grade == Given(grade) && r.interests == Given(interests)
    ensures r.favoriteShows == Given(favoriteShows) && r.hobbies == Given(hobbies)
    ensures r.schedule == Some(schedule) && r.isActive == isActive
    ensures r.id.None? && r.createdAt.Omitted? && r.updatedAt.Omitted?
  {
    ChildInsert(parentId, name, ParseInt(age), None, Given(grade), Given(interests),
                Given(favoriteShows), Given(hobbies), Some(schedule), isActive, Omitted, Omitted)
  }
}
