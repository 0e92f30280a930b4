/** The rows of the hosted database as the generated client types describe
    them (src/integrations/supabase/types.ts): the `delivery_schedule` enum,
    the `children` and `newsletters` tables with their Row, Insert and
    Update shapes, and the newsletter-to-child foreign key. */
module Schema {
  import opened Wrappers
  import opened Numbers

  /** The `delivery_schedule` enum: exactly three values. */
  datatype DeliverySchedule = Daily | EveryOtherDay | Weekly

  /** The enum value as stored in the database. */
  function ScheduleValue(d: DeliverySchedule): string {
    match d
    case Daily => "daily"
    case EveryOtherDay => "every-other-day"
    case Weekly => "weekly"
  }

  /** Reading a stored value back; anything else is not an enum value. */
  function ParseSchedule(v: string): (r: Option<DeliverySchedule>)
    ensures r.Some? ==> ScheduleValue(r.value) == v
    ensures r.None? ==> forall d :: ScheduleValue(d) != v
  {
    if v == "daily" then Some(Daily)
    else if v == "every-other-day" then Some(EveryOtherDay)
    else if v == "weekly" then Some(Weekly)
    else None
  }

  /** Every enum value reads back as itself. */
  lemma ParseScheduleValue(d: DeliverySchedule)
    ensures ParseSchedule(ScheduleValue(d)) == Some(d)
  {
  }

  /** The runtime constant listing the enum values. */
  const ScheduleConstants: seq<string> := ["daily", "every-other-day", "weekly"]

  /** The enum in declaration order. */
  const AllSchedules: seq<DeliverySchedule> := [Daily, EveryOtherDay, Weekly]

  /** The runtime constant lists the three enum values, each once, in the
      order of the type. */
  lemma ScheduleConstantsMatchEnum()
    ensures |ScheduleConstants| == |AllSchedules| == 3
    ensures forall i :: 0 <= i < 3 ==> ScheduleConstants[i] == ScheduleValue(AllSchedules[i])
    ensures forall d :: d in AllSchedules
    ensures forall i, j :: 0 <= i < j < 3 ==> ScheduleConstants[i] != ScheduleConstants[j]
  {
    assert ScheduleConstants[0][0] == 'd' && ScheduleConstants[1][0] == 'e' && ScheduleConstants[2][0] == 'w';
    forall d ensures d in AllSchedules {
      match d
      case Daily => assert AllSchedules[0] == d;
      case EveryOtherDay => assert AllSchedules[1] == d;
      case Weekly => assert AllSchedules[2] == d;
    }
  }

  /** Instants of `created_at`, as a count of microseconds; `None` is SQL NULL. */
  type Timestamp = int

  /** A `children` row. Nullable columns are `Option`s. */
  datatype ChildRow = ChildRow(
    id: string,
    parentId: string,
    name: string,
    age: int,
    grade: Option<string>,
    interests: Option<seq<string>>,
    favoriteShows: Option<string>,
    hobbies: Option<string>,
    schedule: DeliverySchedule,
    isActive: Option<bool>,
    createdAt: Option<Timestamp>,
    updatedAt: Option<Timestamp>)

  /** A column of an Insert or Update shape that is both optional and
      nullable: left out of the payload, sent as `null`, or sent with a value. */
  datatype Field<+T> = Omitted | Null | Given(value: T)

  /** The `children` Insert shape: `age`, `name` and `parent_id` are
      required, every other column may be left out. `age` is what the form
      parsed; a `NaN` is sent as JSON `null`. */
  datatype ChildInsert = ChildInsert(
    parentId: string,
    name: string,
    age: ParsedInt,
    id: Option<string>,
    grade: Field<string>,
    interests: Field<seq<string>>,
    favoriteShows: Field<string>,
    hobbies: Field<string>,
    schedule: Option<DeliverySchedule>,
    isActive: Field<bool>,
    createdAt: Field<Timestamp>,
    updatedAt: Field<Timestamp>)

  /** The smallest insert the type admits: only the required columns. */
  function MinimalChildInsert(parentId: string, name: string, age: ParsedInt): (r: ChildInsert)
    ensures r.parentId == parentId && r.name == name && r.age == age
    ensures r.id.None? && r.schedule.None?
    ensures r.grade.Omitted? && r.interests.Omitted? && r.favoriteShows.Omitted?
    ensures r.hobbies.Omitted? && r.isActive.Omitted? && r.createdAt.Omitted? && r.updatedAt.Omitted?
  {
    ChildInsert(parentId, name, age, None, Omitted, Omitted, Omitted, Omitted, None,
                Omitted, Omitted, Omitted)
  }

  /** The `children` Update shape: every column optional. */
  datatype ChildUpdate = ChildUpdate(
    id: Option<string>,
    parentId: Option<string>,
    name: Option<string>,
    age: Option<ParsedInt>,
    grade: Field<string>,
    interests: Field<seq<string>>,
    favoriteShows: Field<string>,
    hobbies: Field<string>,
    schedule: Option<DeliverySchedule>,
    isActive: Field<bool>,
    createdAt: Field<Timestamp>,
    updatedAt: Field<Timestamp>)

  const NoChildChange: ChildUpdate :=
    ChildUpdate(None, None, None, None, Omitted, Omitted, Omitted, Omitted, None,
                Omitted, Omitted, Omitted)

  /** The new value of a nullable column under an optional update. */
  function SetNullable<T>(current: Option<T>, f: Field<T>): (r: Option<T>)
    ensures f.Omitted? ==> r == current
    ensures f.Null? ==> r.None?
    ensures f.Given? ==> r == Some(f.value)
  {
    match f
    case Omitted => current
    case Null => None
    case Given(v) => Some(v)
  }

  /** Writing an Update onto one row: columns left out keep their values,
      the others take the sent value. An `age` that is `NaN` goes out as
      `null`, which the non-null `age` column refuses: the whole update
      fails (`None`). */
  function ApplyChildUpdate(row: ChildRow, u: ChildUpdate): (r: Option<ChildRow>)
    ensures r.None? <==> u.age == Some(NaN)
    ensures r.Some? ==>
      && r.value.id == u.id.GetOr(row.id)
      && r.value.parentId == u.parentId.GetOr(row.parentId)
      && r.value.name == u.name.GetOr(row.name)
      && (u.age.None? ==> r.value.age == row.age)
      && (u.age.Some? ==> u.age.value == Int(r.value.age))
      && r.value.grade == SetNullable(row.grade, u.grade)
      && r.value.interests == SetNullable(row.interests, u.interests)
      && r.value.favoriteShows == SetNullable(row.favoriteShows, u.favoriteShows)
      && r.value.hobbies == SetNullable(row.hobbies, u.hobbies)
      && r.value.schedule == u.schedule.GetOr(row.schedule)
      && r.value.isActive == SetNullable(row.isActive, u.isActive)
      && r.value.createdAt == SetNullable(row.createdAt, u.createdAt)
      && r.value.updatedAt == SetNullable(row.updatedAt, u.updatedAt)
  {
    if u.age == Some(NaN) then None
    else
      var age := if u.age.Some? then u.age.value.value else row.age;
      Some(ChildRow(
        u.id.GetOr(row.id), u.parentId.GetOr(row.parentId), u.name.GetOr(row.name), age,
        SetNullable(row.grade, u.grade), SetNullable(row.interests, u.interests),
        SetNullable(row.favoriteShows, u.favoriteShows), SetNullable(row.hobbies, u.hobbies),
        u.schedule.GetOr(row.schedule), SetNullable(row.isActive, u.isActive),
        SetNullable(row.createdAt, u.createdAt), SetNullable(row.updatedAt, u.updatedAt)))
  }

  /** An update that sends nothing leaves the row as it is, and sending the
      same update twice has the effect of sending it once. */
  lemma ApplyChildUpdateLaws(row: ChildRow, u: ChildUpdate)
    ensures ApplyChildUpdate(row, NoChildChange) == Some(row)
    ensures ApplyChildUpdate(row, u).Some? ==>
      ApplyChildUpdate(ApplyChildUpdate(row, u).value, u) == ApplyChildUpdate(row, u)
  {
  }

  /** `.update(u).eq('id', id)` on the whole table: rows with another id are
      untouched, every row with that id takes the update; a refused update
      changes nothing (`None`). */
  function UpdateWhereId(table: seq<ChildRow>, id: string, u: ChildUpdate): (r: Option<seq<ChildRow>>)
    ensures r.None? <==> (u.age == Some(NaN) && exists i :: 0 <= i < |table| && table[i].id == id)
    ensures r.Some? ==> |r.value| == |table|
    ensures r.Some? ==> forall i :: 0 <= i < |table| && table[i].id != id ==> r.value[i] == table[i]
    ensures r.Some? ==> forall i :: 0 <= i < |table| && table[i].id == id ==>
      ApplyChildUpdate(table[i], u) == Some(r.value[i])
    decreases |table|
  {
    if |table| == 0 then Some([])
    else
      var rest := UpdateWhereId(table[1..], id, u);
      var head := if table[0].id == id then ApplyChildUpdate(table[0], u) else Some(table[0]);
      if rest.None? || head.None? then
        (assert table[0].id == id ==> u.age == Some(NaN) || rest.None?;
         None)
      else
        Some([head.value] + rest.value)
  }

  /** The content envelope stored in `newsletters.content`: a JSON object
      whose `text` member is the newsletter body (`{text: string}`). A
      missing member is `None`. */
  datatype Envelope = Envelope(text: Option<string>)

  /** A `newsletters` row. */
  datatype NewsletterRow = NewsletterRow(
    id: string,
    childId: string,
    title: string,
    content: Option<Envelope>,
    createdAt: Option<Timestamp>,
    sentAt: Option<Timestamp>,
    pdfUrl: Option<string>)

  /** The `newsletters` Insert shape: `child_id` and `title` required. */
  datatype NewsletterInsert = NewsletterInsert(
    childId: string,
    title: string,
    content: Field<Envelope>,
    id: Option<string>,
    createdAt: Field<Timestamp>,
    sentAt: Field<Timestamp>,
    pdfUrl: Field<string>)

  /** The `newsletters_child_id_fkey` constraint: every newsletter names an
      existing child. Several newsletters may name the same child. */
  predicate ForeignKeyHolds(children: seq<ChildRow>, newsletters: seq<NewsletterRow>) {
    forall n :: n in newsletters ==> exists c :: c in children && c.id == n.childId
  }

  /** Adding a newsletter for an existing child keeps the constraint, even
      when that child already has newsletters (the key is many-to-one). */
  lemma ForeignKeyAppend(children: seq<ChildRow>, newsletters: seq<NewsletterRow>, n: NewsletterRow)
    requires ForeignKeyHolds(children, newsletters)
    requires exists c :: c in children && c.id == n.childId
    ensures ForeignKeyHolds(children, newsletters + [n])
  {
  }
}
