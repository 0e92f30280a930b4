/** The two child cards: the dashboard's (`ChildDashboardCard`) and the
    compact one (`ChildCard`). Both show the schedule as a label, a
    truncated row of interest badges, an active/paused status, and a switch
    or button that writes the negation of the child's active flag. */
module Cards {
  import opened Wrappers
  import opened Strings
  import opened Numbers
  import opened Schema
  import opened Encoding
  import opened Ui

  // ------------------------------------------------------------ labels

  /** `getScheduleDisplay` / `getScheduleText`: the three enum values get a
      display label; any other string is shown as it is. */
  function ScheduleLabel(value: string): (r: string)
    ensures ParseSchedule(value).None? ==> r == value
    ensures ParseSchedule(value).Some? ==> r != value
    ensures value == "daily" ==> r == "Daily"
    ensures value == "every-other-day" ==> r == "Every Other Day"
    ensures value == "weekly" ==> r == "Weekly"
  {
    ParseScheduleValue(Daily);
    ParseScheduleValue(EveryOtherDay);
    ParseScheduleValue(Weekly);
    if value == "daily" then "Daily"
    else if value == "every-other-day" then "Every Other Day"
    else if value == "weekly" then "Weekly"
    else value
  }

  /** The labels of the three schedules are distinct, so the label tells
      the schedule. */
  lemma ScheduleLabelsDistinct(a: DeliverySchedule, b: DeliverySchedule)
    ensures ScheduleLabel(ScheduleValue(a)) == ScheduleLabel(ScheduleValue(b)) ==> a == b
  {
    assert ScheduleLabel(ScheduleValue(Daily)) == "Daily";
    assert ScheduleLabel(ScheduleValue(EveryOtherDay)) == "Every Other Day";
    assert ScheduleLabel(ScheduleValue(Weekly)) == "Weekly";
    assert "Daily"[0] != "Every Other Day"[0] && "Daily"[0] != "Weekly"[0];
    assert "Every Other Day"[0] != "Weekly"[0];
  }

  // ------------------------------------------------------------ badges

  const DashboardBadgeLimit: nat := 6
  const CompactBadgeLimit: nat := 3

  /** A row of interest badges: the first ones shown by name, and the count
      of the rest for a `+N more` badge when there are any. */
  datatype Badges = Badges(shown: seq<string>, more: Option<nat>)

  /** `interests.slice(0, limit)` followed by `+{length - limit} more` when the
      list is longer than `limit`. */
  function InterestBadges(interests: seq<string>, limit: nat): (b: Badges)
    ensures |b.shown| <= limit && b.shown <= interests
    ensures b.more.Some? <==> |interests| > limit
    ensures b.more.Some? ==> b.more.value > 0
    ensures |b.shown| + b.more.GetOr(0) == |interests|
  {
    if |interests| > limit then Badges(interests[..limit], Some(|interests| - limit))
    else Badges(interests, None)
  }

  /** The dashboard card's badge row for the row's nullable interest list.
      A `null` list makes `interests.slice` throw while the card renders, so
      the dashboard shows no card at all; `None` marks that case and nothing
      is said about the page then. */
  function CardBadges(interests: Option<seq<string>>): (r: Option<Badges>)
    ensures r.None? <==> interests.None?
    ensures r.Some? ==> r.value == InterestBadges(interests.value, DashboardBadgeLimit)
  {
    if interests.Some? then Some(InterestBadges(interests.value, DashboardBadgeLimit)) else None
  }

  /** The text of the overflow badge. */
  function MoreLabel(n: nat): string {
    "+" + NatToString(n) + " more"
  }

  /** Every interest is either shown by name or counted in the overflow
      badge, in list order. */
  lemma BadgesCoverInterests(interests: seq<string>, limit: nat)
    ensures
      var b := InterestBadges(interests, limit);
      b.shown + interests[|b.shown|..] == interests && |interests[|b.shown|..]| == b.more.GetOr(0)
  {
  }

  /** The overflow count reads back from its badge. */
  lemma MoreLabelCount(n: nat)
    ensures ParseInt(MoreLabel(n)[1..]) == Int(n)
  {
    assert MoreLabel(n)[1..] == NatToString(n) + " more";
    ParseIntIgnoresTail(n, " more");
  }

  // ------------------------------------------------------------ status

  /** How a nullable `is_active` reads in a condition: only `true` is true. */
  predicate Active(child: ChildRow) {
    child.isActive == Some(true)
  }

  function StatusBadge(child: ChildRow): (r: string)
    ensures r == "Active" <==> Active(child)
  {
    if Active(child) then "Active" else "Paused"
  }

  /** The dashboard card's generate button is disabled while the newsletter
      is being generated or when the child is paused. */
  predicate GenerateDisabled(isGenerating: bool, child: ChildRow) {
    isGenerating || !Active(child)
  }

  function GenerateLabel(isGenerating: bool): string {
    if isGenerating then "Generating..." else "Generate New Newsletter"
  }

  /** Generating is offered exactly for an active child that is not being
      generated for already, and the button names what it will do. */
  lemma GenerateButton(isGenerating: bool, child: ChildRow)
    ensures !GenerateDisabled(isGenerating, child) <==> !isGenerating && child.isActive == Some(true)
    ensures !GenerateDisabled(isGenerating, child) ==> GenerateLabel(isGenerating) == "Generate New Newsletter"
  {
  }

  // ------------------------------------------------------------ the active switch

  /** `update({is_active: !child.is_active})`: the only column written is the
      active flag, set to the negation of what the card shows. */
  function ActiveToggle(child: ChildRow): (u: ChildUpdate)
    ensures u.isActive == Given(!Active(child))
    ensures u == NoChildChange.(isActive := u.isActive)
  {
    NoChildChange.(isActive := Given(!Active(child)))
  }

  /** Applied to the child's row, the toggle flips the flag and leaves every
      other column as it was; applied twice to a row with a flag, it gives
      the row back. */
  lemma ActiveToggleFlips(child: ChildRow)
    ensures ApplyChildUpdate(child, ActiveToggle(child)) == Some(child.(isActive := Some(!Active(child))))
    ensures child.isActive.Some? ==>
      var once := ApplyChildUpdate(child, ActiveToggle(child)).value;
      ApplyChildUpdate(once, ActiveToggle(once)) == Some(child)
  {
    var once := child.(isActive := Some(!Active(child)));
    assert ApplyChildUpdate(child, ActiveToggle(child)) == Some(once);
    if child.isActive.Some? {
      if child.isActive.value {
        assert Active(child);
      } else {
        assert !Active(child);
      }
      assert child.isActive == Some(Active(child));
      assert Active(once) == !Active(child);
      assert ApplyChildUpdate(once, ActiveToggle(once)) == Some(once.(isActive := Some(Active(child))));
      assert once.(isActive := Some(Active(child))) == child;
    }
  }

  /** The last word of a toast text. */
  function LastWord(text: string): string {
    if |text| >= 6 then text[|text| - 6..] else text
  }

  /** `toggleActiveStatus` of the dashboard card: the toast names the child
      and ends with the new state; on success the dashboard refetches its
      children. */
  function DashboardToggleToast(child: ChildRow, stored: Outcome): (t: Toast)
    ensures stored.Pass? ==> !t.destructive && Contains(t.description, child.name)
    ensures stored.Pass? ==> (LastWord(t.description) == "active" <==> !Active(child))
    ensures stored.Pass? ==> (LastWord(t.description) == "paused" <==> Active(child))
    ensures stored.Fail? ==> t == Toast("Error", "Failed to update status", true)
  {
    if stored.Fail? then Toast("Error", "Failed to update status", true)
    else
      var state := if !Active(child) then "active" else "paused";
      var text := child.name + "'s newsletters are now " + state;
      ContainsPrefix(child.name, "'s newsletters are now " + state);
      assert text == child.name + ("'s newsletters are now " + state);
      assert LastWord(text) == state;
      Toast("Updated", text, false)
  }

  /** `toggleActive` of the compact card: the toast title says what the
      toggle did; a failure shows the store's message. */
  function CompactToggleToast(child: ChildRow, stored: Outcome): (t: Toast)
    ensures stored.Pass? ==> !t.destructive && (t.title == "Newsletters paused" <==> Active(child))
    ensures stored.Pass? ==> (t.title == "Newsletters resumed" <==> !Active(child))
    ensures stored.Fail? ==> t == Toast("Error", stored.message, true)
  {
    match stored
    case Fail(message) => Toast("Error", message, true)
    case Pass =>
      var verb := if Active(child) then "paused" else "resumed";
      Toast(if Active(child) then "Newsletters paused" else "Newsletters resumed",
            child.name + "'s newsletters have been " + verb + ".", false)
  }

  /** The two cards tell the same story: the dashboard card says the
      newsletters are now active exactly when the compact card says they
      were resumed, and both agree with the flag written. */
  lemma TogglesAgree(child: ChildRow)
    ensures CompactToggleToast(child, Pass).title == "Newsletters resumed" <==>
      LastWord(DashboardToggleToast(child, Pass).description) == "active"
    ensures LastWord(DashboardToggleToast(child, Pass).description) == "active" <==>
      ActiveToggle(child).isActive == Given(true)
  {
  }

  /** The compact card's button: `Updating...` while the update runs, else
      what a press would do. */
  function CompactButtonLabel(loading: bool, child: ChildRow): (r: string)
    ensures loading ==> r == "Updating..."
    ensures !loading ==> (r == "Pause Newsletters" <==> Active(child))
    ensures !loading ==> (r == "Resume Newsletters" <==> !Active(child))
  {
    if loading then "Updating..." else if Active(child) then "Pause Newsletters" else "Resume Newsletters"
  }

  // ------------------------------------------------------------ age and grade

  /** `child.grade || 'Grade not specified'`. */
  function GradeText(grade: Option<string>): (r: string)
    ensures grade.Some? && grade.value != "" ==> r == grade.value
    ensures grade.None? || grade.value == "" ==> r == "Grade not specified"
  {
    if grade.Some? && grade.value != "" then grade.value else "Grade not specified"
  }

  const Bullet: string := "\U{2022}"

  /** The dashboard card's age line as written: the separator is the
      misread form of the bullet. */
  function AgeLineAsWritten(child: ChildRow): string {
    "Age " + IntToString(child.age) + " \U{00E2}\U{20AC}\U{00A2} " + GradeText(child.grade)
  }

  /** The dashboard card's age line with the intended bullet, the separator
      the compact card uses. */
  function AgeLine(child: ChildRow): (r: string)
    ensures Contains(r, Bullet + " " + GradeText(child.grade))
    ensures |r| >= 4 && r[..4] == "Age " && ParseInt(r[4..]) == Int(child.age)
  {
    var tail := " " + Bullet + " " + GradeText(child.grade);
    var r := "Age " + IntToString(child.age) + tail;
    assert r == "Age " + IntToString(child.age) + " " + (Bullet + " " + GradeText(child.grade));
    ContainsSuffix("Age " + IntToString(child.age) + " ", Bullet + " " + GradeText(child.grade));
    assert r[4..] == IntToString(child.age) + tail;
    ParseIntToStringThen(child.age, tail);
    r
  }

  /** The age line as written has the misread bullet where the intended one
      belongs. */
  lemma AgeLineMisread(child: ChildRow)
    ensures AgeLineAsWritten(child) ==
      "Age " + IntToString(child.age) + " " + Misread(Bullet) + " " + GradeText(child.grade)
    ensures AgeLineAsWritten(child) != AgeLine(child)
  {
    BulletMisread();
    var a := "Age " + IntToString(child.age);
    var g := GradeText(child.grade);
    var written := " \U{00E2}\U{20AC}\U{00A2} ";
    var intended := " " + Bullet + " " + g;
    assert AgeLineAsWritten(child) == a + written + g;
    assert a + " " + Misread(Bullet) + " " + g == a + written + g;
    assert AgeLine(child) == a + intended;
    assert (a + written + g)[|a| + 1] == written[1];
    assert (a + intended)[|a| + 1] == intended[1];
  }

  /** The compact card's age line: `Age <n>` and, when there is a grade,
      `• <grade>`. */
  function CompactAgeLine(child: ChildRow): (r: string)
    ensures |r| >= 4 && r[..4] == "Age "
    ensures child.grade.Some? && child.grade.value != "" ==> Contains(r, Bullet + " " + child.grade.value)
  {
    var gradePart := if child.grade.Some? && child.grade.value != "" then Bullet + " " + child.grade.value else "";
    ContainsSuffix("Age " + IntToString(child.age) + " ", gradePart);
    "Age " + IntToString(child.age) + " " + gradePart
  }

  /** The compact card shows the interests block only for a non-empty
      list (`Some(None)` is a card without the block). A `null` list makes
      `interests.length` throw while the card renders; the outer `None`
      marks that case and nothing is said about the page then. */
  function CompactInterests(interests: Option<seq<string>>): (r: Option<Option<Badges>>)
    ensures r.None? <==> interests.None?
    ensures r.Some? ==> (r.value.Some? <==> |interests.value| > 0)
    ensures r.Some? && r.value.Some? ==> r.value.value == InterestBadges(interests.value, CompactBadgeLimit)
  {
    match interests
    case None => None
    case Some(xs) => Some(if |xs| > 0 then Some(InterestBadges(xs, CompactBadgeLimit)) else None)
  }
}
