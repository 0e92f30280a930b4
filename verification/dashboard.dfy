/** The parent dashboard (`src/pages/ParentDashboard.tsx`): the lists of
    children and newsletters it holds, how they change when a child is
    added, when the lists are fetched and when a newsletter is generated,
    what each child's card is given, the capped list of recent
    newsletters, and the printable rendering of a newsletter. */
module ParentDashboard {
  import opened Wrappers
  import opened Strings
  import opened Schema
  import opened Render
  import opened NewsletterOrder
  import opened Encoding
  import opened Ui
  import SendNewsletter
  import GenerateNewsletter

  datatype Dashboard = Dashboard(
    children: seq<ChildRow>,
    newsletters: seq<NewsletterRow>,
    loading: bool,
    addingChild: bool,
    generating: Option<string>)   // the id of the child whose newsletter is being generated

  const Initial: Dashboard := Dashboard([], [], true, false, None)

  // ------------------------------------------------------------ the lists

  const FetchChildrenFailed: Toast := Toast("Error", "Failed to fetch children", true)

  /** `fetchChildren`: the fetched rows replace the list (`data || []`); on a
      store error the list stays as it was and an error toast is shown.
      Either way loading ends. */
  function ChildrenFetched(d: Dashboard, fetched: Option<seq<ChildRow>>): (r: (Dashboard, Option<Toast>))
    ensures !r.0.loading
    ensures r.0.children == (if fetched.Some? then fetched.value else d.children)
    ensures r.0.newsletters == d.newsletters && r.0.generating == d.generating
    ensures r.0.addingChild == d.addingChild
    ensures r.1.Some? <==> fetched.None?
    ensures r.1.Some? ==> r.1.value == FetchChildrenFailed && r.1.value.destructive
  {
    (d.(children := fetched.GetOr(d.children), loading := false),
     if fetched.Some? then None else Some(FetchChildrenFailed))
  }

  /** `fetchNewsletters`: the same for the newsletter list, which the store
      sends ordered by `created_at`, newest first. */
  function NewslettersFetched(d: Dashboard, fetched: Option<seq<NewsletterRow>>): (r: Dashboard)
    ensures r.newsletters == (if fetched.Some? then fetched.value else d.newsletters)
    ensures r.children == d.children && r.generating == d.generating && r.loading == d.loading
    ensures r.addingChild == d.addingChild
  {
    d.(newsletters := fetched.GetOr(d.newsletters))
  }

  /** `children.find(c => c.id === id)`. */
  function FindChild(children: seq<ChildRow>, id: string): (r: Option<ChildRow>)
    ensures r.None? <==> forall i | 0 <= i < |children| :: children[i].id != id
    ensures r.Some? ==> r.value in children && r.value.id == id
    decreases |children|
  {
    if |children| == 0 then None
    else if children[0].id == id then Some(children[0])
    else
      assert forall i | 1 <= i < |children| :: children[i] == children[1..][i - 1];
      FindChild(children[1..], id)
  }

  /** `handleChildAdded`: the new child goes in front, the dialog closes,
      and a toast names the child. */
  function ChildAdded(d: Dashboard, c: ChildRow): (r: (Dashboard, Toast))
    ensures |r.0.children| == |d.children| + 1 && r.0.children[0] == c && r.0.children[1..] == d.children
    ensures !r.0.addingChild
    ensures r.0.newsletters == d.newsletters && r.0.generating == d.generating
    ensures Contains(r.1.description, c.name) && !r.1.destructive
  {
    ContainsPrefix(c.name, " has been added!");
    (d.(children := [c] + d.children, addingChild := false),
     Toast("Success", c.name + " has been added!", false))
  }

  /** After an addition the new child is the one found under its id, and
      every other id finds what it found before. */
  lemma {:induction false} ChildAddedFind(d: Dashboard, c: ChildRow, id: string)
    ensures FindChild(ChildAdded(d, c).0.children, c.id) == Some(c)
    ensures id != c.id ==> FindChild(ChildAdded(d, c).0.children, id) == FindChild(d.children, id)
  {
    var cs := ChildAdded(d, c).0.children;
    assert cs[0] == c;
    assert cs[1..] == d.children;
  }

  // ------------------------------------------------------------ generating

  predicate IsGenerating(d: Dashboard, childId: string) {
    d.generating == Some(childId)
  }

  /** The start of `generateNewsletter`: the child is marked as generating. */
  function GenerateStarted(d: Dashboard, childId: string): (r: Dashboard)
    ensures forall id :: IsGenerating(r, id) <==> id == childId
    ensures r.children == d.children && r.newsletters == d.newsletters
  {
    d.(generating := Some(childId))
  }

  /** `supabase.functions.invoke` reports an error for any answer outside
      2xx, so only a 2xx answer of the function counts as success. */
  predicate InvokeSucceeded(response: GenerateNewsletter.Response) {
    response.JsonResponse? && 200 <= response.status < 300
  }

  /** The end of `generateNewsletter`: the mark is cleared whatever happened;
      on success the newsletter list is fetched again, on failure it stays. */
  function GenerateFinished(d: Dashboard, succeeded: bool,
                            refreshed: Option<seq<NewsletterRow>>): (r: (Dashboard, Toast))
    ensures r.0.generating.None?
    ensures forall id :: !IsGenerating(r.0, id)
    ensures r.0.children == d.children && r.0.loading == d.loading
    ensures succeeded ==> r.0.newsletters == (if refreshed.Some? then refreshed.value else d.newsletters)
    ensures !succeeded ==> r.0.newsletters == d.newsletters
    ensures r.1.destructive <==> !succeeded
  {
    if succeeded then
      (NewslettersFetched(d, refreshed).(generating := None),
       Toast("Newsletter Generated!", "The newsletter has been created successfully.", false))
    else
      (d.(generating := None), Toast("Error", "Failed to generate newsletter", true))
  }

  /** A generation round seen from the dashboard: the list is refreshed
      exactly when the function stored a newsletter and answered 200. */
  lemma GenerateRoundRefreshes(d: Dashboard, childId: string, child: Option<ChildRow>,
                               completion: GenerateNewsletter.CompletionOutcome, nowIso: string,
                               stored: StoreWrite<NewsletterRow>, refreshed: seq<NewsletterRow>)
    ensures
      var run := GenerateNewsletter.Handle(GenerateNewsletter.Request("POST", childId),
                                           child, completion, nowIso, stored);
      var r := GenerateFinished(GenerateStarted(d, childId), InvokeSucceeded(run.response),
                                Some(refreshed));
      && r.0.generating.None?
      && (run.inserted.Some? && stored.Stored? ==> r.0.newsletters == refreshed)
      && (!(run.inserted.Some? && stored.Stored?) ==> r.0.newsletters == d.newsletters)
      && (!r.1.destructive <==> run.inserted.Some? && stored.Stored?)
  {
  }

  // ------------------------------------------------------------ the cards

  /** What one child's card is handed. */
  datatype CardProps = CardProps(
    child: ChildRow,
    latest: Option<NewsletterRow>,
    canPrint: bool,
    isGenerating: bool)

  function CardFor(d: Dashboard, c: ChildRow): CardProps {
    var latest := FirstFor(d.newsletters, c.id);
    CardProps(c, latest, latest.Some?, IsGenerating(d, c.id))
  }

  /** One card per child, in list order; each gets the first newsletter of
      its child, a print action exactly when there is one, and the
      generating flag when it is the child being generated for. */
  function Cards(d: Dashboard): (r: seq<CardProps>)
    ensures |r| == |d.children|
    ensures forall i | 0 <= i < |r| :: r[i].child == d.children[i]
    ensures forall i | 0 <= i < |r| ::
      r[i].canPrint <==> exists k | 0 <= k < |d.newsletters| :: d.newsletters[k].childId == d.children[i].id
    ensures forall i | 0 <= i < |r| :: r[i].isGenerating <==> d.generating == Some(d.children[i].id)
    ensures forall i | 0 <= i < |r| :: r[i].latest.Some? ==>
      r[i].latest.value in d.newsletters && r[i].latest.value.childId == d.children[i].id
  {
    seq(|d.children|, i requires 0 <= i < |d.children| => CardFor(d, d.children[i]))
  }

  /** With the list in the order the store sends it, the newsletter a card
      shows is its child's newest. */
  lemma CardShowsNewest(d: Dashboard, i: nat)
    requires NewestFirst(d.newsletters) && i < |d.children|
    ensures Cards(d)[i].latest == Latest(d.newsletters, d.children[i].id)
  {
    FirstOfNewestFirstIsLatest(d.newsletters, d.children[i].id);
  }

  /** Only cards of a single child id show as generating. */
  lemma AtMostOneGenerating(d: Dashboard, i: nat, j: nat)
    requires i < |d.children| && j < |d.children|
    requires Cards(d)[i].isGenerating && Cards(d)[j].isGenerating
    ensures d.children[i].id == d.children[j].id
  {
  }

  // ------------------------------------------------------------ recent list

  const RecentLimit: nat := 10

  /** `newsletters.slice(0, 10)`. */
  function Recent(d: Dashboard): (r: seq<NewsletterRow>)
    ensures |r| <= RecentLimit && r <= d.newsletters
    ensures |r| == RecentLimit || r == d.newsletters
  {
    if |d.newsletters| <= RecentLimit then d.newsletters else d.newsletters[..RecentLimit]
  }

  /** With the list newest first, no newsletter left out of the recent list
      is newer than one in it. */
  lemma RecentAreNewest(d: Dashboard, i: nat, j: nat)
    requires NewestFirst(d.newsletters)
    requires i < |Recent(d)| && |Recent(d)| <= j < |d.newsletters|
    ensures RanksFirst(Recent(d)[i].createdAt, d.newsletters[j].createdAt)
  {
    assert Recent(d)[i] == d.newsletters[i];
  }

  // ------------------------------------------------------------ printing

  /** `${child?.name}` in a template literal: the name, or `undefined`. */
  function NameOrUndefined(child: Option<ChildRow>): string {
    if child.Some? then child.value.name else "undefined"
  }

  const Newspaper: string := "\U{1F4F0}"
  const Star: string := "\U{1F31F}"
  const Bullet: string := "\U{2022}"

  /** `printNewsletter` as the file has it: the emoji of the heading and of
      the greeting are stored in their misread form. */
  function PrintDocumentAsWritten(n: NewsletterRow, children: seq<ChildRow>): Document {
    var name := NameOrUndefined(FindChild(children, n.childId));
    Document(n.title,
             "\U{00F0}\U{0178}\U{201C}\U{00B0} " + n.title,
             "A personalized newsletter for " + name + "! \U{00F0}\U{0178}\U{0152}\U{0178}",
             NewlinesToBreaks(ContentText(n.content)), [])
  }

  /** `printNewsletter` with the intended emoji: the newsletter title as
      page title and, after the newspaper emoji, as heading; a greeting
      naming the child found for the newsletter; the text with newlines
      turned into line breaks. */
  function PrintDocument(n: NewsletterRow, children: seq<ChildRow>): (doc: Document)
    ensures doc.title == n.title && doc.heading == Newspaper + " " + n.title
    ensures doc.body == NewlinesToBreaks(ContentText(n.content))
    ensures FindChild(children, n.childId).Some? ==>
      Contains(doc.greeting, FindChild(children, n.childId).value.name)
    ensures doc.footer == []
  {
    var name := NameOrUndefined(FindChild(children, n.childId));
    var greeting := "A personalized newsletter for " + name + ("! " + Star);
    ContainsMiddle("A personalized newsletter for ", name, "! " + Star);
    Document(n.title, Newspaper + " " + n.title, greeting, NewlinesToBreaks(ContentText(n.content)), [])
  }

  /** The print heading and greeting as written are the intended ones after
      a UTF-8 to Windows-1252 misreading of their emoji, and so differ from
      them. */
  lemma PrintEmojiMisread(n: NewsletterRow, children: seq<ChildRow>)
    ensures PrintDocumentAsWritten(n, children).heading == Misread(Newspaper) + " " + n.title
    ensures PrintDocumentAsWritten(n, children).heading != PrintDocument(n, children).heading
    ensures
      var name := NameOrUndefined(FindChild(children, n.childId));
      && PrintDocumentAsWritten(n, children).greeting == "A personalized newsletter for " + name + "! " + Misread(Star)
      && PrintDocument(n, children).greeting == "A personalized newsletter for " + name + "! " + Star
  {
    NewspaperMisread();
    StarMisread();
    var h := PrintDocumentAsWritten(n, children).heading;
    assert h[0] != PrintDocument(n, children).heading[0];
  }

  /** The intended print view says what the e-mail says: the same title,
      the same heading and the same body for a newsletter. */
  lemma PrintMatchesEmail(n: NewsletterRow, children: seq<ChildRow>, name: string)
    ensures PrintDocument(n, children).title == SendNewsletter.EmailDocument(name, n).title
    ensures PrintDocument(n, children).heading == SendNewsletter.EmailDocument(name, n).heading
    ensures PrintDocument(n, children).body == SendNewsletter.EmailDocument(name, n).body
  {
  }

  /** What the generator stores is what the print and e-mail bodies read
      back: the completion's text, and the empty text when the model sent
      `null` content (`{text: null}` reads as `''`). */
  lemma GeneratedTextReadsBack(childId: string, title: string, content: Option<string>)
    ensures GenerateNewsletter.NewsletterFor(childId, title, content).content.Given?
    ensures ContentText(Some(GenerateNewsletter.NewsletterFor(childId, title, content).content.value)) ==
      content.GetOr("")
  {
  }

  /** The printed body gives back the newsletter's lines, as long as the
      text did not itself contain `<br>`. */
  lemma PrintBodyKeepsLines(n: NewsletterRow, children: seq<ChildRow>)
    requires !Contains(ContentText(n.content), BreakTag)
    ensures Split(PrintDocument(n, children).body, BreakTag) == Split(ContentText(n.content), "\n")
  {
    BreaksRoundTrip(ContentText(n.content));
  }

  /** The caption under a recent newsletter as written: `For <name> â€¢ <date>`
      (an unknown child renders as nothing in JSX). */
  function RecentCaptionAsWritten(n: NewsletterRow, children: seq<ChildRow>, date: string): string {
    var found := FindChild(children, n.childId);
    "For " + (if found.Some? then found.value.name else "") + " \U{00E2}\U{20AC}\U{00A2} " + date
  }

  /** The caption with the intended bullet between the child's name and
      the date. */
  function RecentCaption(n: NewsletterRow, children: seq<ChildRow>, date: string): (r: string)
    ensures FindChild(children, n.childId).Some? ==>
      Contains(r, FindChild(children, n.childId).value.name + " " + Bullet + " " + date)
  {
    var found := FindChild(children, n.childId);
    var name := if found.Some? then found.value.name else "";
    ContainsSuffix("For ", name + " " + Bullet + " " + date);
    assert "For " + name + " " + Bullet + " " + date == "For " + (name + " " + Bullet + " " + date);
    "For " + name + " " + Bullet + " " + date
  }

  /** The written caption carries the misread bullet where the intended
      one belongs. */
  lemma RecentCaptionMisread(n: NewsletterRow, children: seq<ChildRow>, date: string)
    ensures
      var found := FindChild(children, n.childId);
      var name := if found.Some? then found.value.name else "";
      && RecentCaptionAsWritten(n, children, date) == "For " + name + " " + Misread(Bullet) + " " + date
      && RecentCaption(n, children, date) == "For " + name + " " + Bullet + " " + date
      && RecentCaptionAsWritten(n, children, date) != RecentCaption(n, children, date)
  {
    BulletMisread();
    var found := FindChild(children, n.childId);
    var name := if found.Some? then found.value.name else "";
    var k := |"For " + name + " "|;
    assert RecentCaptionAsWritten(n, children, date)[k] == '\U{00E2}';
    assert RecentCaption(n, children, date)[k] == '\U{2022}';
  }
}
