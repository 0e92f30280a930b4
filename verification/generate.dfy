/** The `generate-newsletter` serverless function: read the child, build
    the prompt, ask the language model for a completion, store the
    completion as a new newsletter whose title carries today's date, and
    answer with the stored row. The store, the model and the clock are
    inputs: the child lookup result, the completion outcome, the current
    ISO timestamp and the outcome of the insert. */
module GenerateNewsletter {
  import opened Wrappers
  import opened Strings
  import opened Numbers
  import opened Schema

  const NotSpecified: string := "Not specified"

  /** `value || 'Not specified'`: a missing or empty value is replaced. */
  function OrNotSpecified(value: Option<string>): (r: string)
    ensures value.None? || value.value == "" ==> r == NotSpecified
    ensures value.Some? && value.value != "" ==> r == value.value
  {
    if value.Some? && value.value != "" then value.value else NotSpecified
  }

  /** The fixed closing part of the prompt: the five requested sections and
      the formatting instruction, each line indented by four spaces. */
  const PromptInstructions: string :=
    "    \n" +
    "    Create content that includes:\n" +
    "    1. A fun science fact related to their interests\n" +
    "    2. A math puzzle or brain teaser appropriate for their age\n" +
    "    3. A short story or fun fact about one of their interests\n" +
    "    4. A creative activity they can do at home\n" +
    "    5. A \"Did You Know?\" section with an amazing fact\n" +
    "    \n" +
    "    Format this as a structured newsletter with clear sections. Keep the language age-appropriate and engaging. Make it printable-friendly with simple formatting."

  function NameAndAge(child: ChildRow): string {
    child.name + ", age " + IntToString(child.age) + "."
  }

  function InterestsField(child: ChildRow): string
    requires child.interests.Some?
  {
    "Child's interests: " + Join(child.interests.value, ", ")
  }

  function ShowsField(child: ChildRow): string {
    "Favorite shows: " + OrNotSpecified(child.favoriteShows)
  }

  function HobbiesField(child: ChildRow): string {
    "Hobbies: " + OrNotSpecified(child.hobbies)
  }

  function GradeField(child: ChildRow): string {
    "Grade: " + OrNotSpecified(child.grade)
  }

  /** The prompt from the grade line on. */
  function GradeTail(child: ChildRow): string {
    "\n    " + GradeField(child) + ("\n" + PromptInstructions)
  }

  /** The prompt from the hobbies line on. */
  function HobbiesTail(child: ChildRow): string {
    "\n    " + HobbiesField(child) + GradeTail(child)
  }

  /** The prompt from the favourite-shows line on. */
  function ShowsTail(child: ChildRow): string {
    "\n    " + ShowsField(child) + HobbiesTail(child)
  }

  /** The prompt from the interests line on. */
  function InterestsTail(child: ChildRow): string
    requires child.interests.Some?
  {
    " \n    \n    " + InterestsField(child) + ShowsTail(child)
  }

  /** The user prompt, line for line as the template literal writes it.
      `interests.join` needs a list: a child whose `interests` column is
      null makes the function fail before this point. */
  function BuildPrompt(child: ChildRow): string
    requires child.interests.Some?
  {
    "Create a fun, educational newsletter for " + NameAndAge(child) + InterestsTail(child)
  }

  /** The prompt names the child followed by `, age <age>`. */
  lemma PromptNamesChild(child: ChildRow)
    requires child.interests.Some?
    ensures Contains(BuildPrompt(child), child.name + ", age " + IntToString(child.age) + ".")
  {
    ContainsMiddle("Create a fun, educational newsletter for ", NameAndAge(child), InterestsTail(child));
  }

  /** The tails are substrings of the prompt, each of the one before. */
  lemma PromptTails(child: ChildRow)
    requires child.interests.Some?
    ensures Contains(BuildPrompt(child), InterestsTail(child))
    ensures Contains(BuildPrompt(child), ShowsTail(child))
    ensures Contains(BuildPrompt(child), HobbiesTail(child))
    ensures Contains(BuildPrompt(child), GradeTail(child))
  {
    var p := BuildPrompt(child);
    ContainsSuffix("Create a fun, educational newsletter for " + NameAndAge(child), InterestsTail(child));
    ContainsSuffix(" \n    \n    " + InterestsField(child), ShowsTail(child));
    ContainsTransitive(p, InterestsTail(child), ShowsTail(child));
    ContainsSuffix("\n    " + ShowsField(child), HobbiesTail(child));
    ContainsTransitive(p, ShowsTail(child), HobbiesTail(child));
    ContainsSuffix("\n    " + HobbiesField(child), GradeTail(child));
    ContainsTransitive(p, HobbiesTail(child), GradeTail(child));
  }

  /** The interests appear in their original order, each one verbatim and
      neighbours joined by exactly `", "`. */
  lemma PromptListsInterests(child: ChildRow, i: nat)
    requires child.interests.Some? && i < |child.interests.value|
    ensures Contains(BuildPrompt(child), "Child's interests: " + Join(child.interests.value, ", "))
    ensures Contains(BuildPrompt(child), child.interests.value[i])
    ensures i + 1 < |child.interests.value| ==>
      Contains(BuildPrompt(child), child.interests.value[i] + ", " + child.interests.value[i + 1])
  {
    var p := BuildPrompt(child);
    var xs := child.interests.value;
    var joined := Join(xs, ", ");
    PromptTails(child);
    ContainsMiddle(" \n    \n    ", InterestsField(child), ShowsTail(child));
    ContainsTransitive(p, InterestsTail(child), InterestsField(child));
    ContainsSuffix("Child's interests: ", joined);
    ContainsTransitive(p, InterestsField(child), joined);
    JoinContainsPart(xs, ", ", i);
    ContainsTransitive(p, joined, xs[i]);
    if i + 1 < |xs| {
      JoinContainsPair(xs, ", ", i);
      ContainsTransitive(p, joined, xs[i] + ", " + xs[i + 1]);
    }
  }

  /** Favourite shows, hobbies and grade appear verbatim when present and
      non-empty, and as `Not specified` otherwise. */
  lemma PromptFallbacks(child: ChildRow)
    requires child.interests.Some?
    ensures Contains(BuildPrompt(child), "Favorite shows: " + OrNotSpecified(child.favoriteShows))
    ensures Contains(BuildPrompt(child), "Hobbies: " + OrNotSpecified(child.hobbies))
    ensures Contains(BuildPrompt(child), "Grade: " + OrNotSpecified(child.grade))
  {
    var p := BuildPrompt(child);
    PromptTails(child);
    ContainsMiddle("\n    ", ShowsField(child), HobbiesTail(child));
    ContainsTransitive(p, ShowsTail(child), ShowsField(child));
    ContainsMiddle("\n    ", HobbiesField(child), GradeTail(child));
    ContainsTransitive(p, HobbiesTail(child), HobbiesField(child));
    ContainsMiddle("\n    ", GradeField(child), "\n" + PromptInstructions);
    ContainsTransitive(p, GradeTail(child), GradeField(child));
  }

  // ------------------------------------------------------------- the title

  /** A UTC instant as `Date.prototype.toISOString` prints it. */
  datatype Instant = Instant(year: int, month: nat, day: nat, hour: nat, minute: nat,
                             second: nat, millisecond: nat)

  predicate ValidInstant(t: Instant) {
    1 <= t.month <= 12 && 1 <= t.day <= 31 && t.hour < 24 && t.minute < 60 &&
    t.second < 60 && t.millisecond < 1000
  }

  /** Four digits for years 0 to 9999; a sign and six digits otherwise. */
  function YearText(year: int): string {
    if 0 <= year <= 9999 then ZeroPad(year, 4)
    else if year < 0 then "-" + ZeroPad(-year, 6)
    else "+" + ZeroPad(year, 6)
  }

  /** The calendar-date part `YYYY-MM-DD`. */
  function DateText(t: Instant): string {
    YearText(t.year) + "-" + ZeroPad(t.month, 2) + "-" + ZeroPad(t.day, 2)
  }

  /** `toISOString()`: `YYYY-MM-DDTHH:mm:ss.sssZ`. */
  function IsoString(t: Instant): string {
    DateText(t) + "T" + ZeroPad(t.hour, 2) + ":" + ZeroPad(t.minute, 2) + ":" +
    ZeroPad(t.second, 2) + "." + ZeroPad(t.millisecond, 3) + "Z"
  }

  /** `iso.split('T')[0]`. */
  function DatePart(iso: string): string {
    Split(iso, "T")[0]
  }

  /** `<name>'s Daily Discovery - <date part of the timestamp>`. */
  function NewsletterTitle(name: string, nowIso: string): string {
    name + "'s Daily Discovery - " + DatePart(nowIso)
  }

  lemma DateTextHasNoT(t: Instant)
    ensures 'T' !in DateText(t)
  {
  }

  /** The title carries the calendar date of the instant the function runs,
      without the time; for years 0 to 9999 that date has the ten characters
      of `YYYY-MM-DD`. */
  lemma TitleCarriesDate(name: string, t: Instant)
    ensures NewsletterTitle(name, IsoString(t)) == name + "'s Daily Discovery - " + DateText(t)
    ensures ValidInstant(t) && 0 <= t.year <= 9999 ==>
      |DateText(t)| == 10 && DateText(t)[4] == '-' && DateText(t)[7] == '-'
  {
    var rest := ZeroPad(t.hour, 2) + ":" + ZeroPad(t.minute, 2) + ":" +
      ZeroPad(t.second, 2) + "." + ZeroPad(t.millisecond, 3) + "Z";
    assert IsoString(t) == DateText(t) + ['T'] + rest;
    DateTextHasNoT(t);
    SplitFirstPiece(DateText(t), 'T', rest);
    if ValidInstant(t) && 0 <= t.year <= 9999 {
      assert Pow10(2) == 100 && Pow10(4) == 10000;
    }
  }

  // ---------------------------------------------------- the model request

  datatype ChatMessage = ChatMessage(role: string, content: string)

  /** The JSON body posted to the chat-completions endpoint. */
  datatype CompletionRequest = CompletionRequest(
    model: string, messages: seq<ChatMessage>, maxTokens: nat, temperature: real)

  const SystemInstruction: string :=
    "You are a creative educational content writer who specializes in creating engaging, age-appropriate newsletters for children. Your content should be fun, educational, and inspire curiosity."

  function RequestFor(prompt: string): CompletionRequest {
    CompletionRequest("gpt-4o-mini",
      [ChatMessage("system", SystemInstruction), ChatMessage("user", prompt)], 2000, 0.8)
  }

  /** What the model call produced: `choices[0].message.content` (`None`
      when the reply's message carries `null` content), or the message of
      whatever was thrown on the way (network failure, a body that is not
      JSON, a response without choices). */
  datatype CompletionOutcome = Completion(content: Option<string>) | CompletionFailed(message: string)

  // ------------------------------------------------------------ the handler

  datatype Request = Request(verb: string, childId: string)

  datatype Body =
    | Generated(newsletter: NewsletterRow, content: Option<string>)   // {success: true, newsletter, content}
    | Failure(error: string)                                  // {error: message}

  datatype Response = Preflight | JsonResponse(status: int, body: Body)

  /** The external calls a run made, in order. */
  datatype Step = ReadChild | CallModel | InsertNewsletter

  /** One invocation: the response, the request sent to the model (if any),
      the row handed to the store (if any), and the calls made. */
  datatype Run = Run(
    response: Response,
    modelRequest: Option<CompletionRequest>,
    inserted: Option<NewsletterInsert>,
    steps: seq<Step>)

  const ChildNotFound: string := "Child not found"

  /** What V8 throws for `null.join(...)`. */
  const NullInterestsMessage: string := "Cannot read properties of null (reading 'join')"

  function Fail(message: string, modelRequest: Option<CompletionRequest>, steps: seq<Step>): Run {
    Run(JsonResponse(500, Failure(message)), modelRequest, None, steps)
  }

  /** The row the function inserts: child id, derived title and the
      completion in its envelope (`{text: null}` for a `null` completion),
      every other column left to the store. */
  function NewsletterFor(childId: string, title: string, content: Option<string>): NewsletterInsert {
    NewsletterInsert(childId, title, Given(Envelope(content)), None, Omitted, Omitted, Omitted)
  }

  /** The request handler. `child` is the lookup result (`None` when the
      store reported an error or no row), `completion` the model call,
      `nowIso` the clock, `stored` the store's answer to the insert. */
  function Handle(req: Request, child: Option<ChildRow>, completion: CompletionOutcome,
                  nowIso: string, stored: StoreWrite<NewsletterRow>): (r: Run)
    ensures req.verb == "OPTIONS" ==> r.response == Preflight && r.steps == []
    ensures req.verb != "OPTIONS" && child.None? ==>
      r.response == JsonResponse(500, Failure(ChildNotFound)) && r.steps == [ReadChild] &&
      r.modelRequest.None? && r.inserted.None?
    ensures r.modelRequest.Some? <==>
      req.verb != "OPTIONS" && child.Some? && child.value.interests.Some?
    ensures req.verb != "OPTIONS" ==> r.response.JsonResponse?
    ensures req.verb != "OPTIONS" && child.Some? && child.value.interests.None? ==>
      r == Fail(NullInterestsMessage, None, [ReadChild])
    ensures r.modelRequest.Some? ==>
      var m := r.modelRequest.value.messages;
      && r.modelRequest.value.model == "gpt-4o-mini"
      && |m| == 2 && m[0] == ChatMessage("system", SystemInstruction)
      && m[1] == ChatMessage("user", BuildPrompt(child.value))
      && r.modelRequest.value.maxTokens == 2000 && r.modelRequest.value.temperature == 0.8
    ensures r.modelRequest.Some? && completion.CompletionFailed? ==>
      r == Fail(completion.message, r.modelRequest, [ReadChild, CallModel])
    ensures r.inserted.Some? <==> r.modelRequest.Some? && completion.Completion?
    ensures r.inserted.Some? ==>
      r.inserted.value.childId == req.childId &&
      r.inserted.value.title == NewsletterTitle(child.value.name, nowIso) &&
      r.inserted.value.content == Given(Envelope(completion.content))
    ensures r.inserted.Some? ==> r.steps == [ReadChild, CallModel, InsertNewsletter]
    ensures r.inserted.Some? && stored.StoreFailed? ==>
      r.response == JsonResponse(500, Failure(stored.message))
    ensures r.response.JsonResponse? ==>
      (r.response.status == 200 <==> r.response.body.Generated?) &&
      (r.response.status == 500 <==> r.response.body.Failure?)
    ensures r.response.JsonResponse? && r.response.body.Generated? <==> r.inserted.Some? && stored.Stored?
    ensures r.response.JsonResponse? && r.response.body.Generated? ==>
      r.response.body == Generated(stored.row, completion.content)
    ensures r.steps <= [ReadChild, CallModel, InsertNewsletter]
  {
    if req.verb == "OPTIONS" then Run(Preflight, None, None, [])
    else if child.None? then Fail(ChildNotFound, None, [ReadChild])
    else if child.value.interests.None? then Fail(NullInterestsMessage, None, [ReadChild])
    else
      var request := RequestFor(BuildPrompt(child.value));
      match completion
      case CompletionFailed(message) => Fail(message, Some(request), [ReadChild, CallModel])
      case Completion(content) =>
        var row := NewsletterFor(req.childId, NewsletterTitle(child.value.name, nowIso), content);
        match stored
        case StoreFailed(message) =>
          Run(JsonResponse(500, Failure(message)), Some(request), Some(row),
              [ReadChild, CallModel, InsertNewsletter])
        case Stored(newsletter) =>
          Run(JsonResponse(200, Generated(newsletter, content)), Some(request), Some(row),
              [ReadChild, CallModel, InsertNewsletter])
  }

  /** The checks run in order and the first failure decides the answer:
      with the child missing, or its interest list `null`, neither the
      model, the clock nor the store makes any difference, and the model is
      never called; once the model call fails, the clock and the store make
      none. */
  lemma FirstFailureDecides(req: Request, child: Option<ChildRow>,
                            c: CompletionOutcome, d: CompletionOutcome,
                            nowIso: string, laterIso: string,
                            s: StoreWrite<NewsletterRow>, t: StoreWrite<NewsletterRow>)
    requires req.verb != "OPTIONS"
    ensures child.None? || child.value.interests.None? ==>
      && Handle(req, child, c, nowIso, s) == Handle(req, child, d, laterIso, t)
      && Handle(req, child, c, nowIso, s).modelRequest.None?
      && Handle(req, child, c, nowIso, s).steps == [ReadChild]
    ensures c.CompletionFailed? && d == c ==>
      && Handle(req, child, c, nowIso, s) == Handle(req, child, d, laterIso, t)
      && Handle(req, child, c, nowIso, s).inserted.None?
  {
  }

  const Emma: ChildRow :=
    ChildRow("c1", "p1", "Emma", 9, Some("3rd Grade"), Some(["Space & Astronomy", "Animals"]),
             None, None, Daily, Some(true), None, None)

  /** The worked example: Emma, 9, interested in space and animals. */
  lemma EmmaPrompt()
    ensures Contains(BuildPrompt(Emma), "Space & Astronomy, Animals")
    ensures Contains(BuildPrompt(Emma), "age 9")
  {
    SpaceAndAnimals(Emma);
    AgeNine(Emma);
  }

  lemma SpaceAndAnimals(child: ChildRow)
    requires child.interests == Some(["Space & Astronomy", "Animals"])
    ensures Contains(BuildPrompt(child), "Space & Astronomy, Animals")
  {
    var xs := child.interests.value;
    PromptListsInterests(child, 0);
    assert xs[0] + ", " + xs[1] == "Space & Astronomy, Animals";
  }

  lemma AgeNine(child: ChildRow)
    requires child.age == 9 && child.interests.Some?
    ensures Contains(BuildPrompt(child), "age 9")
  {
    PromptNamesChild(child);
    assert IntToString(9) == "9";
    var name := child.name + ", ";
    assert NameAndAge(child) == name + "age 9" + ".";
    ContainsMiddle(name, "age 9", ".");
    ContainsTransitive(BuildPrompt(child), NameAndAge(child), "age 9");
  }

  lemma Digits2024()
    ensures NatToString(2024) == "2024"
  {
    assert NatToString(2) == "2";
    assert NatToString(20) == NatToString(2) + "0";
    assert NatToString(202) == NatToString(20) + "2";
  }

  lemma Year2024()
    ensures YearText(2024) == "2024"
  {
    Digits2024();
    assert ZeroPad(2024, 4) == NatToString(2024);
  }

  lemma Pad03()
    ensures ZeroPad(3, 2) == "03"
  {
    assert NatToString(3) == "3";
    assert seq(1, _ => '0') == "0";
  }

  lemma Pad15()
    ensures ZeroPad(15, 2) == "15"
  {
    assert NatToString(1) == "1";
  }

  lemma MarchFifteenth(t: Instant)
    requires t.year == 2024 && t.month == 3 && t.day == 15
    ensures DateText(t) == "2024-03-15"
  {
    Year2024();
    Pad03();
    Pad15();
  }

  /** At any moment of 2024-03-15 the title is `Emma's Daily Discovery - 2024-03-15`. */
  lemma EmmaTitle(t: Instant)
    requires t.year == 2024 && t.month == 3 && t.day == 15
    ensures NewsletterTitle("Emma", IsoString(t)) == "Emma's Daily Discovery - 2024-03-15"
  {
    MarchFifteenth(t);
    TitleCarriesDate("Emma", t);
  }

  /** A successful completion `SCIENCE: ...` is stored under that title, in
      its envelope, and the response reports the stored row. */
  lemma EmmaRun(stored: NewsletterRow)
    ensures
      var now := IsoString(Instant(2024, 3, 15, 10, 30, 0, 0));
      var r := Handle(Request("POST", "c1"), Some(Emma), Completion(Some("SCIENCE: ...")), now, Stored(stored));
      && r.inserted == Some(NewsletterFor("c1", "Emma's Daily Discovery - 2024-03-15", Some("SCIENCE: ...")))
      && r.inserted.value.content == Given(Envelope(Some("SCIENCE: ...")))
      && r.response == JsonResponse(200, Generated(stored, Some("SCIENCE: ...")))
  {
    EmmaTitle(Instant(2024, 3, 15, 10, 30, 0, 0));
  }
}
