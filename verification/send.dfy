/** The `send-newsletter` edge function: look up the child together with its
    parent's e-mail address, take the child's latest newsletter, render it
    as an HTML e-mail and hand that to the mail service. Each lookup that
    comes back empty ends the run with its own error message and status 500;
    anything the mail service returns is reported with status 200. */
module SendNewsletter {
  import opened Wrappers
  import opened Strings
  import opened Schema
  import opened Render
  import opened NewsletterOrder

  /** A `children` row with the embedded `parent:parent_id(email)` value. */
  datatype ChildWithParent = ChildWithParent(child: ChildRow, parentEmail: Option<string>)

  /** What the mail service handed back (`{data, error}`); the function does
      not look inside it. */
  datatype MailReply = MailReply(id: Option<string>, error: Option<string>)

  /** The mail call: a reply, or the message of what it threw. */
  datatype MailOutcome = Returned(reply: MailReply) | Threw(message: string)

  /** The message given to the mail service. */
  datatype Email = Email(sender: string, to: seq<string>, subject: string, html: Document)

  const Sender: string := "Kids Newsletter <newsletters@kidsnewsletter.com>"

  const ChildNotFound: string := "Child not found"
  const NoNewsletter: string := "No newsletter found"
  const NoParentEmail: string := "Parent email not found"

  /** The e-mail subject line for a child. */
  function Subject(name: string): string {
    "📰 " + name + "'s Daily Discovery Newsletter"
  }

  /** The HTML document of the e-mail: the newsletter title as page title
      and heading, a greeting naming the child, the stored text with its
      newlines turned into line breaks, and two footer lines naming the
      child. */
  function EmailDocument(name: string, newsletter: NewsletterRow): (d: Document)
    ensures d.title == newsletter.title
    ensures d.body == NewlinesToBreaks(ContentText(newsletter.content))
    ensures Contains(d.heading, newsletter.title) && Contains(d.greeting, name)
    ensures |d.footer| == 2 && Contains(d.footer[0], name) && Contains(d.footer[1], name)
  {
    var heading := "📰 " + newsletter.title;
    var greeting := "A personalized newsletter just for " + name + "! 🌟";
    var made := "Made with ❤️ for " + name + " • Kids Newsletter";
    var based := "This newsletter was created based on " + name + "'s interests and age.";
    ContainsSuffix("📰 ", newsletter.title);
    ContainsMiddle("A personalized newsletter just for ", name, "! 🌟");
    ContainsMiddle("Made with ❤️ for ", name, " • Kids Newsletter");
    ContainsMiddle("This newsletter was created based on ", name, "'s interests and age.");
    Document(newsletter.title, heading, greeting,
             NewlinesToBreaks(ContentText(newsletter.content)), [made, based])
  }

  datatype Request = Request(verb: string, childId: string)

  datatype Body =
    | Sent(reply: MailReply)     // {success: true, emailResponse}
    | Failure(error: string)     // {error: message}

  datatype Response = Preflight | JsonResponse(status: int, body: Body)

  /** The external calls a run made, in order. */
  datatype Step = ReadChild | ReadNewsletters | SendMail

  /** One invocation: the response, the e-mail handed to the mail service
      (if any) and the calls made. */
  datatype Run = Run(response: Response, email: Option<Email>, steps: seq<Step>)

  function Fail(message: string, steps: seq<Step>): Run {
    Run(JsonResponse(500, Failure(message)), None, steps)
  }

  /** `!parentEmail`: a missing or empty address. */
  predicate HasAddress(email: Option<string>) {
    email.Some? && email.value != ""
  }

  /** The request handler. `child` is the child lookup (`None` when the store
      reported an error or no row), `newsletters` the newsletters table as
      the ordered query sees it (`None` when the store reported an error),
      `mail` the mail service's answer. */
  function Handle(req: Request, child: Option<ChildWithParent>,
                  newsletters: Option<seq<NewsletterRow>>, mail: MailOutcome): (r: Run)
    ensures req.verb == "OPTIONS" ==> r.response == Preflight && r.steps == []
    ensures req.verb != "OPTIONS" ==> r.response.JsonResponse? && |r.steps| >= 1
    ensures req.verb != "OPTIONS" && child.None? ==>
      r == Fail(ChildNotFound, [ReadChild])
    ensures req.verb != "OPTIONS" && child.Some? &&
            (newsletters.None? || Latest(newsletters.value, req.childId).None?) ==>
      r == Fail(NoNewsletter, [ReadChild, ReadNewsletters])
    ensures req.verb != "OPTIONS" && child.Some? && newsletters.Some? &&
            Latest(newsletters.value, req.childId).Some? && !HasAddress(child.value.parentEmail) ==>
      r == Fail(NoParentEmail, [ReadChild, ReadNewsletters])
    ensures r.email.Some? <==>
      && req.verb != "OPTIONS" && child.Some? && newsletters.Some?
      && Latest(newsletters.value, req.childId).Some? && HasAddress(child.value.parentEmail)
    ensures r.email.Some? ==>
      var latest := Latest(newsletters.value, req.childId).value;
      && r.email.value.sender == Sender
      && r.email.value.to == [child.value.parentEmail.value]
      && r.email.value.subject == Subject(child.value.child.name)
      && r.email.value.html == EmailDocument(child.value.child.name, latest)
    ensures r.response.JsonResponse? ==>
      (r.response.status == 200 <==> r.email.Some? && mail.Returned?) &&
      (r.response.status == 500 <==> r.response.body.Failure?)
    ensures r.email.Some? && mail.Returned? ==> r.response == JsonResponse(200, Sent(mail.reply))
    ensures r.email.Some? && mail.Threw? ==> r.response == JsonResponse(500, Failure(mail.message))
    ensures (SendMail in r.steps) <==> r.email.Some?
    ensures r.steps <= [ReadChild, ReadNewsletters, SendMail]
  {
    if req.verb == "OPTIONS" then Run(Preflight, None, [])
    else if child.None? then Fail(ChildNotFound, [ReadChild])
    else if newsletters.None? then Fail(NoNewsletter, [ReadChild, ReadNewsletters])
    else
      match Latest(newsletters.value, req.childId)
      case None => Fail(NoNewsletter, [ReadChild, ReadNewsletters])
      case Some(latest) =>
        var address := child.value.parentEmail;
        if !HasAddress(address) then Fail(NoParentEmail, [ReadChild, ReadNewsletters])
        else
          var name := child.value.child.name;
          var email := Email(Sender, [address.value], Subject(name), EmailDocument(name, latest));
          var steps := [ReadChild, ReadNewsletters, SendMail];
          match mail
          case Returned(reply) => Run(JsonResponse(200, Sent(reply)), Some(email), steps)
          case Threw(message) => Run(JsonResponse(500, Failure(message)), Some(email), steps)
  }

  /** The newsletter mailed is the child's newest: no other newsletter of the
      child was created later, and one without a creation time wins. */
  lemma MailsNewest(req: Request, child: Option<ChildWithParent>,
                    newsletters: Option<seq<NewsletterRow>>, mail: MailOutcome, n: NewsletterRow)
    requires Handle(req, child, newsletters, mail).email.Some?
    requires n in newsletters.value && n.childId == req.childId
    ensures
      var sent := Handle(req, child, newsletters, mail).email.value.html;
      exists m | m in newsletters.value ::
        m.childId == req.childId && m.title == sent.title && RanksFirst(m.createdAt, n.createdAt)
  {
    var latest := Latest(newsletters.value, req.childId).value;
    assert latest in newsletters.value;
  }

  /** The e-mail body gives back the newsletter's lines: split on `<br>` it
      is the stored text split on newlines, as long as the text did not
      itself contain `<br>`. */
  lemma MailedBodyKeepsLines(req: Request, child: Option<ChildWithParent>,
                             newsletters: Option<seq<NewsletterRow>>, mail: MailOutcome)
    requires Handle(req, child, newsletters, mail).email.Some?
    requires !Contains(ContentText(Latest(newsletters.value, req.childId).value.content), BreakTag)
    ensures
      var text := ContentText(Latest(newsletters.value, req.childId).value.content);
      Split(Handle(req, child, newsletters, mail).email.value.html.body, BreakTag) == Split(text, "\n")
  {
    BreaksRoundTrip(ContentText(Latest(newsletters.value, req.childId).value.content));
  }

  /** The checks run in order and the first that fails decides the answer:
      once the child is missing, the newsletters and the mail service make
      no difference; once the newsletter is missing, the address and the
      mail service make none. */
  lemma FirstFailureDecides(req: Request, p: ChildWithParent, q: ChildWithParent,
                            ns: Option<seq<NewsletterRow>>, ms: Option<seq<NewsletterRow>>,
                            a: MailOutcome, b: MailOutcome)
    ensures Handle(req, None, ns, a) == Handle(req, None, ms, b)
    ensures (ns.None? || Latest(ns.value, req.childId).None?) ==>
      Handle(req, Some(p), ns, a) == Handle(req, Some(q), ns, b)
    ensures !HasAddress(p.parentEmail) && !HasAddress(q.parentEmail) ==>
      Handle(req, Some(p), ns, a) == Handle(req, Some(q), ns, b)
  {
  }
}
