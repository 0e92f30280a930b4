/** The sign-in page (`src/pages/Auth.tsx`). Two flags choose what the page
    is for: `resetMode` (send a password-reset e-mail) and `isSignUp`
    (create an account rather than sign in). Reset mode takes priority in
    everything the page shows and does. */
module AuthPage {
  import opened Wrappers
  import opened Ui

  datatype Mode = Mode(isSignUp: bool, resetMode: bool)

  /** The page opens in sign-up mode. */
  const InitialMode: Mode := Mode(true, false)

  /** The purpose the flags select, in priority order. */
  datatype Purpose = Reset | SignUp | SignIn

  function PurposeOf(m: Mode): (p: Purpose)
    ensures p == Reset <==> m.resetMode
    ensures p == SignUp <==> !m.resetMode && m.isSignUp
    ensures p == SignIn <==> !m.resetMode && !m.isSignUp
  {
    if m.resetMode then Reset else if m.isSignUp then SignUp else SignIn
  }

  /** The call a submit makes. */
  datatype Call =
    | ResetPassword(email: string)
    | CreateAccount(email: string, password: string, parentName: string)
    | SignInWith(email: string, password: string)

  datatype Fields = Fields(email: string, password: string, parentName: string)

  /** The dispatch of `handleSubmit`: reset first, then sign-up, then sign-in;
      each call gets only the fields it uses. */
  function CallFor(m: Mode, f: Fields): (c: Call)
    ensures c.ResetPassword? <==> PurposeOf(m) == Reset
    ensures c.CreateAccount? <==> PurposeOf(m) == SignUp
    ensures c.SignInWith? <==> PurposeOf(m) == SignIn
    ensures c.email == f.email
  {
    match PurposeOf(m)
    case Reset => ResetPassword(f.email)
    case SignUp => CreateAccount(f.email, f.password, f.parentName)
    case SignIn => SignInWith(f.email, f.password)
  }

  /** The page state between events. */
  datatype Page = Page(mode: Mode, loading: bool)

  const InitialPage: Page := Page(InitialMode, false)

  /** Pressing submit: `loading` is set before the call is made, which
      relabels and disables the button until the call has answered. */
  function Pressed(p: Page): (r: Page)
    ensures r.loading && r.mode == p.mode
  {
    p.(loading := true)
  }

  /** What a submit did: the page afterwards, the call made and the toast. */
  datatype Submission = Submission(page: Page, call: Call, toast: Toast)

  /** `handleSubmit` with the call's answer: the toast reports it, a
      successful reset returns to sign-in, and loading ends either way. */
  function Submit(p: Page, f: Fields, answer: Outcome): (r: Submission)
    ensures !r.page.loading
    ensures r.call == CallFor(p.mode, f)
    ensures r.toast.destructive <==> answer.Fail?
    ensures answer.Fail? ==> r.toast.description == answer.message && r.page.mode == p.mode
    ensures p.mode.resetMode && answer.Pass? ==> r.page.mode == p.mode.(resetMode := false)
    ensures !p.mode.resetMode ==> r.page.mode == p.mode
  {
    var call := CallFor(p.mode, f);
    match answer
    case Fail(message) => Submission(p.(loading := false), call, Toast("Error", message, true))
    case Pass =>
      match PurposeOf(p.mode)
      case Reset =>
        Submission(Page(p.mode.(resetMode := false), false), call,
                   Toast("Reset email sent!", "Check your email for password reset instructions.", false))
      case SignUp =>
        Submission(p.(loading := false), call,
                   Toast("Account created!", "Please check your email to verify your account.", false))
      case SignIn =>
        Submission(p.(loading := false), call,
                   Toast("Welcome back!", "You have successfully signed in.", false))
  }

  // ------------------------------------------------------------ the view

  function Heading(m: Mode): (r: string)
    ensures r == "Reset Password" <==> PurposeOf(m) == Reset
    ensures r == "Create Account" <==> PurposeOf(m) == SignUp
    ensures r == "Welcome Back" <==> PurposeOf(m) == SignIn
  {
    match PurposeOf(m)
    case Reset => "Reset Password"
    case SignUp => "Create Account"
    case SignIn => "Welcome Back"
  }

  function Subtitle(m: Mode): string {
    match PurposeOf(m)
    case Reset => "Enter your email to reset your password"
    case SignUp => "Sign up to create personalized newsletters for your child"
    case SignIn => "Sign in to manage your child's newsletters"
  }

  /** The submit button: `Loading...` while a call runs, else the purpose. */
  function SubmitLabel(p: Page): (r: string)
    ensures p.loading <==> r == "Loading..."
    ensures !p.loading ==> (r == "Send Reset Email" <==> PurposeOf(p.mode) == Reset)
    ensures !p.loading ==> (r == "Create Account" <==> PurposeOf(p.mode) == SignUp)
    ensures !p.loading ==> (r == "Sign In" <==> PurposeOf(p.mode) == SignIn)
  {
    if p.loading then "Loading..."
    else match PurposeOf(p.mode)
      case Reset => "Send Reset Email"
      case SignUp => "Create Account"
      case SignIn => "Sign In"
  }

  /** The name field is shown only for creating an account. */
  predicate ShowsNameField(m: Mode) {
    m.isSignUp && !m.resetMode
  }

  /** The password field is hidden only in reset mode. */
  predicate ShowsPasswordField(m: Mode) {
    !m.resetMode
  }

  /** The fields on screen are exactly the ones the call sends. */
  lemma FieldsMatchCall(m: Mode, f: Fields)
    ensures ShowsNameField(m) <==> CallFor(m, f).CreateAccount?
    ensures ShowsPasswordField(m) <==> !CallFor(m, f).ResetPassword?
  {
  }

  // ------------------------------------------------------------ the links

  /** The links under the form. */
  datatype Link = ToggleSignUp | ForgotPassword | BackToSignIn

  /** Which links the page shows: the sign-up/sign-in switch and (in sign-in
      mode) "Forgot your password?" outside reset mode, "Back to Sign In"
      inside it. */
  predicate Shows(m: Mode, l: Link) {
    match l
    case ToggleSignUp => !m.resetMode
    case ForgotPassword => !m.resetMode && !m.isSignUp
    case BackToSignIn => m.resetMode
  }

  /** Clicking a link; a link that is not on screen cannot be clicked. */
  function Click(m: Mode, l: Link): (r: Option<Mode>)
    ensures r.Some? <==> Shows(m, l)
    ensures r.Some? && l == ToggleSignUp ==> r.value == Mode(!m.isSignUp, false)
    ensures r.Some? && l == ForgotPassword ==> PurposeOf(r.value) == Reset
    ensures r.Some? && l == BackToSignIn ==> !r.value.resetMode && r.value.isSignUp == m.isSignUp
  {
    if !Shows(m, l) then None
    else match l
      case ToggleSignUp => Some(m.(isSignUp := !m.isSignUp))
      case ForgotPassword => Some(m.(resetMode := true))
      case BackToSignIn => Some(m.(resetMode := false))
  }

  /** The sign-up/sign-in switch: the question and the link that answers it
      name the mode a click leads to. */
  function ToggleTexts(m: Mode): (r: (string, string))
    ensures r.1 == "Sign In" <==> m.isSignUp
    ensures r.1 == "Sign Up" <==> !m.isSignUp
    ensures r.0 == "Already have an account?" <==> m.isSignUp
  {
    if m.isSignUp then ("Already have an account?", "Sign In") else ("Don't have an account?", "Sign Up")
  }

  /** Outside reset mode, the switch's link names the heading a click leads
      to. */
  lemma ToggleLeadsToNamedMode(m: Mode)
    requires !m.resetMode
    ensures Click(m, ToggleSignUp).Some?
    ensures ToggleTexts(m).1 == "Sign In" <==> Heading(Click(m, ToggleSignUp).value) == "Welcome Back"
    ensures ToggleTexts(m).1 == "Sign Up" <==> Heading(Click(m, ToggleSignUp).value) == "Create Account"
  {
  }

  // ------------------------------------------------------------ reachable states

  /** Reset mode is only ever entered from sign-in mode. */
  predicate Consistent(m: Mode) {
    m.resetMode ==> !m.isSignUp
  }

  /** Something the user does: click a link, or submit with given fields and
      get an answer. */
  datatype Event = Clicked(link: Link) | Submitted(fields: Fields, answer: Outcome)

  function Step(p: Page, e: Event): Page {
    match e
    case Clicked(l) =>
      var next := Click(p.mode, l);
      if next.Some? then p.(mode := next.value) else p
    case Submitted(f, answer) => Submit(Pressed(p), f, answer).page
  }

  /** While the call runs the button reads `Loading...`; once it has
      answered, the button is labelled by the page's purpose again. */
  lemma LoadingWhileInFlight(p: Page, f: Fields, answer: Outcome)
    ensures SubmitLabel(Pressed(p)) == "Loading..."
    ensures SubmitLabel(Step(p, Submitted(f, answer))) != "Loading..."
    ensures Submit(Pressed(p), f, answer).call == CallFor(p.mode, f)
  {
  }

  /** The page after a sequence of events. */
  function Replay(p: Page, events: seq<Event>): Page
    decreases |events|
  {
    if |events| == 0 then p else Step(Replay(p, events[..|events| - 1]), events[|events| - 1])
  }

  /** Every event keeps reset mode inside sign-in mode. */
  lemma StepKeepsConsistent(p: Page, e: Event)
    requires Consistent(p.mode) && !p.loading
    ensures Consistent(Step(p, e).mode) && !Step(p, e).loading
  {
  }

  /** On every page the user can reach, reset mode means sign-in mode: the
      name field shows exactly when the page is for creating an account,
      and no submit leaves the page loading once its call has answered. */
  lemma {:induction false} ReachableConsistent(events: seq<Event>)
    ensures Consistent(Replay(InitialPage, events).mode)
    ensures ShowsNameField(Replay(InitialPage, events).mode) <==>
      Replay(InitialPage, events).mode.isSignUp
    ensures !Replay(InitialPage, events).loading
    decreases |events|
  {
    if |events| > 0 {
      var before := events[..|events| - 1];
      ReachableConsistent(before);
      var p := Replay(InitialPage, before);
      StepKeepsConsistent(p, events[|events| - 1]);
    }
  }
}
