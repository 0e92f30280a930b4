# Kid News Creator — a Dafny model of its core

Kid News Creator lets a parent keep profiles of their children and get
newsletters for each child. Each profile holds a name, age, grade, interests,
favourite shows, hobbies and a delivery schedule.

Two serverless functions do the work:

- `generate-newsletter` builds a prompt from a child's profile, asks a
  chat-completion model for the text, and stores the result as a newsletter
  titled `<name>'s Daily Discovery - <date>`.
- `send-newsletter` finds the child's newest newsletter and e-mails it to
  the parent as HTML, with every newline turned into `<br>`.

Around these sit the React pages and components:

- the sign-in page, whose two flags `resetMode` and `isSignUp` choose what a
  submit does;
- the dashboard, which lists children and newsletters, marks the child being
  generated for, and renders a printable copy of a newsletter;
- four profile forms, each with its own interest list logic;
- two child cards, with schedule labels, interest badges truncated to
  `+N more`, and an active/paused switch.

The model is written in plain functions over immutable datatypes. It has
one module per source component:

| module | models |
|---|---|
| `Schema` | the database shapes and the `delivery_schedule` enum |
| `GenerateNewsletter` | the `generate-newsletter` function |
| `SendNewsletter` | the `send-newsletter` function |
| `ParentDashboard` | `ParentDashboard.tsx` |
| `IntakeForm`, `EditForm`, `SignupForm`, `AddChildForm` | the four profile forms |
| `Cards` | both child cards |
| `AuthPage` | `Auth.tsx` |

Shared helpers:

- `Strings`: substrings, `join`/`split` and `trim`;
- `Numbers`: decimal text and JavaScript's `parseInt`;
- `Render`: the newline-to-`<br>` body and the shared document shape;
- `Interests`: the interest-list operations;
- `NewsletterOrder`: "newest first" ordering with SQL `NULL`s first;
- `Encoding`: UTF-8 and Windows-1252, used to describe the misencoded
  characters under Findings;
- `Ui`: toasts and the insert every profile form builds;
- `Wrappers`: `Option` and outcome types.

Everything outside the program is a parameter. The database, the completion
model, the mailer and the clock each become an input. A lookup is an
`Option`, a write is a `StoreWrite` or an `Outcome`, the model call is a
`CompletionOutcome`, and the mailer's answer is a `MailOutcome`. A handler
returns a `Run`, which holds:

- the HTTP response;
- the request sent to the model or the mailer;
- the row handed to the store;
- the list of external calls made, in order.

Where the code and its design description differ, the model follows the
code:

- `generate-newsletter` calls `interests.join` on a column that can be
  `null`. The model treats a `null` list as a thrown `TypeError` that ends
  in a 500 response, and does not make it a precondition.
- `send-newsletter` answers 200 for any reply the mailer returns, including
  one that carries an `error` field. Only a thrown call gives 500.
- `parseInt` is modelled as ECMAScript defines it, except that the result
  is an exact integer rather than a double. An age typed as text that does
  not parse becomes `NaN`, which is sent as `null`. For the profile editor's
  update, the model ties this to failure: the non-null `age` column refuses
  the value and nothing changes. For the three inserts (intake form,
  add-child form, sign-up form), the store's answer is a free input that
  the model does not tie to the age.

## Model

| member | source | states |
|---|---|---|
| Schema.ParseSchedule | src/integrations/supabase/types.ts:124 | a string is accepted as a schedule exactly when it is the value of one of the three enum members, and then it names that member |
| Schema.ParseScheduleValue | src/integrations/supabase/types.ts:124 | every enum member's value reads back as that member |
| Schema.ScheduleConstantsMatchEnum | src/integrations/supabase/types.ts:237-243 | the runtime constant lists exactly the three enum values, in enum order, without repeats |
| Schema.MinimalChildInsert | src/integrations/supabase/types.ts:27-40 | a children insert needs only parent id, name and age; every other column can be left out |
| Schema.SetNullable | src/integrations/supabase/types.ts:41-54 | an update column left out keeps the old value, `null` clears it, a value replaces it |
| Schema.ApplyChildUpdate | src/integrations/supabase/types.ts:41-54 | an update changes exactly the columns it sends; an age of `NaN` (sent as `null`) is refused and changes nothing |
| Schema.ApplyChildUpdateLaws | src/integrations/supabase/types.ts:41-54 | an empty update leaves the row as it was, and applying an update twice equals applying it once |
| Schema.UpdateWhereId | src/components/ChildEditForm.tsx:69-80 | `.update(u).eq('id', id)` leaves rows with other ids untouched and applies `u` to every row with that id; a refused update leaves the table unchanged |
| Schema.ForeignKeyAppend | src/integrations/supabase/types.ts:85-92 | adding a newsletter whose `child_id` names an existing child keeps every newsletter pointing at a child |
| Render.NewlinesToBreaks | supabase/functions/send-newsletter/index.ts:112 | the rendered body has no newline, leaves newline-free text unchanged, and is never shorter than the text |
| Render.BreaksJoinLines | supabase/functions/send-newsletter/index.ts:112 | replacing every `\n` by `<br>` is the same as splitting into lines and joining them with `<br>` |
| Render.BreaksRoundTrip | supabase/functions/send-newsletter/index.ts:112 | if the text contains no literal `<br>`, splitting the rendered body on `<br>` gives back the text's lines |
| Render.ContentText | supabase/functions/send-newsletter/index.ts:61 | the envelope's `text`, or the empty string when the content or its `text` is missing |
| Interests.RemoveAll | src/components/ChildIntakeForm.tsx:49 | removing an interest drops every copy of it and keeps the count of every other interest |
| Interests.RemoveAllSubsequence | src/components/ChildIntakeForm.tsx:49 | what is left after removing keeps the other interests in their original order |
| Interests.RemoveAllKeepsNoDuplicates | src/components/ChildIntakeForm.tsx:49 | removing from a duplicate-free list gives a duplicate-free list |
| Interests.ToggleInterest | src/components/ChildIntakeForm.tsx:45-51 | after a toggle the interest is present exactly when it was absent; an absent one is appended at the end; a present one has every copy removed as `filter` does, the rest kept in order; other interests are unaffected and no duplicates appear |
| Interests.ToggleTwiceAbsent | src/components/ChildIntakeForm.tsx:45-51 | toggling an absent interest twice gives the original list |
| Interests.ToggleTwicePresent | src/components/ChildIntakeForm.tsx:45-51 | toggling a present interest twice removes its copies and puts a single one at the end |
| Interests.CheckInterest | src/components/SignupFormSection.tsx:38-50 | checking appends one more copy even when it is already there; unchecking is `filter`, removing every copy and keeping the others in order and in number |
| Interests.CheckboxClickIsToggle | src/components/AddChildForm.tsx:38-50 | a checkbox click, which checks an unchecked box and unchecks a checked one, does what the toggle does |
| Interests.CustomInterestsWellFormed | src/components/ChildIntakeForm.tsx:63-66 | every parsed custom interest is non-empty, trimmed and free of commas |
| Interests.BlankCustomInterests | src/components/ChildIntakeForm.tsx:62 | custom text made only of whitespace adds no interest |
| Interests.SingleCustomInterest | src/components/ChildIntakeForm.tsx:63-66 | text with no comma and some non-space content gives exactly its trimmed self |
| Interests.CombineInterests | src/components/ChildIntakeForm.tsx:61-68 | the checked interests come first, unchanged, and the parsed custom ones follow in typed order |
| GenerateNewsletter.OrNotSpecified | supabase/functions/generate-newsletter/index.ts:40-42 | a missing or empty value reads `Not specified`, a present one verbatim |
| GenerateNewsletter.PromptNamesChild | supabase/functions/generate-newsletter/index.ts:37 | the prompt contains `<name>, age <age>.` |
| GenerateNewsletter.PromptTails | supabase/functions/generate-newsletter/index.ts:37-51 | the interests, shows, hobbies and grade lines all occur in the prompt |
| GenerateNewsletter.PromptListsInterests | supabase/functions/generate-newsletter/index.ts:39 | the prompt lists the interests joined by `, ` in their stored order; each interest occurs, and consecutive ones are separated by `, ` |
| GenerateNewsletter.PromptFallbacks | supabase/functions/generate-newsletter/index.ts:40-42 | the shows, hobbies and grade lines carry the value or `Not specified` |
| GenerateNewsletter.DateTextHasNoT | supabase/functions/generate-newsletter/index.ts:77 | the date part of the ISO timestamp contains no `T`, so splitting at `T` keeps all of it |
| GenerateNewsletter.TitleCarriesDate | supabase/functions/generate-newsletter/index.ts:77-78 | the title is `<name>'s Daily Discovery - ` followed by the calendar date `YYYY-MM-DD` of the instant |
| GenerateNewsletter.Handle | supabase/functions/generate-newsletter/index.ts:17-111 | preflight answers without any call, and every other request gets a JSON answer; a missing child gives 500 `Child not found`, and a `null` interest list gives 500 with the `join` TypeError, both with no model call and no insert; the model `gpt-4o-mini` gets exactly the fixed system instruction then the prompt, with 2000 tokens and temperature 0.8; a failed model call gives 500 with its message and no insert; a failed insert gives 500 with its message; the stored row carries the child id, the derived title and the completion in `{text}` (`{text: null}` when the model's content is `null`); 200 exactly when the row was stored, with the row and the content, `null` included; every failure is 500 with its message; calls happen in order child, model, insert |
| GenerateNewsletter.FirstFailureDecides | supabase/functions/generate-newsletter/index.ts:25-104 | the steps run in order and the first failure decides: a missing child or a `null` interest list makes the model, the clock and the store irrelevant and the model is never called; a failed model call makes the clock and the store irrelevant |
| GenerateNewsletter.EmmaPrompt | supabase/functions/generate-newsletter/index.ts:37-39 | for a nine-year-old interested in space and animals the prompt reads `age 9` and `Space & Astronomy, Animals` |
| GenerateNewsletter.EmmaTitle | supabase/functions/generate-newsletter/index.ts:77-78 | any instant on 2024-03-15 gives the title `Emma's Daily Discovery - 2024-03-15` |
| GenerateNewsletter.EmmaRun | supabase/functions/generate-newsletter/index.ts:74-100 | a successful run on that day stores the completion under that title and answers 200 with the stored row |
| NewsletterOrder.RanksFirstTotal | supabase/functions/send-newsletter/index.ts:47 | any two `created_at` values can be compared in descending order, with `NULL` first |
| NewsletterOrder.LatestIndex | supabase/functions/send-newsletter/index.ts:43-49 | there is no result exactly when the child has no newsletter; otherwise the result is the first of the child's rows with the greatest `created_at` |
| NewsletterOrder.LatestIndexUnique | supabase/functions/send-newsletter/index.ts:43-49 | the position of the newest newsletter is determined: any position with that property is the one found |
| NewsletterOrder.Latest | supabase/functions/send-newsletter/index.ts:43-49 | the newsletter chosen belongs to the child and no row of the child ranks above it |
| NewsletterOrder.FirstFor | src/pages/ParentDashboard.tsx:249-250 | `filter(child_id)[0]` is undefined exactly when the child has no newsletter, and is otherwise the row at a position before which no row is the child's |
| NewsletterOrder.FirstOfNewestFirstIsLatest | src/pages/ParentDashboard.tsx:81 | on a list ordered newest first, the first row of a child is its newest newsletter |
| SendNewsletter.EmailDocument | supabase/functions/send-newsletter/index.ts:62-121 | the e-mail's `<title>` is the newsletter title, the header carries the title and the child's name, both footer lines name the child, and the body is the text with newlines as `<br>` |
| SendNewsletter.Handle | supabase/functions/send-newsletter/index.ts:18-153 | the checks run child, then newsletter, then parent address, and the first one that fails decides the 500 message; an e-mail goes out exactly when all three pass, from the fixed sender to exactly the parent's address, with subject `📰 <name>'s Daily Discovery Newsletter` and the newest newsletter's document; a returned mailer reply gives 200, a thrown one 500 |
| SendNewsletter.MailsNewest | supabase/functions/send-newsletter/index.ts:43-49 | the newsletter mailed is one whose `created_at` ranks at least as high as every other newsletter of the child |
| SendNewsletter.MailedBodyKeepsLines | supabase/functions/send-newsletter/index.ts:112 | the mailed body splits on `<br>` back into the newsletter's lines when the text has no literal `<br>` |
| SendNewsletter.FirstFailureDecides | supabase/functions/send-newsletter/index.ts:38-58 | once a check fails, nothing checked later (newsletters, mailer) changes the run |
| Encoding.Utf8 | src/pages/ParentDashboard.tsx:175 | a character's UTF-8 encoding has one to four bytes, and a single byte exactly for ASCII |
| Encoding.Utf8RoundTrip | src/pages/ParentDashboard.tsx:175 | decoding a character's UTF-8 bytes gives the character back |
| Encoding.Misread | src/pages/ParentDashboard.tsx:175 | reading UTF-8 bytes as Windows-1252 never shortens text and leaves ASCII text unchanged |
| Encoding.NewspaperMisread | src/pages/ParentDashboard.tsx:175 | 📰 misread this way is the four characters the print heading holds |
| Encoding.StarMisread | src/pages/ParentDashboard.tsx:176 | 🌟 misread this way is the four characters the print greeting holds |
| Encoding.BulletMisread | src/pages/ParentDashboard.tsx:284 | • misread this way is the three characters the recent caption and the age line hold |
| Ui.ProfileInsert | src/components/AddChildForm.tsx:59-70 | a profile form's insert carries the parent id, the name, the age as `parseInt` reads the typed text, and the other typed fields as sent |
| ParentDashboard.ChildrenFetched | src/pages/ParentDashboard.tsx:50-70 | fetched children replace the list; a store error keeps it and shows exactly the destructive toast `Failed to fetch children`, and a successful fetch shows none; loading ends either way and no other state changes |
| ParentDashboard.NewslettersFetched | src/pages/ParentDashboard.tsx:72-88 | fetched newsletters replace the list and a store error keeps it; nothing else changes |
| ParentDashboard.FindChild | src/pages/ParentDashboard.tsx:130 | `find` returns nothing exactly when no child has the id, and otherwise a child with that id |
| ParentDashboard.ChildAdded | src/pages/ParentDashboard.tsx:90-97 | the new child goes in front of the existing ones, which keep their order; the dialog closes and the toast names the child |
| ParentDashboard.ChildAddedFind | src/pages/ParentDashboard.tsx:90-91 | after an addition the new child is found under its id, and every other id finds what it found before |
| ParentDashboard.GenerateStarted | src/pages/ParentDashboard.tsx:100 | when generating starts, exactly the chosen child is marked |
| ParentDashboard.GenerateFinished | src/pages/ParentDashboard.tsx:106-124 | after the call no child is marked, success or failure; success refreshes the newsletter list and failure keeps it; the toast is an error exactly on failure |
| ParentDashboard.GenerateRoundRefreshes | src/pages/ParentDashboard.tsx:99-125 | in a full round with the function, the list is refreshed exactly when the function stored a newsletter and answered 200, and the mark is cleared in every case |
| ParentDashboard.Cards | src/pages/ParentDashboard.tsx:248-263 | one card per child, in list order; each gets a newsletter of its own child, a print action exactly when the child has a newsletter, and the generating flag exactly when it is the child being generated for |
| ParentDashboard.CardShowsNewest | src/pages/ParentDashboard.tsx:249-250 | with the list as fetched (newest first), every card shows its child's newest newsletter |
| ParentDashboard.AtMostOneGenerating | src/pages/ParentDashboard.tsx:259 | two cards that both show as generating belong to the same child id |
| ParentDashboard.Recent | src/pages/ParentDashboard.tsx:277 | the recent list is a prefix of the fetched list, at most ten long, and all of it when shorter |
| ParentDashboard.RecentAreNewest | src/pages/ParentDashboard.tsx:277 | no newsletter left out of the recent list is newer than one shown in it |
| ParentDashboard.PrintDocument | src/pages/ParentDashboard.tsx:127-194 | the print copy's `<title>` is the newsletter title, its heading is 📰 and the title, its greeting names the child, and its body is the text with newlines as `<br>` |
| ParentDashboard.PrintEmojiMisread | src/pages/ParentDashboard.tsx:175-176 | the heading and greeting as written hold the Windows-1252 misreading of 📰 and 🌟, and so differ from the intended ones |
| ParentDashboard.PrintMatchesEmail | src/pages/ParentDashboard.tsx:137-179 | the intended print copy has the same title, heading and body as the e-mailed newsletter |
| ParentDashboard.PrintBodyKeepsLines | src/pages/ParentDashboard.tsx:179 | the printed body splits on `<br>` back into the newsletter's lines when the text has no literal `<br>` |
| ParentDashboard.GeneratedTextReadsBack | supabase/functions/send-newsletter/index.ts:61 | the envelope the generator stores reads back, through `content?.text || ''`, as the completion's text, and as empty text for a `null` completion |
| ParentDashboard.RecentCaption | src/pages/ParentDashboard.tsx:284 | the intended caption holds the child's name, a bullet and the date, in that order |
| ParentDashboard.RecentCaptionMisread | src/pages/ParentDashboard.tsx:284 | the caption as written carries the misread bullet where the intended one belongs |
| IntakeForm.Toggle | src/components/ChildIntakeForm.tsx:45-52 | an unpicked interest is appended at the end, a picked one has every copy removed (the rest in order); every other field stays, and no duplicates appear |
| IntakeForm.ToggleTwice | src/components/ChildIntakeForm.tsx:45-52 | toggling an unpicked interest twice gives the form back |
| IntakeForm.Record | src/components/ChildIntakeForm.tsx:60-80 | the record is active, belongs to the signed-in user, has the age `parseInt` reads, and lists the picked interests followed by the typed ones; blank custom text adds nothing |
| IntakeForm.Submit | src/components/ChildIntakeForm.tsx:54-118 | with no user nothing is sent or shown; otherwise the record is sent; a stored row is passed on and the form is emptied (daily schedule, no interests); a failure keeps the form and shows an error |
| IntakeForm.RetryAfterFailure | src/components/ChildIntakeForm.tsx:80-118 | a failed submit keeps the form, so submitting again behaves as if the first attempt never happened; after a success the form is cleared and a second submit sends an empty profile |
| EditForm.Initial | src/components/ChildEditForm.tsx:45-53 | the form opens with the child's values; the age text parses back to the age; missing shows and hobbies become empty text |
| EditForm.Toggle | src/components/ChildEditForm.tsx:55-62 | an unpicked interest is appended at the end and a picked one has every copy removed; every other field stays. A `null` list is marked as a case with no result: the page crashes on it while rendering (line 186), so no box can be clicked |
| EditForm.Sent | src/components/ChildEditForm.tsx:74-75 | a held value is sent as itself, a missing one as `null` |
| EditForm.Payload | src/components/ChildEditForm.tsx:71-79 | the update sends name, age, grade, interests, shows, hobbies and schedule, and leaves id, parent, active flag and timestamps out |
| EditForm.UneditedSave | src/components/ChildEditForm.tsx:45-79 | saving the form as it opened gives the row back, except that missing shows and hobbies are stored as empty text |
| EditForm.Submit | src/components/ChildEditForm.tsx:64-100 | only rows with the child's id change, and their id, parent, active flag and creation time never do; the dashboard is refreshed with the success toast exactly when the store answers without error and the age is not refused; a parsed age with a successful answer stores all seven of the form's values (name, age, grade, interests, shows, hobbies, schedule) in the child's row; any error (the store's, or the `null` age) changes nothing, shows the error toast and does not refresh |
| SignupForm.InterestChanged | src/components/SignupFormSection.tsx:38-50 | checking appends the interest; unchecking removes every copy and keeps the rest in order and number; no other field changes |
| SignupForm.ChildRecord | src/components/SignupFormSection.tsx:75-84 | the child insert belongs to the session user, carries the typed profile and sends no active flag |
| SignupForm.Submit | src/components/SignupFormSection.tsx:52-109 | the sign-up call always goes first; its failure shows the error and inserts no child; otherwise the child is inserted exactly when a session user exists, and the page moves to the dashboard |
| SignupForm.ChildInsertFailureIgnored | src/components/SignupFormSection.tsx:86-89 | a failed child insert ends the submit exactly as a successful one does |
| AddChildForm.InterestChanged | src/components/AddChildForm.tsx:38-50 | checking appends the interest; unchecking removes every copy and keeps the others in order and in number; no other field changes |
| AddChildForm.TickInOrder | src/components/AddChildForm.tsx:38-43 | ticking boxes one after another appends the interests in tick order, duplicates kept, and changes no other field |
| AddChildForm.TickFromEmpty | src/components/AddChildForm.tsx:22-30 | the form opens on the daily schedule with no interests, so its interests are exactly the ticked ones, in order |
| AddChildForm.Submit | src/components/AddChildForm.tsx:52-89 | with no user nothing is inserted; otherwise the insert carries the user's id and the parsed age, and the success callback runs exactly when the store accepts it |
| AddChildForm.RetrySendsSameProfile | src/components/AddChildForm.tsx:52-89 | the submit never clears the form, so whatever the store answered, submitting again sends the same profile; only an accepted insert calls `onSuccess` |
| Cards.ScheduleLabel | src/components/ChildDashboardCard.tsx:78-85 | `daily` is shown as `Daily`, `every-other-day` as `Every Other Day` and `weekly` as `Weekly`; any other string is shown as it is |
| Cards.ScheduleLabelsDistinct | src/components/ChildCard.tsx:57-64 | the three labels are distinct, so the label tells the schedule |
| Cards.InterestBadges | src/components/ChildDashboardCard.tsx:129-138 | at most `limit` badges, taken from the front of the list; a `+N more` badge exactly when the list is longer, with N positive and the shown badges plus N adding up to the list's length |
| Cards.CardBadges | src/components/ChildDashboardCard.tsx:129-138 | the dashboard card's badges for the row's interest list are the badge row with six names at most; a `null` list is marked as a case with no result, because `slice` on it throws while the card renders |
| Cards.BadgesCoverInterests | src/components/ChildCard.tsx:91-100 | every interest is either shown by name or counted in the overflow badge, in list order |
| Cards.MoreLabelCount | src/components/ChildCard.tsx:98 | the number in `+N more` reads back as N |
| Cards.StatusBadge | src/components/ChildDashboardCard.tsx:96 | the badge reads `Active` exactly when `is_active` is true |
| Cards.GenerateButton | src/components/ChildDashboardCard.tsx:173-179 | generating is offered exactly for an active child that is not being generated for, and the button then names the action |
| Cards.ActiveToggle | src/components/ChildDashboardCard.tsx:57 | the switch writes only `is_active`, set to the negation of what the card shows |
| Cards.ActiveToggleFlips | src/components/ChildCard.tsx:33-36 | applied to the row, the toggle flips the flag and keeps every other column; toggling twice restores a row whose flag was set |
| Cards.DashboardToggleToast | src/components/ChildDashboardCard.tsx:53-76 | on success the toast names the child and ends with `active` exactly when the child was not active; on failure the fixed error |
| Cards.CompactToggleToast | src/components/ChildCard.tsx:30-55 | on success the title says paused when the child was active and resumed otherwise; on failure the store's message |
| Cards.TogglesAgree | src/components/ChildCard.tsx:41-42 | the two cards report the same change, and it agrees with the flag written |
| Cards.CompactButtonLabel | src/components/ChildCard.tsx:119 | `Updating...` while loading, else `Pause Newsletters` exactly for an active child and `Resume Newsletters` otherwise |
| Cards.GradeText | src/components/ChildDashboardCard.tsx:100 | a missing or empty grade reads `Grade not specified`, a present one verbatim |
| Cards.AgeLine | src/components/ChildDashboardCard.tsx:100 | the intended age line starts with `Age `, the age reads back from the text after it, and the line holds a bullet before the grade text |
| Cards.AgeLineMisread | src/components/ChildDashboardCard.tsx:100 | the age line as written carries the misread bullet and so differs from the intended one |
| Cards.CompactAgeLine | src/components/ChildCard.tsx:73 | the compact line starts with `Age ` and shows `• <grade>` whenever the grade is non-empty |
| Cards.CompactInterests | src/components/ChildCard.tsx:87-100 | the interests block appears exactly for a non-empty list, with three badges at most; a `null` list is marked as a case with no result, because reading its `length` throws while the card renders |
| Numbers.ParseIntToString | src/components/ChildEditForm.tsx:47 | `parseInt` of an integer's decimal text gives the integer back |
| Numbers.ParseIntToStringThen | src/components/ChildDashboardCard.tsx:100 | the round trip holds with any text after the digits that does not continue the number |
| AuthPage.PurposeOf | src/pages/Auth.tsx:34-64 | reset mode wins; otherwise sign-up mode means sign-up; otherwise sign-in |
| AuthPage.CallFor | src/pages/Auth.tsx:34-77 | a submit calls reset, sign-up or sign-in exactly as the purpose says, always with the typed e-mail |
| AuthPage.Submit | src/pages/Auth.tsx:29-81 | the submit makes the purpose's call; a failure shows its message and keeps the mode; a successful reset leaves reset mode, and other submits keep the mode; loading is off afterwards |
| AuthPage.LoadingWhileInFlight | src/pages/Auth.tsx:29-146 | while the call runs the button reads `Loading...`; after the answer it shows the purpose again; the call is the one the mode selects |
| AuthPage.Heading | src/pages/Auth.tsx:88 | the heading names the purpose, with the same reset, then sign-up, then sign-in priority |
| AuthPage.SubmitLabel | src/pages/Auth.tsx:146 | `Loading...` exactly while loading, otherwise the purpose's action, with the same priority |
| AuthPage.FieldsMatchCall | src/pages/Auth.tsx:101-139 | the name field is shown exactly when the call is a sign-up, and the password field exactly when it is not a reset |
| AuthPage.Click | src/pages/Auth.tsx:151-181 | a link works only when it is on screen; the switch flips sign-up and sign-in; "Forgot your password?" (sign-in mode only) enters reset mode; "Back to Sign In" leaves it |
| AuthPage.ToggleTexts | src/pages/Auth.tsx:154-160 | the switch offers `Sign In` in sign-up mode and `Sign Up` otherwise |
| AuthPage.ToggleLeadsToNamedMode | src/pages/Auth.tsx:154-160 | the link's label names the heading the click leads to |
| AuthPage.StepKeepsConsistent | src/pages/Auth.tsx:163-181 | no click and no submit can put reset mode together with sign-up mode, and every submit's call has answered by the end of the step |
| AuthPage.ReachableConsistent | src/pages/Auth.tsx:12-17 | from the opening state (sign-up, reset off), after any sequence of clicks and submits, reset mode implies sign-in mode, the name field shows exactly in sign-up mode, and nothing is left loading |

## Left out

- Network and storage calls. Supabase queries, the OpenAI `fetch` and Resend's `emails.send` are inputs to the model (found, missing or failed), not code.
- `req.json()` failures. A request body that is not JSON throws before any lookup; the model's `Request` is an already parsed body.
- The clock. `new Date().toISOString()` is an `Instant` parameter. `toLocaleDateString` in the captions is a free `date` string, because its output depends on the browser's locale.
- The browser side of printing. `window.open`, `document.write`, `print`, `onafterprint` and a blocked pop-up are not modelled. Neither is the CSS or the page chrome of either HTML document, which is styling. A document is its title, heading, greeting, body and footer lines.
- React state mechanics. These are the loading spinners, dialog open/close beyond `handleChildAdded`, navigation after sign-in (`useEffect` on `user`), and the console logging.
- Concurrency. Two quick "generate" clicks race, and two toggles are last-write-wins. The model takes events one at a time, which is also why at most one child shows as generating.
- `temperature: 0.8` is written as a real literal. No floating-point behaviour of the model call is modelled.
- Database defaults, triggers and row-level security. Values the store fills in (`id`, `created_at`, `is_active` defaults) come back in the stored row the model takes as input.
- Ties in `created_at`. Postgres returns tied rows in no fixed order. The model picks the first tied row met, so `NewsletterOrder.Latest` fixes one choice among equals.
- The parent e-mail embed `parent:parent_id(email)` is an optional address on the child lookup. The join itself is not modelled.
- HTML `required`, `min`, `max` and `minLength` attributes. The browser enforces them, not the code, so the model accepts any typed text.
- `src/pages/Dashboard.tsx`, the landing-page components, `Index.tsx` and `main.tsx` are fetch-and-navigate code or static markup and are not part of this model.
- `src/pages/api/send-email.ts` and `send-test.ts` are a thin mailer wrapper and a one-off script, and are not part of this model.
- Numbers.ParseInt: returns the exact integer the digits spell. JavaScript's `parseInt` returns a double, so digit strings beyond 2^53 are rounded there and not here.
- IntakeForm.Submit, AddChildForm.Submit, SignupForm.Submit: the store's answer to the insert is a free input. A `NaN` age, which the non-null column would refuse, is not tied to a failed insert.
- EditForm.Toggle: a child whose interest list is `null` makes the editor throw while rendering. The model marks that case with `None` and says nothing about what the page shows then.
- Cards.CardBadges, Cards.CompactInterests: a child whose interest list is `null` makes either card throw while rendering. The model marks that case with `None` and says nothing about what the page shows then. `Cards.InterestBadges` itself takes an array, as `slice` needs one.
- AuthPage.Subtitle: has no contract of its own. It follows the same three-way choice as `AuthPage.Heading`.
- SendNewsletter.Handle: the mailer's `{data, error}` reply is modelled as one opaque reply. A reply with `error` set still answers 200, as the code does.

## Findings

| source | as written | input that shows it | evidently intended | confidence | as-written member | corrected member |
|---|---|---|---|---|---|---|
| src/pages/ParentDashboard.tsx:175-176 | the print heading starts with `ðŸ“°` and the greeting ends with `ðŸŒŸ` | any newsletter printed from the dashboard | 📰 before the title and 🌟 after the greeting, as in the e-mail; the UTF-8 bytes were read back as Windows-1252 | not executed | ParentDashboard.PrintEmojiMisread | ParentDashboard.PrintMatchesEmail |
| src/pages/ParentDashboard.tsx:284 | the recent-newsletter caption separates name and date with `â€¢` | any recent newsletter | a `•` bullet | not executed | ParentDashboard.RecentCaptionMisread | ParentDashboard.RecentCaption |
| src/components/ChildDashboardCard.tsx:100 | the age line separates age and grade with `â€¢` | any child card on the dashboard | a `•` bullet, as `ChildCard.tsx` writes it | not executed | Cards.AgeLineMisread | Cards.AgeLine |
