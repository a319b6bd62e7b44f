# Ideation intake and chat: a Dafny model

This project models the logic of a small single-page ideation app. The app
has two parts.

- **Intake form.** It collects a business idea as one `FormData` record. It
  re-checks five validation rules after every change and only submits once
  none of them fails. On submit it clears the two free-text "Other" answers
  whose sentinel option ("Other (please specify)") is not ticked.
- **Chat panel.** It greets the user with an excerpt of the problem
  statement. Each message gets a canned reply chosen by a first-match-wins,
  case-insensitive keyword dispatcher. Each reply template is filled from
  the record. The panel also builds a fixed-layout summary report from the
  record. The report comes up when the user asks for it, or on the send
  that starts from a transcript of six or more entries.

Modules:

- `Types`: the shared `FormData` record, with `industryDomain` as an
  `Option`.
- `Text`: the JavaScript string operations the source relies on, written out
  explicitly:
  - `indexOf` and `includes`
  - `trim`, with the ECMAScript white-space set
  - ASCII `toLowerCase`
  - `split(" ")`, `slice(0, n)` and `join`
- `IntakeForm`: the option lists, the validation map, the checkbox and radio
  handlers, and submit normalisation.
- `ChatWording`: the fixed wording of the replies, the greeting and the
  report, as records, and `AppWording`, the wording the app ships.
- `ChatEngine`: the pure functions. These are the dispatcher (with an
  ordered-table reference reading), the reply templates, the greeting and
  the report.
- `ChatSession`: the panel's state as a class `Session`. It holds the
  transcript, the text box, and the summary flag and text. Methods model the
  send, the summary generation and the copy/download actions. A ghost
  invariant ties the transcript and the report to the record.

The engine and the session take the wording as a parameter rather than
reading `AppWording` directly. Everything proved about replies, the greeting
and the report therefore holds for any wording, the app's among them.
`AppWording` holds the source's texts verbatim, one field per fixed
fragment. With its 13 closing lines the report has 38 lines.

Three behaviours of the code that are easy to misread. The model follows the
code in each.

- **Innovation level.** The form offers five levels, but validation only
  checks that the level is non-empty (`intake-form.tsx:211`).
  `InnovationLevelNotCheckedAgainstOptions` exhibits a valid record whose
  level is none of the five.
- **Summary trigger.** The trigger tests the transcript length before the
  user's message is appended (`chat-interface.tsx:79`). The send handler
  reads `messages` and `showSummary` as they were when the send began. With
  the greeting in place, the fourth ordinary send brings up the report
  (`FourthExchangeShowsSummary`).
- **Empty "Additional ..." lines.** When an "Other" text is empty, its
  "Additional ..." line stays in the report as a blank line
  (`chat-interface.tsx:168, 175`). `SummaryAdditionalLines` states this.

## Model

| member | source | states |
|---|---|---|
| Text.IndexOf | app/components/intake-form.tsx:139 | `indexOf`: -1 exactly when the item is absent; otherwise the item sits at that position and nowhere before it |
| Text.Contains | app/components/chat-interface.tsx:98 | `includes`: true exactly when the needle occurs at some position of the text |
| Text.TrimStart | app/components/intake-form.tsx:192 | the result is a suffix of the input; every character removed is white space; the result is empty or starts with a non-white-space character |
| Text.TrimEnd | app/components/intake-form.tsx:192 | the result is a prefix of the input; every character removed is white space; the result is empty or ends with a non-white-space character |
| Text.Trim | app/components/intake-form.tsx:192 | `trim`: the result is the slice of the input that starts where the leading white space ends and is followed only by white space; it starts and ends with a non-white-space character unless empty, and is empty exactly when every character is white space |
| Text.BlankIffTrimEmpty | app/components/chat-interface.tsx:54 | a string is blank (`IsBlank`: every character white space) exactly when `trim` leaves the empty string |
| Text.ToLowerAscii | app/components/chat-interface.tsx:95 | same length; each character is lower-cased (`LowerChar` maps `A`-`Z` to `a`-`z` by the fixed code-point offset), so no ASCII capital remains and every other character is kept |
| Text.ToLowerAsciiIdempotent | app/components/chat-interface.tsx:95 | lower-casing twice is lower-casing once |
| Text.SplitOn | app/components/chat-interface.tsx:144 | `split`: at least one piece, and no piece contains the separator |
| Text.JoinContainsEachPiece | app/components/chat-interface.tsx:99 | `join`: every piece of the list occurs in the joined text |
| Text.SplitOnLength | app/components/chat-interface.tsx:144 | there is one more piece than there are separators |
| Text.JoinSplit | app/components/chat-interface.tsx:144 | joining the pieces with the separator gives back the input |
| Text.SplitJoin | app/components/chat-interface.tsx:144 | splitting a join of separator-free pieces gives back the pieces |
| Text.Take | app/components/chat-interface.tsx:144 | `slice(0, n)`: a prefix of the list, of length n or the whole list when shorter |
| Text.JoinLeadingPiecesIsPrefix | app/components/chat-interface.tsx:144 | re-joining the first n pieces yields a prefix of the input |
| Text.FewSeparatorsKeepAll | app/components/chat-interface.tsx:144 | with fewer than n separators, re-joining the first n pieces yields the whole input |
| Text.LeadingPiecesStopAtSeparator | app/components/chat-interface.tsx:144 | with at least n separators, re-joining the first n pieces gives the input cut right before its n-th separator: the result holds n - 1 separators and the input goes on with a separator |
| IntakeForm.Validate | app/components/intake-form.tsx:181-217 | each of the five error keys is present exactly when its rule fails: audience list empty; audience "Other" ticked with blank text; revenue list empty; revenue "Other" ticked with blank text; innovation level empty. Each error carries its message |
| IntakeForm.IsFormValid | app/components/intake-form.tsx:216 | `isFormValid` (the error map is empty) holds exactly when all five rules hold |
| IntakeForm.ValidateReadsOnlyRuledFields | app/components/intake-form.tsx:181-213 | the problem statement, value proposition, risks and industry never affect the errors |
| IntakeForm.InitialFormErrors | app/components/intake-form.tsx:22-31 | the initial record has exactly the audience, revenue and innovation errors, so it is not submittable |
| IntakeForm.RevenueOtherNeedsText | app/components/intake-form.tsx:203-208 | with revenue "Other" ticked and the rest complete, the form is valid exactly when the other text is not blank |
| IntakeForm.InnovationLevelNotCheckedAgainstOptions | app/components/intake-form.tsx:211-213 | a level outside the five options still passes validation |
| IntakeForm.WithOption | app/components/intake-form.tsx:134-137 | after ticking, the option is present; the old list is a prefix of the new one, so order is kept; the length grows by one only if the option was absent; nothing else is added |
| IntakeForm.WithoutOption | app/components/intake-form.tsx:138-143 | unticking an absent option changes nothing; otherwise the list is one entry shorter |
| IntakeForm.WithoutOptionRemovesFirst | app/components/intake-form.tsx:138-143 | for a present option, exactly the first occurrence is removed: the entries before and after it stay in order, and the multiset loses just that one option |
| IntakeForm.TickPreservesNoDuplicates | app/components/intake-form.tsx:135-136 | ticking keeps a duplicate-free list duplicate-free |
| IntakeForm.UntickPreservesNoDuplicates | app/components/intake-form.tsx:139-142 | unticking keeps a list duplicate-free and removes the option entirely |
| IntakeForm.UntickUndoesTick | app/components/intake-form.tsx:134-143 | unticking a freshly ticked option restores the previous list |
| IntakeForm.ToggleOption | app/components/intake-form.tsx:132-143 | the in-place push/splice on a copied list computes the ticked or unticked list |
| IntakeForm.HandleCheckboxChange | app/components/intake-form.tsx:127-159 | only the named question's list changes; after ticking it is non-empty; the errors of the other questions stay as they were |
| IntakeForm.SameErrorsOutside | app/components/intake-form.tsx:127-149 | replacing one question's list leaves every error outside that question unchanged |
| IntakeForm.HandleRadioChange | app/components/intake-form.tsx:162-178 | only the innovation level changes; a non-empty choice clears its error; no other error changes |
| IntakeForm.ClearUnselectedOther | app/components/intake-form.tsx:230-239 | each "Other" text is kept when its sentinel is ticked and emptied otherwise; every other field passes through |
| IntakeForm.ClearUnselectedOtherKeepsErrors | app/components/intake-form.tsx:230-239 | clearing never changes the validation result, and clearing twice is clearing once |
| IntakeForm.AudienceWithoutOtherIgnoresText | app/components/intake-form.tsx:190-195 | without the audience sentinel, the audience "Other" text is neither required nor submitted |
| IntakeForm.HandleSubmit | app/components/intake-form.tsx:220-243 | an invalid form emits nothing; a valid one emits the normalised record, which is itself valid |
| ChatEngine.FirstMatch | app/components/chat-interface.tsx:95-153 | the topic found is the fallback or a table entry, and a non-fallback topic is mentioned by the message |
| ChatEngine.Classify | app/components/chat-interface.tsx:95-142 | the source's if/else chain over the lower-cased message picks the same topic as the ordered table audience > revenue > risk > innovation > summary |
| ChatEngine.FirstMatchPicks | app/components/chat-interface.tsx:98-141 | first match wins: entry k is chosen exactly when the message mentions it and none of the earlier entries |
| ChatEngine.FirstMatchFallsThrough | app/components/chat-interface.tsx:142-153 | the generic reply is chosen exactly when no topic is mentioned |
| ChatEngine.RevenueBeatsRisk | app/components/chat-interface.tsx:107-116 | a message mentioning revenue and risk but not the audience gets the revenue reply |
| ChatEngine.OrElse | app/components/chat-interface.tsx:164 | `value \|\| fallback`: an empty value gives way to the fallback, any other value is kept |
| ChatEngine.IndustryText | app/components/chat-interface.tsx:181 | the industry reads as empty exactly when it is absent or empty; a non-empty reading is the given industry |
| ChatEngine.IndustryOrDefault | app/components/chat-interface.tsx:146 | never empty; a given non-empty industry is used as is; an absent or empty one gives "industry" |
| ChatEngine.LeadingWords | app/components/chat-interface.tsx:144 | the quoted words are a prefix of the message: the whole message when it has fewer than three spaces, and otherwise the message cut right before its third space (the fragment holds exactly two spaces) |
| ChatEngine.GenerateResponse | app/components/chat-interface.tsx:94-154 | the reply to the classified topic carries that topic's field: audiences or revenue models joined by ", ", the risks, the innovation level, the fixed acknowledgement for a report request, or the first three words and the industry |
| ChatEngine.Excerpt | app/components/chat-interface.tsx:34 | up to 100 characters the statement is quoted whole; longer statements are cut to their first 100 characters followed by "..." |
| ChatEngine.ProblemClause | app/components/chat-interface.tsx:34-36 | a non-empty statement is quoted through its excerpt; an empty one gives the "new concept" phrase |
| ChatEngine.Greeting | app/components/chat-interface.tsx:32-37 | the greeting contains the clause about the problem |
| ChatEngine.GreetingQuotesProblem | app/components/chat-interface.tsx:32-36 | the greeting contains the excerpt of a non-empty problem statement, and the "new concept" phrase for an empty one |
| ChatEngine.SummaryLines | app/components/chat-interface.tsx:161-198 | the report is 25 lines of record sections followed by exactly the closing lines (mitigation bullets, next steps, closing note) |
| ChatEngine.SummaryText | app/components/chat-interface.tsx:161-198 | the report text contains every report line; when no line holds a newline, splitting the text at newlines gives back exactly the lines |
| ChatEngine.SummaryStaticLines | app/components/chat-interface.tsx:161-198 | every line not filled from the record (title, headings, blank separators, closing lines) is the same for every record |
| ChatEngine.SummaryNotSpecified | app/components/chat-interface.tsx:164-184 | the problem, value proposition, innovation level, industry and risks lines read "Not specified" exactly when the field is empty or absent, and the field otherwise |
| ChatEngine.SummaryAdditionalLines | app/components/chat-interface.tsx:166-175 | the "Additional audience:" and "Additional model:" lines appear exactly when the "Other" text is non-empty, and quote it; otherwise the line is empty; the lists are joined by ", " |
| ChatSession.Session.constructor | app/components/chat-interface.tsx:18-40 | a session starts with the greeting as its only entry, an empty text box and the report hidden and empty; its greeting, report and reply function are those of the record |
| ChatSession.Responder | app/components/chat-interface.tsx:69 | the session's reply function answers every message with the dispatcher's reply for the record |
| ChatSession.Session.SetInput | app/components/chat-interface.tsx:292 | the text box holds exactly what was typed, and the session invariant still holds |
| ChatSession.Session.GenerateSummary | app/components/chat-interface.tsx:157-201 | the report is shown and equals the report of the record, whatever it held before, so a second call changes nothing |
| ChatSession.Session.Respond | app/components/chat-interface.tsx:69 | the reply is the dispatcher's reply; a summary request also shows the report, and any other topic leaves the report as it was |
| ChatSession.Session.SendMessage | app/components/chat-interface.tsx:53-83 | a blank text box changes nothing; otherwise exactly the user's message and then its reply are appended, the box is cleared, and the report is shown exactly when it was shown, requested, or the pre-send transcript held at least six entries; a shown report keeps its text (a report request rebuilds the same text); the invariant holds |
| ChatSession.Session.CopySummary | app/components/chat-interface.tsx:204-205 | the copied text is the report as shown |
| ChatSession.Session.DownloadSummary | app/components/chat-interface.tsx:211-215 | the file is named "value-proposition-summary.txt" and its content is the report as shown |
| ChatSession.WellFormedIsOdd | app/components/chat-interface.tsx:53-83 | a transcript built by sends is the greeting plus whole exchanges, so its length is odd |
| ChatSession.ExchangeAppended | app/components/chat-interface.tsx:62-74 | appending a non-blank message and its reply keeps the transcript well formed |
| ChatSession.FourthExchangeShowsSummary | app/components/chat-interface.tsx:79-81 | from a freshly opened session, three ordinary sends leave the report hidden; the fourth shows it and the transcript then holds nine entries |

## Left out

- **Rendering and animation.** These are JSX, motion variants and in-view
  animation refs. They are presentation only.
- **Window and DOM listeners.** This covers the resize listener, the mobile
  flag, and the auto-scroll and focus effects. They are browser plumbing.
- **Timers.** The 1.5-second reply delay and the two-second "copied" flag
  are not modelled. A send is one atomic step: the user's message, the
  reply, then the summary check.
- **The `isLoading` flag.** It is always false between atomic sends, so it
  is not modelled. The Enter-key path sends even while a reply is pending.
  That interleaving is not modelled.
- **Clipboard and Blob APIs.** Copy and download are modelled only as the
  text they hand over and the file name.
- **Length limits and counters.** The 500-character limit is a browser
  attribute. The character counters are only lengths.
- **Per-field error deletes in the change handlers.** The validation effect
  replaces the whole error map after every change, so errors are modelled as
  `Validate` of the record.
- **`handleTextChange`.** It sets one text field of the record. Its effect on
  the errors is covered by `Validate`, which reads the record afresh.
- **`isSubmitting`.** The flag only disables the submit button while a
  submit is in progress (`intake-form.tsx:586`).
- **The callback to the page.** `onSubmit` is modelled as `HandleSubmit`'s
  result.
- **The page component.** `app/app/page.tsx` is not part of this model.
  `formData` is therefore taken to be non-null: the page sets it before it
  shows the chat.
- **`conversationHistory`.** The reply generator accepts this parameter but
  never reads it.
- **The greeting effect.** It runs again when `formData` changes. A
  session's record is fixed, so this is not modelled.
- **Empty transcript before the first render.** The transcript starts as
  `[]` until the greeting effect runs. The constructor models the state
  after the effect.
- **Full Unicode case folding.** `toLowerCase` is modelled on ASCII only.
  Every keyword is lower-case ASCII, so a non-ASCII capital can neither make
  nor break a match except through special foldings, which this does not
  model.
- **`substring(0, 100)`.** This counts UTF-16 code units. `Excerpt` counts
  Dafny characters, which are Unicode scalar values. The two differ on text
  outside the Basic Multilingual Plane.
- **Computing the greeting, report and replies once.** The source builds
  them from `formData` each time they are needed. The record never changes
  during a session, so the session computes them when it opens. The result
  is the same.
- SummaryText: splits back into the report's lines (`SummaryLines`) only
  when no field holds a newline; with a multi-line field only containment
  of each line is stated.
