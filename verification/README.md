# Cursor-Auto-Register, modelled in Dafny

Cursor-Auto-Register automates sign-ups on cursor.com. It has two halves:

- **A Go program.** It holds a console menu and mailbox clients for Mail.tm and Mohmal. It runs an HTTP controller on port 8080. The controller keeps the user data to sign up with, plus a session store: each store entry hands a page agent a fixed command sequence and collects its results.
- **A Chrome extension.** A background worker tracks the sign-in tab and the authentication tab it opens, and tells the page agent when to start. The page agent is a content script. It runs the three sign-up steps from buttons in its widget, persists its progress in extension storage, and can execute controller commands against the page.

This project models the decision logic of both halves. Every handler becomes a function from its state and its inputs to the new state and its outputs. Everything effectful becomes an input:

- the network answers, storage contents and clock readings;
- the draws of the random number generator;
- the page itself, a `Document` oracle that answers a CSS selector with the matching elements in document order, or with a thrown error.

Modules, one per component:

| module | file | models |
|---|---|---|
| `Wrappers` | wrappers.dfy | `Option`, `Result`, first-match search |
| `Text` | text.dfy | JavaScript and Go string calls: `includes`/`strings.Contains`, `trim`/`TrimSpace`, ASCII `toLowerCase`, `%d`, UTF-8 byte length |
| `Runs` | runs.dfy | RE2 leftmost-first semantics of the patterns `\b(C{lo,hi})\b` |
| `EmailPage` | email_page.dfy | `extractVerificationCode` of email.go and email-test/email.go (the two files hold the same function) |
| `Names` | names.dfy | `generateRandomName`/`generateRandomUsername`, `generateRandomPassword`, Go's truncating `/` and `%` |
| `TmMail` | tm_mail.dfy | tm_mail.go: `truncateString`, `stripHTMLTags`, `ExtractVerificationCode`, domain choice, creation retries, token guards |
| `Mohmal` | mohmal.dfy | mohmal.go: address extraction, inbox URL, subject list, code extraction |
| `Server` | server.dfy | extension_server.go: user-data slot, session store, command sequences, routing and method guards |
| `Menu` | menu.dfy | main.go: menu classification, the two extension modes, and the slot calls they make |
| `Background` | background.dfy | background.js as a latch machine over tab events and messages |
| `Dom` | dom.dfy | content.js locators: `findElementBySelectors`, `typeInFieldBySelectors`, `typeInFieldElement`, `detectCaptcha`, `detectSignupForm`, `waitForElement` |
| `Executor` | executor.dfy | content.js command execution, the poll tick, stop paths, `detectPageType` |
| `StepState` | step_state.dfy | content.js persisted record, `updateUIFromState`, `generateEmail` |
| `Steps` | steps.dfy | content.js `executeStep1`/`executeStep2`/`executeStep3` |

Some behaviour is modelled as written even though it is probably not what was intended. Each case is stated as a property:

- **The visibility gate of `typeInFieldBySelectors` leaks.** When no selector yields a visible field, the last answer is typed into, hidden or not (`Dom.LeakyFieldFallsThrough`, `Dom.HiddenFieldIsChosen`).
- **`/report-state` for the authenticator page without user data panics.** This happens after the new session is stored, and `net/http` recovers the panic, so the connection is dropped and the session stays with no commands (`Server.ReportStateEffect`).
- **The verification-code extractor's length guard is redundant, except for case-folded captures.** The guard never rejects a capture made of ASCII characters. But Go's `(?i)` lets `[A-Z0-9]` match U+017F and U+212A, so the byte-length guard can reject a capture (`EmailPage.GuardAcceptsAsciiCaptures`, `EmailPage.FoldedCaptureCanBeRejected`).
- **`forceStop` leaves the poll loop's interval set.** Only `stopAutomation` stops it (`Executor.ForceStop`).

Three further points of the source's behaviour, modelled as written:

- `findElementBySelectors` returns the first element any selector finds, with no visibility check.
- Mail.tm's extractor runs every pattern on one concatenated string (HTML, then text, then subject), so the pattern order decides which code is found, not the part of the message it sits in.
- Domain selection fails when the first public domain has an empty name, even if a later public domain has one.

## Model

| member | source | states |
|---|---|---|
| Text.TrimStartDropsPrefix | main.go:48 | the trim keeps a suffix of the string, and every character it drops in front is white space |
| Text.TrimEndDropsSuffix | main.go:48 | the trim keeps a prefix of the string, and every character it drops at the end is white space |
| Text.GoTrimIdempotent | main.go:48 | `strings.TrimSpace` of a trimmed string changes nothing |
| Text.GoTrimNoSpace | main.go:48 | a string without white space is its own trim |
| Runs.MatchIsMaximalRun | email.go:239 | the pattern matches k characters at a position iff k is the length of the maximal run of class characters there, k is within the bounds, and word boundaries hold on both sides |
| Runs.FindFromIsLeftmost | email.go:249-250 | the search returns the leftmost match at or after the start position, and nothing exactly when no position there starts a match |
| Runs.FindFirstShape | email-test/email.go:309-310 | the capture `FindStringSubmatch` reports is a run of class characters of allowed length, and there is none iff no position starts a match |
| Runs.FindAllStartsWithFirst | email.go:259-260 | `FindAllString`'s first match is the capture `FindStringSubmatch` reports for the same pattern, and it is empty iff that is absent |
| EmailPage.Normalize | email.go:245-246 | every line feed and tab becomes a space; every other character, and the length, is kept |
| EmailPage.ExtractIsFirstAccepted | email.go:248-257 | on the normalised content, the result is the trimmed capture of the first pattern in list order whose capture has 4..8 bytes, and "" exactly when no pattern's does |
| EmailPage.NormalizedIsFirstAccepted | email-test/email.go:318-327 | the same first-accepted characterisation for content that is already normalised |
| EmailPage.FallbackNeverContributes | email.go:259-266 | the closing digit-run search is the same expression as pattern 5, so it finds nothing whenever it is reached |
| EmailPage.AcceptedNonEmpty | email.go:253 | an accepted capture is never empty |
| EmailPage.ResultLength | email-test/email.go:323-338 | every non-empty result has 4..8 UTF-8 bytes, and 4..8 characters when it is ASCII |
| EmailPage.AsciiCaptureAccepted | email.go:252-253 | an ASCII capture of the group shape is unchanged by trimming and passes the guard |
| EmailPage.TrimKeepsFolded | email.go:252 | trimming never changes a capture of the group shape |
| EmailPage.GuardAcceptsAsciiCaptures | email-test/email.go:305-312 | on ASCII captures the guard never rejects the first matching pattern's capture |
| EmailPage.FoldedCaptureCanBeRejected | email.go:235-238 | five U+017F characters fit `(?i)[A-Z0-9]{4,8}` but take ten bytes, so the guard rejects them |
| Names.GoDivision | tm_mail.go:501-505 | Go's quotient and remainder recombine to the dividend, and the remainder is smaller than the divisor with the dividend's sign |
| Names.RandomName | main.go:353-360 | a non-negative timestamp always yields a name; a timestamp whose Go remainder modulo 20 is negative panics on the adjective index, and one whose truncated quotient by 1000 has a negative Go remainder modulo 20 panics on the noun index (`None`) |
| Names.RandomNameParts | tm_mail.go:500-507 | for t >= 0 the trailing digits of the name read back as t mod 100000, which is at most five digits and below 100000 |
| Names.NounEndsInLetter | main.go:349-350 | every noun is non-empty and ends in a letter, so the number is never run together with it |
| Names.SuffixRoundTrip | main.go:358-360 | a number below 100000 appended to a string ending in a non-digit is recovered from the trailing digits |
| Names.NegativeTimestampPanics | main.go:354 | a negative timestamp that is not a multiple of 20 indexes the adjectives out of range |
| Names.AlphabetIndexInverse | main.go:365 | the 67-character alphabet has no repeated character: every position is recovered from its character |
| Names.RandomPassword | main.go:364-371 | the password has one character per draw, and each is the alphabet character at the draw |
| Names.PasswordRoundTrip | main.go:366-370 | with 12 draws below 67 the password has 12 alphabet characters, and the draws are recovered from it |
| TmMail.TruncateString | tm_mail.go:517-522 | a string of at most maxLen bytes is returned unchanged; a longer one becomes its first maxLen bytes followed by "..." (maxLen + 3 bytes); a negative maxLen on a longer string panics |
| TmMail.TruncateIdempotent | tm_mail.go:517-522 | truncating twice with the same bound equals truncating once |
| TmMail.StripHtmlTags | tm_mail.go:511-514 | the output is no longer than the input, and every output character is an input character, counted with multiplicity (only whole tags are removed, nothing is inserted) |
| TmMail.StripPlainPrefix | tm_mail.go:511-514 | text holding no `<` is kept as it is, whatever follows it |
| TmMail.StripTagAtFront | tm_mail.go:511-514 | a `<`, then text without `>`, then `>` at the front is removed as one match, up to the first `>` |
| TmMail.StripWholeTag | tm_mail.go:511-514 | in text with no `<` before it, a whole tag is removed and everything else is kept: the text before it unchanged, the text after it stripped in turn |
| TmMail.StripLeavesNoTag | tm_mail.go:511-514 | the output never contains a `<` with a `>` somewhere after it |
| TmMail.StripKeepsTagFree | tm_mail.go:511-514 | a string without such a pair passes through unchanged |
| TmMail.StripIdempotent | tm_mail.go:511-514 | stripping twice equals stripping once |
| TmMail.SearchContent | tm_mail.go:427-431 | the searched string is the HTML parts joined by spaces, then the text between two single spaces, then the subject, each part at its place; its length is theirs plus the two separating spaces |
| TmMail.ExtractIsFirstMatch | tm_mail.go:453-467 | the code is the capture of the first pattern in list order that matches the whole search string, and the result is an error exactly when none does |
| TmMail.CodesAreSixDigits | tm_mail.go:434-451 | every returned code is exactly six ASCII digits |
| TmMail.FirstPublic | tm_mail.go:333-339 | the index found is the first domain that is active and not private, and there is none iff no domain is |
| TmMail.SelectDomain | tm_mail.go:328-343 | an empty list, no public domain, or a first public domain with an empty name are errors; otherwise the result is the first public domain's name |
| TmMail.SelectDomainSucceeds | tm_mail.go:333-343 | a non-empty list succeeds iff its first public domain exists and has a name |
| TmMail.CreateWithRetry | tm_mail.go:355-375 | at most three attempts, stopping at the first success, with waits of attempt x 10 seconds between tries; an error only when all three fail |
| TmMail.Login | tm_mail.go:180-214 | the token is stored only after a 200 response whose body parses; otherwise the client is unchanged and an error is returned |
| TmMail.AuthenticatedRequest | tm_mail.go:217-220 | with an empty token the call fails with "login required" before any request; otherwise the request's outcome is the result |
| TmMail.CreateTemporaryEmail | tm_mail.go:315-386 | succeeds iff a domain is selected, an attempt creates the account and the login with the returned address succeeds; the client then holds the token |
| Mohmal.AddressIsMaximalRun | mohmal.go:52-53 | an address match at a position captures the whole letter-and-digit run there, which '@mohmal.com' follows |
| Mohmal.FindAddressFrom | mohmal.go:52-53 | the username is the capture of the leftmost address match at or after the start, and there is none exactly when no position starts one |
| Mohmal.CreateEmail | mohmal.go:52-67 | the address is the username followed by "@mohmal.com", the domain is "mohmal.com", the username is the capture of the leftmost match on the page (no match starts before it) and is a non-empty run of letters and digits; the result is an error exactly when no match exists |
| Mohmal.AddressRoundTrip | mohmal.go:59-66 | a page holding just an address built this way yields the same email again |
| Mohmal.InboxUrlRoundTrip | mohmal.go:73 | the URL starts with the base URL and "/ko/inbox/", and what follows is exactly the username |
| Mohmal.Subjects | mohmal.go:92-100 | at most one subject per capture, and every subject listed is trimmed and non-empty |
| Mohmal.SubjectsOfOne | mohmal.go:93-99 | a single capture yields its trimmed text, or nothing when that is empty |
| Mohmal.SubjectsAppend | mohmal.go:92-100 | the subjects of two capture lists in a row are the first list's subjects followed by the second's, in page order |
| Mohmal.SubjectsMembership | mohmal.go:93-99 | a string is listed iff some capture trims to it and it is not empty |
| Mohmal.SubjectsIdempotent | mohmal.go:92-102 | filtering the list again returns it unchanged |
| Mohmal.ExtractIsFirstMatch | mohmal.go:123-141 | the code is the capture of the first pattern in list order that matches, an error exactly when none does; it is 4..8 ASCII digits, exactly 6 from pattern 3 and exactly 4 from pattern 4 |
| Server.SetUserData | extension_server.go:106-122 | the slot holds the four given fields and is ready |
| Server.ClearUserData | extension_server.go:132-137 | the slot is empty and not ready |
| Server.SlotRoundTrip | extension_server.go:106-137 | after `SetUserData` the getter returns the same four fields with ready; after `ClearUserData` it returns nothing, not ready |
| Server.CommandSequenceShape | extension_server.go:454-569 | "main" has 2 commands, "dashboard" 1, an unknown page one wait; "authenticator" needs user data and has 10 commands ending in "complete", whose four type commands carry the first name, last name, email and password |
| Server.HandleGetUserData | extension_server.go:213-224 | 404 exactly when the slot is not ready or holds nothing; otherwise 200 with the stored data |
| Server.HandleGenerateEmail | extension_server.go:257-286 | a failed mailbox creation is a 500 with no change; otherwise the slot holds the generated data and the reply carries it |
| Server.HandleReportState | extension_server.go:308-353 | the slot and every other session are untouched, and the reporting session exists afterwards |
| Server.ReportStateEffect | extension_server.go:324-344 | a first report creates the session at step 0, active, with its page type's commands; a later one changes only the page state, current page and activity time; an authenticator report without user data leaves a commandless session and drops the connection |
| Server.HandleGetNextCommand | extension_server.go:374-407 | an unknown session gets "wait_for_next" with no change; otherwise the command at the cursor is handed out and the cursor advances, or "wait_for_next" once the list is exhausted |
| Server.Poll | extension_server.go:387-407 | n polls yield n answers |
| Server.PollHandsOutInOrder | extension_server.go:389-397 | successive polls hand out the commands in order, each exactly once, then only "wait_for_next", and the cursor stops at the end of the list |
| Server.HandleReportResult | extension_server.go:426-441 | an unknown session is a 404 with no change; otherwise only that session changes: its result log grows by exactly that result, its last activity becomes the current time, a failure sets the status to error, a success leaves the status alone, and its id, page, page state, commands and step are unchanged |
| Server.Serve | extension_server.go:144-170 | OPTIONS is answered 200 before routing and changes nothing |
| Server.WrongMethodRejected | extension_server.go:188-416 | every route rejects a wrong method with 405 before touching the state: "POST method required" on the session routes and "Method not allowed" on the others |
| Server.InvalidJsonRejected | extension_server.go:314-318 | a body that does not decode is a 400 "Invalid JSON" with no change |
| Server.ServePreservesValid | extension_server.go:389-394 | every request keeps the slot's two fields in step and every session cursor within its command list |
| Menu.ClassifyChoice | main.go:50-73 | the choice quits iff the word is "6", "q", "quit" or "exit"; it is empty iff the word is ""; "1" to "5" select, each iff it is that word, email generation, the extension mode, the account statistics, the account list and the Mail.tm test; any word outside the menu is invalid and is kept for the message |
| Menu.ClassifyIgnoresSpace | main.go:48 | surrounding white space never changes the choice |
| Menu.ClassifyMode | main.go:135-148 | trimmed "1" is full-auto and trimmed "2" is manual entry; anything except "1", "2" and "3" is invalid |
| Menu.FullAutoMode | main.go:152-193 | a slot call is made iff the mailbox was created; the first call stores the created data; every store is followed by a clear, and the input is not overrun |
| Menu.ExtensionOnlyMode | main.go:196-256 | the slot is set iff four lines are available and none trims to ""; the stored fields are the trimmed lines (email first, then first name, last name, password), and every store is followed by a clear |
| Menu.ManualEntryIsTrimmed | main.go:204-238 | a stored manual entry has four non-empty fields, each its line trimmed |
| Menu.ExtensionModeHandler | main.go:129-149 | a choice of "3" or an invalid choice consumes its one line and makes no slot call; every store is followed by a clear |
| Menu.MainLoop | main.go:32-76 | every store into the slot is followed at once by a clear, whatever the input |
| Menu.PairedLeavesSlotEmpty | main.go:186-191 | a paired sequence of slot calls leaves the slot as it was when there are none and empty otherwise |
| Menu.MenuLeavesSlotEmpty | main.go:32-76 | however the loop ends, the slot is as it was if nothing was stored, and empty otherwise |
| Background.OnCursorLoad | cursor-extension/background.js:40-95 | the tab ids are unchanged; PAGE_LOADED to the loaded tab is the last message, or is followed only by that tab's AUTO_START_REQUESTED, which goes out from a one-second timer and so comes after it; no other message is an auto-start |
| Background.SigninClickedResets | cursor-extension/background.js:106-111 | a sign-in click records the sender tab, starts waiting, forgets the auth tab, clears the auto-start latch and sends nothing |
| Background.TabCreatedOnlyWhileWaiting | cursor-extension/background.js:22-30 | a new tab is recorded only while waiting; otherwise nothing changes, and nothing is sent |
| Background.WaitTimeoutOnlyClears | cursor-extension/background.js:114-119 | the timeout clears the waiting flag and touches nothing else |
| Background.IrrelevantUpdateIgnored | cursor-extension/background.js:33-38 | an update that is not complete, lacks a URL, or is off the Cursor domains changes nothing and sends nothing |
| Background.CursorLoadMessages | cursor-extension/background.js:52-94 | PAGE_LOADED always goes to the loaded tab, and only the delayed auto-start to that tab can follow it; NEW_AUTH_TAB_READY only for the tracked tab at an auth URL and only to a set current tab; the tracked tab at an auth URL stops the wait |
| Background.AutoStartConditions | cursor-extension/background.js:63-79 | an auto-start needs a completed load of the tracked tab at an authenticator URL with the latch clear, and it sets the latch |
| Background.LatchOnlyClearedBySignin | cursor-extension/background.js:64-65 | once set, the latch survives every event except a sign-in click from a tab |
| Background.StepAutoStarts | cursor-extension/background.js:63-76 | one event sends at most one auto-start, and only when the latch was clear and is now set |
| Background.AtMostOneAutoStart | cursor-extension/background.js:42-84 | between two sign-in clicks at most one AUTO_START_REQUESTED is sent, and none if the latch was already set |
| Dom.LookupIn | cursor-extension/content.js:2071 | `querySelector` throws when the selector does, finds nothing on no match, and otherwise returns the first match |
| Dom.FindElementBySelectors | cursor-extension/content.js:2068-2083 | the result is the first match of the earliest selector that has one, skipping selectors that throw; nothing iff no selector matches |
| Dom.LeakyFieldFindsFirstVisible | cursor-extension/content.js:1192-1202 | the loop stops at the earliest selector whose first match is visible |
| Dom.LeakyFieldFallsThrough | cursor-extension/content.js:1192-1206 | when no selector yields a visible element, the field is the last non-throwing selector's answer, which may be hidden or absent |
| Dom.HiddenFieldIsChosen | cursor-extension/content.js:1195-1210 | a hidden field that is the only match is typed into |
| Dom.TypingPairs | cursor-extension/content.js:1233-1242 | after each of the first n characters come an input event and a change event, each carrying the value so far |
| Dom.TypeInFieldElement | cursor-extension/content.js:1223-1249 | the field ends up holding exactly the value; the events are a focus and a click, then one input/change pair per character carrying the prefix typed so far, then one blur |
| Dom.TypeInFieldBySelectors | cursor-extension/content.js:1187-1211 | no field is an error; otherwise the field the leaky loop chose is typed into |
| Dom.AnyVisibleHit | cursor-extension/content.js:2115-2125 | true iff some selector that does not throw has a visible first match |
| Dom.DetectCaptcha | cursor-extension/content.js:2102-2128 | true iff some of the nine captcha selectors has a visible first match |
| Dom.AnyMatch | cursor-extension/content.js:804-815 | true iff some selector that does not throw matches at least one element |
| Dom.DetectSignupForm | cursor-extension/content.js:773-828 | true when an indicator selector matches; otherwise a throwing probe escapes (`None`), and the answer is true iff the first-name, last-name and email probes all match |
| Dom.WaitForElement | cursor-extension/content.js:2086-2099 | the result is the first element found within 2 x maxWaitSeconds polls, from the earliest poll that finds one; nothing means no poll found one |
| Executor.KindOf | cursor-extension/content.js:572-593 | a tag is unknown iff it is not one of the six known types |
| Executor.KindRoundTrip | cursor-extension/content.js:566 | the type string is recovered from its kind |
| Executor.CommandId | cursor-extension/content.js:486 | the reported id is the command id, or its type when the id is empty |
| Executor.ElementAt | cursor-extension/content.js:616 | indexing a node list out of range, negative included, gives nothing; a throwing selector is an error |
| Executor.FirstWithText | cursor-extension/content.js:624-626 | the first element whose trimmed text or value contains the text, and nothing iff none does |
| Executor.ResolveClickTarget | cursor-extension/content.js:611-627 | the selector wins when given; else an index applies only to buttons or links; else the first clickable element matching the text; else nothing |
| Executor.ExecuteClick | cursor-extension/content.js:607-645 | the click happens iff a target is found and visible, and it clicks exactly that target; no target raises "not found" |
| Executor.ResolveTypeTarget | cursor-extension/content.js:652-659 | the selector wins; else the index among the form fields; else the name selector; else nothing |
| Executor.TypeValue | cursor-extension/content.js:675-682 | the field ends up holding exactly the value, with one input event per character carrying the prefix typed so far, then exactly one change event |
| Executor.ExecuteType | cursor-extension/content.js:648-686 | typing succeeds iff the target is found, visible and selectable and a value is given; the element then holds exactly that value, and the events are a focus and a click, the input events in order and one change event; a missing target fails as not found and a hidden one as not visible, with no event; an element without `select()` fails after its focus and click; a missing value fails after those two with the field emptied |
| Executor.ExecuteCheck | cursor-extension/content.js:705-724 | an unknown condition fails with that condition |
| Executor.CheckReportsObservation | cursor-extension/content.js:709-719 | a known condition reports what it observed and never fails on a false observation; `element_exists` fails only on a throwing selector |
| Executor.ClearAllTimers | cursor-extension/content.js:2019-2028 | both step timers are cleared and nothing else changes |
| Executor.StopCentralControlLoop | cursor-extension/content.js:1974-1980 | the loop interval is cleared and nothing else changes |
| Executor.StopAutomation | cursor-extension/content.js:1983-2001 | the agent is stopped, not started, not processing, both step timers are cleared and the loop interval is cleared |
| Executor.ForceStop | cursor-extension/content.js:2004-2016 | the same halt as `stopAutomation`, but the loop interval is left as it was |
| Executor.StopIdempotent | cursor-extension/content.js:1983-2016 | stopping twice is stopping once, and a forced stop then a regular one equals a regular one |
| Executor.ExecuteCommand | cursor-extension/content.js:562-604 | a null command returns false without a report; otherwise exactly one report goes out when the server is connected, with the command id, and its success is the returned value; click and check succeed iff their handler does; type succeeds iff its target resolves to a visible, selectable element and a value is given; wait, navigate and complete succeed; an unknown type is a failure reporting that type; `complete` halts the agent and stops the loop, and any other command changes only the current-step label |
| Executor.Tick | cursor-extension/content.js:1940-1970 | a stopped or unstarted agent ends the loop and executes nothing; a command executes iff the agent runs, the server is connected and the answer is a command other than "wait_for_next", and then exactly one report goes out |
| Executor.StoppedTickIsInert | cursor-extension/content.js:1941-1945 | after either stop, a tick executes nothing and the loop interval is cleared |
| Executor.DetectPageType | cursor-extension/content.js:513-518 | "main" iff cursor.com at "/", "dashboard" iff cursor.com at "/dashboard", "authenticator" iff authenticator.cursor.sh, else "unknown" |
| StepState.SaveState | cursor-extension/content.js:40-54 | the record is stamped with the current time |
| StepState.LoadState | cursor-extension/content.js:57-80 | a record is restored iff it is younger than 3,600,000 ms; an older one is removed and memory is kept |
| StepState.ClearState | cursor-extension/content.js:83-90 | storage holds no record |
| StepState.SaveLoadRoundTrip | cursor-extension/content.js:40-75 | loading within the hour restores exactly what was saved; at an hour or later the record is removed and memory kept |
| StepState.RestoreDefaults | cursor-extension/content.js:65-67 | missing fields of a fresh record restore as step 0, no e-mail and no user data |
| StepState.SetLook | cursor-extension/content.js:1652-1660 | only button n's look changes |
| StepState.UpdateUIFromState | cursor-extension/content.js:1531-1535 | with no e-mail or at step 0 nothing changes |
| StepState.UpdateUIMapping | cursor-extension/content.js:1561-1593 | at step k in 1..2 exactly button k+1 is armed and buttons up to k are done; at step 3 all are done and none is armed; the step number is unchanged |
| StepState.UpdateUIFetchesOnlyMissing | cursor-extension/content.js:1538-1548 | user data is fetched, kept and saved only when none was held |
| StepState.GenerateEmail | cursor-extension/content.js:1599-1649 | without a connection nothing changes; on success the e-mail is generated, the data kept, the step reset to 0 and the record saved; on failure memory and storage are kept and the e-mail button is re-enabled |
| StepState.GenerateEmailResets | cursor-extension/content.js:1619-1624 | after a fresh e-mail the widget refresh changes nothing, and a reload within the hour restores step 0 with the new data |
| Steps.FirstOfChain | cursor-extension/content.js:1677-1684 | the first match of the earliest selector with one; nothing iff every selector finds nothing; a throwing selector is an error |
| Steps.Locate | cursor-extension/content.js:1677-1693 | a throwing chain selector is an error and a chain hit is the target; only when the chain finds nothing is the first link or button whose lower-cased trimmed text holds a keyword chosen, and a throwing fallback query is an error |
| Steps.ClickStep | cursor-extension/content.js:1695-1722 | the click happens iff the target is located; then the step number becomes n, the record is saved, button n is done and the next is armed; otherwise memory and storage are unchanged and button n is re-armed |
| Steps.ExecuteStep1 | cursor-extension/content.js:1663-1723 | the sign-in step succeeds iff its target is located, setting the step to 1 and saving; otherwise it re-arms button 1 |
| Steps.ExecuteStep2 | cursor-extension/content.js:1726-1784 | the sign-up step succeeds iff its target is located, setting the step to 2 and saving; otherwise it re-arms button 2 |
| Steps.ArmStep | cursor-extension/content.js:1711-1713 | the delayed arming makes button n ready and changes neither memory nor storage |
| Steps.ExecuteStep3 | cursor-extension/content.js:1787-1863 | the form step succeeds iff user data arrives, all three fields and the continue button are found; the fields are filled with first name, last name and email whenever they are found, and stay filled if the button is missing |
| Steps.StepsIgnoreCurrentStep | cursor-extension/content.js:1663-1791 | no step consults the step number: from any step number the same target is clicked |
| Steps.StepThenReloadArmsNext | cursor-extension/content.js:1707-1713 | a successful step 1 followed by a reload within the hour and a widget refresh arms exactly button 2 |

## Left out

- Network plumbing is replaced by the outcome of each request, passed in: the fetch calls, the `net/http` server, JSON encoding and decoding, and the Mail.tm and Mohmal HTTP clients (`GetDomains`, `CreateAccount`, `GetMessages` and `GetMessage` past their token guard, `makeRequest`).
- `chrome.*` APIs: storage is an optional record, and sent messages are an output list.
- The CSS selector engine is the `Document` oracle. The jQuery-style `:contains` selectors throw, and are modelled as selectors that throw.
- Timers, `setTimeout`/`setInterval`, sleeps and random delays are left out, because timing is not behaviour. Scheduled work is an explicit event or output: the 5-second wait timeout, the 1-second auto-start, the 2-second arming of the next step, and the poll tick.
- Concurrency is left out: Go mutexes, the goroutine that starts the server, and overlapping poll ticks (`setInterval` does not wait for an unfinished tick).
- database.go, popup.js, the widget markup, notifications and status texts are not part of this model. They are storage and UI.
- The Playwright `main()` bodies of email.go and email-test/email.go are not part of this model, and neither are `handleEmailGeneration`, the statistics and account-list screens, or `TestTMEmail` of main.go and tm_mail.go. The menu treats them as handlers that consume a given number of lines.
- `WaitForNewMessage` and `PrintTMMessageInfo` of tm_mail.go are left out: they are a timed polling loop and console output.
- The commented-out legacy flow of content.js is dead code and is not modelled: `startAutoFill`, `handleMainPage`, `handleAuthenticatorPage`, `handleLoginPage`, `checkPageTransition`, `handleAutoStartRequest`, `fillForm` and `startAutomation`.
- `reportPageState`, `scanPageElements` and `generateSessionId` are left out. They only send or collect page data, and the controller model does not read the element inventory.
- The LOG, NOTIFICATION and GET_USER_DATA messages of background.js only relay or log.
- Six of the eight patterns in email.go, the Mail.tm patterns and the Mohmal keyword patterns are given by a regex oracle. The oracle is assumed to return captures of each pattern's group shape. Only the digit-run patterns `\b(C{lo,hi})\b` are matched concretely.
- `Text.AsciiLower` lower-cases ASCII letters only. JavaScript's `toLowerCase` also folds non-ASCII letters, which none of the keywords compared against contain.
- Dom.TypeInFieldElement: the element's value is plain storage. The browser's value sanitization is not modelled: single-line inputs drop line breaks, `type="email"` inputs also drop surrounding white space, number inputs reset text that is not a number to "", and textareas normalise CR LF. So "holds exactly the value" is promised only for values the element's type leaves alone.
- Executor.ExecuteType: the same value sanitization is not modelled. The `select()` call selects the field's text, and that selection is not recorded; only its throwing on an element without the method is.
- Executor.TypeValue: the same value sanitization is not modelled. The value is typed per Dafny character. JavaScript indexes UTF-16 code units, so a character outside the Basic Multilingual Plane would be typed as two halves.
- Menu.MainLoop: the menu and every handler read one shared list of lines, one line per read. main.go instead gives the loop and each handler its own `bufio.Scanner` on standard input (main.go:25, 98, 129, 187, 200). The two agree when every read returns a single line, as at an interactive terminal. With piped input, the loop's scanner can buffer lines that a handler's fresh scanner then never sees, so the handler reads end of input where the model hands it lines. The slot property does not depend on this assumption, because each handler's contract holds for whatever lines it is given (`Menu.ExtensionModeHandler`, `Menu.FullAutoMode`, `Menu.ExtensionOnlyMode`).
- Steps.ExecuteStep3: the input event dispatched on each filled field is not listed separately. The filled (field, value) pairs are.
- Executor.ExecuteCheck: its ensures covers only the error case. The observations of the known conditions are stated by `Executor.CheckReportsObservation`.
- Server.HandleReportState: its ensures covers the frame only. The effect on the reporting session is stated by `Server.ReportStateEffect`.
- Server.Serve: its ensures covers only OPTIONS. Routing, method guards and decoding failures are stated by `Server.WrongMethodRejected`, `Server.InvalidJsonRejected` and `Server.ServePreservesValid`.
- Server.Poll: its ensures covers only the answer count. The order is stated by `Server.PollHandsOutInOrder`.
- Background.OnCursorLoad: its ensures covers only the frame and the order of PAGE_LOADED and the auto-start. The rest is stated by `Background.CursorLoadMessages` and `Background.AutoStartConditions`. The auto-start is listed right after the synchronous messages of the same load; events that arrive during its one-second delay are not interleaved before it.
- StepState.UpdateUIFromState: its ensures covers only the early return. The mapping is stated by `StepState.UpdateUIMapping` and `StepState.UpdateUIFetchesOnlyMissing`.
- `centralControlEnabled` is always true in the source, so it is not a field of the agent.
