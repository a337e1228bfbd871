# DjangoFE movie-poll client, modelled in Dafny

DjangoFE is a React single-page client for movie polls. Signed-in users browse polls, search
and filter them, vote on a poll's movie options, see the results, and edit their profile.
Administrators create polls and change their status.

The client also handles signing up and signing in, and password recovery by a six-digit
one-time code. It keeps the session (tokens and user) in the browser's key/value storage.

This project models the logic of the pages, the session store and the route table as Dafny
datatypes, functions, classes and methods, and proves what they promise.

Layout, one module per file:

- Shared modules:
  - `Wrappers`: optional values, the success-or-thrown-message outcome of a request, and
    JavaScript `||` and truthiness on strings.
  - `Text`: ECMAScript `trim`, ASCII lower-casing, `includes`, decimal `toString` and
    `parseInt`, and the string `length`. JavaScript counts UTF-16 code units, so a character
    outside the Basic Multilingual Plane counts twice.
  - `Lists`: `filter`, filter by index, `reduce` to a sum, counting.
  - `Ranking`: the stable `sort((a, b) => key(b) - key(a))` as a function. It comes with an
    in-place insertion sort on an array, proved to produce exactly that order.
  - `Types`: the records of `src/types/index.ts`, plus the optional server fields the list
    and the card read.
  - `Countdown`: the hours/minutes arithmetic, with JavaScript's truncating `%`.
  - `Validation`: the e-mail pattern `\S+@\S+\.\S+` (unanchored) and the shared field
    rules.
- One module per page or component: `PollDetail`, `VerifyOtp`, `CreatePoll`, `Admin`,
  `Results`, `PollCard`, `Polls`, `Home`, `Register`, `Login`, `ResetPassword`,
  `ForgotPassword`, `AuthContext`, `App` and `Profile`.

Components that update state step by step are classes. Their fields are the component's state
and their methods are its handlers, each with a `modifies` frame and the new state stated in
full. Examples are the vote page, the code form with its six-cell `array`, the creation
forms, the validators and the session store. Derived values and list computations are
functions.

The outside world is passed in as parameters:

- Each request's outcome is an `ApiResult` parameter: a payload, or a thrown message.
- The current time is an integer number of milliseconds.
- Closing times arrive already read as milliseconds.
- The storage is a `map<string, Stored>`.

## Model

| member | source | states |
|---|---|---|
| Wrappers.MessageOr | src/pages/ResetPassword.tsx:54 | `message \|\| fallback`: the thrown message when it is non-empty, the fallback otherwise |
| Wrappers.TruthyString | src/pages/ResetPassword.tsx:20 | an optional string is falsy exactly when it is `undefined` or `''` |
| Text.Trim | src/pages/CreatePoll.tsx:77 | the result is a contiguous slice of the input with only white space cut from either end, and it neither starts nor ends with white space |
| Text.TrimEmptyIffAllSpace | src/pages/Register.tsx:26 | `s.trim()` is empty exactly when every character of `s` is white space |
| Text.Lower | src/pages/Polls.tsx:38 | `toLowerCase` keeps the length and lower-cases every character in place (ASCII letters only) |
| Text.Utf16Length | src/pages/Register.tsx:46 | `length` counts UTF-16 code units: at least one and at most two per character |
| Text.Utf16LengthCountsCharacters | src/pages/Register.tsx:46 | the length equals the number of characters exactly when no character lies outside the Basic Multilingual Plane |
| Text.Utf16LengthAppend | src/pages/VerifyOtp.tsx:84-85 | the length of a concatenation is the sum of the lengths |
| Text.Includes | src/pages/Polls.tsx:38 | `includes` holds exactly when the needle occurs at some position of the haystack |
| Text.IncludesEmpty | src/pages/Polls.tsx:38 | every string includes the empty string |
| Text.NatToString | src/pages/Admin.tsx:73 | the decimal form of a natural number is a non-empty digit string |
| Text.DigitsValueOfNatToString | src/pages/Admin.tsx:77 | reading the decimal form back gives the number |
| Text.NatToStringInjective | src/pages/Admin.tsx:77 | different numbers have different decimal forms |
| Text.ParseInt | src/pages/CreatePoll.tsx:100 | `parseInt`: no number (`NaN`) exactly when no digit follows the leading white space and optional sign; otherwise the value of the longest digit run there, negated after a minus |
| Text.DigitsStart | src/pages/CreatePoll.tsx:100 | `parseInt` reads digits after the leading white space, and one position later exactly when a `+` or `-` comes first |
| Text.ParseIntOfNatToString | src/pages/CreatePoll.tsx:100 | `parseInt` of a number's decimal form gives the number back |
| Lists.Filter | src/pages/Polls.tsx:37-41 | `filter` keeps the elements that pass the test, in their original order: the result is a subsequence holding exactly those values, as many elements as pass |
| Lists.FilterAll | src/pages/Polls.tsx:37-41 | a test that every element passes returns the list unchanged |
| Lists.FilterCongruent | src/pages/Polls.tsx:37-41 | two tests that agree on every element filter the same way |
| Lists.WithoutIndex | src/pages/CreatePoll.tsx:57 | filtering by `i !== index` drops exactly entry `index`, and drops nothing for an index outside the list |
| Lists.CountWhere | src/pages/Admin.tsx:136 | the number of elements that pass the test (the length of `filter`): at most the length, zero exactly when none passes, the full length exactly when all pass |
| Lists.DisjointCounts | src/pages/Admin.tsx:136-138 | counts under two tests that no element passes together add up to at most the length |
| Lists.SumOfAppend | src/pages/Admin.tsx:137 | the sum over a concatenation is the sum of the two sums |
| Lists.SumOfPermutation | src/pages/Results.tsx:76 | reordering a list keeps its sum |
| Ranking.InsertPermutes | src/pages/Results.tsx:76 | one insertion adds the element and keeps every other one |
| Ranking.InsertNonIncreasing | src/pages/Results.tsx:76 | inserting into a list with non-increasing keys keeps the keys non-increasing |
| Ranking.SortDesc | src/pages/Results.tsx:76 | the descending order is a permutation of the input |
| Ranking.SortDescNonIncreasing | src/pages/Results.tsx:76 | its keys never increase down the list |
| Ranking.SortDescStable | src/pages/Results.tsx:76 | elements with equal keys keep their original relative order, as the stable `Array.prototype.sort` does |
| Ranking.SortDescFirstIsMax | src/pages/Results.tsx:77 | the first element has a key at least that of every element |
| Ranking.WithKeyInsert | src/pages/Results.tsx:76 | an insertion puts the element at the front of its own key group and leaves the other groups alone |
| Ranking.InsertSplit | src/pages/PollDetail.tsx:336-337 | the inserted element lands after the elements with a larger key and before all the others |
| Ranking.ShiftInsert | src/pages/PollDetail.tsx:336-337 | one in-place step leaves the array's prefix alone and leaves the suffix equal to `Insert` of the moved element into the old suffix |
| Ranking.SortInPlace | src/pages/PollDetail.tsx:335-337 | the in-place sort leaves the array holding exactly `SortDesc` of its old contents |
| Ranking.Ranked | src/pages/Results.tsx:133-152 | row `i` shows rank `i + 1` and the `i`-th item, and only row 0 is highlighted |
| Countdown.JsRem | src/pages/PollDetail.tsx:87 | JavaScript's `%` for a positive divisor: the remainder lies in [0, b) for a non-negative dividend and in (-b, 0] for a negative one |
| Countdown.Remaining | src/pages/PollDetail.tsx:85-88 | expired exactly when the time left is at most 0; hours are non-negative and minutes lie in [0, 60); both are 0 once expired; otherwise hours and minutes bracket the time left to the minute |
| PollDetail.CountId | src/pages/PollDetail.tsx:105-106 | the number of options with an id is 0 exactly when no option has it |
| PollDetail.Retally | src/pages/PollDetail.tsx:105-111 | the chosen option gains a vote unless it already held the user's vote; the previously voted option loses one; every other option, and the list's length, ids, movies and order, are unchanged |
| PollDetail.ApplyVote | src/pages/PollDetail.tsx:101-112 | the user's vote becomes the selection; the total rises by 1 exactly when no truthy vote was recorded; the options are re-tallied; no other field changes |
| PollDetail.SumRetally | src/pages/PollDetail.tsx:105-111 | the re-tallied sum is the old sum, plus the options with the chosen id (unless re-voting), minus the options with the previous id |
| PollDetail.CountIdDistinct | src/pages/PollDetail.tsx:105-111 | with distinct ids, an id that occurs occurs exactly once |
| PollDetail.RetallyNonNegative | src/pages/PollDetail.tsx:108-109 | no count goes negative when the previously voted option held a vote |
| PollDetail.RetallyKeepsSum | src/pages/PollDetail.tsx:101-112 | with distinct ids and an existing selection, the total still equals the sum of the option votes |
| PollDetail.VotePreservesConsistency | src/pages/PollDetail.tsx:101-112 | conservation: the update keeps the tally consistent (distinct ids, no negative count, the total equal to the sum, the vote naming an option) |
| PollDetail.Percentage | src/pages/PollDetail.tsx:115-117 | 0 when the total is 0; otherwise `votes / total * 100`, which lies in [0, 100] when `votes <= total` |
| PollDetail.PollDetailPage.constructor | src/pages/PollDetail.tsx:65-68 | no poll, no selection, not voted, not submitting |
| PollDetail.PollDetailPage.Load | src/pages/PollDetail.tsx:70-75 | the poll is shown; "voted" is whether it records a truthy vote; the selection is that vote or empty |
| PollDetail.PollDetailPage.ClickOption | src/pages/PollDetail.tsx:215-219 | the selection changes only while the poll is open and not voted on; nothing else changes |
| PollDetail.PollDetailPage.SubmitVote | src/pages/PollDetail.tsx:90-113 | with an empty selection nothing changes; otherwise the page is voted, not submitting, and the poll becomes `ApplyVote` of the old poll |
| PollDetail.PollDetailPage.SortSidebar | src/pages/PollDetail.tsx:335-337 | the poll's own option list is replaced by its stable descending order; nothing else changes |
| PollDetail.PageControls | src/pages/PollDetail.tsx:281-301 | submit is shown exactly while open and not voted, and enabled exactly with a selection; the results link `/results/<id>` appears exactly once closed |
| Results.SortedOptionsRanked | src/pages/Results.tsx:76 | the ranking is a permutation of the poll's options with counts never increasing |
| Results.SortedOptionsStable | src/pages/Results.tsx:76 | options with equal counts keep the poll's order |
| Results.SortedOptions | src/pages/Results.tsx:76 | the ranking has one entry per option and counts never increasing down the list |
| Results.Winner | src/pages/Results.tsx:77 | absent exactly for a poll without options; otherwise an option of the poll with at least as many votes as any |
| Results.Share | src/pages/Results.tsx:78 | no number for a zero total; otherwise `share * total == votes * 100`, in [0, 100] when `0 <= votes <= total` |
| Results.ShareSumScaled | src/pages/Results.tsx:134 | the sum of the shares times the total is 100 times the sum of the votes |
| Results.SharesSumTo100 | src/pages/Results.tsx:133-134 | when the total is positive and equals the sum of the votes, the shown shares add up to 100 |
| Results.ResultRows | src/pages/Results.tsx:133-152 | one row per option, ranks `1..n`, and only the first row marked; that row holds the winner |
| PollCard.View | src/components/Poll/PollCard.tsx:14-31 | without a closing time the card is open with zero countdown; with one, the time left is the closing time minus now, the hours and minutes are those of `Countdown.Remaining`, and it is expired exactly when the time left is at most 0; active is `is_active` and not expired; voted is a truthy vote; the countdown shows only while open |
| PollCard.MediaOf | src/components/Poll/PollCard.tsx:37-57 | a media url shows as a video exactly when the media is a video, otherwise as an image; else a truthy `image_url` shows as an image; else no media |
| PollCard.ExpiredShowsClosed | src/components/Poll/PollCard.tsx:95-103 | a poll past its closing time is shown Closed whatever `is_active` says |
| PollCard.ActiveBadge | src/components/Poll/PollCard.tsx:30 | the badge reads Active exactly for a poll marked active whose closing time is ahead or absent |
| Polls.Normalize | src/pages/Polls.tsx:27 | a bare list is taken as is, a page object gives its `results`, and a page without results gives the empty list |
| Polls.Load | src/pages/Polls.tsx:17-35 | no truthy token means "Not authenticated" and no request; a failed request means "Failed to load polls"; otherwise the normalised list |
| Polls.FilteredPolls | src/pages/Polls.tsx:37-41 | exactly the polls whose lower-cased question includes the lower-cased term and whose status passes the filter, in order, as many as match |
| Polls.Matches | src/pages/Polls.tsx:37-41 | the filter's test: only polls whose status passes, the status alone deciding for the empty term and the search alone under "all" |
| Polls.EmptySearchMatches | src/pages/Polls.tsx:38 | the empty term matches every question |
| Polls.UnfilteredIsIdentity | src/pages/Polls.tsx:37-41 | "all" with an empty term shows the whole list unchanged |
| Polls.SearchIgnoresCase | src/pages/Polls.tsx:38 | a term and its lower-cased form select the same polls |
| Polls.LowerIdempotent | src/pages/Polls.tsx:38 | lower-casing twice equals lower-casing once |
| Polls.PopularOrderRanked | src/pages/Polls.tsx:43-46 | the popular order is a permutation of the filtered list, ordered by descending total and stable for equal totals |
| Polls.PopularOrder | src/pages/Polls.tsx:43-46 | the popular order has one entry per listed poll, totals never increasing down the list |
| Polls.StatsOf | src/pages/Polls.tsx:123-129 | figures: all polls, the number of active polls (`filter(...).length`, no more than all), and the sum of the totals |
| Polls.ActiveCountIsActiveView | src/pages/Polls.tsx:123 | the active figure is the size of the "active" view for an empty search |
| Polls.VotesCoverEachPoll | src/pages/Polls.tsx:126 | with no negative totals, the votes figure is at least each poll's own total |
| Polls.DetailsPath | src/pages/Polls.tsx:58-60 | `/poll/` followed by exactly the poll id |
| Home.HomeFilter | src/pages/Home.tsx:130-134 | the home list keeps exactly the matching polls in order, as many as match, and the whole list for "all" with an empty term |
| Home.HomeStats | src/pages/Home.tsx:198-206 | the home figures: active polls at most all polls and equal to the active view; votes the sum of the totals |
| Home.CardTarget | src/pages/Home.tsx:136-142 | voting and viewing details both open the poll's detail page `/poll/<id>` |
| Home.CardTargetInjective | src/pages/Home.tsx:136-142 | different polls' cards lead to different pages |
| VerifyOtp.JoinFull | src/pages/VerifyOtp.tsx:84-85 | cells of length at most one join to a string of length one per cell exactly when none is empty |
| VerifyOtp.Join | src/pages/VerifyOtp.tsx:84 | `join('')` of the cells is empty exactly when every cell is |
| VerifyOtp.DigitsOnly | src/pages/VerifyOtp.tsx:66 | the pasted text's digits, in order, every one of them, and nothing else |
| VerifyOtp.Prefix | src/pages/VerifyOtp.tsx:66 | `slice(0, n)`: the first `min(n, length)` characters |
| VerifyOtp.PadTwo | src/pages/VerifyOtp.tsx:42 | `padStart(2, '0')`: one leading zero for a single digit, nothing otherwise |
| VerifyOtp.FormatTime | src/pages/VerifyOtp.tsx:39-43 | the plain decimal minutes, a colon, two-digit seconds below 60, and `minutes * 60 + seconds` equals the input |
| VerifyOtp.OtpForm.constructor | src/pages/VerifyOtp.tsx:7-11 | six empty cells, ten minutes, no resend, no error, not loading |
| VerifyOtp.OtpForm.Mount | src/pages/VerifyOtp.tsx:18-37 | without a truthy e-mail the page redirects to `/forgot-password`; otherwise the countdown starts |
| VerifyOtp.OtpForm.Tick | src/pages/VerifyOtp.tsx:25-34 | a counter above 1 goes down by one; otherwise it becomes 0, resend is offered and the interval stops |
| VerifyOtp.OtpForm.OtpChange | src/pages/VerifyOtp.tsx:45-56 | a value of length above one (UTF-16 code units) changes nothing; otherwise exactly that cell takes it; focus moves on after a non-empty value except from the last cell |
| VerifyOtp.OtpForm.Paste | src/pages/VerifyOtp.tsx:64-78 | the first `k` cells take the first `k` pasted digits (at most 6), the other cells keep their contents, and the focus goes to `min(k, 5)` |
| VerifyOtp.OtpForm.Fill | src/pages/VerifyOtp.tsx:69-71 | the paste loop: cell `i` takes digit `i` for every written position, and the other cells keep their contents |
| VerifyOtp.OtpForm.SubmitDisabled | src/pages/VerifyOtp.tsx:200 | the submit button is disabled exactly while a check runs or some cell is empty |
| VerifyOtp.OtpForm.Submit | src/pages/VerifyOtp.tsx:80-99 | a code that does not join to length six sets the error and sends nothing; otherwise the code is sent, and success opens the reset page with the e-mail as received (possibly missing) and the code, while failure shows the message or "Invalid OTP" |
| VerifyOtp.OtpForm.Resend | src/pages/VerifyOtp.tsx:101-125 | cells cleared, ten minutes, error cleared; the request carries the page's e-mail as received; success restarts the countdown, failure shows the message and offers resending again |
| VerifyOtp.CompleteIffFilled | src/pages/VerifyOtp.tsx:84-85 | a six-cell code is complete exactly when every cell is filled |
| CreatePoll.ValidOptions | src/pages/CreatePoll.tsx:77 | exactly the choices that are not all white space, in their order, as many as there are non-blank entries |
| CreatePoll.OptionalUrl | src/pages/CreatePoll.tsx:99 | no url exactly for a blank entry; otherwise the trimmed url |
| CreatePoll.CheckSubmit | src/pages/CreatePoll.tsx:71-81 | the session is checked first: no truthy token or no user means "not authenticated"; then fewer than 3 non-blank choices means too few; otherwise the form is ready to send |
| CreatePoll.CheckSubmitPayload | src/pages/CreatePoll.tsx:83-101 | a ready form sends the trimmed question, exactly the non-blank choices (at least 3), category "Movies", the parsed user id, the optional url, the duration only when one is chosen, and the anonymity and visibility as set |
| CreatePoll.CreatePollForm.constructor | src/pages/CreatePoll.tsx:13-20 | three blank choices, public, not anonymous, no duration |
| CreatePoll.CreatePollForm.OptionChange | src/pages/CreatePoll.tsx:37-44 | exactly choice `index` takes the value |
| CreatePoll.CreatePollForm.AddOption | src/pages/CreatePoll.tsx:46-53 | one blank choice appended below six choices, nothing at six; the count stays within 2..6 |
| CreatePoll.CreatePollForm.RemoveOption | src/pages/CreatePoll.tsx:55-63 | exactly entry `index` dropped above two choices, nothing at two; the count stays within 2..6 |
| CreatePoll.CreatePollForm.Submit | src/pages/CreatePoll.tsx:65-110 | each failed check sets its message and sends nothing; a ready form sends the payload, then opens `/poll/<new id>` or shows the request's message; loading ends false |
| CreatePoll.OfferedRemovalKeepsThree | src/pages/CreatePoll.tsx:179 | removing through the offered buttons (shown above three choices) keeps at least three |
| CreatePoll.PayloadChoicesNonBlank | src/pages/CreatePoll.tsx:77 | every submitted choice is non-blank once trimmed |
| CreatePoll.CreatePollForm.RemoveOffered | src/pages/CreatePoll.tsx:179 | remove buttons appear whenever there are more than three choices, and only when the handler's guard lets the removal through, leaving at least three |
| CreatePoll.CreatePollForm.SubmitDisabled | src/pages/CreatePoll.tsx:280 | publishing is disabled exactly while a request runs or the question is all white space |
| Admin.ApplyEdit | src/pages/Admin.tsx:122 | `{ ...movie, [field]: value }`: the named field takes the value and the others stay |
| Admin.EditAt | src/pages/Admin.tsx:121-123 | only entry `index` is edited; the length is kept |
| Admin.OptionOf | src/pages/Admin.tsx:77-86 | the option made from entry `n`: id and movie id are the decimal form of `n`, no votes, the entered movie fields, and the default poster when none was entered |
| Admin.BuildOptions | src/pages/Admin.tsx:76-87 | one option per form entry, in form order, entry `i` numbered `start + i + 1` (for a new poll, "1" to "n") |
| Admin.NewPoll | src/pages/Admin.tsx:70-93 | id from the creation time; the question, description, deadline and built options; a draft by "admin" with no votes |
| Admin.BuildOptionsDistinct | src/pages/Admin.tsx:77 | the built option ids are all different |
| Admin.SumOfZeroVotes | src/pages/Admin.tsx:86 | options without votes sum to zero |
| Admin.NewPollConsistent | src/pages/Admin.tsx:70-93 | a created poll is consistent for voting on the detail page |
| Admin.SetStatus | src/pages/Admin.tsx:105-109 | the polls with the id take the new status; every other poll is kept |
| Admin.SetStatusKeepsVotes | src/pages/Admin.tsx:105-109 | a status change leaves the vote total unchanged |
| Admin.StatsOf | src/pages/Admin.tsx:134-139 | all polls; the active and draft figures are the lengths of the active and draft filters and together do not exceed all polls; and the vote sum |
| Admin.CreateAddsDraft | src/pages/Admin.tsx:95 | a created poll adds one poll and one draft, and no active poll and no votes |
| Admin.AdminPage.constructor | src/pages/Admin.tsx:60-67 | the initial polls, the modal closed, one blank movie entry |
| Admin.AdminPage.OpenCreateModal | src/pages/Admin.tsx:61 | the create modal opens |
| Admin.AdminPage.CreatePoll | src/pages/Admin.tsx:95-102 | the new poll goes in front of the others; the modal closes; the form is reset |
| Admin.AdminPage.StatusChange | src/pages/Admin.tsx:105-109 | the polls become `SetStatus` of the old polls |
| Admin.AdminPage.AddMovieOption | src/pages/Admin.tsx:111-116 | one blank entry appended |
| Admin.AdminPage.UpdateMovieOption | src/pages/Admin.tsx:118-125 | only the named field of entry `index` changes |
| Admin.AdminPage.RemoveMovieOption | src/pages/Admin.tsx:127-132 | exactly entry `index` is dropped |
| Admin.AdminPage.CreateDisabled | src/pages/Admin.tsx:413 | Create is enabled whenever the question and deadline are both filled, and a poll created through it has both; the reset form cannot be submitted |
| Admin.AdminPage.RemoveOffered | src/pages/Admin.tsx:361 | removal shows whenever there is more than one entry, and removing through it always leaves an entry; the reset form shows none |
| Validation.ValidFrom | src/pages/ForgotPassword.tsx:13 | the scan from position `b` succeeds exactly when some `@` at or after `b` has a non-white-space character just before it, and the white-space-free run after it holds a dot that is neither its first nor its last character |
| Validation.EmailPattern | src/pages/Register.tsx:40 | the `\S+@\S+\.\S+` pattern matches somewhere; a match needs at least five characters, an `@` and a dot |
| Validation.ValidEmail | src/pages/ForgotPassword.tsx:12-14 | the scan accepts exactly the strings in which `\S+@\S+\.\S+` matches somewhere |
| Validation.ScanIffPattern | src/pages/Register.tsx:40 | the scan from position 0 agrees with the pattern in both directions |
| Validation.PatternUnanchored | src/pages/Login.tsx:21 | text around a matching address keeps it matching |
| Validation.PatternNeedsAt | src/pages/Login.tsx:21 | text without `@` never matches |
| Validation.EmailError | src/pages/Login.tsx:19-23 | empty gives the "required" message, a non-match gives the "invalid" message, and there is no error exactly when the pattern matches |
| Validation.PasswordError | src/pages/Register.tsx:44-48 | empty gives "Password is required", a length below six (UTF-16 code units) gives the length message, and there is no error exactly at length six or more |
| Validation.FallbackWhenEmpty | src/pages/VerifyOtp.tsx:95 | an empty thrown message shows the page's fallback |
| Register.NameError | src/pages/Register.tsx:26-36 | blank after trimming is "required", a trimmed length below two (UTF-16 code units) is too short, and there is no error exactly at trimmed length two or more |
| Register.ConfirmError | src/pages/Register.tsx:50-52 | "Passwords do not match" exactly when the entries differ |
| Register.RegisterForm.constructor | src/pages/Register.tsx:9-19 | empty fields and no errors |
| Register.RegisterForm.ValidateForm | src/pages/Register.tsx:23-56 | each field reports exactly its own rule's message; valid exactly when no field has one |
| Register.RegisterForm.Submit | src/pages/Register.tsx:58-74 | an invalid form sends nothing; a valid one sends the trimmed names, the raw e-mail and the password, then goes home or shows only "Registration failed. Please try again." on the e-mail field |
| Register.ValidFormMeans | src/pages/Register.tsx:23-56 | the form passes exactly when both trimmed names have length at least 2, the e-mail matches, and the password has length at least 6 and is confirmed |
| Register.MismatchReportedIndependently | src/pages/Register.tsx:50-52 | a mismatch is reported even when the password's own rule also fails |
| Login.LoginForm.constructor | src/pages/Login.tsx:9-12 | empty fields and no errors |
| Login.LoginForm.ValidateForm | src/pages/Login.tsx:16-33 | each field reports its rule; valid exactly when the e-mail matches and the password has length at least 6 |
| Login.LoginForm.Submit | src/pages/Login.tsx:35-46 | login is called exactly for a valid form, with the e-mail and password as typed; failure leaves only "Invalid email or password" on the e-mail field; success goes home |
| ResetPassword.ResetCheck | src/pages/ResetPassword.tsx:34-47 | the checks run in order (empty, short, mismatch) and only the first failing message is given; none fails exactly for a long-enough, confirmed password |
| ResetPassword.ValidatePassword | src/pages/ResetPassword.tsx:26-28 | length at least six (UTF-16 code units): six or more characters always pass, fewer than three never do, and without astral characters exactly six or more characters pass |
| ResetPassword.Redirect | src/pages/ResetPassword.tsx:20-24 | redirect to `/forgot-password` exactly when the e-mail or the code is missing or empty |
| ResetPassword.TicksMeanAccepted | src/pages/ResetPassword.tsx:185-190 | both checklist ticks show exactly when the submit checks pass |
| ResetPassword.LengthTick | src/pages/ResetPassword.tsx:185-186 | the checklist's length tick tests the same length as the submit handler |
| ResetPassword.MatchTick | src/pages/ResetPassword.tsx:189-190 | the match tick shows exactly for equal entries with a non-empty password; while it shows, the handler stops at neither the missing password nor the mismatch; with a long-enough password it shows exactly when the checks pass |
| ResetPassword.EnabledButTooShort | src/pages/ResetPassword.tsx:206 | an enabled button does not imply acceptance: two equal three-character entries are rejected as too short |
| ResetPassword.ResetPasswordPage.constructor | src/pages/ResetPassword.tsx:7-18 | the passed e-mail and code, empty entries, idle, no error, no success |
| ResetPassword.SubmitDisabled | src/pages/ResetPassword.tsx:206 | disabled while loading or while either field is empty, and enabled whenever idle with both fields filled; an enabled button has a password; an entry the checks accept is never blocked while idle |
| ResetPassword.ResetPasswordPage.Submit | src/pages/ResetPassword.tsx:30-58 | the request is made exactly when the checks pass; a failed check sets its message; success shows the success view; failure shows the message or "Failed to reset password"; loading ends false |
| ForgotPassword.ForgotCheck | src/pages/ForgotPassword.tsx:20-28 | empty gives "Email is required" before the pattern check, a non-match gives the invalid-address message, and there is no error exactly for a match |
| ForgotPassword.EmptyIsMissingNotInvalid | src/pages/ForgotPassword.tsx:20-23 | the empty address is reported as missing |
| ForgotPassword.ForgotPasswordPage.constructor | src/pages/ForgotPassword.tsx:7-9 | empty address, idle, no error |
| ForgotPassword.ForgotPasswordPage.Submit | src/pages/ForgotPassword.tsx:16-40 | the error is cleared first; a failed check makes no request; a valid address is sent, and success opens `/verify-otp` with the address while failure shows the message or "Failed to send OTP" |
| AuthContext.Get | src/context/AuthContext.tsx:28-29 | `getItem`: a value exactly for a present key |
| AuthContext.SavedSession | src/context/AuthContext.tsx:27-34 | a session is found exactly when both the saved user and the access token are truthy |
| AuthContext.StoreSession | src/context/AuthContext.tsx:40-42 | the three session keys are written with the tokens and the user; every other key is untouched |
| AuthContext.ClearSession | src/context/AuthContext.tsx:65-67 | exactly the three session keys are removed; every other key is untouched |
| AuthContext.LogoutThenRestore | src/context/AuthContext.tsx:27-34 | a restart after sign-out finds no session |
| AuthContext.LoginThenRestore | src/context/AuthContext.tsx:27-49 | a restart after sign-in finds the signed-in user, unless the access token was empty |
| AuthContext.LoginAfterLogoutKeys | src/context/AuthContext.tsx:40-42 | sign-out then sign-in leaves the keys that were there plus the session keys |
| AuthContext.SessionStore.constructor | src/context/AuthContext.tsx:24-25 | no user, loading |
| AuthContext.SessionStore.Restore | src/context/AuthContext.tsx:27-34 | a saved session sets the user; loading ends except when parsing the saved user throws |
| AuthContext.SessionStore.Login | src/context/AuthContext.tsx:36-49 | success writes the session and sets the user; failure is rethrown and changes neither; loading ends false |
| AuthContext.SessionStore.Register | src/context/AuthContext.tsx:51-61 | the sign-up gets only the e-mail and password; sign-in follows only after a successful sign-up; loading ends false |
| AuthContext.SessionStore.Logout | src/context/AuthContext.tsx:63-68 | no user, and exactly the three session keys removed |
| App.ProtectedRoute | src/App.tsx:14-26 | the placeholder while loading; the page for a signed-in user; otherwise a redirect to `/login` |
| App.AdminRoute | src/App.tsx:28-40 | the placeholder while loading; the page for an administrator; everyone else, signed in or not, goes to `/` |
| Types.IsAdminUser | src/App.tsx:35 | `user?.isAdmin` is falsy for a missing user, a missing flag and a false flag alike |
| App.AdminGuardIsStricter | src/App.tsx:14-40 | whatever the admin guard shows, the ordinary guard shows too; a signed-in non-administrator is sent home from the admin page |
| App.Param | src/App.tsx:59 | a `:id` segment: the non-empty rest of the path after the prefix, containing no `/` |
| App.Route | src/App.tsx:49-84 | `/login` and `/register` redirect home when a user is present; `/`, `/poll/:id`, `/results/:id` and `/profile` go through the sign-in guard with their page and id; `/admin` uses the admin guard; any path the table does not name goes to `/` |
| App.PatternsDisjoint | src/App.tsx:59-69 | a `/poll/:id` or `/results/:id` path is none of the fixed paths, and no path fits both patterns |
| App.RedirectsSettle | src/App.tsx:49-84 | there are no redirect loops: from any path, at most two redirects reach a page or the placeholder |
| App.HomeSettles | src/App.tsx:50-57 | from `/` and `/login`, at most one redirect reaches a page or the placeholder |
| App.CardTargetOpensDetail | src/App.tsx:59-63 | a poll card's details target opens that poll's detail page for a signed-in user |
| App.ResultsLinkOpensResults | src/App.tsx:65-69 | a closed poll's results link opens its results page for a signed-in user |
| App.RecoveryLinkReturnsToLogin | src/App.tsx:83 | as written, a recovery path is unrouted: a signed-out visitor goes to `/` and then back to the sign-in page |
| App.RouteWithRecovery | src/App.tsx:49-84 | the table with the recovery pages routed; every other path resolves as in `Route` |
| App.RecoveryFlowReachable | src/App.tsx:50 | with those routes, each recovery page opens for a signed-out visitor |
| Profile.Toggle | src/pages/Profile.tsx:46-53 | a listed name is removed everywhere it occurs; an unlisted name is appended |
| Profile.ToggleFlips | src/pages/Profile.tsx:169 | the toggled name's checkbox flips, and no other name changes membership |
| Profile.ToggleTwiceSameNames | src/pages/Profile.tsx:46-53 | toggling twice restores the set of names |
| Profile.ToggleTwiceAbsent | src/pages/Profile.tsx:46-53 | toggling an unlisted name twice restores the exact list |
| Profile.FilterAppendDropped | src/pages/Profile.tsx:50 | removing a just-appended name from a list that lacked it gives the list back |
| Profile.DuplicatesCollapse | src/pages/Profile.tsx:50 | a name listed twice comes back once after two toggles |
| Profile.InitialForm | src/pages/Profile.tsx:19-23 | the user's name, e-mail and cinemas, or empty values without a user |
| Profile.ProfilePage.constructor | src/pages/Profile.tsx:18-24 | the initial form, not editing, not saving |
| Profile.ProfilePage.Checked | src/pages/Profile.tsx:169 | a cinema is ticked exactly when it is in the form's list |
| Profile.ProfilePage.Edit | src/pages/Profile.tsx:90 | edit mode opens |
| Profile.ProfilePage.Save | src/pages/Profile.tsx:28-35 | saving ends and edit mode closes; the form and the user stay as they were |
| Profile.ProfilePage.Cancel | src/pages/Profile.tsx:37-44 | the form is reset to the user's values and edit mode closes |
| Profile.ProfilePage.CinemaChange | src/pages/Profile.tsx:46-53 | only the cinema list changes, by `Toggle`, and the cinema's checkbox flips |

## Left out

- JSON parsing and serialisation:
  - A stored user is named by the user it encodes.
  - A saved `user` value that is not a user's JSON text is modelled only as the parse throwing.
  - `JSON.parse` of other text, for example `"null"`, is not modelled.
- Dates and the clock:
  - `new Date(...)`, `Date.now()`, ISO strings and `toLocaleDateString` are not modelled.
  - Times are whole milliseconds passed in.
  - A closing time that does not parse (`NaN`) is not modelled.
  - CreatePoll's day addition is left out. The payload carries the chosen duration in days in
    place of the computed end date.
- Floating point:
  - Shares and percentages are exact reals, and `toFixed` display is left out.
  - The poster rating is a real, as the form holds it. `parseFloat` is not modelled.
- Text:
  - Lower-casing is ASCII only; `toLowerCase` on other letters is not modelled.
  - `parseInt` is decimal only, with no radix or `0x` prefixes. A `NaN` result is `None`.
- Sorting: the poll list's "newest" and "category" sorts are left out. They depend on date
  parsing and `localeCompare`.
- Routing:
  - React Router's case-insensitive and trailing-slash matching are not modelled.
  - URL decoding of `:id` segments is not modelled.
- Timing and concurrency:
  - Timers are modelled by a `Tick` step and a `ticking` flag; `setInterval` scheduling is not.
  - Simulated delays, the dynamic `import` in resend and overlapping submits are not modelled.
- Focus: `focus()` calls are not modelled; the handlers return the index they would focus.
- Sign-in with Google is left out. It decodes a token through library calls. `Register.tsx`
  also uses a `googleLogin` that the session store does not provide.
- HTTP: the request wrappers in `src/services` are left out. Each call is the `ApiResult`
  outcome its caller receives.
- Presentation is left out: navigation bar, footer, cards, notifications, mock data and markup.
- PollDetail.PollDetailPage.SubmitVote: re-tallies locally, as the page's code does, and does
  not re-fetch the poll from the server.
- PollDetail.PollDetailPage.SortSidebar: copies the options into an array, sorts it in place
  and stores the result. It does not model how React state aliases the poll object that was
  sorted during rendering.
- Register.RegisterForm.ValidateForm: the errors dictionary is a record with one optional
  message per field. Those five fields are the only keys the page sets.
- Countdown.JsRem: states only the sign and range of the remainder. `Countdown.Remaining`
  states the countdown exactly.
- VerifyOtp.OtpForm.Resend: requires that resending is offered. The handler has no guard of its
  own, but the page renders the resend control only then (`src/pages/VerifyOtp.tsx:215-218`).
- CreatePoll.CreatePollForm.Submit: a failed request is taken to throw an `Error` carrying its
  message. The "Failed to create poll" fallback for other thrown values is not modelled.
- Profile.ProfilePage.Save: nothing is sent. The source only simulates the save.

## Findings

| source | as written | input that shows it | evidently intended | confidence | as-written member | corrected member |
|---|---|---|---|---|---|---|
| src/App.tsx:49-84 | The route table has no `/forgot-password`, `/verify-otp` or `/reset-password` route, so the catch-all (line 83) sends them to `/`. Yet the sign-in page links to `/forgot-password` (`src/pages/Login.tsx:103`), and the recovery pages navigate to one another. | A signed-out visitor opens `/forgot-password`. The catch-all sends them to `/`, and the home guard sends them to `/login`, the page they came from. | The three recovery pages are routed without a guard, like the sign-in page. | medium, not executed | App.RecoveryLinkReturnsToLogin | App.RecoveryFlowReachable |
