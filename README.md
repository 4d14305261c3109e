# bugBridge core, modelled in Dafny

This project models the deterministic logic of bugBridge, a bug tracker with
a React client and a Spring backend:

- **The bug list page** (`client/src/Pages/AllBugs.jsx`). The client-side filter
  drops soft-deleted bugs and then applies four optional criteria joined by AND.
  Priority, status and assignee must be strictly equal. The report date is
  matched as a substring. The page state is the class `AllBugs.BugListView`:
  the filter form, the row being edited, the row update (a merge of the patch
  into the row) and the row delete (a removal).
- **The bug creation page** (`client/src/Pages/AddBug.jsx`). The class
  `AddBug.AddBugForm` holds the draft. Dictation appends to the description.
  A pure classifier turns a submit outcome into a banner and decides whether
  the draft is reset. The suggestion panel reveals a fixed list of ten
  examples, five at a time.
- **The `User` entity** (`bugbridge/.../models/User.java`). The name and email
  `@Pattern` regexes are modelled by a small Java-regex matcher
  (`JavaRegex`) and proved equal to rules written out by hand. `setRole` trims
  and upper-cases its argument before the role lookup. The constructors and
  setters are modelled too.
- **The assignment response envelope**
  (`bugbridge/.../response/BugAssignmentApiResponse.java`). This covers the
  null-safe projection `mapToDTO`, its use on a whole list, and the three
  constructors and six setters.

`JsBuiltins` holds the JavaScript built-ins the client uses: `filter`,
`slice` and `includes`. `Wrappers.Option` stands for a missing key or for
`null`.

Network calls are not made. Each request's outcome is a parameter of the
event that receives it. Each timer callback is an event of its own
(`GlowTimerFired`, `DeleteTimerFired`, `MessageTimerFired`). The live
`AllBugs` component calls `handleUpdate` and `handleDelete` but never defines
them. Their behaviour is taken from the earlier version kept in comments at the
top of the same file (lines 44-71). See "## Findings".

Two behaviours of the code are easy to misread, and the model follows the code:
- The row removal follows `await axios.put(...)` (AllBugs.jsx:67-68). A rejected
  request therefore leaves the row in place and still marked as deleting.
  `AllBugs.BugListView.DeleteTimerFired` models this.
- A tester whose own name is null also gives a null tester name
  (BugAssignmentApiResponse.java:54), and the same holds for the developer and
  the bug id. `BugAssignmentResponse.MapToDTO` states exactly what the code
  does. `NullFieldIffNullReference` gives "null field iff null reference"
  under the condition that makes it true: every referenced user has a name
  and every referenced bug has an id.

## Model

| member | source | states |
|---|---|---|
| `JsBuiltins.Keep` | client/src/Pages/AllBugs.jsx:213 | `filter`: never longer than its input, and every element of the result passes the test |
| `JsBuiltins.KeepMembers` | client/src/Pages/AllBugs.jsx:213-219 | an element is in `filter`'s result iff it is in the input and passes the test |
| `JsBuiltins.KeepIsSubsequence` | client/src/Pages/AllBugs.jsx:213 | `filter` keeps the surviving elements in their original order |
| `JsBuiltins.KeepCount` | client/src/Pages/AllBugs.jsx:213 | `filter` keeps every copy of a passing element and no copy of a failing one |
| `JsBuiltins.Slice` | client/src/Pages/AddBug.jsx:45 | `slice` with in-range ends is the subsequence; an end past the length gives everything from the start on; the result's length follows JavaScript's clamping |
| `JsBuiltins.Includes` | client/src/Pages/AllBugs.jsx:218 | `includes`: the empty needle is always found, and a found needle is no longer than the string |
| `JsBuiltins.IncludesIff` | client/src/Pages/AllBugs.jsx:218 | `includes` holds iff the needle occurs at some index of the string |
| `AllBugs.WithFilter` | client/src/Pages/AllBugs.jsx:210 | the named filter takes the new value and the other three keep theirs |
| `AllBugs.PassesFilters` | client/src/Pages/AllBugs.jsx:213-219 | a passing bug is never soft-deleted; under the all-empty filters a bug passes iff it is not deleted |
| `AllBugs.FilteredBugs` | client/src/Pages/AllBugs.jsx:213-219 | the shown rows are no more than the fetched ones, and each of them passes the filters |
| `AllBugs.FilteredNeverDeleted` | client/src/Pages/AllBugs.jsx:214 | whatever the criteria, no shown bug is soft-deleted |
| `AllBugs.FilteredIsSubsequence` | client/src/Pages/AllBugs.jsx:213 | the shown bugs keep the fetched order |
| `AllBugs.FilteredIff` | client/src/Pages/AllBugs.jsx:213-219 | a bug is shown iff it was fetched, is not deleted, and each criterion is empty or met (strict equality; date as a substring at some index) |
| `AllBugs.FilteredKeepsCopies` | client/src/Pages/AllBugs.jsx:213 | every copy of a passing bug is shown |
| `AllBugs.InitialFiltersShowLiveBugs` | client/src/Pages/AllBugs.jsx:213-219 | with the initial all-empty filters the page shows exactly the non-deleted bugs, as the unfiltered version's `bugs.filter((bug) => !bug.isDeleted)` did |
| `AllBugs.NumericAssigneeNeverMatches` | client/src/Pages/AllBugs.jsx:217 | `===` does not coerce: with a developer filter set, a bug whose `assignedTo` is a JSON number is never shown |
| `AllBugs.ClearingFilterWidens` | client/src/Pages/AllBugs.jsx:213-219 | setting any filter back to "" keeps every bug shown before |
| `AllBugs.ApplyPatch` | client/src/Pages/AllBugs.jsx:51 | the spread merge: patched keys take the patch values, every other field is kept |
| `AllBugs.MergeUpdate` | client/src/Pages/AllBugs.jsx:50-52 | same length; rows with the id are patched, all other rows are unchanged |
| `AllBugs.MergeIdempotent` | client/src/Pages/AllBugs.jsx:50-52 | merging the same patch twice equals merging it once |
| `AllBugs.MergeKeepsLiveIds` | client/src/Pages/AllBugs.jsx:50-52 | a merge neither deletes nor revives rows: the live rows after it are the merge of the live rows before it, so their count, ids and order are kept |
| `AllBugs.RemoveById` | client/src/Pages/AllBugs.jsx:68 | the removal is never longer than its input and leaves no row with the id |
| `AllBugs.RemoveByIdSpec` | client/src/Pages/AllBugs.jsx:68 | removal drops every row with the id and keeps every copy of every other row, in order |
| `AllBugs.RemoveThenFilter` | client/src/Pages/AllBugs.jsx:68 | filtering after a removal equals removing from the filtered rows: a delete takes exactly that row off the page |
| `AllBugs.UndefinedCallee` | client/src/Pages/AllBugs.jsx:266-317 | every row control except the description click calls an undefined handler (`handleDelete` for Delete) |
| `AllBugs.EventPatch` | client/src/Pages/AllBugs.jsx:271-310 | each row control sends a one-key patch: the blurred text, or the chosen developer, priority or status |
| `AllBugs.BugListView.constructor` | client/src/Pages/AllBugs.jsx:174-182 | no bugs, all-empty filters, no row editing, updating or deleting, no glows |
| `AllBugs.BugListView.ReceiveBugs` | client/src/Pages/AllBugs.jsx:188 | a fetched list replaces the bugs and nothing else changes |
| `AllBugs.BugListView.HandleFilterChange` | client/src/Pages/AllBugs.jsx:209-211 | only the named filter changes; the bugs and row state stay |
| `AllBugs.BugListView.BeginUpdate` | client/src/Pages/AllBugs.jsx:44-46 | the row is marked updating and its glow is reset |
| `AllBugs.BugListView.FinishUpdate` | client/src/Pages/AllBugs.jsx:48-57 | on success the patch is merged and the row glows green; on failure the bugs stay and it glows red; the updating mark is cleared |
| `AllBugs.BugListView.GlowTimerFired` | client/src/Pages/AllBugs.jsx:58-60 | the row's glow is cleared and nothing else changes |
| `AllBugs.BugListView.BeginDelete` | client/src/Pages/AllBugs.jsx:64-65 | the row is marked deleting |
| `AllBugs.BugListView.DeleteTimerFired` | client/src/Pages/AllBugs.jsx:66-70 | after a successful request every row with the id is removed, none is shown, and the mark is cleared; a failed request changes nothing |
| `AllBugs.BugListView.HandleRowEventAsWritten` | client/src/Pages/AllBugs.jsx:266-317 | the live page: a description click opens the editor; any other control throws without changing state, so a blur leaves the editor open |
| `AllBugs.BugListView.HandleRowEvent` | client/src/Pages/AllBugs.jsx:96-149 | the earlier version's handlers: a blur starts the update and closes the editor, a select starts its update, Delete marks the row |
| `AllBugs.BlurLeavesEditorOpen` | client/src/Pages/AllBugs.jsx:270-273 | on the live page, open then blur leaves the editor open and reports the missing `handleUpdate` |
| `AllBugs.BlurClosesEditor` | client/src/Pages/AllBugs.jsx:100-103 | with the handler in place, open then blur closes the editor with the description update in flight |
| `AddBug.InitialSuggestions` | client/src/Pages/AddBug.jsx:32 | the panel starts with exactly the first five examples |
| `AddBug.NextSuggestions` | client/src/Pages/AddBug.jsx:43-46 | a reveal keeps what was shown as a prefix, adds at most five entries, and adds none once the whole list is shown |
| `AddBug.NextSuggestionsSpec` | client/src/Pages/AddBug.jsx:43-46 | a reveal keeps the panel a prefix of the fixed list, keeps what was shown, and adds min(5, remaining) entries |
| `AddBug.NextSuggestionsAtEnd` | client/src/Pages/AddBug.jsx:45 | a reveal with everything shown changes nothing |
| `AddBug.AfterRevealsShows` | client/src/Pages/AddBug.jsx:43-46 | after k reveals the panel is the first min(5(k+1), 10) examples |
| `AddBug.PredefinedDistinct` | client/src/Pages/AddBug.jsx:11-22 | the ten examples are pairwise different |
| `AddBug.NextSuggestionsNoRepeats` | client/src/Pages/AddBug.jsx:43-46 | a reveal never shows an example twice |
| `AddBug.ShowsLoader` | client/src/Pages/AddBug.jsx:190 | for a panel that is a prefix of the fixed list, the spinner shows iff the panel is not the whole list |
| `AddBug.LoaderOnlyBeforeFirstReveal` | client/src/Pages/AddBug.jsx:190 | the spinner shows before the first reveal and never after it |
| `AddBug.AppendTranscript` | client/src/Pages/AddBug.jsx:116 | the old description is a prefix of the new one; an empty one becomes the transcript, otherwise one space and the transcript follow |
| `AddBug.TwoDictations` | client/src/Pages/AddBug.jsx:116 | two dictations into a non-empty draft join the three pieces with single spaces |
| `AddBug.Settle` | client/src/Pages/AddBug.jsx:60-64 | a 2xx reply resolves; any other reply rejects with its body's message; no reply rejects without one |
| `AddBug.Classify` | client/src/Pages/AddBug.jsx:66-85 | only 201 with `bugDTO` gives success and a draft reset; other replies give the retry text; a thrown error gives "Error: " + the server message, or the fallback text; type is error unless success |
| `AddBug.SuccessTextOnlyOnSuccess` | client/src/Pages/AddBug.jsx:67-85 | the success text appears iff the draft is reset; server text cannot imitate it |
| `AddBug.OnlyCreatedResets` | client/src/Pages/AddBug.jsx:67-74 | the draft resets iff the server replied 201 with the created bug |
| `AddBug.ServerMessageShown` | client/src/Pages/AddBug.jsx:80-81 | a 500 whose body says "db down" shows "Error: db down" |
| `AddBug.AddBugForm.constructor` | client/src/Pages/AddBug.jsx:27-32 | empty description, priority "low", not loading, no banner, the first five examples |
| `AddBug.AddBugForm.LoadMore` | client/src/Pages/AddBug.jsx:43-46 | the panel grows by min(5, remaining) and stays a prefix of the fixed list; the draft is untouched |
| `AddBug.AddBugForm.Loader` | client/src/Pages/AddBug.jsx:190 | the spinner shows iff the panel is not yet the whole list |
| `AddBug.AddBugForm.EditDescription` | client/src/Pages/AddBug.jsx:133 | typing sets the description only |
| `AddBug.AddBugForm.SelectPriority` | client/src/Pages/AddBug.jsx:140 | choosing sets the priority only |
| `AddBug.AddBugForm.Dictate` | client/src/Pages/AddBug.jsx:114-117 | the transcript is appended and the old description stays a prefix |
| `AddBug.AddBugForm.PickSuggestion` | client/src/Pages/AddBug.jsx:185 | the clicked example replaces the description; nothing is appended |
| `AddBug.AddBugForm.BeginSubmit` | client/src/Pages/AddBug.jsx:54-64 | called only with a non-empty description and no submit pending (AddBug.jsx:134, 159); loading is set, the banner is cleared, and the request carries the user id and the current draft |
| `AddBug.AddBugForm.FinishSubmit` | client/src/Pages/AddBug.jsx:66-87 | the banner and its type are the classification; the draft resets only on success; loading ends |
| `AddBug.AddBugForm.MessageTimerFired` | client/src/Pages/AddBug.jsx:88 | the banner is hidden and nothing else changes |
| `JavaRegex.Matches` | bugbridge/src/main/java/com/cdac/bugbridge/models/User.java:21 | `Matcher.matches()` for a pattern of repeated classes: a matching string is at least as long as the sum of the lower bounds |
| `JavaRegex.MatchAt` | bugbridge/src/main/java/com/cdac/bugbridge/models/User.java:25 | the pattern matches the rest of the input only if that rest is at least the sum of the pattern's lower bounds long |
| `JavaRegex.Repeat` | bugbridge/src/main/java/com/cdac/bugbridge/models/User.java:25 | greedy repetition of one piece with backtracking: a match from `start` leaves room for the piece's lower bound and the rest's lower bounds |
| `JavaRegex.RepeatIff` | bugbridge/src/main/java/com/cdac/bugbridge/models/User.java:25 | backtracking succeeds iff some end of the repetition within its bounds covers only class characters and lets the rest of the pattern match |
| `Users.NamePatternIff` | bugbridge/src/main/java/com/cdac/bugbridge/models/User.java:21 | the name regex matches iff the name has 3 to 50 characters, each an ASCII letter or a space |
| `Users.TldStep` | bugbridge/src/main/java/com/cdac/bugbridge/models/User.java:25 | `[A-Za-z]{2,6}` matches the rest of the string iff it is 2 to 6 ASCII letters |
| `Users.DotTldStep` | bugbridge/src/main/java/com/cdac/bugbridge/models/User.java:25 | the escaped dot followed by the ending matches iff a '.' comes first and 2 to 6 letters follow it |
| `Users.DomainStep` | bugbridge/src/main/java/com/cdac/bugbridge/models/User.java:25 | the domain and ending match iff the characters up to the last '.' are a non-empty run of `[A-Za-z0-9.-]` and 2 to 6 letters follow that dot |
| `Users.EmailPatternIff` | bugbridge/src/main/java/com/cdac/bugbridge/models/User.java:25 | the email regex matches iff the address splits at its first '@' into a non-empty local part of `[A-Za-z0-9+_.-]` and a domain as above |
| `Users.EmailHasOneAt` | bugbridge/src/main/java/com/cdac/bugbridge/models/User.java:25 | a matching address has exactly one '@', not at the start |
| `Users.IndexOf` | bugbridge/src/main/java/com/cdac/bugbridge/models/User.java:25 | the first index holding the character, or -1 iff there is none |
| `Users.LastIndexOf` | bugbridge/src/main/java/com/cdac/bugbridge/models/User.java:25 | the last index holding the character, or -1 iff there is none |
| `Users.TrimStart` | bugbridge/src/main/java/com/cdac/bugbridge/models/User.java:95 | a suffix that starts above U+0020, everything cut being at most U+0020 |
| `Users.TrimEnd` | bugbridge/src/main/java/com/cdac/bugbridge/models/User.java:95 | a prefix that ends above U+0020, everything cut being at most U+0020 |
| `Users.LeadingCut` | bugbridge/src/main/java/com/cdac/bugbridge/models/User.java:95 | the number of leading characters at most U+0020 |
| `Users.Trim` | bugbridge/src/main/java/com/cdac/bugbridge/models/User.java:95 | `trim()` is the middle slice that starts and ends above U+0020, with only characters at most U+0020 cut on either side |
| `Users.UpperChar` | bugbridge/src/main/java/com/cdac/bugbridge/models/User.java:95 | a lower-case ASCII letter becomes its upper-case letter (code point minus 32); every other character is kept; blanks stay blanks |
| `Users.ToUpper` | bugbridge/src/main/java/com/cdac/bugbridge/models/User.java:95 | same length, each character upper-cased |
| `Users.NormalizeRole` | bugbridge/src/main/java/com/cdac/bugbridge/models/User.java:95 | the string handed to `fromString` has no blank at either end and no lower-case ASCII letter |
| `Users.NormalizeRoleIdempotent` | bugbridge/src/main/java/com/cdac/bugbridge/models/User.java:95 | normalising twice equals normalising once |
| `Users.NormalizeRoleIgnoresPadding` | bugbridge/src/main/java/com/cdac/bugbridge/models/User.java:95 | any run of characters at most U+0020 before and after the role name does not change what `fromString` receives |
| `Users.ToUpperIdempotent` | bugbridge/src/main/java/com/cdac/bugbridge/models/User.java:95 | upper-casing twice equals upper-casing once |
| `Users.NormalizeRoleIgnoresCase` | bugbridge/src/main/java/com/cdac/bugbridge/models/User.java:95 | letter case does not change what `fromString` receives |
| `Users.UpperTrimCommute` | bugbridge/src/main/java/com/cdac/bugbridge/models/User.java:95 | trimming and upper-casing commute |
| `Users.User.constructor` | bugbridge/src/main/java/com/cdac/bugbridge/models/User.java:51-52 | every field is null |
| `Users.User.WithCredentials` | bugbridge/src/main/java/com/cdac/bugbridge/models/User.java:54-57 | email and password are stored; name, role and id stay null |
| `Users.User.WithProfile` | bugbridge/src/main/java/com/cdac/bugbridge/models/User.java:59-64 | name, email, role and password are stored unchanged; id stays null |
| `Users.User.SetId` | bugbridge/src/main/java/com/cdac/bugbridge/models/User.java:70-72 | only the id changes |
| `Users.User.SetName` | bugbridge/src/main/java/com/cdac/bugbridge/models/User.java:78-80 | only the name changes |
| `Users.User.SetEmail` | bugbridge/src/main/java/com/cdac/bugbridge/models/User.java:86-88 | only the email changes |
| `Users.User.SetRole` | bugbridge/src/main/java/com/cdac/bugbridge/models/User.java:94-96 | only the role changes, to `fromString` of the trimmed, upper-cased argument |
| `Users.User.SetPassword` | bugbridge/src/main/java/com/cdac/bugbridge/models/User.java:102-104 | only the password changes |
| `BugAssignmentResponse.MapToDTO` | bugbridge/src/main/java/com/cdac/bugbridge/response/BugAssignmentApiResponse.java:51-58 | id and time are copied; each null reference gives a null field and each present one gives the name or id read from it |
| `BugAssignmentResponse.NullFieldIffNullReference` | bugbridge/src/main/java/com/cdac/bugbridge/response/BugAssignmentApiResponse.java:52-57 | when referenced users have names and bugs have ids, a DTO field is null iff its reference is null |
| `BugAssignmentResponse.ProjectAll` | bugbridge/src/main/java/com/cdac/bugbridge/response/BugAssignmentApiResponse.java:46-48 | the DTO list has the input's length and its i-th entry is the projection of the i-th assignment |
| `BugAssignmentResponse.ProjectAllAppend` | bugbridge/src/main/java/com/cdac/bugbridge/response/BugAssignmentApiResponse.java:46-48 | projecting a concatenation concatenates the projections |
| `BugAssignmentResponse.ProjectAllKeepsIds` | bugbridge/src/main/java/com/cdac/bugbridge/response/BugAssignmentApiResponse.java:46-48 | the projected ids are the assignments' ids, in order |
| `BugAssignmentResponse.BugAssignmentApiResponse.WithDTO` | bugbridge/src/main/java/com/cdac/bugbridge/response/BugAssignmentApiResponse.java:24-30 | status, message, path and the single DTO are stored; the list stays null |
| `BugAssignmentResponse.BugAssignmentApiResponse.WithDTOList` | bugbridge/src/main/java/com/cdac/bugbridge/response/BugAssignmentApiResponse.java:32-39 | status, message, path and the list are stored; the single DTO stays null |
| `BugAssignmentResponse.BugAssignmentApiResponse.FromAssignments` | bugbridge/src/main/java/com/cdac/bugbridge/response/BugAssignmentApiResponse.java:41-49 | status 200, the fixed message and path, the single DTO null, and the list the projection of each assignment in order |
| `BugAssignmentResponse.BugAssignmentApiResponse.SetTimestamp` | bugbridge/src/main/java/com/cdac/bugbridge/response/BugAssignmentApiResponse.java:64-66 | only the timestamp changes |
| `BugAssignmentResponse.BugAssignmentApiResponse.SetStatus` | bugbridge/src/main/java/com/cdac/bugbridge/response/BugAssignmentApiResponse.java:72-74 | only the status changes |
| `BugAssignmentResponse.BugAssignmentApiResponse.SetMessage` | bugbridge/src/main/java/com/cdac/bugbridge/response/BugAssignmentApiResponse.java:80-82 | only the message changes |
| `BugAssignmentResponse.BugAssignmentApiResponse.SetPath` | bugbridge/src/main/java/com/cdac/bugbridge/response/BugAssignmentApiResponse.java:88-90 | only the path changes |
| `BugAssignmentResponse.BugAssignmentApiResponse.SetBugAssignmentDTO` | bugbridge/src/main/java/com/cdac/bugbridge/response/BugAssignmentApiResponse.java:96-98 | only the single DTO changes |
| `BugAssignmentResponse.BugAssignmentApiResponse.SetBugAssignmentDTOList` | bugbridge/src/main/java/com/cdac/bugbridge/response/BugAssignmentApiResponse.java:104-106 | only the DTO list changes |

## Findings

| source | as written | input that shows it | evidently intended | confidence | as-written member | corrected member |
|---|---|---|---|---|---|---|
| client/src/Pages/AllBugs.jsx:266-317 | The live component's row controls call `handleUpdate` (271, 292, 301, 310) and `handleDelete` (286). Neither is defined or imported in the live component; only the commented-out version at lines 44-71 defines them. Each such event throws a ReferenceError before changing any state, so the blur at 270-273 never reaches `setEditingBug(null)`. | Click a bug's description, then move focus out of the text area. Any Delete click or any select change also shows it. | The handlers of the earlier version: a blur sends the description update and closes the editor; Delete marks the row and removes it after the request. | high; not executed | `AllBugs.BugListView.HandleRowEventAsWritten` (shown by `AllBugs.BlurLeavesEditorOpen`) | `AllBugs.BugListView.HandleRowEvent` (shown by `AllBugs.BlurClosesEditor`) |

## Left out

- HTTP requests (create, list bugs, list developers, patch, soft-delete) are not made. Their outcomes are parameters: `ReceiveBugs`, `FinishUpdate(ok)`, `DeleteTimerFired(ok)`, `Settle`/`FinishSubmit`.
- The loading and error states of the bug list page (AllBugs.jsx:176-177, 184-207, 221-222) and the developer directory (175, 196-203) are not modelled. They depend only on fetches.
- Role gating of the row controls (AllBugs.jsx:283) is not modelled. It only decides what is rendered.
- The `setTimeout` delays (1 s glow, 600 ms delete, 3 s banner) are not modelled. Each callback is an event that may arrive at any time.
- Concurrent updates to the same row are not analysed. The model allows any interleaving of `BeginUpdate`/`FinishUpdate` events, but no property about those interleavings is proved.
- The `IntersectionObserver` wiring (AddBug.jsx:35-52) is not modelled. Only the slice arithmetic of the reveal is.
- The Web Speech API, the `isRecording` flag (AddBug.jsx:33, 95-120 apart from 116), `alert`, `console` and navigation are not modelled. Only the transcript join is.
- JSX rendering and CSS class strings are not modelled.
- JavaScript numbers are modelled as integers: no fractions and no NaN. A bug's `dateReported` is assumed to be a string, so the null case, where `includes` would throw, is not modelled.
- `UserRole.fromString` is not part of this model. It is a function parameter of `Users.User.SetRole`, and whether it throws on unknown names is not captured.
- Users.ToUpper: models `toUpperCase()` on ASCII only. Java also maps non-ASCII letters, depending on locale, and can change the length (for example 'ß' becomes "SS"). This changes which inputs reach a role name: Java upper-cases 'ſ' (U+017F) to 'S' and 'ı' (U+0131) to 'I', so `"teſter"` reaches `fromString` as `"TESTER"` in Java but as `"TEſTER"` here.
- Users.User.SetRole: a null argument, which throws a null-reference exception in Java, is not modelled. The argument is a string.
- Bean Validation's own rules (a null field passes `@Pattern`), the JPA and Jackson annotations, the four relationship lists with their getters and setters (User.java:35-49, 106-136), the getters and `toString` are not modelled.
- The `LocalDateTime.now()` timestamps are not read from a clock. The constructors take the clock reading as the parameter `now`.
- `@JsonInclude`/`@JsonPropertyOrder` serialisation is not modelled. A null list argument, or null elements in it, would throw a null-reference exception in the list constructor and is not modelled.
- Java `Long` ids are unbounded integers here. The `int` status is a 32-bit newtype.
- bugbridge/.../controller/BugController.java, dto/UserResponse.java and dao/UserDAO.java are not part of this model. They are a Spring wrapper around an unseen service, a plain DTO, and an interface without bodies.
