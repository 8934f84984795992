# Toilet visit tracker — a Dafny model

This project models the `App` component of the toilet visit tracker (`src/main.ts`). It is a single-page
widget. It keeps an in-memory list of users, each with an append-only list of visits, plus the two fields
behind the "Add User" dialog (`showAddUserModal`, `newUserName`). Three actions change the data:
`ngOnInit` seeds the list with "Aldy", `addUser` appends a user whose name has been validated and trimmed,
and `addVisit` records a visit against the first user with a given id. The page also shows derived values:
a status text and a colour class per user, the total number of visits, the most frequent visitor and the
average per user.

The model is functional. `VisitTracker.State` is an immutable record. Each action is a pure function from
the old state to the new one. The clock reading a visit records is an opaque `nat` passed in as a parameter.

Modules:

- `Text` (`text.dfy`) covers `String.prototype.trim`, written as a scan from each end and stated against a
  declarative "cut off the white space at both ends" characterisation. It also covers the decimal rendering
  of a non-negative integer, which is proved to round-trip through its reading back, and so is injective.
- `VisitTracker` (`visit_tracker.dfy`) holds the data model, the actions and the derived queries.
- `VisitTrackerProofs` (`visit_tracker_proofs.dfy`) covers what the page's events can do, taken in any
  order. It holds the id invariant, append-only growth, the effect of each action on the total, how the
  status texts line up with the colour classes, and the worked examples.

Two behaviours of the code worth knowing:

- **Tie-break of the most frequent visitor.** The reduction callback at `src/main.ts:188` keeps `prev`
  only when `prev` has strictly more visits. So on a tie `current`, the **later** user in list order, wins.
  `VisitTracker.MostFrequentIndex` states this, and `VisitTrackerProofs.TieGoesToLaterUser` shows it on
  two users with two visits each.
- **Cancelling the dialog.** The Cancel button (`src/main.ts:116`) only sets `showAddUserModal` to false.
  `newUserName` keeps its text, and the next time the dialog opens it is still there
  (`VisitTracker.CancelAddUserModal`).

## Model

| member | source | states |
|---|---|---|
| `Text.LeftEdge` | src/main.ts:147 | trimming starts after the leading white space: everything before the edge is white space, and the character at the edge (if any) is not |
| `Text.RightEdge` | src/main.ts:147 | trimming ends before the trailing white space, never before the left edge: everything from the edge on is white space, and the character just before it is not (unless the two edges meet) |
| `Text.Trim` | src/main.ts:147 | the trimmed name is a piece of the input with only white space cut off at both ends; it is empty exactly when the input is all white space, and otherwise starts and ends with a non-white-space character |
| `Text.TrimMatchesCut` | src/main.ts:150 | whenever `s[i..k]` is `s` with its white space cut off at both ends, `Trim(s)` is exactly `s[i..k]` |
| `Text.TrimIdempotent` | src/main.ts:150 | a stored, trimmed name is unchanged by trimming it again |
| `Text.NatToDecimal` | src/main.ts:149 | `toString()` of a count gives at least one character, all of them decimal digits, and no leading zero |
| `Text.DecimalRoundTrip` | src/main.ts:149 | reading back the decimal rendering of `n` gives `n` |
| `Text.NatToDecimalInjective` | src/main.ts:149 | two counts render to the same id string if and only if they are equal |
| `VisitTracker.NgOnInit` | src/main.ts:137-144 | `ngOnInit` appends exactly one user (id "1", name "Aldy", no visits), keeps the earlier users and leaves the dialog fields alone |
| `VisitTracker.OpenAddUserModal` | src/main.ts:43 | the header button opens the dialog and changes neither the users nor the typed name |
| `VisitTracker.CancelAddUserModal` | src/main.ts:116 | Cancel closes the dialog, leaves the users alone and keeps the typed name |
| `VisitTracker.EditNewUserName` | src/main.ts:107-111 | the name field's binding writes `newUserName` and nothing else |
| `VisitTracker.AddUser` | src/main.ts:146-156 | a name that is all white space changes nothing. Any other name appends exactly one user: id = decimal of the new length, name = the trimmed (non-empty) input, no visits. Earlier users are kept, the field is cleared and the dialog is closed |
| `VisitTracker.FindUser` | src/main.ts:159 | `find` returns the first index whose id matches, and returns nothing exactly when no user has that id |
| `VisitTracker.AddVisit` | src/main.ts:158-166 | for a known id, exactly one visit `(timestamp, userId)` is appended to the first matching user. That user's id, name and earlier visits are kept, every other user is unchanged, and so are the dialog fields. An unknown id leaves the state unchanged |
| `VisitTracker.ReduceTotal` | src/main.ts:181 | the `reduce` fold from a running total `acc` gives `acc` plus the sum of the users' visit counts |
| `VisitTracker.TotalVisits` | src/main.ts:180-182 | `getTotalVisits` equals the sum of `visits.length` over all users |
| `VisitTracker.MostFrequentIndex` | src/main.ts:187-189 | the reduction picks a user with the largest visit count; every later user has strictly fewer, so ties go to the last such user |
| `VisitTracker.LastMaximalUnique` | src/main.ts:187-189 | at most one user satisfies that description, so it fixes the reduction's answer |
| `VisitTracker.MostFrequentVisitor` | src/main.ts:184-192 | "No users" exactly for an empty list. "No visits yet" exactly when every user has zero visits. Otherwise the result is `name (count visits)` for the last user with the largest count |
| `VisitTracker.StatusMessage` | src/main.ts:168-178 | 0 gives "No visits today", 1..3 "Normal frequency", 4..5 "Above average frequency" and 6 or more "Medical attention recommended", each text for exactly its range (a negative count gives "Normal frequency") |
| `VisitTracker.ColourClasses` | src/main.ts:72-76 | exactly one colour class applies to every count: green up to 3, yellow for 4 and 5, red for 6 or more |
| `VisitTracker.VisitorLine` | src/main.ts:191 | the summary line is the user's name, then " (", then digits that read back as the visit count, with no leading zero, then " visits)" |
| `VisitTracker.AverageVisits` | src/main.ts:194-198 | the literal "0" exactly when there are no users; otherwise the pair (total visits, positive user count) the quotient is computed from |
| `VisitTrackerProofs.InitFromEmpty` | src/main.ts:133-144 | start-up on the empty list gives exactly one user, with id "1", name "Aldy" and no visits, and a closed dialog with an empty name; that state satisfies the id invariant |
| `VisitTrackerProofs.InitTwiceDuplicatesId` | src/main.ts:137-144 | `ngOnInit` does not look at the list, so a second run would give two users id "1" |
| `VisitTrackerProofs.StepKeepsValid` | src/main.ts:146-166 | every page event keeps the invariant: user `i` has id `i+1` and every visit names its owner. Every event only adds data |
| `VisitTrackerProofs.RunKeepsValid` | src/main.ts:146-166 | any sequence of events keeps the invariant; users are never removed, renamed or re-numbered, and visit lists only grow at the end |
| `VisitTrackerProofs.ValidIdsDistinct` | src/main.ts:149 | under the invariant, no two users share an id |
| `VisitTrackerProofs.SessionInvariant` | src/main.ts:137-166 | after `ngOnInit` and any events, `users[i].id` is the decimal of `i+1`, ids are pairwise distinct and "Aldy" with id "1" is still first |
| `VisitTrackerProofs.AddVisitTargetsIndex` | src/main.ts:158-160 | under the invariant, id `k` finds exactly the user at index `k-1` when `1 <= k <= length`, and finds nobody otherwise |
| `VisitTrackerProofs.SumVisitsAppend` | src/main.ts:181 | appending a user adds its visit count to the sum |
| `VisitTrackerProofs.SumVisitsUpdate` | src/main.ts:181 | replacing one user changes the sum by the difference of the two visit counts |
| `VisitTrackerProofs.AddVisitTotal` | src/main.ts:158-166 | a visit for an existing id raises the total by exactly 1; a visit for an unknown id leaves it unchanged |
| `VisitTrackerProofs.AddUserTotal` | src/main.ts:146-156 | `addUser` never changes the total, whether it adds a user or not |
| `VisitTrackerProofs.AddVisitUnknownIdKeepsCounts` | src/main.ts:158-166 | a visit for an unknown id leaves every user's count unchanged |
| `VisitTrackerProofs.StatusMonotone` | src/main.ts:168-178 | more visits never give a less severe status text |
| `VisitTrackerProofs.ColourMatchesStatus` | src/main.ts:72-77 | for a real count the colour class agrees with the status text: green for the two calm texts, yellow for "above average", red for the warning |
| `VisitTrackerProofs.TieGoesToLaterUser` | src/main.ts:187-191 | two users with two visits each give "Bob (2 visits)", the later user |
| `VisitTrackerProofs.AddUserTrimsName` | src/main.ts:146-152 | after start-up, typing "  Bob  " and submitting adds user "2" named "Bob" |
| `VisitTrackerProofs.AddUserRejectsBlankName` | src/main.ts:146-147 | submitting a name of blanks adds nobody and leaves the dialog open |

## Left out

- The Angular template markup, DOM rendering, the `ngFor`/`ngIf`/`ngModel` plumbing and
  `bootstrapApplication`. These are UI framework code. Only the actions the buttons trigger, the name binding
  and the colour-class map at `src/main.ts:72-76` are modelled.
- `new Date()` in `addVisit`. It reads the clock, so the model takes the timestamp as a `nat` parameter.
- The "Last visit" line (`src/main.ts:69`) and its `date:'HH:mm:ss'` pipe. This is locale time formatting
  of a clock value.
- VisitTracker.AverageVisits: for a non-empty list it returns the pair (total, user count) instead of the
  text `(total / count).toFixed(1)`, because that text comes from floating-point division and rounding.
- Text.Trim: it strips a fixed set of white-space characters (ASCII white space, line terminators,
  no-break space, byte-order mark, U+2028, U+2029). It does not strip the other Unicode space separators
  JavaScript's `trim` also removes. It also works on Unicode scalar values, not on UTF-16 code units.
- VisitTracker.StatusMessage: it takes an integer. A fractional JavaScript `number` cannot arise from
  `visits.length`, so it is not modelled.
- JavaScript numbers are modelled as unbounded integers. Visit counts and list lengths stay far below 2^53,
  where the source's doubles would start to lose precision.
- The framework's re-rendering after each action. The derived values are pure functions of the state and
  are read off it directly.
