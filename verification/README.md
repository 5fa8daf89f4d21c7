# Prom invitation RSVP site: a Dafny model of its logic

The site is a single-page React application. Guests fill in an RSVP form:
name, attending or not, party size, companion names and a message. Responses
are stored in Firestore, or in an in-memory list when the site runs in
development mode. Administrators sign in to a dashboard that shows
statistics, a search box, a flattened and sorted guest list with copy and CSV
export, and a dialog that forces a password change on first sign-in. A
countdown shows the time left until the event.

This project models that logic as pure Dafny functions over immutable data
and proves properties about it:

- which backend the build and the environment select;
- how saving, subscribing, profile reads and updates, and password changes
  behave in memory mode and against Firebase;
- how the form keeps one companion slot per extra guest, and what `parseInt`
  makes of the party-size field;
- how the dashboard statistics, search, login, logout and forced-password
  flag work;
- how the guest list is flattened, sorted and exported, and when a CSV line
  reads back;
- how the countdown splits a millisecond difference into days, hours,
  minutes and seconds, and how each part is padded for display.

Every Firebase SDK call (`addDoc`, `onSnapshot`, `getDoc`, `setDoc`,
`updatePassword`, `signInWithEmailAndPassword`, `signOut`) appears as its outcome,
passed in as a parameter: success, or failure with an error code and
message. Record ids, timestamps, the current time and the event date are
also parameters. A React effect is modelled as a function that the caller
applies after the state change that triggers it; in particular every
dashboard step that changes the list (`ReceiveRecords`, `Logout`) ends with
the search effect, so the shown list is always the list under the current
search term.

Files:

- `types.dfy`: the records of `src/types.ts` and the service's profile and
  user types, plus JavaScript's `||` on strings.
- `strings.dfy`: `trim`, `includes`, `join`/`split`, `toLowerCase`,
  `String(n)`, `padStart`, the sort comparison and UTF-16 length.
- `seqs.dfy`: `filter` and counting.
- `config.dfy`: `src/config/firebase.ts` and the `define` of `vite.config.ts`.
- `service.dfy`: `src/utils/firebaseService.ts`.
- `rsvp_form.dfy`: `src/components/RSVPForm.tsx`.
- `dashboard.dfy`: `src/components/Dashboard.tsx`.
- `guest_list.dfy`: `src/components/GuestListModal.tsx`.
- `change_password.dfy`: `src/components/ChangePasswordModal.tsx`.
- `countdown.dfy`: `src/components/Countdown.tsx`.

## Model

| member | source | states |
|---|---|---|
| Types.OrElse | src/utils/firebaseService.ts:128 | `x \|\| fallback` on a possibly missing string: a non-empty value is kept; a missing or empty one gives the fallback |
| Strings.Trim | src/components/Dashboard.tsx:112 | `trim()` cuts only whitespace: the result occurs in the input with nothing but whitespace before and after it, has no whitespace at either end, and is empty exactly when the input is all whitespace |
| Strings.ContainsIffOccurs | src/components/Dashboard.tsx:94-96 | `includes` holds exactly when the term occurs at some position of the string |
| Strings.SplitJoin | src/components/GuestListModal.tsx:60 | splitting a newline join gives back the parts, provided there is at least one part and none holds a newline |
| Strings.NatToDecimalValue | src/components/Countdown.tsx:87 | `String(n)` for a natural number reads back as `n` |
| Strings.PadTwo | src/components/Countdown.tsx:87 | `String(n).padStart(2, '0')` has at least two digits, exactly two below 100, a leading zero exactly for one-digit values, and reads back as `n` |
| Strings.StrLeTotal | src/components/GuestListModal.tsx:56 | the name order used for sorting compares any two names |
| Strings.StrLeTransitive | src/components/GuestListModal.tsx:56 | the name order used for sorting is transitive |
| Strings.Utf16Length | src/components/ChangePasswordModal.tsx:29 | a password's `length` counts UTF-16 units: the number of characters plus the number of characters outside the Basic Multilingual Plane |
| Seqs.Filter | src/components/Dashboard.tsx:130-131 | `filter` keeps, in order, exactly the elements that satisfy the predicate |
| Seqs.FilterMultiplicity | src/components/Dashboard.tsx:130-131 | `filter` keeps every occurrence of a kept value and none of a dropped one |
| Seqs.FilterLength | src/components/Dashboard.tsx:130-131 | the length of a filter is the number of elements satisfying the predicate |
| FirebaseConfig.IsDevMode | src/config/firebase.ts:7-8 | development mode holds exactly when `VITE_DEV_MODE` is "true" or the API key is "dev-mode" |
| FirebaseConfig.WithBuildDefines | vite.config.ts:10 | the build fixes `VITE_DEV_MODE` to "true" and keeps every other variable |
| FirebaseConfig.BuildIsDevMode | vite.config.ts:10 | every build runs in development mode |
| FirebaseConfig.AuthDomain | src/config/firebase.ts:16 | the `??` fallback: `VITE_FIREBASE_DOMAIN` when set (even to ""), else `VITE_FIREBASE_AUTH_DOMAIN` |
| FirebaseConfig.Missing | src/config/firebase.ts:30-31 | the missing fields are the required fields with a falsy value, in the listed order |
| FirebaseConfig.CheckOptions | src/config/firebase.ts:30-39 | without development mode: an error naming the missing fields if there are any, else true |
| FirebaseConfig.ValidateConfig | src/config/firebase.ts:24-40 | false in development mode, whatever the options; otherwise an error carrying the message exactly when a required field is missing, and true when none is |
| FirebaseConfig.Initialize | src/config/firebase.ts:42-54 | start-up fails exactly when production mode finds a required option missing; development mode creates no handles; production mode that starts creates both |
| FirebaseConfig.InitializedMeansConfigured | src/config/firebase.ts:30-54 | outside development mode, a successful start-up means every required option is non-empty and both handles exist |
| FirebaseConfig.MissingFieldNamed | src/config/firebase.ts:33-37 | the start-up error names every missing field |
| FirebaseConfig.BuildRunsInMemory | vite.config.ts:10 | with the build's substitution, start-up never fails and creates no database or auth handle |
| FirebaseService.SaveErrorMessage | src/utils/firebaseService.ts:60-73 | the three known error codes get fixed messages; any other error reports its message, or a placeholder, after a prefix; the initial generic message is never returned |
| FirebaseService.SaveRSVP | src/utils/firebaseService.ts:25-75 | memory mode prepends a record holding every form field, the new id and the timestamp, sends nothing and succeeds; Firebase mode sends a document of the form data and the timestamp, leaves the memory list alone, and succeeds exactly when the write did, with a classified message on failure |
| FirebaseService.Subscribe | src/utils/firebaseService.ts:80-113 | memory mode calls the callback exactly once with the current list and ignores later events; Firebase mode forwards each snapshot or error, in order |
| FirebaseService.SaveThenSubscribe | src/utils/firebaseService.ts:34-39 | after a memory-mode save, subscribing delivers the new record first, then the earlier ones |
| FirebaseService.RepeatedSavesAreKept | src/utils/firebaseService.ts:39 | the same form saved twice gives two records, the later first: there is no deduplication |
| FirebaseService.NewProfile | src/utils/firebaseService.ts:142-146 | a profile created on first sign-in has the user's email, or "" when it is missing or empty, requires a password change, and has the admin role |
| FirebaseService.GetUserProfile | src/utils/firebaseService.ts:123-157 | memory mode returns a mock that never forces a change; a stored profile is returned as is; a missing one is created and returned only if the write succeeded; a read error gives null |
| FirebaseService.ForcedChangeOnlyFromBackend | src/utils/firebaseService.ts:123-151 | a profile that forces a password change comes only from Firebase, and a freshly created one always forces it |
| FirebaseService.UpdateUserProfile | src/utils/firebaseService.ts:162-177 | memory mode succeeds without writing; otherwise the patch is sent and the result says whether the write went through |
| FirebaseService.PasswordErrorMessage | src/utils/firebaseService.ts:194-200 | the two known auth codes get their messages; every other code gets the generic one |
| FirebaseService.UpdateUserPassword | src/utils/firebaseService.ts:182-204 | only development mode short-circuits to success; otherwise the password is sent and a failure is classified |
| FirebaseService.PasswordGuardIgnoresDatabase | src/utils/firebaseService.ts:183 | with no database but outside development mode, profile writes use memory while a password update still reaches the auth service; start-up never produces such a runtime (`StartupGuardsAgree`) |
| FirebaseService.StartupGuardsAgree | src/config/firebase.ts:42-54 | after any successful start-up, the memory-store guard and the development-mode guard agree, so the two services' different guards choose the same path |
| RsvpForm.ParseInt | src/components/RSVPForm.tsx:59 | `parseInt` of a blank string is NaN, and any number it reads needs a digit in the input |
| RsvpForm.ParseGuestsCount | src/components/RSVPForm.tsx:59 | `parseInt(value) \|\| 1` is never zero: NaN and zero both give one |
| RsvpForm.ParseIntReadsLeadingDigits | src/components/RSVPForm.tsx:59 | after leading whitespace and an optional minus, `parseInt` reads the decimal digits up to the first character that is not a letter or digit |
| RsvpForm.ParseGuestsCountWithoutDigits | src/components/RSVPForm.tsx:59 | input with no digits ("" and "abc") gives a party of one |
| RsvpForm.ParseGuestsCountOfZero | src/components/RSVPForm.tsx:59 | "0" gives a party of one |
| RsvpForm.ParseHexExample | src/components/RSVPForm.tsx:59 | "0x1A" gives 26: the hexadecimal prefix is honoured |
| RsvpForm.ParseMenuOption | src/components/RSVPForm.tsx:219 | choosing the menu option `n` (1 or more) sets the party size to `n` |
| RsvpForm.ResizeGuestNames | src/components/RSVPForm.tsx:60-64 | the companion list gets `max(0, count - 1)` slots; existing slots keep their names and new slots are empty |
| RsvpForm.HandleChange | src/components/RSVPForm.tsx:54-72 | a party-size edit sets the parsed count and resizes the companion list, keeping existing names and leaving new slots empty; any other edit changes only its own field |
| RsvpForm.HandleGuestNameChange | src/components/RSVPForm.tsx:74-79 | slot `index` takes the value; the other slots and fields are unchanged |
| RsvpForm.OutOfRangeNameEditIsNoOp | src/components/RSVPForm.tsx:77 | an edit to a slot that does not exist changes nothing |
| RsvpForm.Submit | src/components/RSVPForm.tsx:23-52 | success resets the form; a failed result shows its message or a default; a thrown error shows a fixed message; on failure the data is kept |
| RsvpForm.TransitionsKeepWellSized | src/components/RSVPForm.tsx:13-79 | the initial form, every edit and every submission keep one companion slot per guest beyond the first |
| RsvpForm.DecliningKeepsParty | src/components/RSVPForm.tsx:66-71 | switching to "not attending" keeps the party size and companion names |
| RsvpForm.SubmitToMemoryStore | src/components/RSVPForm.tsx:30-41 | a memory-mode submission always succeeds, resets the form and puts exactly the submitted data at the front of the list |
| Dashboard.GuestTotalIsAttendingPartySizes | src/components/Dashboard.tsx:132 | the `reduce` guest total equals the sum of party sizes over the attending responses alone |
| Dashboard.ComputeStats | src/components/Dashboard.tsx:128-133 | responses = list length; attending and declined counts split it; the guest total counts only attending party sizes |
| Dashboard.StatsOfPrepended | src/components/Dashboard.tsx:128-133 | a new response adds one response, one to exactly one count, and its party size to the total only if attending |
| Dashboard.SearchFilter | src/components/Dashboard.tsx:86-100 | an empty term shows every response; otherwise the responses whose lower-cased name, message or a companion name contains the lower-cased term, in order, each kept as many times as it occurs |
| Dashboard.MatchesIffOccurs | src/components/Dashboard.tsx:93-96 | a response matches exactly when the term occurs at some position of one of the searched fields |
| Dashboard.SearchExample | src/components/Dashboard.tsx:86-100 | searching "an" over Ana and Ben keeps only Ana |
| Dashboard.DevModeAlwaysAuthenticated | src/components/Dashboard.tsx:25 | development mode counts as signed in without a user |
| Dashboard.ReceiveRecords | src/components/Dashboard.tsx:69-73 | delivered records replace the list and end loading; the shown list is the records under the current search term (all of them when it is empty); nothing else changes |
| Dashboard.ReceiveError | src/components/Dashboard.tsx:74-79 | a subscription error ends loading and shows the access message around the error's message, else its code, else "Unknown error"; nothing else changes |
| Dashboard.SetSearchTerm | src/components/Dashboard.tsx:86-100 | typing a term re-filters the full list and changes nothing else |
| Dashboard.Login | src/components/Dashboard.tsx:102-118 | without auth no sign-in is tried and an error is shown; otherwise the trimmed email and the password are sent; success clears the password, failure shows an error |
| Dashboard.Logout | src/components/Dashboard.tsx:120-126 | `signOut` is called exactly when there is an auth handle; if it rejects nothing changes; otherwise the form fields, the error and both lists are emptied and the rest is kept |
| Dashboard.CheckUserRequirement | src/components/Dashboard.tsx:47-59 | a profile that requires a change sets exactly the two dialog flags, opening it in forced mode; anything else changes nothing |
| Dashboard.MemoryModeNeverForces | src/components/Dashboard.tsx:47-59 | in memory mode the forced dialog never opens by itself |
| Dashboard.ClosePasswordModal | src/components/Dashboard.tsx:499-502 | closing the dialog hides it and drops the forced flag, changing nothing else |
| Dashboard.DashboardShowsStore | src/components/Dashboard.tsx:68-73 | in memory mode the dashboard shows exactly the stored list and counts it |
| GuestList.CompanionEntries | src/components/GuestListModal.tsx:40-50 | one companion entry per non-blank name, tagged with the respondent and never primary |
| GuestList.CompanionNames | src/components/GuestListModal.tsx:40-50 | the companion entries carry exactly the non-blank names, in order |
| GuestList.Flatten | src/components/GuestListModal.tsx:27-53 | one entry per attending respondent plus one per non-blank companion; every entry is attending and names a respondent exactly when it is not primary |
| GuestList.FlattenProvenance | src/components/GuestListModal.tsx:30-53 | every entry comes from an attending response, as its respondent or one of its non-blank companions |
| GuestList.PrimaryListed | src/components/GuestListModal.tsx:31-37 | every attending response appears as a primary entry |
| GuestList.CompanionListed | src/components/GuestListModal.tsx:40-50 | every non-blank companion of an attending response appears as a non-primary entry naming that respondent |
| GuestList.OnePrimaryPerAttendingResponse | src/components/GuestListModal.tsx:31-37 | the number of primary entries equals the number of attending responses |
| GuestList.FlattenAppend | src/components/GuestListModal.tsx:30 | flattening works response by response |
| GuestList.FlattenIgnoresDeclined | src/components/GuestListModal.tsx:31 | dropping declined responses does not change the list |
| GuestList.InsertByName | src/components/GuestListModal.tsx:56 | inserting into a sorted list keeps it sorted and adds exactly the new entry |
| GuestList.SortByName | src/components/GuestListModal.tsx:56 | the sort gives a sorted permutation of its input |
| GuestList.AttendingGuests | src/components/GuestListModal.tsx:27-57 | the memoised list is sorted by name and is a permutation of the flattened list |
| GuestList.CopyText | src/components/GuestListModal.tsx:60 | no guests copy as ""; otherwise the copied text splits back into the names, provided none holds a newline |
| GuestList.CopyTextEndsWithLastName | src/components/GuestListModal.tsx:60 | the copied text has no trailing newline |
| GuestList.CsvField | src/components/GuestListModal.tsx:75-76 | a value with a comma is wrapped in quotes; any other is written as is |
| GuestList.TypeTag | src/components/GuestListModal.tsx:72 | the type column is the primary tag exactly for primary entries |
| GuestList.Csv | src/components/GuestListModal.tsx:66-79 | the file starts with the header line; provided no name holds a newline, it splits into the header, one line per guest, and a final empty piece |
| GuestList.CsvLineRoundTrip | src/components/GuestListModal.tsx:72-78 | a CSV line reads back as name, type and respondent, provided neither name holds a double quote |
| GuestList.UnescapedQuoteMisread | src/components/GuestListModal.tsx:75 | a name holding a quote and a comma does not read back, because quotes are not escaped |
| GuestList.FlattenExample | src/components/GuestListModal.tsx:27-57 | A (with companion B) and C give A, B, C, with A and C as respondents |
| ChangePassword.ValidationError | src/components/ChangePasswordModal.tsx:29-37 | a password shorter than six UTF-16 units is rejected first; otherwise a mismatched confirmation is rejected |
| ChangePassword.FailureMessage | src/components/ChangePasswordModal.tsx:62-67 | the two known auth codes get their messages; any other error gets the generic one |
| ChangePassword.Submit | src/components/ChangePasswordModal.tsx:24-72 | invalid input makes no call; valid input makes exactly one password update, followed by one flag clear only in forced mode after a successful update; success clears the fields; a failure shows a classified message |
| ChangePassword.ShortPasswordRejectedFirst | src/components/ChangePasswordModal.tsx:29-32 | a short password is rejected for its length whatever the confirmation, and nothing is called |
| ChangePassword.MismatchRejected | src/components/ChangePasswordModal.tsx:34-37 | a long enough password with a different confirmation is rejected and nothing is called |
| ChangePassword.AstralCharactersCountTwice | src/components/ChangePasswordModal.tsx:29 | three emoji are fewer than six characters but pass the length check |
| ChangePassword.FlagClearedAfterUpdate | src/components/ChangePasswordModal.tsx:43-48 | the forced flag is never cleared before the password update |
| ChangePassword.ControlsOf | src/components/ChangePasswordModal.tsx:91-175 | a forced dialog has no close or cancel control; cancel and the inputs are disabled while loading or after success |
| Countdown.CalculateTimeLeft | src/components/Countdown.tsx:15-28 | all zero once the moment has passed; otherwise whole days, with hours under 24 and minutes and seconds under 60 |
| Countdown.FloorRemIsIntegerMod | src/components/Countdown.tsx:21-23 | `Math.floor((d / k) % m)` over exact numbers is `(d div k) mod m` |
| Countdown.CalculateMatchesFloorExpressions | src/components/Countdown.tsx:20-23 | the integer parts equal the code's floor expressions evaluated exactly |
| Countdown.Recomposition | src/components/Countdown.tsx:20-23 | days, hours, minutes and seconds add back up to the whole seconds left |
| Countdown.Blocks | src/components/Countdown.tsx:87 | each of the four displayed blocks has at least two digits and reads back as its part |
| Countdown.ClockPartsShowTwoDigits | src/components/Countdown.tsx:87 | hours, minutes and seconds always show exactly two digits |

## Left out

- Rendering: JSX, styling, animation, icons and the copy in the components are not modelled.
- Timers are not modelled: the 800 ms and 1000 ms simulated delays, the dialog's 1500 ms auto-close, the 5 s "copied" flag and the countdown's one-second interval.
- The Firebase SDK is represented only by call outcomes. Firestore's `orderBy('createdAt', 'desc')`, the `onSnapshot` document mapping and the internals of the auth service are not modelled.
- Dashboard auth-state effect (Dashboard.tsx:27-44): the `onAuthStateChanged` subscription that sets `user` is not modelled. `user` is an input to the state, so the reset of `user` that follows a successful `signOut` is not part of `Logout`.
- Record ids (`dev-<time>-<random>`) and `Timestamp.now()` are not modelled: they are fresh values passed in.
- The clipboard write, the CSV byte-order mark, `encodeURI` and the file download are not modelled: the model stops at the text.
- Strings.LowerStr: `toLowerCase` is left as a parameter `lower`, because JavaScript's Unicode case mapping is not modelled.
- Strings.StrLe: `localeCompare` is replaced by code-point lexicographic order, because locale collation is not modelled. The sort is specified only as giving a sorted permutation, since JavaScript's stability is not relied on.
- Strings are sequences of Unicode scalar values. Only the password length counts UTF-16 units (`Utf16Length`), because that is the one place where the unit count decides behaviour.
- RsvpForm.ResizeGuestNames: `Array(n)` throws a RangeError when `n` is 2^32 or more (RSVPForm.tsx:64); the model returns `n` empty slots instead, because JavaScript's array-length limit is not modelled and the party-size select offers only 1 to 10 (RSVPForm.tsx:219).
- RsvpForm.HandleChange: for the same reason a raw party size of 4294967297 or more, which throws in the handler, resizes the companion list in the model.
- RsvpForm.Submit: the browser's `required` check on the guest-name and companion inputs (RSVPForm.tsx:177, 240), which blocks submission with those fields empty, is not modelled; the model accepts empty names.
- RsvpForm.ParseInt: numbers are unbounded integers, so the floating-point rounding of very long digit strings is not modelled.
- Countdown.CalculateTimeLeft: the floating-point division of the code is modelled over exact reals (`CalculateMatchesFloorExpressions`), so double-precision rounding is not modelled.
- Stored documents whose `guestNames` or `message` is undefined are modelled as an empty list and an empty string, which the code treats the same way.
- The other components (Home, Hero, Envelope, Navbar, Footer, Location, PanicButton, SecurityLayer, SurvivalGuide, ThenVsNow) and the site text in `promConfig.ts` are not part of this model.
- Observed and kept as modelled, not changed: the password dialog and the guest list render only when `user` is set (Dashboard.tsx:494), so in development mode they never show. The dialog ignores the boolean that `updateUserProfile` returns. In development mode, logout empties the list and the subscription is not re-run, because `isAuthenticated` stays true.
