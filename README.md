# Screen Time Peek — a Dafny model of its lookup and display logic

Screen Time Peek is a single-page web application (TypeScript, React). A user
types a phone number, and the page shows yesterday's screen time for it:
the total, a breakdown over five categories and the most used apps. This project
models the parts of the application that decide something, states what they
promise and proves it:

- **time-utils** (`TimeUtils`): `formatTime` renders minutes as `"Xh Ym"`,
  `"Xh"` or `"Ym"`. `cleanPhoneNumber` keeps only digits and `+`.
- **screentime-api** (`ScreenTimeTypes`, `ScreenTimeApi`): the constant table of
  two screen-time records, and the arithmetic its numbers agree on.
  `lookupScreenTime` tries four spellings of the number in a fixed order: as
  typed, digits only, `+1` and digits, `+` and digits. The first spelling that is
  a key of the table wins; if none is, it throws "No screen time data found".
- **ScreenTimeResults** (`ScreenTimeResults`): which category rows render,
  the percentage each row shows (guarded against a zero total), and the
  "Most Used Apps" list. That list sorts `data.apps` in place by time spent,
  then takes the first five and numbers them from 1.
- **Index page** (`IndexPage.Page`): the four state fields `phoneNumber`,
  `screenTimeData`, `isLoading` and `error`. `handleLookup` drives them, the
  Enter key triggers it, and the page's render conditions read them.
- **DigitalWellness page** (`DigitalWellness`): the `expandedSections` map that
  `toggleSection` updates, and the slug a topic title becomes (lower-cased,
  each whitespace run replaced by `_`).
- **firebase** (`Firebase`): `validateFirebaseConfig` checks six environment
  keys and rejects placeholder values. The module's `db` is set only if
  validation passes and initialisation does not throw.
- **firebase-debug** (`FirebaseDebug`): the result that `testFirebaseConnection`
  builds, and the ordered substring rule that turns a thrown error into a
  user message.

`Wrappers` holds `Option` (for `null`/`undefined`) and `Result` (the outcome of
an operation that may throw an `Error` with a message). `Text` holds the
character and string helpers the modules share: ASCII digits and whitespace,
ASCII lower-casing, decimal printing and parsing, first-index search and
substring containment (`includes`).

The lookup returns ready-made minute records from a constant table and does
no numbering-plan validation: an unknown number fails with "No screen time data
found".

Modelling choices:

- Minutes are `int`. `Math.floor(m / 60)` is Dafny's `/`, because the divisor
  is positive. JavaScript's `%` takes the sign of the dividend, so it is
  written out as `JsRemainder`. Negative inputs therefore format as JavaScript
  formats them (`FormatTime(-30)` is `"-1h -30m"`). The round trip is stated
  for non-negative minutes, the only ones the table holds.
- The table's `date` field is yesterday formatted for the locale, a value of the
  clock. `MockScreenTimeData(date)` takes it as a parameter.
- Percentages are exact `real` quotients. `toFixed(0)` rounding is not modelled.
- The asynchronous lookup on the Index page is split at its `await`:
  `BeginLookup` is the part before it and `FinishLookup(outcome)` the part
  after, with the outcome given. `HandleLookup(outcome)` runs both.
- Firestore is reached only through injected outcomes. `initSucceeds` says
  whether `initializeApp`/`getFirestore` returned. A `QueryOutcome` says what
  `getDocs` on the `usage_data` collection returned or threw.
- Whitespace (`trim`, `\s`) and `toLowerCase` are the ASCII versions.

## Model

| member | source | states |
|---|---|---|
| TimeUtils.FormatTime | src/lib/time-utils.ts:3-16 | `formatTime` itself, with Math.floor as `/` and JavaScript's `%` as `JsRemainder`. Its contract is carried by FormatTimeCases, FormatTimeZero, FormatTimeNegative, FormatTimeRoundTrip and FormatTimeInjective |
| TimeUtils.FormatTimeCases | src/lib/time-utils.ts:3-16 | For n ≥ 0: below 60 the result is n's decimal then `m`; a whole number of hours is `<n/60>h`; otherwise `<n/60>h <n%60>m` |
| TimeUtils.FormatTimeZero | src/lib/time-utils.ts:7-8 | `formatTime(0)` is `"0m"` |
| TimeUtils.FormatTimeNegative | src/lib/time-utils.ts:4-15 | Negative minutes format as JavaScript computes them: `formatTime(-30)` is `"-1h -30m"` |
| TimeUtils.FormatTimeRoundTrip | src/lib/time-utils.ts:4-15 | Reading the printed hours and minutes back gives n again (hours·60 + minutes = n) for every integer n ≥ 0 (unbounded; see "Left out" on large minutes) |
| TimeUtils.FormatTimeInjective | src/lib/time-utils.ts:3-16 | Distinct non-negative durations never display the same |
| TimeUtils.CleanPhoneNumber | src/lib/time-utils.ts:27-30 | The result is no longer than the input and contains only digits and `+` |
| TimeUtils.CleanPhoneNumberConcat | src/lib/time-utils.ts:29 | Cleaning works piecewise: clean(a + b) = clean(a) + clean(b), so kept characters stay in order |
| TimeUtils.CleanPhoneNumberKeepsPhoneChars | src/lib/time-utils.ts:29 | A string of digits and `+` only, with a `+` anywhere, is returned unchanged |
| TimeUtils.CleanPhoneNumberIdempotent | src/lib/time-utils.ts:29 | Cleaning twice is cleaning once |
| TimeUtils.CleanPhoneNumberCounts | src/lib/time-utils.ts:29 | Every digit and `+` occurs in the result exactly as often as in the input; every other character occurs zero times |
| Text.LowerCase | src/pages/DigitalWellness.tsx:326 | ASCII `toLowerCase()`: same length, each character lower-cased on its own; LowerCaseOfSlug uses it |
| Text.ParseNatToString | src/lib/time-utils.ts:8 | The decimal printing used by the template literals reads back as the same number |
| Text.Contains | src/lib/firebase.ts:34 | `s.includes(t)` holds exactly when t occurs in s at some position |
| ScreenTimeTypes.Entries | src/components/ScreenTimeResults.tsx:53 | `Object.entries` yields the five categories in declaration order, each paired with that category's minutes |
| ScreenTimeApi.MockScreenTimeData | src/lib/screentime-api.ts:6-47 | The constant table of two records, with the date as a parameter. Its contract is carried by MockScreenTimeDataConsistent and MockScreenTimeDataKeys |
| ScreenTimeApi.MockScreenTimeDataConsistent | src/lib/screentime-api.ts:6-47 | Each record is stored under its own phone number. Its five categories and its apps' minutes each sum to the total, and each category equals the sum of its apps |
| ScreenTimeApi.MockScreenTimeDataKeys | src/lib/screentime-api.ts:6-47 | The table's keys are exactly `+1234567890` and `5551234567` |
| ScreenTimeApi.CleanNumber | src/lib/screentime-api.ts:56 | The cleaned number consists of digits only and is no longer than the input |
| ScreenTimeApi.CleanNumberKeepsDigits | src/lib/screentime-api.ts:56 | A digits-only input is returned unchanged |
| ScreenTimeApi.CleanNumberCounts | src/lib/screentime-api.ts:56 | Every digit survives as often as it occurs; every other character, `+` included, is removed |
| ScreenTimeApi.CleanNumberConcat | src/lib/screentime-api.ts:56 | Cleaning works piecewise, so the digits keep their order |
| ScreenTimeApi.CleanNumberAfterCleanPhoneNumber | src/lib/screentime-api.ts:56 | Applying `cleanPhoneNumber` first changes nothing: only the `+` signs separate the two cleanings |
| ScreenTimeApi.Candidates | src/lib/screentime-api.ts:56-64 | The four spellings tried, in order. Which keys they can reach is stated by PlusKeyCandidates and LocalKeyCandidates |
| ScreenTimeApi.FirstFound | src/lib/screentime-api.ts:66-71 | The `for…of` search with early return, as a function. Its contract is carried by FirstFoundIsEarliest |
| ScreenTimeApi.Resolve | src/lib/screentime-api.ts:59-74 | What the lookup returns or throws. Its contract is carried by ResolveFailsIff, ResolvePriority and LookupByDigits; LookupScreenTime is proved equal to it |
| ScreenTimeApi.FirstFoundIsEarliest | src/lib/screentime-api.ts:66-71 | The search yields nothing iff no candidate is a key; otherwise it yields the record of the earliest candidate that is one |
| ScreenTimeApi.ResolveFailsIff | src/lib/screentime-api.ts:66-74 | The lookup fails, with "No screen time data found", exactly when none of the four candidates is a key |
| ScreenTimeApi.ResolvePriority | src/lib/screentime-api.ts:59-71 | Candidate i wins when it is a key and no earlier candidate is one (raw input, then digits, then `+1`, then `+`) |
| ScreenTimeApi.PlusKeyCandidates | src/lib/screentime-api.ts:59-64 | `+1234567890` is among the candidates iff the input's digits are `234567890` or `1234567890` |
| ScreenTimeApi.LocalKeyCandidates | src/lib/screentime-api.ts:59-64 | `5551234567` is among the candidates iff the input's digits are `5551234567` |
| ScreenTimeApi.LookupByDigits | src/lib/screentime-api.ts:56-71 | Against any table with the two keys, the lookup succeeds iff the input's digits are 5551234567, 234567890 or 1234567890. The record returned depends on those digits alone |
| ScreenTimeApi.MockLookupByDigits | src/lib/screentime-api.ts:56-74 | The same for the constant table |
| ScreenTimeApi.LookupExampleDigitsOnly | src/lib/screentime-api.ts:56-69 | `"(555) 123-4567"` resolves to the `5551234567` record through the second candidate |
| ScreenTimeApi.LookupExampleCountryCode | src/lib/screentime-api.ts:56-69 | `"234 567 890"` resolves to the `+1234567890` record through the third candidate |
| ScreenTimeApi.LookupExamplePlus | src/lib/screentime-api.ts:56-69 | `"+1 234 567 890"` resolves to the `+1234567890` record through the fourth candidate |
| ScreenTimeApi.LookupScreenTime | src/lib/screentime-api.ts:49-75 | The search loop returns the record of the earliest candidate in the table. When no candidate is a key it throws "No screen time data found" |
| ScreenTimeResults.Percentage | src/components/ScreenTimeResults.tsx:56 | The percentage is 0 when the total is not positive (no division by zero). Otherwise p·total = minutes·100, and p lies within 0..100 when 0 ≤ minutes ≤ total |
| ScreenTimeResults.RowsFrom | src/components/ScreenTimeResults.tsx:53-56 | From a given position on, the rows are exactly the non-zero entries, each once, in entry order, each with its guarded percentage |
| ScreenTimeResults.NonZeroRows | src/components/ScreenTimeResults.tsx:53-56 | The rows are exactly the non-zero entries in `Object.entries` order (row k renders the k-th non-zero entry, positions strictly increasing), so none is reordered or repeated. Every row has non-zero minutes and comes from an entry; every non-zero entry is shown with its guarded percentage |
| ScreenTimeResults.VisibleCategories | src/components/ScreenTimeResults.tsx:53-56 | The "Time by Category" rows of a record. Its contract is carried by NonZeroRows and VisibleCategoriesIff |
| ScreenTimeResults.VisibleCategoriesIff | src/components/ScreenTimeResults.tsx:53-54 | A category is rendered iff its minutes are non-zero |
| ScreenTimeResults.SortByTimeSpent | src/components/ScreenTimeResults.tsx:93 | The in-place sort leaves the apps in non-increasing `timeSpent` order and a permutation of what they were |
| ScreenTimeResults.TopApps | src/components/ScreenTimeResults.tsx:94-101 | `.slice(0, 5).map(...)`: min(5, n) rows, row i ranked i + 1 with the i-th app and its guarded percentage |
| ScreenTimeResults.TopAppsShowsLargest | src/components/ScreenTimeResults.tsx:93-101 | On sorted apps the list has min(5, \|apps\|) rows, ranked 1..k, non-increasing. No app left out has more time than an app shown |
| ScreenTimeResults.RenderTopApps | src/components/ScreenTimeResults.tsx:92-101 | After sorting the caller's array in place: min(5, n) rows ranked 1..k, each the app at that position. Every app not shown has at most the time of every app shown |
| IndexPage.Trim | src/pages/Index.tsx:19 | `trim()`: no longer than the input, and a non-empty result neither starts nor ends with whitespace. TrimEmptyIff states when it is empty |
| IndexPage.TrimEmptyIff | src/pages/Index.tsx:19 | `trim()` yields the empty string exactly when the input is all whitespace |
| IndexPage.Page.constructor | src/pages/Index.tsx:13-16 | Initially: empty input, no data, not loading, no error |
| IndexPage.Page.ShowsError | src/pages/Index.tsx:84 | `{error && …}`: the alert renders when the error is a non-empty string. HandleLookup, HandleKeyPress and BlankAfterSuccess state when it holds |
| IndexPage.Page.ShowsSkeleton | src/pages/Index.tsx:92 | `{isLoading && …}`: the skeleton renders while loading. BeginLookup and HandleLookup state when loading is on and off |
| IndexPage.Page.ShowsResults | src/pages/Index.tsx:106 | `{screenTimeData && !isLoading && …}`: results render with data and not while loading. HandleLookup, HandleKeyPress and BlankAfterSuccess state when it holds |
| IndexPage.Page.SetPhoneNumber | src/pages/Index.tsx:69 | Typing changes only `phoneNumber` |
| IndexPage.Page.BeginLookup | src/pages/Index.tsx:18-26 | A blank input sets the "Please enter a phone number" error and leaves loading and data alone, with no lookup issued. Otherwise loading starts with the error and data cleared |
| IndexPage.Page.FinishLookup | src/pages/Index.tsx:28-36 | Success stores the record. Failure sets the fixed "No screen time data found…" message. Either way loading stops |
| IndexPage.Page.HandleLookup | src/pages/Index.tsx:18-37 | After a completed non-blank lookup, loading is off and exactly one of data and error is set. Results show only on success |
| IndexPage.Page.HandleKeyPress | src/pages/Index.tsx:39-43 | Enter performs the same transition as the button: the number is kept, a blank one sets the alert, success stores the record, failure sets "No screen time data found…", and loading stops. Any other key changes nothing |
| IndexPage.BlankAfterSuccess | src/pages/Index.tsx:18-37 | Worked example: a blank submit after a successful lookup shows the "Please enter a phone number" alert and still shows the earlier record |
| DigitalWellness.Toggle | src/pages/DigitalWellness.tsx:44-49 | The toggled section reads as the negation of its previous truthiness (an absent key becomes true). Every other key keeps its value |
| DigitalWellness.ToggleTwice | src/pages/DigitalWellness.tsx:47 | Toggling one section twice restores how every section reads |
| DigitalWellness.ToggleOthers | src/pages/DigitalWellness.tsx:46 | Toggling one section does not change how any other section reads |
| DigitalWellness.Page.constructor | src/pages/DigitalWellness.tsx:10 | The map starts empty, so every section is collapsed |
| DigitalWellness.Page.ToggleSection | src/pages/DigitalWellness.tsx:44-49 | Replaces the map by the toggled map: the clicked section flips and no other changes |
| DigitalWellness.ClickTwice | src/pages/DigitalWellness.tsx:44-49 | Worked example: on a fresh page one click opens a section and a second click leaves every section collapsed |
| DigitalWellness.ReplaceWhitespaceRuns | src/pages/DigitalWellness.tsx:326 | `replace(/\s+/g, '_')`: the result has no whitespace and is no longer than the input; ReplaceIsCollapse and CollapseMaximalRun say how each run is replaced |
| DigitalWellness.Slug | src/pages/DigitalWellness.tsx:326 | The slug has no whitespace and is no longer than the title; SlugShape, LowerCaseOfSlug and SlugIdempotent say more |
| DigitalWellness.ReplaceIsCollapse | src/pages/DigitalWellness.tsx:326 | The regex replacement equals a character-by-character reference. A whitespace character that starts a run becomes `_`, one that continues a run is dropped, any other character is kept |
| DigitalWellness.CollapseMaximalRun | src/pages/DigitalWellness.tsx:326 | A maximal whitespace run becomes exactly one `_`, and the text on both sides is kept in order |
| DigitalWellness.CollapseConcat | src/pages/DigitalWellness.tsx:326 | The replacement works piecewise. How a later part is treated depends only on whether the earlier part ends in whitespace |
| DigitalWellness.SlugShape | src/pages/DigitalWellness.tsx:326 | The slug contains no whitespace and is the lower-cased title collapsed run by run |
| DigitalWellness.LowerCaseOfSlug | src/pages/DigitalWellness.tsx:326 | The slug is already lower case |
| DigitalWellness.SlugIdempotent | src/pages/DigitalWellness.tsx:326 | Slugging a slug changes nothing |
| Firebase.ConfigFromEnv | src/lib/firebase.ts:4-11 | The `firebaseConfig` literal, each field read from its environment key. Its contract is carried by ConfigValuesAreRequiredKeys |
| Firebase.ConfigValues | src/lib/firebase.ts:33 | `Object.values(firebaseConfig)` in declaration order. Its contract is carried by ConfigValuesAreRequiredKeys |
| Firebase.ConfigValuesAreRequiredKeys | src/lib/firebase.ts:4-11 | The placeholder scan reads exactly the six values the required-key check asks for, key by key |
| Firebase.MissingKeys | src/lib/firebase.ts:24 | A key is reported missing iff it is required and unset or empty |
| Firebase.HasPlaceholders | src/lib/firebase.ts:33-35 | True iff some value is non-empty and contains `your_` or `here` |
| Firebase.ValidateFirebaseConfig | src/lib/firebase.ts:14-44 | The two checks in order: missing keys, then placeholders. Its contract is carried by ValidateFirebaseConfigIff |
| Firebase.ValidateFirebaseConfigIff | src/lib/firebase.ts:14-44 | Valid exactly when all six keys are set and non-empty, and no value contains `your_` or `here` (case-sensitive) |
| Firebase.ValueContainingHereRejected | src/lib/firebase.ts:33-35 | A real project id that merely contains "here" (`atmosphere-1234`) fails validation |
| Firebase.InitializeDb | src/lib/firebase.ts:46-62 | Initialisation is attempted only if validation passes. `db` is set iff validation passes and initialisation does not throw, and then it carries the environment's configuration |
| FirebaseDebug.ConnectionErrorMessage | src/lib/firebase-debug.ts:38-49 | A non-Error gives "Unknown error"; an Error gives one of the three fixed messages or its own message. ConnectionErrorMessageRules gives the order |
| FirebaseDebug.ConnectionErrorMessageRules | src/lib/firebase-debug.ts:38-49 | A non-Error gives "Unknown error". Otherwise "permission" wins over everything, then "unavailable", then "project"; anything else yields the message itself |
| FirebaseDebug.PermissionBeatsUnavailable | src/lib/firebase-debug.ts:40-43 | Every message containing both "permission" and "unavailable" maps to the security-rules message |
| FirebaseDebug.PermissionBeatsUnavailableExample | src/lib/firebase-debug.ts:40-43 | "permission denied: service unavailable" maps to the security-rules message |
| FirebaseDebug.SampleEntry | src/lib/firebase-debug.ts:23-26 | Each entry holds the document's fields plus `id`. `id` is the document id unless the document has its own `id` field, which the spread puts last |
| FirebaseDebug.TestFirebaseConnection | src/lib/firebase-debug.ts:4-56 | No db: not connected, with the fixed "not initialized" message. Success: connected, no error, one entry per document. Any failure: not connected, an error message and no sample data |
| FirebaseDebug.NoQueryWithoutDb | src/lib/firebase-debug.ts:10-15 | Without a database the result does not depend on the query, which is never issued |
| FirebaseDebug.SampleEntryIds | src/lib/firebase-debug.ts:23-26 | A document without an `id` field contributes an entry carrying its own id |

## Left out

- `formatDate` and the table's `date` values: locale formatting and the clock. The date is a parameter of `MockScreenTimeData`.
- `isValidPhoneNumber` and `formatPhoneNumber`: thin wrappers over libphonenumber-js, which is not part of this model. No page modelled here calls them.
- Non-integer minutes: `formatTime` is modelled on integers; the table holds only integers.
- Large minutes: `formatTime` takes a JavaScript `number`, a double. Integers beyond 2^53 (where `Math.floor(minutes / 60)` and `%` are rounded) and the exponent notation `${n}` prints from 1e21 upwards are not modelled; the round trip and injectivity are stated for unbounded integers. The table holds only values of at most 277.
- The one-second `setTimeout` delay and the `console` logging in `lookupScreenTime`, `validateFirebaseConfig`, `testFirebaseConnection` and `logFirebaseStatus` (the last only logs, so it is left out entirely).
- Inherited object keys: `mockScreenTimeData[number]` also finds prototype properties such as `"constructor"`. The model treats the table as a map with only its own two keys.
- Aliasing of the sorted apps: sorting in place reorders the `apps` array of the very record stored in the table, so later renders see it already sorted. `RenderTopApps` sorts the array it is given and takes no account of the table sharing it.
- SortByTimeSpent: the engine's sort is stable. The model proves only sorted order and permutation, not the order of apps with equal time (its insertion sort is stable, but that is not stated).
- Percentages are exact rationals; `toFixed(0)` rounding and progress-bar widths are rendering.
- React lifecycle: `useEffect`, the `isMounted` guard, the tagline fetch (`fetchRandomTagline`, imported but not defined in `screentime-api.ts`), re-renders, and the interleaving of two overlapping lookups. The disabled button and input prevent overlapping lookups in the page.
- Firestore: `initializeApp`, `getFirestore`, `collection` and `getDocs` are foreign calls; they are given outcomes. Document field values are modelled as strings.
- Analytics (`analytics.ts`, `use-analytics.tsx`): global window state, script injection and third-party calls.
- Layout, static page content (About page, topic texts) and styling.
- Unicode: `trim`, `\s` and `toLowerCase` are modelled for ASCII only.
