# QR attendance sessions, attendance rate and free-period suggestions

This project models the logic of the learn-stream dashboard. The dashboard is a
student/teacher web app, and its one piece of real protocol is QR-code attendance.

- **Teacher side.** A teacher picks a time-to-live, clamped to 1–60 minutes. The
  teacher then generates a session. A session holds the class name, a 16-digit
  hexadecimal session id made from 8 random bytes, the issue time and the expiry
  time. The session is serialised into the text of a QR code. A countdown, run
  once per second, clears the session when no whole second is left.
- **Student side.** A student scans a text, which goes through four ordered
  checks, and the first failure decides the message:
  1. the text parses;
  2. the type tag is `attendance`;
  3. the class matches exactly;
  4. the expiry is readable and not yet passed (the expiry instant itself is still valid).

  The component then moves its status (`idle`, `success`, `error`), its error
  message and its camera flag.

The model also covers two small pure helpers:

- the attendance-rate figure of the attendance widget;
- the duration filter of the free-period activity suggestions, with its icon and
  colour lookups.

Modules, one per concern:

- `Wrappers`: `Option` and `Result`.
- `Decimal`: decimal numerals. Timestamps and field lengths are written and read
  back with it. It also models JavaScript's `parseInt`.
- `SessionId`: `generateSessionId`, byte-wise hexadecimal encoding, and its inverse.
- `Wire`: the QR text, a stand-in for `JSON.stringify`/`JSON.parse`. An object of
  named string fields becomes a length-prefixed text. The reader yields an object,
  `null` or another kind of value, or it fails.
  Fields are found by name in any order, a missing field reads as absent, and the
  later of two same-named fields wins.
- `AttendanceSession`: the protocol as pure functions. It holds the clamp, the
  payload, the encoding, the ordered verification, the messages and the countdown
  arithmetic.
- `QRAttendance`: the component's state as the class `QRAttendanceView`. Each
  `useState` becomes a field and each handler becomes a method. The invariant
  `Valid()` says five things:
  - the time-to-live is always clamped;
  - the status is never `scanning`, because no handler sets it;
  - an error message is present exactly in the `error` status;
  - a held session belongs to the component's own class;
  - a student view never holds a session, and a teacher view keeps the
    initial scan state.

  What is rendered decides which handlers can run. The `userRole` prop picks
  the teacher or the student view. The scanner, with its `onScan` and
  `onError`, exists only while the camera is open. The success view replaces
  both the scanner and the camera button. Each handler's precondition says
  when it is on screen, and `Dispatch` ignores an input whose element is not.
- `AttendanceWidget`: the null default and the rate.
- `ActivitySuggestions`: the catalogue, the filter, `getIcon` and `getDifficultyColor`.

Time is integer milliseconds and is always a parameter. The random bytes are a
parameter too.

An unreadable expiry is reported as `This QR has expired`
(src/components/dashboard/QRAttendance.tsx:83), not as a separate reason. A text
that does not parse shows the parser's own error message, and `Failed to read QR`
only when that message is empty (src/components/dashboard/QRAttendance.tsx:92).

## Model

| member | source | states |
|---|---|---|
| `SessionId.ToBase16` | src/components/dashboard/QRAttendance.tsx:19 | `n.toString(16)` is a non-empty run of lower-case hex digits; `ByteHex` pins down its two-digit content for every byte |
| `SessionId.PadStart` | src/components/dashboard/QRAttendance.tsx:19 | `padStart` gives length `max(width, \|s\|)`: the pad character in front, then `s` unchanged |
| `SessionId.ByteHex` | src/components/dashboard/QRAttendance.tsx:19 | `b.toString(16).padStart(2, '0')` is always exactly two lower-case hex digits: high nibble, then low nibble |
| `SessionId.EncodeHex` | src/components/dashboard/QRAttendance.tsx:19 | joining the byte pairs gives twice as many characters as bytes, all lower-case hex |
| `SessionId.GenerateSessionId` | src/components/dashboard/QRAttendance.tsx:16-20 | the id of 8 random bytes is 16 lower-case hex characters, and decoding it gives back the 8 bytes |
| `SessionId.DecodeEncodeHex` | src/components/dashboard/QRAttendance.tsx:16-20 | hex decoding inverts the encoding for every byte sequence |
| `SessionId.GenerateSessionIdInjective` | src/components/dashboard/QRAttendance.tsx:16-20 | different random bytes never give the same id |
| `Decimal.ParseFromNat` | src/components/dashboard/QRAttendance.tsx:82 | a written timestamp reads back as the same number of milliseconds |
| `Decimal.ParseInt` | src/components/dashboard/ActivitySuggestions.tsx:66 | `parseInt` is NaN exactly when no digit follows the white space and the optional sign. It is NaN when the first non-space character is neither a sign nor a digit, and negative only after a `-` |
| `Decimal.ParseIntSkipsSpace` | src/components/dashboard/ActivitySuggestions.tsx:66 | white space in front of a number does not change what `parseInt` reads |
| `Decimal.ParseIntOfNegativeNumeral` | src/components/dashboard/ActivitySuggestions.tsx:66 | `parseInt` of `-` and a numeral followed by a non-digit is the numeral's value negated |
| `Decimal.ParseIntOfNumeral` | src/components/dashboard/ActivitySuggestions.tsx:66 | `parseInt` of a numeral followed by a non-digit is the numeral's value, so it reads only the leading digits |
| `Wire.Serialise` | src/components/dashboard/QRAttendance.tsx:60 | `JSON.stringify` of an object is a text between braces; its partner is `Wire.ParseSerialise` |
| `Wire.Parse` | src/components/dashboard/QRAttendance.tsx:78 | reading fails with a non-empty message on malformed text, including the empty text. Only a braced text reads as an object. `null` reads as `null`, and a number, string, boolean or array reads as another value |
| `Wire.Lookup` | src/components/dashboard/QRAttendance.tsx:79-82 | a field is absent exactly when no field has that name; otherwise the value read is one written under that name |
| `Wire.LookupAppend` | src/components/dashboard/QRAttendance.tsx:79-82 | a later field of the same name shadows an earlier one, and other names are unaffected |
| `Wire.ParseSerialise` | src/components/dashboard/QRAttendance.tsx:60 | whatever object is serialised is read back as that same object |
| `AttendanceSession.ClampExpiry` | src/components/dashboard/QRAttendance.tsx:119 | the result is always in [1, 60]; NaN, 0 and values below 1 give 1; values above 60 give 60; in-range values are unchanged |
| `AttendanceSession.MakePayload` | src/components/dashboard/QRAttendance.tsx:62-72 | the session keeps the class, is issued at `now`, has a well-formed id decoding to the random bytes, and expires `minutes`·60000 ms later, so strictly later for any clamped time-to-live |
| `AttendanceSession.Encode` | src/components/dashboard/QRAttendance.tsx:60 | the QR text of a session is never empty |
| `AttendanceSession.ReadTime` | src/components/dashboard/QRAttendance.tsx:82 | a missing timestamp field reads as NaN; a readable one is a non-empty decimal numeral whose value is the time |
| `AttendanceSession.ReadTimeOfNumeral` | src/components/dashboard/QRAttendance.tsx:82 | a time written as the numeral of `n` reads back as `n` |
| `AttendanceSession.DecodePayload` | src/components/dashboard/QRAttendance.tsx:22-28 | reading a text as a payload succeeds only for a parsed object tagged `attendance` |
| `AttendanceSession.DecodeEncode` | src/components/dashboard/QRAttendance.tsx:60 | serialising a session and reading all five fields back reproduces it exactly |
| `AttendanceSession.Verify` | src/components/dashboard/QRAttendance.tsx:76-84 | the checks in order, each verdict as an if-and-only-if. Malformed (with the parser's message) exactly when parsing fails. The `null` refusal exactly when the text is `null`, whose `type` cannot be read. Wrong type exactly when it parses to anything else without the tag `attendance`, including a number, string, boolean or array. Class mismatch exactly when the tag is right and the class differs. Expired exactly when tag and class are right and the expiry is unreadable or before `now`. Accepted otherwise |
| `AttendanceSession.Message` | src/components/dashboard/QRAttendance.tsx:79-93 | every refusal shows a non-empty message; a non-empty parser message is shown as it is |
| `AttendanceSession.Remaining` | src/components/dashboard/QRAttendance.tsx:46-53 | the whole seconds left are the floor of the milliseconds left, never negative, and 0 exactly when less than one second remains |
| `AttendanceSession.SplitCountdown` | src/components/dashboard/QRAttendance.tsx:138 | minutes·60 + seconds equals the remaining seconds, with seconds < 60 |
| `AttendanceSession.VerifyEncoded` | src/components/dashboard/QRAttendance.tsx:81-83 | an encoded session scanned for its own class is accepted when `now <= expiresAt` and expired when `now > expiresAt` |
| `AttendanceSession.VerifyOtherClass` | src/components/dashboard/QRAttendance.tsx:80 | an encoded session scanned for another class is refused for the class at every time |
| `AttendanceSession.IssueThenVerify` | src/components/dashboard/QRAttendance.tsx:62-83 | a session generated with a clamped time-to-live and scanned for the same class is accepted up to `issuedAt + minutes·60000`, and expired after it |
| `AttendanceSession.CountingDownImpliesAccepted` | src/components/dashboard/QRAttendance.tsx:46-53 | while the teacher's countdown shows at least one second, a scan of the code is accepted |
| `AttendanceSession.RemainingMonotone` | src/components/dashboard/QRAttendance.tsx:48 | the countdown never increases as time passes |
| `AttendanceSession.Cs101Scenario` | src/components/dashboard/QRAttendance.tsx:62-83 | "CS101" issued at any time `t` for 5 minutes expires 300 s later. It is accepted at `t` + 299 s, expired at `t` + 301 s, and refused for "Math201" at `t` + 100 s |
| `AttendanceSession.NotAnObjectIsMalformed` | src/components/dashboard/QRAttendance.tsx:78 | the text "not json" is refused as malformed, with the parser's message |
| `AttendanceSession.NonObjectIsWrongType` | src/components/dashboard/QRAttendance.tsx:78-79 | `42`, `-7`, `"abc"`, `true` and `[]` parse, have no `type`, and are refused as `Invalid QR type` |
| `AttendanceSession.NullIsRefused` | src/components/dashboard/QRAttendance.tsx:78-79 | `null` parses; reading its `type` throws, and that error's message is shown, not `Invalid QR type` |
| `QRAttendance.QRAttendanceView.constructor` | src/components/dashboard/QRAttendance.tsx:30-41 | the class is `Computer Science 101` when the prop is missing, otherwise the prop. The initial state: 5 minutes, no session, 0 s, idle, camera closed, no message |
| `QRAttendance.QRAttendanceView.QrValue` | src/components/dashboard/QRAttendance.tsx:60 | the QR text is empty exactly when there is no session, and otherwise reads back as the held session |
| `QRAttendance.QRAttendanceView.SetExpiryInput` | src/components/dashboard/QRAttendance.tsx:119 | stores the clamped minutes and changes nothing else |
| `QRAttendance.QRAttendanceView.GenerateQR` | src/components/dashboard/QRAttendance.tsx:62-74 | does nothing without a class. Otherwise it replaces the session with one for this class expiring `expiryMinutes`·60000 ms after `now`, and changes nothing else |
| `QRAttendance.QRAttendanceView.Tick` | src/components/dashboard/QRAttendance.tsx:44-58 | without a session, nothing changes. With one, it stores the remaining seconds of its expiry and clears the session exactly when they are 0 |
| `QRAttendance.QRAttendanceView.Countdown` | src/components/dashboard/QRAttendance.tsx:138 | the displayed minutes and seconds recombine to the stored remaining seconds |
| `QRAttendance.QRAttendanceView.HandleDecode` | src/components/dashboard/QRAttendance.tsx:76-96 | acceptance gives `success`, an empty message and a closed camera. A refusal gives `error` with the refusal's message and leaves the camera as it was. Teacher state is unchanged |
| `QRAttendance.QRAttendanceView.OnScan` | src/components/dashboard/QRAttendance.tsx:179-182 | an empty scanned text changes nothing; any other text is handled as `HandleDecode` does |
| `QRAttendance.QRAttendanceView.OnCameraError` | src/components/dashboard/QRAttendance.tsx:190-194 | sets `error` with the camera-permission message, leaving the camera flag as it was |
| `QRAttendance.QRAttendanceView.ToggleCamera` | src/components/dashboard/QRAttendance.tsx:217-221 | flips the camera flag, resets the status to `idle` and clears the message |
| `QRAttendance.QRAttendanceView.Dispatch` | src/components/dashboard/QRAttendance.tsx:164-221 | a student input whose element is not rendered changes nothing, so `success` is never left. For a rendered input: an empty scan changes nothing (line 181). Any other scan succeeds exactly when the text is accepted. Acceptance clears the message and closes the camera. A refusal shows the refusal's message and keeps the camera as it was. A camera failure shows the permission message and keeps the camera as it was. The button flips the camera, resets to `idle` and clears the message |
| `QRAttendance.TeacherToStudent` | src/components/dashboard/QRAttendance.tsx:60-96 | a teacher view's generated code, scanned by a student view of the same class within the default 5 minutes, marks attendance (`success`) |
| `AttendanceWidget.OrDefault` | src/components/dashboard/AttendanceWidget.tsx:20 | a missing record becomes all zeros; a present one is used as it is |
| `AttendanceWidget.RoundHalfUp` | src/components/dashboard/AttendanceWidget.tsx:21 | the result is the integer nearest to `num/den`, with halves rounded up |
| `AttendanceWidget.AttendanceRate` | src/components/dashboard/AttendanceWidget.tsx:21 | the rate is 0 when `total <= 0` (no division by zero); otherwise it is `present·100/total` rounded half up |
| `AttendanceWidget.WidgetRate` | src/components/dashboard/AttendanceWidget.tsx:20-21 | a missing record shows a rate of 0 |
| `AttendanceWidget.RateInRange` | src/components/dashboard/AttendanceWidget.tsx:21 | if `0 <= present <= total`, the rate is in [0, 100] |
| `AttendanceWidget.RateAllPresent` | src/components/dashboard/AttendanceWidget.tsx:21 | `present == total > 0` gives 100 |
| `AttendanceWidget.RateNonePresent` | src/components/dashboard/AttendanceWidget.tsx:21 | `present == 0` gives 0 |
| `AttendanceWidget.RateIgnoresAbsentAndLate` | src/components/dashboard/AttendanceWidget.tsx:21 | records with the same `present` and `total` have the same rate |
| `AttendanceWidget.RateMonotone` | src/components/dashboard/AttendanceWidget.tsx:21 | with the same total, more present records never lower the rate |
| `ActivitySuggestions.Filter` | src/components/dashboard/ActivitySuggestions.tsx:65-68 | `filter` never returns more elements than it is given |
| `ActivitySuggestions.FilterMembership` | src/components/dashboard/ActivitySuggestions.tsx:65-68 | an element is kept exactly when it is in the input and passes the callback |
| `ActivitySuggestions.FilterCount` | src/components/dashboard/ActivitySuggestions.tsx:65-68 | every copy of an element that passes the callback is kept, and no copy of any other element |
| `ActivitySuggestions.FilterIsSubsequence` | src/components/dashboard/ActivitySuggestions.tsx:65-68 | `filter` keeps the input's order |
| `ActivitySuggestions.FilterOfFilter` | src/components/dashboard/ActivitySuggestions.tsx:65-68 | filtering by a stricter test equals filtering again what a looser test kept |
| `ActivitySuggestions.FitsIn` | src/components/dashboard/ActivitySuggestions.tsx:65-67 | a duration `parseInt` reads as NaN never fits; a duration equal to the free period fits |
| `ActivitySuggestions.FilterByDuration` | src/components/dashboard/ActivitySuggestions.tsx:65-68 | an activity is kept exactly when it is in the list and fits the free period, with every copy of it; the kept ones stay in their original order |
| `ActivitySuggestions.SuggestionsMonotone` | src/components/dashboard/ActivitySuggestions.tsx:65-68 | a longer free period loses no suggestion: the shorter period's list is the longer period's list filtered again |
| `ActivitySuggestions.CatalogueDurations` | src/components/dashboard/ActivitySuggestions.tsx:37-66 | `parseInt` reads "30 min", "20 min" and "40 min" as 30, 20 and 40 |
| `ActivitySuggestions.CatalogueFits` | src/components/dashboard/ActivitySuggestions.tsx:37-68 | the three catalogue activities fit a free period of at least 30, 20 and 40 minutes respectively |
| `ActivitySuggestions.SuggestedActivities` | src/components/dashboard/ActivitySuggestions.tsx:37-68 | under 20 minutes nothing is suggested. From 20, the worksheet; from 30, the challenge too; from 40, all three. The student's interests never matter |
| `ActivitySuggestions.GetIconAsWritten` | src/components/dashboard/ActivitySuggestions.tsx:25-34 | the lookup as written gives an inherited `Object.prototype` member exactly for the inherited names |
| `ActivitySuggestions.GetIconAsWrittenMissesFallback` | src/components/dashboard/ActivitySuggestions.tsx:33 | `getIcon("toString")` is not the `Lightbulb` fallback |
| `ActivitySuggestions.GetIcon` | src/components/dashboard/ActivitySuggestions.tsx:25-34 | total. Every name outside the table gives `Lightbulb`, and exactly "code", "book", "art" and "math" give another icon. It agrees with the as-written lookup on every non-inherited name |
| `ActivitySuggestions.CatalogueIconsAgree` | src/components/dashboard/ActivitySuggestions.tsx:44-62 | every catalogue icon name is a table entry, so the shipped widget shows the intended icons |
| `ActivitySuggestions.GetDifficultyColor` | src/components/dashboard/ActivitySuggestions.tsx:70-77 | total; the muted default is returned exactly for strings other than the three difficulties |
| `ActivitySuggestions.DifficultyColorsDistinct` | src/components/dashboard/ActivitySuggestions.tsx:70-77 | each difficulty has its own colour, and none of them is the default |

## Findings

| source | as written | input that shows it | evidently intended | confidence | as-written member | corrected member |
|---|---|---|---|---|---|---|
| src/components/dashboard/ActivitySuggestions.tsx:33 | `icons[iconName] \|\| Lightbulb` indexes a plain object literal, so names it inherits from `Object.prototype` are found | `getIcon("toString")` returns `Object.prototype.toString`, not `Lightbulb` (likewise `"constructor"`, `"valueOf"`, `"__proto__"`) | every name outside the table falls back to `Lightbulb` | not executed; the catalogue only uses table names, so the shipped widget is unaffected | `ActivitySuggestions.GetIconAsWritten`, `ActivitySuggestions.GetIconAsWrittenMissesFallback` | `ActivitySuggestions.GetIcon` |

## Left out

- The QR text format. `JSON.stringify`/`JSON.parse` are replaced by the
  length-prefixed object text of module `Wire`. ISO-8601 timestamps are replaced by
  decimal milliseconds. The parser's error messages are the model's own, not the
  JavaScript engine's. The `null` message is the one V8 throws.
- `Wire.Parse`: values inside an object are strings only, so an object whose `type`
  or `class` is a number, boolean, array or nested object is not represented.
  Numbers, strings and arrays outside an object follow the model's own simple
  syntax, not JSON's.
- Time. `Date.now()` and `new Date()` are a parameter. Timestamps in a payload are
  non-negative (dates before 1970 are not modelled).
- Randomness. `crypto.getRandomValues` is a parameter of 8 given bytes.
- Scheduling. `useEffect`/`setInterval` are not modelled. The effect runs `tick`
  once when a session is set and then every second; the model's caller invokes
  `QRAttendanceView.Tick` at those times. The interval's cleanup is not modelled.
- `QRAttendance.QRAttendanceView.Tick`: the countdown effect is wired in both views.
  In the student view it never holds a session, so the model lets any view call it.
- UI and foreign code. The toasts, the QR rendering (`react-qr-code`) and the
  camera `Scanner` library are not modelled. That includes how `onScan` digs
  `rawValue` out of the scanner's result (src/components/dashboard/QRAttendance.tsx:180),
  so `OnScan` receives the extracted text. All rendering is left out as well.
- `AttendanceSession.ClampExpiry`: the input is an integer or NaN (`None`).
  Fractional minutes and the string-to-number rules of `Number(...)` are not
  modelled.
- `AttendanceWidget.AttendanceRate`: uses exact arithmetic for
  `Math.round(present / total * 100)`. Floating-point division can land just
  below a half and round the other way in rare cases, and that is not modelled.
  Counts are integers.
- `Decimal.ParseInt`: skips only ASCII white space (JavaScript also skips other
  Unicode spaces). It does not model the hexadecimal `0x` prefix that `parseInt`
  without a radix accepts. The catalogue's durations use neither.
- Persistence of attendance after acceptance: the source has none; it is a note at
  src/components/dashboard/QRAttendance.tsx:89. Guarding against double submission
  is likewise absent from the source.
- Files not part of this model:
  - src/components/dashboard/FaceRecognition.tsx (camera capture, backend calls,
    and a random pick in place of recognition);
  - src/components/dashboard/ActivitiesWidget.tsx (a backend insert and
    wall-clock date formatting);
  - src/components/dashboard/Dashboard.tsx (mock data; its rate formula at line
    85 lacks the zero guard, but its totals are non-zero);
  - ScheduleWidget.tsx, navigation.tsx, RoleSelector.tsx, RoleSwitcher.tsx,
    Index.tsx and createTeacher.ts (rendering, static data and a single sign-up
    call).
