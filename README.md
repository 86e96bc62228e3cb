# Genç Girişimciler site script — verified model

The site script `app.js` has two components that hold logic worth checking.
This project models both in Dafny and proves what each promises.

- **`ChecklistManager`** keeps the visitor's progress through the steps of a
  checklist. The progress is a dictionary from step id to a stored value,
  and a copy is kept in the browser's storage. `isCompleted` asks whether a
  step's value is exactly `true`. `toggle` flips one step and saves. `getStats`
  counts the completed steps and computes a rounded percentage against a
  total the page supplies.
- **`PetitionGenerator`** turns a fourteen-field form into the text of a
  petition to the Social Security Institution (SGK). `validateForm` checks
  that every field is filled in and that the national ID number (TCKN) is
  eleven digits. `formatDate` reorders a `YYYY-MM-DD` date-input value as
  `DD.MM.YYYY`. `calculateEndDate` moves the start date one Gregorian year
  forward. `generateSGKPetition` fills the fixed Turkish template.
  `generate` validates the form, records the petition type and stores the
  text.

Modules:

| file | module | contents |
|---|---|---|
| `wrappers.dfy` | `Wrappers` | `Option` |
| `text.dfy` | `Text` | the JavaScript string operations the script uses: `split`/`join`, `trim`, `toUpperCase`, decimal numerals, `padStart(2, '0')` |
| `checklist.dfy` | `Checklist` | stored values, toggling, statistics, and the class `ChecklistManager` |
| `calendar.dfy` | `Calendar` | `formatDate`, Gregorian dates, `calculateEndDate` |
| `form.dfy` | `Form` | the form record, the required fields, `validateForm` |
| `sgk_template.dfy` | `SgkTemplate` | the template's literal wording and its 24 interpolations, in order |
| `petition.dfy` | `Petition` | template filling, `generateSGKPetition`, and the class `PetitionGenerator` |

Stored checklist values are modelled as `JBool(b)` or `JOther(truthy)`. This
keeps apart the strict `=== true` test and the truthiness test that
`toggle` applies. A step id that is not recorded reads the value the
dictionary inherits: `undefined` for an ordinary id, and a truthy inherited
member for the names `Object.prototype` defines, such as `constructor`. The
model takes `Math.round` of a finite quotient as exact integer half-up
rounding. A total of zero gives `NaN` or `Infinity`, as JavaScript does.

## Model

| member | source | states |
|---|---|---|
| Checklist.Toggled | app.js:88-92 | `state[s] = !state[s]`: the step gets the boolean negation of its truthiness, an unrecorded step counting as false unless its id names an inherited `Object.prototype` member, which counts as true; the key set gains `s`; every other key keeps its value |
| Checklist.NeverToggledNotCompleted | app.js:79-81 | a step that was never recorded is not completed and is not counted |
| Checklist.ToggleCompletes | app.js:79-92 | after a toggle the step is completed exactly when it was falsy before; every other step's completion is unchanged |
| Checklist.ToggleTwice | app.js:79-92 | for a step whose read value is falsy or exactly `true`, toggling twice gives back the state with that step normalised to a boolean, and its completion is restored |
| Checklist.ToggleTwiceNormalises | app.js:79-92 | a step holding a truthy non-boolean value is not completed, yet is completed after two toggles; an unrecorded `constructor` step is not completed, is set to `false` by one toggle and is completed after two |
| Checklist.ToggleParity | app.js:88-92 | after `n >= 1` toggles the step holds the negation of its old truthiness when `n` is odd and that truthiness when `n` is even; the other keys are unchanged |
| Checklist.ToggleParityCompleted | app.js:79-92 | for a step whose read value is falsy or exactly `true`, an even number of toggles keeps its completion and an odd number flips it |
| Checklist.RoundedPercent | app.js:104 | `Math.round(c / n * 100)`: the nearest integer to `100c/n`, with halves rounded up; `NaN` for `0/0` and `Infinity` for `c/0` with `c > 0` |
| Checklist.PercentInRange | app.js:99-106 | with `0 < n` and `c <= n` the percentage lies in 0..100; it is exactly 0 with no step done and exactly 100 with all done |
| Checklist.CompletedWithinRecorded | app.js:99-101 | the number of completed steps is at most the number of recorded steps |
| Checklist.ToggledCompletedSteps | app.js:88-101 | a step is counted exactly when it is completed; toggling a truthy step takes it out of the completed steps; toggling a falsy step adds it; no other step changes |
| Checklist.ToggleCount | app.js:88-101 | a toggle lowers the completed count by one for a step that was exactly `true`, raises it by one for a falsy step, and leaves it for a truthy non-boolean step |
| Checklist.ChecklistManager.constructor | app.js:44-61 | the state starts as the stored dictionary, or as an empty one when nothing can be read |
| Checklist.ChecklistManager.SaveState | app.js:66-72 | a successful write makes storage equal memory; a failed write leaves storage as it was |
| Checklist.ChecklistManager.IsCompleted | app.js:79-81 | true exactly when the step is among the counted completed steps, that is, when its value is the boolean `true` |
| Checklist.ChecklistManager.Toggle | app.js:88-92 | the new state is the toggled old state; the result is the negation of the old truthiness and is what `IsCompleted` reports afterwards; storage follows the write rule of `SaveState` |
| Checklist.ChecklistManager.GetStats | app.js:99-106 | `completed` is the number of steps that are exactly `true`, at most the number recorded; `total` is the argument; the percentage is within half a point of `100·completed/total` and in 0..100 when `completed <= total`; `0/0` gives `NaN` |
| Checklist.ToggleTwiceThroughStore | app.js:88-92 | for a step whose read value is falsy or exactly `true`, two toggles through the store, with writes that succeed, return opposite values, restore the step's completion and leave storage equal to memory |
| Text.Split | app.js:288 | `split('-')` yields at least one piece, and no piece contains the separator |
| Text.JoinSplit | app.js:288 | joining the pieces of a split gives back the string |
| Text.SplitJoin | app.js:288 | splitting a join of separator-free pieces gives back the pieces |
| Text.SplitThree | app.js:288 | three separator-free pieces joined by the separator split back into exactly those three |
| Text.Trim | app.js:397 | `trim()` returns a contiguous slice of the input with only whitespace cut from either side, and a non-empty result starts and ends with a non-whitespace character |
| Text.TrimStartSpec | app.js:397 | what `trimStart` keeps is a suffix that starts with a non-blank character, and what it drops is all whitespace |
| Text.TrimEndSpec | app.js:397 | what `trimEnd` keeps is a prefix that ends with a non-blank character, and what it drops is all whitespace |
| Text.TrimEmptyIffBlank | app.js:397 | `s.trim() === ''` holds exactly when every character of `s` is whitespace |
| Text.TrimFixesTrimmed | app.js:397 | a non-empty string with no whitespace at either end is its own trim |
| Text.Upper | app.js:320-322 | `toUpperCase` keeps the length, leaves no lower-case letter behind, and changes only lower-case letters |
| Text.UpperIdempotent | app.js:320-322 | upper-casing twice is upper-casing once |
| Text.UpperFixesUpper | app.js:320-322 | a string without lower-case letters is its own upper case |
| Text.NatToString | app.js:303 | `String(n)` is a non-empty decimal numeral without a leading zero |
| Text.ParseNatToString | app.js:303 | reading back `String(n)` gives `n` |
| Text.Pad2 | app.js:301-302 | `padStart(2, '0')` gives at least two digits, exactly two for a number below 100, and a leading `0` exactly for a number below 10 |
| Text.Pad2Parse | app.js:301-302 | `padStart(2, '0')` of a number below 100 is two digits that read back as the number |
| Text.Pad2OfTwoDigits | app.js:301-302 | padding the value of any two-digit numeral gives back that numeral |
| Calendar.FormatDate | app.js:286-290 | the result is empty exactly when the input is empty |
| Calendar.FormatDateWithoutDash | app.js:286-290 | a non-empty value without a dash is read as the year alone, so day and month print as `undefined` |
| Calendar.FormatDateFields | app.js:286-290 | `formatDate` of `Y-M-D` with dash-free fields is `D.M.Y` |
| Calendar.FormatDateInvertible | app.js:286-290 | `formatDate` loses nothing: splitting its result at `.` and reordering gives the input back |
| Calendar.FormatDateExamples | app.js:286-290 | `""` stays `""` and `"2026-01-01"` becomes `"01.01.2026"` |
| Calendar.AddOneYear | app.js:299-300 | `setFullYear(year + 1)` gives a valid date in the next year |
| Calendar.AddOneYearIsFirstDateOnOrAfter | app.js:299-300 | one year on is the earliest valid date not before the same month and day of the next year |
| Calendar.AddOneYearKeepsDayAndMonth | app.js:299-300 | day and month are kept, except that 29 February becomes 1 March |
| Calendar.LeapYearIsFollowedByCommonYear | app.js:299-300 | the year after a leap year is a common year, so a 29 February start always rolls over |
| Calendar.ParseIsoDate | app.js:299 | the model reads a date from `new Date(s)` only for a `YYYY-MM-DD` string naming a real date, and that date is valid |
| Calendar.FormatNumericFields | app.js:301-304 | for a valid date, `DD.MM.YYYY` has its dots at positions 2 and 5, the padded day and month and the year in between, and splits at the dots into exactly those three fields |
| Calendar.CalculateEndDate | app.js:297-305 | the result is empty exactly for an empty input; the model reads a date only from `YYYY-MM-DD`, so any other non-empty input gives `NaN.NaN.NaN`; a real date gives two digits, a dot, two digits, a dot and the year's digits |
| Calendar.CalculateEndDateKeepsFields | app.js:297-305 | for a start other than 29 February the result is the start's day digits, its month digits and the next year's number, joined by dots |
| Calendar.CalculateEndDateLeapDay | app.js:297-305 | a 29 February start yields `01.03.` followed by the next year |
| Calendar.CalculateEndDateReadsBack | app.js:297-305 | the result splits at its dots into the padded day, the padded month and the year of the date one year on, and reading those three numerals back gives that date |
| Calendar.CalculateEndDateExample | app.js:297-305 | `"2025-06-15"` becomes `"15.06.2026"` |
| Calendar.CalculateEndDateLeapExample | app.js:297-305 | `"2024-02-29"` becomes `"01.03.2025"`, and `""` stays `""` |
| Form.Blank | app.js:397 | a field counts as missing (empty, or empty once trimmed) exactly when every character of it is whitespace, the empty string included |
| Form.IsTckn | app.js:403 | a string that passes `/^\d{11}$/` has eleven characters and is not blank |
| Form.TcknIsTrimmed | app.js:403 | a well-formed ID number is its own trim |
| Form.EveryFieldRequired | app.js:390-394 | every field of the form is in the required list |
| Form.ValidateForm | app.js:389-409 | accepts exactly when all fourteen fields are non-blank and the ID number is eleven digits; the ID check fails only once every field is filled; it never both accepts and rejects the ID |
| Form.BlankFieldRejects | app.js:396-400 | a blank field rejects the form, whatever the ID number |
| Form.ValidateExamples | app.js:403 | with the other fields filled, `"12345"` is rejected as an ID number and `"12345678901"` accepted |
| SgkTemplate.TemplateShape | app.js:319-358 | the template has 25 literal pieces around 24 interpolations, and nothing follows the last one |
| SgkTemplate.EndDateSlots | app.js:319-358 | the end date is interpolated exactly at positions 5, 17, 19 and 20: the subject line and three places in the body |
| SgkTemplate.HeaderSlots | app.js:319-324 | the first five interpolations are the upper-cased province, district and name, then the ID number and the address as typed |
| SgkTemplate.HeaderSegments | app.js:319-324 | the first five literal pieces are the addressee line, the space between province and district, the directorate line with the name label, and the ID and address labels |
| Petition.InterleaveSlot | app.js:319-358 | in a filled template each value stands at its offset, right after the literal piece before it |
| Petition.InterleaveEndsWithLast | app.js:358 | a filled template whose last literal piece is empty ends with its last value |
| Petition.GenerateSGKPetition | app.js:312-358 | the petition ends with the applicant's name exactly as typed |
| Petition.PetitionPlacesEverySlot | app.js:312-358 | every interpolation's text stands in the petition at its own place, right after the fixed wording before it |
| Petition.EndDatePlacement | app.js:312-358 | wherever the template interpolates the end date, `calculateEndDate` of the start date stands in the petition at that interpolation's place |
| Petition.PetitionHeader | app.js:319-324 | the petition opens with the addressee, with province and district upper-cased, then the upper-cased name, the ID number and the address |
| Petition.PetitionGenerator.constructor | app.js:276-279 | the petition type starts as `sgk` and the text as empty |
| Petition.PetitionGenerator.Generate | app.js:416-435 | an invalid form returns null and changes nothing; a valid one sets the type, stores and returns the SGK petition for any type, and keeps the stored text equal to the petition of the last valid form |
| Petition.PetitionGenerator.Store | app.js:424-432 | the type is recorded and the stored text is the SGK petition whatever the type, which keeps the generator's invariant |
| Petition.GenerateTwice | app.js:416-435 | after two successful generations the stored text is the second form's petition |

## Left out

- The page wiring is left out: the DOM, events, modals and keyboard handling, the legal banner flag, the tweet button and `loadTweets`, `alert`, and copying and printing.
- The real `localStorage` and JSON are left out. Storage is an abstract stored dictionary, or none when unreadable, and a write either succeeds or fails. Loaded values such as `null` or non-object JSON are not modelled. Neither is the `console.warn` diagnostic that `loadState` and `saveState` log when storage fails.
- `getFormData` reads the DOM. The form record is passed in directly instead.
- `openPetitionGenerator` fills in today's date from the clock. The clock is not part of this model.
- In the source, `validateForm`, `formatDate`, `calculateEndDate` and `generateSGKPetition` are methods of `PetitionGenerator`, but they read no field of it. They are therefore modelled as module-level members.
- Checklist.RoundedPercent: exact integer half-up rounding, so the IEEE double rounding of `c / n * 100` at `.5` boundaries is not modelled.
- Checklist.ChecklistManager.GetStats: a total of zero is not excluded. `0/0` yields `NaN` and `c/0` yields `Infinity`, as the script computes them. `getStats` itself places no demand on its caller.
- Checklist.ToggleTwice: the involution is stated only for steps whose read value is falsy or exactly `true`. A truthy value that is not `true`, stored or inherited, is not completed before two toggles but is completed after them (`Checklist.ToggleTwiceNormalises`).
- Checklist.Toggled: the step id `__proto__` is not modelled faithfully. The script's assignment to it is ignored and `toggle` returns `Object.prototype`, while the model records `false` under that key. Other inherited member names are modelled as truthy reads.
- Calendar.CalculateEndDate: time zones are not modelled. A non-empty string that is not `YYYY-MM-DD` naming a real date yields `NaN.NaN.NaN` (an Invalid Date), with no engine-specific lenient parsing. Years are four digits.
- Calendar.ParseIsoDate: the other forms of ECMAScript's Date Time String Format are not read. These are `YYYY`, `YYYY-MM`, date-times such as `YYYY-MM-DDTHH:mm`, and expanded years such as `+002025-06-15`. The model maps them to `None`, so `calculateEndDate` prints `NaN.NaN.NaN` for them, although the script reads a date from each. A date input only ever supplies `YYYY-MM-DD` or `""`.
- Text.Upper: `toUpperCase` is modelled character by character. It covers ASCII `a`–`z`, the Latin-1 letters `à`–`þ` except `÷`, and the Turkish `ğ`, `ş` and `ı`. Every other character is left unchanged, including `µ` (U+00B5, which JavaScript maps to U+039C) and `ÿ` (U+00FF, mapped to U+0178). Length-changing mappings such as `ß` → `SS` are not modelled.
- The template's Turkish wording is kept verbatim. Only the placement of the interpolated values is proved about it.
