# Loan-referral site: form validation and EMI calculator, in Dafny

This project models the three pieces of client-side logic of a loan-referral
marketing site and proves properties of them:

- **The four-section application form** (`multi_step_form.dfy`, module
  `MultiStep`). It has a field record, per-field rules ("required, else min-length
  or format") and section-scoped validation that builds an ordered error object.
  Its state machine has field edits, *Next*, *Previous*, the section navigation
  bar and the final submit. The final submit merges the errors of all four sections
  and jumps back to the first failing section.
- **The single-page lead form** (`initial_application_form.dfy`, module
  `InitialForm`). Its validator covers name lengths, the loan-amount range and
  multiple-of-1000 rule, a 10-digit phone, the email format and domain allow-list,
  the salary, the loan type and the consent box. Its `handleChange` and
  `handleSubmit` handlers keep the error object and the busy flag.
- **The EMI calculator** (`emi_calculator.dfy`, module `Emi`). It has the input
  guard, the month count `N` and monthly rate `R`, and the annuity installment. The
  loop builds the month-by-month reducing-balance schedule, then the totals. The
  page also has a reset.

Shared helpers: `text.dfy` (the ECMAScript whitespace set, `trim`, ASCII
character classes, ASCII lower-casing) and `numbers.dfy` (decimal readers that
stand in for `Number(s)` and `parseFloat(s)`; `None` plays the part of `NaN`),
plus `wrappers.dfy` (`Option`).

Modelling choices:

- Each React component is a `class` whose fields are its `useState` variables.
  Each handler is a method that runs as one atomic update.
- A submit's call of the `onSuccess` callback is the `submitted` out-parameter,
  which holds `Some(data)` exactly when the callback would be called with `data`.
- Focus requests are returned as `focus`.
- The multi-section form's `validateSection` result is an ordered list of entries
  (`Errors`), so that `Object.keys(...)[0]` has a meaning. The component's
  `errors` state is the map that list denotes (`ToMap`).
- Regular expressions are hand-written predicates, one per pattern.
- Money and rates are exact `real`s. The month count is a natural number.

## Model

| member | source | states |
|---|---|---|
| `Text.Trim` | src/components/MultiStepForm/MultiStepForm.tsx:55-56 | the trimmed text is no longer than the input and starts and ends with a non-whitespace character |
| `Text.TrimIsInner` | src/components/MultiStepForm/MultiStepForm.tsx:55-56 | the trimmed text is the part of the input between an all-whitespace prefix and an all-whitespace suffix |
| `Text.TrimEmptyIffAllSpace` | src/components/MultiStepForm/MultiStepForm.tsx:55 | `requireText` fails exactly when every character of the value is whitespace |
| `Text.TrimPadded` | src/components/MultiStepForm/MultiStepForm.tsx:231 | a value with one blank on each side trims to its inner text |
| `Text.Utf16Length` | src/components/MultiStepForm/MultiStepForm.tsx:55-56 | `.length` counts UTF-16 code units, between one and two per character |
| `Text.Utf16LengthBmp` | src/components/MultiStepForm/MultiStepForm.tsx:56 | text with no character beyond U+FFFF has exactly one code unit per character |
| `Text.Utf16LengthConcat` | src/components/InitialForm/InitialApplicationForm.tsx:64 | the code-unit length of a concatenation is the sum of the lengths |
| `Text.AstralPair` | src/components/InitialForm/InitialApplicationForm.tsx:64 | a character beyond U+FFFF counts as two code units |
| `Text.Lower` | src/components/InitialForm/InitialApplicationForm.tsx:148 | `toLowerCase` keeps the length and lower-cases each ASCII letter, leaving other characters alone |
| `Numbers.ParseNumber` | src/components/InitialForm/InitialApplicationForm.tsx:76 | `Number` reads blank text as 0 |
| `Numbers.ParseNumberOfNumeral` | src/components/InitialForm/InitialApplicationForm.tsx:76 | `Number` reads a decimal numeral as the number it denotes |
| `Numbers.ParseNumberOfNegatedNumeral` | src/components/InitialForm/InitialApplicationForm.tsx:158 | `Number` reads `-` and a numeral as the negated number |
| `Numbers.ParseFloat` | src/pages/EMICalculator/EMICalculator.tsx:53-55 | `parseFloat` of blank text is `NaN` |
| `Numbers.ParseFloatOfNumeral` | src/pages/EMICalculator/EMICalculator.tsx:53-55 | `parseFloat` reads a decimal numeral as the number it denotes |
| `Numbers.ParseFloatOfNumeralPrefix` | src/pages/EMICalculator/EMICalculator.tsx:53-55 | `parseFloat` reads a numeral at the front of the text and ignores whatever follows that is not a digit or a point |
| `MultiStep.RequireText` | src/components/MultiStepForm/MultiStepForm.tsx:55 | `requireText`: the trimmed value is not empty |
| `MultiStep.MinLen` | src/components/MultiStepForm/MultiStepForm.tsx:56 | `minLen`: the trimmed value has at least `len` UTF-16 code units |
| `MultiStep.IsEmail` | src/components/MultiStepForm/MultiStepForm.tsx:57 | `isEmail`: word characters, `.` or `-` before one `@`, then host characters, a dot and at least two letters, with nothing else |
| `MultiStep.IsPhone10` | src/components/MultiStepForm/MultiStepForm.tsx:58 | `isPhone10`: exactly ten ASCII digits |
| `MultiStep.IsDecimalOrInt` | src/components/MultiStepForm/MultiStepForm.tsx:59 | `isDecimalOrInt`: digits, optionally followed by a point and one or two digits |
| `MultiStep.IsDuration` | src/components/MultiStepForm/MultiStepForm.tsx:60 | `durationRegex`: a number with optional decimals, optionally followed by whitespace and `year`, `years`, `yr` or `yrs` in any case |
| `MultiStep.IsAccountNumber` | src/components/MultiStepForm/MultiStepForm.tsx:276 | the salary account is 9 to 18 ASCII digits |
| `MultiStep.FieldError` | src/components/MultiStepForm/MultiStepForm.tsx:184-302 | a field's message: none when its section does not check it, the required message when blank, the format message when its format fails |
| `MultiStep.FormatOf` | src/components/MultiStepForm/MultiStepForm.tsx:184-302 | the format each validated field is checked against (minimum 4 or 15 characters, 10 digits, email, number, duration, account number, or only "required"), and none for the fields no section validates |
| `MultiStep.RequiredMessage` | src/components/MultiStepForm/MultiStepForm.tsx:184-302 | the "… is required" text of each validated field |
| `MultiStep.InvalidMessage` | src/components/MultiStepForm/MultiStepForm.tsx:184-302 | the text for a non-blank value that breaks its field's format, chosen by that format |
| `MultiStep.Applies` | src/components/MultiStepForm/MultiStepForm.tsx:194-197 | the spouse name is checked only when the marital status is exactly "Married"; every other field always applies |
| `MultiStep.SectionOf` | src/components/MultiStepForm/MultiStepForm.tsx:116-146 | `fieldToSectionMap`: the section index of each of the 26 validated fields, and none for the others |
| `MultiStep.ValidateSection` | src/components/MultiStepForm/MultiStepForm.tsx:179-305 | `validateSection(s, data)`: the failing fields of section `s` with their messages, in the order the section checks them |
| `MultiStep.ToMap` | src/components/MultiStepForm/MultiStepForm.tsx:312-314 | the `errors` state set from an error object holds exactly that object's keys |
| `MultiStep.SubmitErrors` | src/components/MultiStepForm/MultiStepForm.tsx:336-341 | the final submit's spread of the four sections' error objects, in section order |
| `MultiStep.Spread` | src/components/MultiStepForm/MultiStepForm.tsx:336-341 | `{...a, ...b}`: each key of `b` overwrites its message in `a` in place, a new key is appended in `b`'s order |
| `MultiStep.SectionErrors` | src/components/MultiStepForm/MultiStepForm.tsx:179-305 | a section's error object never holds a field twice, and every key it holds maps to that section in `fieldToSectionMap` |
| `MultiStep.SectionErrorsAreFailing` | src/components/MultiStepForm/MultiStepForm.tsx:179-305 | the conditional assignments of a section append exactly its failing fields, in validation order |
| `MultiStep.SectionErrorMap` | src/components/MultiStepForm/MultiStepForm.tsx:179-305 | field `f` is in section `s`'s errors iff the table puts `f` in `s` and `f` fails, and then it carries `f`'s message |
| `MultiStep.SectionFieldsAgreeWithTable` | src/components/MultiStepForm/MultiStepForm.tsx:116-146 | the fields a section validates are exactly the fields `fieldToSectionMap` assigns to it |
| `MultiStep.TableFieldsChecked` | src/components/MultiStepForm/MultiStepForm.tsx:116-146 | the table names exactly the validated fields, each with a section in 0..3 |
| `MultiStep.RequiredMessageFirst` | src/components/MultiStepForm/MultiStepForm.tsx:184-185 | a blank validated field gets its "required" message whatever its format rule |
| `MultiStep.FormatMessageSecond` | src/components/MultiStepForm/MultiStepForm.tsx:186-187 | a non-blank value that breaks the field's format gets the format message |
| `MultiStep.NoMessageWhenValid` | src/components/MultiStepForm/MultiStepForm.tsx:184-187 | a non-blank value that meets its format gets no message |
| `MultiStep.MinLengthError` | src/components/MultiStepForm/MultiStepForm.tsx:56 | a min-length field fails exactly when its trimmed length, in UTF-16 code units, is below the minimum |
| `MultiStep.MinimumLengths` | src/components/MultiStepForm/MultiStepForm.tsx:184-302 | the minimum is 15 for the three addresses and 4 for every other min-length field, with the matching message |
| `MultiStep.AstralMeetsMinimum` | src/components/MultiStepForm/MultiStepForm.tsx:56 | two characters beyond U+FFFF are four code units and meet a minimum of 4 |
| `MultiStep.SpouseNameOnlyWhenMarried` | src/components/MultiStepForm/MultiStepForm.tsx:194-197 | the spouse name fails iff the status is "Married" and its trimmed length is under 4 UTF-16 code units |
| `MultiStep.SpouseNameInSectionZero` | src/components/MultiStepForm/MultiStepForm.tsx:194-197 | the spouse name is a key of section 0's errors iff the applicant is married and the name is under 4 characters |
| `MultiStep.PhoneMatchedUntrimmed` | src/components/MultiStepForm/MultiStepForm.tsx:58 | the phone pattern is applied untrimmed: ten digits and a trailing blank get the ten-digit message |
| `MultiStep.DurationMatchedTrimmed` | src/components/MultiStepForm/MultiStepForm.tsx:229-232 | the duration pattern is applied to the trimmed value: a duration with blanks around it passes |
| `MultiStep.YearsIsDuration` | src/components/MultiStepForm/MultiStepForm.tsx:60 | the unit word is matched without regard to case |
| `MultiStep.DecimalPlaces` | src/components/MultiStepForm/MultiStepForm.tsx:59 | a number with two decimals passes `isDecimalOrInt` and one with three does not |
| `MultiStep.SectionClean` | src/components/MultiStepForm/MultiStepForm.tsx:311-313 | a section has no errors iff none of its fields fails |
| `MultiStep.MergeIsConcat` | src/components/MultiStepForm/MultiStepForm.tsx:336-341 | the spread merge overwrites nothing: it is the sections' entries one after another, with no key twice |
| `MultiStep.SubmitErrorMap` | src/components/MultiStepForm/MultiStepForm.tsx:336-341 | the merged errors hold exactly the failing fields of the whole form, each with its own message |
| `MultiStep.SubmitCleanIffAllValid` | src/components/MultiStepForm/MultiStepForm.tsx:343 | the merged errors are empty iff no field of the form fails |
| `MultiStep.SubmitJumpTarget` | src/components/MultiStepForm/MultiStepForm.tsx:346-349 | the first merged key belongs to the lowest section that has errors; every earlier section is clean |
| `MultiStep.SectionIndex` | src/components/MultiStepForm/MultiStepForm.tsx:347 | `fieldToSectionMap[f] ?? 0` is a section index in 0..3 and agrees with the table |
| `MultiStep.SpouseClearedPasses` | src/components/MultiStepForm/MultiStepForm.tsx:160-162 | after the status leaves "Married" and the spouse name is blanked, the spouse name cannot fail |
| `MultiStep.MultiStepForm.constructor` | src/components/MultiStepForm/MultiStepForm.tsx:66-104 | all fields empty, no errors, section 0, not submitting |
| `MultiStep.MultiStepForm.HandleChange` | src/components/MultiStepForm/MultiStepForm.tsx:151-174 | stores the value, blanks the spouse name when the status is set to anything but "Married", and drops only that field's truthy error; the section is unchanged |
| `MultiStep.MultiStepForm.HandleNext` | src/components/MultiStepForm/MultiStepForm.tsx:310-323 | on section errors, stores exactly them, focuses the first one and stays; otherwise clears errors and moves to `min(cur+1, 3)` |
| `MultiStep.MultiStepForm.HandlePrevious` | src/components/MultiStepForm/MultiStepForm.tsx:325-328 | moves to `max(cur-1, 0)`, leaving data and errors as they were |
| `MultiStep.MultiStepForm.JumpTo` | src/components/MultiStepForm/MultiStepForm.tsx:385-394 | a jump is taken only to a section at or before the current one; data and errors stay |
| `MultiStep.MultiStepForm.HandleSubmit` | src/components/MultiStepForm/MultiStepForm.tsx:333-363 | on errors, stores the merged errors, jumps to the first key's section and does not call back; otherwise calls back once with the data and ends not submitting |
| `InitialForm.Set` | src/components/InitialForm/InitialApplicationForm.tsx:181 | `{...prev, [name]: v}` changes input `name` only |
| `InitialForm.Put` | src/components/InitialForm/InitialApplicationForm.tsx:186-187 | setting or deleting one key of the error object leaves every other key as it was |
| `InitialForm.NameProblem` | src/components/InitialForm/InitialApplicationForm.tsx:63-70 | a name is "required" iff blank after trimming, else too short iff its trimmed length is under 4 UTF-16 code units |
| `InitialForm.AstralNameLongEnough` | src/components/InitialForm/InitialApplicationForm.tsx:63-65 | a first name of two characters beyond U+FFFF is four code units long and is accepted |
| `InitialForm.IsThousands` | src/components/InitialForm/InitialApplicationForm.tsx:82 | `n % 1000 === 0`: a whole multiple of 1000 |
| `InitialForm.LoanAmountProblem` | src/components/InitialForm/InitialApplicationForm.tsx:73-85 | empty is "required"; else non-numeric is "invalid"; else outside [10000, 5000000] is the range error; else a non-multiple of 1000 is refused; else accepted |
| `InitialForm.LoanWholeAmount` | src/components/InitialForm/InitialApplicationForm.tsx:80-83 | a whole amount is out of range outside [10000, 5000000], refused inside unless a multiple of 1000, accepted otherwise |
| `InitialForm.LoanBoundsAccepted` | src/components/InitialForm/InitialApplicationForm.tsx:25-26 | 10000 and 5000000 are accepted |
| `InitialForm.LoanJustOutsideRefused` | src/components/InitialForm/InitialApplicationForm.tsx:80-81 | 9999 and 5000001 are refused as out of range |
| `InitialForm.LoanBlankIsZero` | src/components/InitialForm/InitialApplicationForm.tsx:73-81 | whitespace-only text is not "required" but reads as 0 and is out of range |
| `InitialForm.DobProblem` | src/components/InitialForm/InitialApplicationForm.tsx:89-102 | an empty date is "required"; otherwise it fails exactly on the age rule's outcome |
| `InitialForm.ContactProblem` | src/components/InitialForm/InitialApplicationForm.tsx:126-127 | the contact number passes iff it is exactly 10 digits; empty is "required" |
| `InitialForm.EmailProblem` | src/components/InitialForm/InitialApplicationForm.tsx:130-152 | empty is "required"; a malformed address gets the format error whatever its domain; a well-formed one passes iff its lower-cased domain is allow-listed |
| `InitialForm.DomainOfWellFormed` | src/components/InitialForm/InitialApplicationForm.tsx:147 | a well-formed address has one `@`, so `split('@')[1]` is everything after it |
| `InitialForm.IsEmailFormat` | src/components/InitialForm/InitialApplicationForm.tsx:133 | `emailRegex`: non-blank, non-`@` characters, one `@`, a label of letters, digits and `-`, a dot and at least two letters |
| `InitialForm.SecondPart` | src/components/InitialForm/InitialApplicationForm.tsx:147 | `split('@')[1]`: the text from the first `@` up to the next one or the end |
| `InitialForm.EmailOfParts` | src/components/InitialForm/InitialApplicationForm.tsx:133-151 | `local@label.tld` is well formed and passes exactly when `label.tld`, lower-cased, is allow-listed |
| `InitialForm.AllowedDomainsLowerCase` | src/components/InitialForm/InitialApplicationForm.tsx:134-142 | the domain allow-list holds seven domains, among them `gmail.com` and `msn.com`, each already lower case, so lower-casing the typed domain makes the test case-insensitive |
| `InitialForm.CapitalisedDomainAccepted` | src/components/InitialForm/InitialApplicationForm.tsx:130-152 | `local@GMAIL.com` passes the email rule for any well-formed local part: the domain is lower-cased before the allow-list lookup |
| `InitialForm.EmailWithoutDot` | src/components/InitialForm/InitialApplicationForm.tsx:144-145 | non-empty text without a dot gets the format error |
| `InitialForm.SalaryProblem` | src/components/InitialForm/InitialApplicationForm.tsx:155-161 | empty is "required", a non-number is refused, and a number passes iff it is not negative |
| `InitialForm.SalaryNonNegative` | src/components/InitialForm/InitialApplicationForm.tsx:160 | zero and every positive whole salary are accepted |
| `InitialForm.SalaryNegativeRefused` | src/components/InitialForm/InitialApplicationForm.tsx:160 | a negative salary gets the negative message, not the not-a-number one |
| `InitialForm.SalaryBlankIsZero` | src/components/InitialForm/InitialApplicationForm.tsx:155-160 | whitespace-only salary text reads as 0 and passes |
| `InitialForm.ChoiceAndConsent` | src/components/InitialForm/InitialApplicationForm.tsx:164-169 | the loan type fails iff nothing is selected, the consent box iff it is unticked |
| `InitialForm.InitialDataFails` | src/components/InitialForm/InitialApplicationForm.tsx:29-42 | the opening form fails on both names and on the consent box |
| `InitialForm.EmptyIffNoMessage` | src/components/InitialForm/InitialApplicationForm.tsx:199 | the error object has no keys iff no input has a message |
| `InitialForm.FillErrors` | src/components/InitialForm/InitialApplicationForm.tsx:59-172 | the sequence of assignments records each rule's message under its own key, and nothing for the middle name |
| `InitialForm.FieldError` | src/components/InitialForm/InitialApplicationForm.tsx:59-172 | each input's message: its rule's problem turned into that input's text, and never one for the middle name |
| `InitialForm.FieldProblem` | src/components/InitialForm/InitialApplicationForm.tsx:59-172 | the rule each input is checked with: the name, salary, date of birth, contact, email and loan-amount rules, "required" for the loan type and the terms box, none for the middle name |
| `InitialForm.MessageText` | src/components/InitialForm/InitialApplicationForm.tsx:63-169 | the text each input shows for each of its problems |
| `InitialForm.ValidateFormData` | src/components/InitialForm/InitialApplicationForm.tsx:59-172 | every input has exactly the message its rule gives, and at most one |
| `InitialForm.SubmitPassesIffAllValid` | src/components/InitialForm/InitialApplicationForm.tsx:199-202 | a validation result is empty iff every rule passes |
| `InitialForm.InitialApplicationForm.constructor` | src/components/InitialForm/InitialApplicationForm.tsx:29-45 | blank inputs, the loan at its minimum, the box unticked, no errors, not submitting |
| `InitialForm.InitialApplicationForm.HandleChange` | src/components/InitialForm/InitialApplicationForm.tsx:174-190 | stores the text, or the tick for the checkbox, in that input only, and drops only that input's truthy error |
| `InitialForm.InitialApplicationForm.HandleSubmit` | src/components/InitialForm/InitialApplicationForm.tsx:192-205 | replaces the errors by a fresh validation, calls back with the data iff it is empty, and ends not submitting |
| `Emi.Periods` | src/pages/EMICalculator/EMICalculator.tsx:61 | `N` is twelve times the tenure in years, or the tenure itself in months |
| `Emi.MonthlyRate` | src/pages/EMICalculator/EMICalculator.tsx:62 | `R` is the annual percentage over 1200, positive for a positive rate |
| `Emi.Installment` | src/pages/EMICalculator/EMICalculator.tsx:64-65 | the installment is positive for a positive loan |
| `Emi.InstallmentEquation` | src/pages/EMICalculator/EMICalculator.tsx:64-65 | the installment solves `emi·((1+R)^N − 1) = P·R·(1+R)^N` |
| `Emi.Max0` | src/pages/EMICalculator/EMICalculator.tsx:83 | `Math.max(0, x)` is never negative, at least `x`, and either `x` or 0 |
| `Emi.Balance` | src/pages/EMICalculator/EMICalculator.tsx:71-76 | the running balance after `k` months: each month the interest on it is added and the installment taken off |
| `Emi.Pow` | src/pages/EMICalculator/EMICalculator.tsx:65 | `Math.pow(1 + R, N)` for a whole number of months `N`: `N` factors of `1 + R` |
| `Emi.Row` | src/pages/EMICalculator/EMICalculator.tsx:74-84 | the row pushed for month `i+1`: the month, the installment, principal, interest and the new balance floored at 0 |
| `Emi.Schedule` | src/pages/EMICalculator/EMICalculator.tsx:70-85 | the first `n` rows, in month order |
| `Emi.BuildSchedule` | src/pages/EMICalculator/EMICalculator.tsx:70-85 | the loop produces exactly the reducing-balance schedule of `N` months |
| `Emi.ScheduleIndex` | src/pages/EMICalculator/EMICalculator.tsx:73-85 | the schedule has `N` entries and entry `i` is the row for month `i+1` |
| `Emi.ScheduleRows` | src/pages/EMICalculator/EMICalculator.tsx:74-83 | each row pays the installment, splits it into interest on the balance before it and principal, reduces the balance by the principal, and shows that balance floored at 0 |
| `Emi.BalanceClosedForm` | src/pages/EMICalculator/EMICalculator.tsx:73-77 | after `k` months `B_k·R = P·R·(1+R)^k − emi·((1+R)^k − 1)` |
| `Emi.AnnuityClearsBalance` | src/pages/EMICalculator/EMICalculator.tsx:64-77 | with `R > 0` and `N ≥ 1` the annuity installment brings the running balance to exactly 0 after `N` months |
| `Emi.InstallmentAboveInterest` | src/pages/EMICalculator/EMICalculator.tsx:65-75 | the installment of a positive loan exceeds the first month's interest `P·R` |
| `Emi.BalanceDecreasing` | src/pages/EMICalculator/EMICalculator.tsx:73-77 | with a positive loan and rate the running balance strictly falls every month |
| `Emi.ShownBalanceNonIncreasing` | src/pages/EMICalculator/EMICalculator.tsx:73-84 | the balance column of the schedule never goes up from one row to the next |
| `Emi.SchedulePrincipalSum` | src/pages/EMICalculator/EMICalculator.tsx:75-76 | the principal column sums to what the balance fell by |
| `Emi.ScheduleInterestSum` | src/pages/EMICalculator/EMICalculator.tsx:74-75 | the interest column sums to the installments paid less the principal column |
| `Emi.PaidOffSchedule` | src/pages/EMICalculator/EMICalculator.tsx:73-85 | a schedule that ends at balance 0 repays the loan in its principal column, and its last row shows 0 |
| `Emi.Calculation` | src/pages/EMICalculator/EMICalculator.tsx:64-92 | the result object: installment, `emi·N`, `emi·N − P`, and the `N`-month schedule |
| `Emi.Calculate` | src/pages/EMICalculator/EMICalculator.tsx:64-85 | the installment, totals and loop give the calculation for `P`, `R`, `N` |
| `Emi.CalculationProperties` | src/pages/EMICalculator/EMICalculator.tsx:64-92 | installment positive, `totalAmount = emi·N`, `totalInterest = totalAmount − P`, `N` reducing-balance rows, principal column = `P`, interest column = total interest, last balance 0 |
| `Emi.Positive` | src/pages/EMICalculator/EMICalculator.tsx:57 | an input passes the guard iff it is a number above 0 |
| `Emi.Outcome` | src/pages/EMICalculator/EMICalculator.tsx:52-62 | an amount, rate or tenure that is not a positive number gives no result |
| `Emi.OutcomeOf` | src/pages/EMICalculator/EMICalculator.tsx:52-62 | inputs that pass the guard, with whole months, give the calculation over the numbers read, with `N ≥ 1` |
| `Emi.OutcomeProperties` | src/pages/EMICalculator/EMICalculator.tsx:52-62 | a result exists only for positive numeric inputs and a whole `N ≥ 1`, and is then the calculation over them |
| `Emi.OutcomeOfNumerals` | src/pages/EMICalculator/EMICalculator.tsx:52-65 | positive whole numbers typed as numerals give the calculation on exactly those numbers, with `N` = 12 × tenure for years and the tenure for months |
| `Emi.EmiCalculator.constructor` | src/pages/EMICalculator/EMICalculator.tsx:20-25 | empty inputs, years as the unit, no result, breakdown hidden |
| `Emi.EmiCalculator.CalculateEMI` | src/pages/EMICalculator/EMICalculator.tsx:52-93 | the result becomes the calculation when the inputs pass, is left as it was otherwise, and the inputs are never touched |
| `Emi.EmiCalculator.HandleReset` | src/pages/EMICalculator/EMICalculator.tsx:95-101 | empties the three inputs, clears the result and hides the breakdown; the unit stays |
| `Emi.ResetInputsRefused` | src/pages/EMICalculator/EMICalculator.tsx:57-58 | after a reset, calculating is refused by the guard |

## Left out

- Rendering is not modelled: JSX, CSS classes, the progress bar, the donut and bar chart geometry and the slider backgrounds. These are presentation only.
- Browser side effects are not modelled: `focus()` through `setTimeout`, `window.scrollTo` and `alert`. Focus requests appear only as the `focus` out-parameter.
- Currency and number formatting (`Intl.NumberFormat`) is presentation only and is not modelled.
- The `onSuccess` callback is abstract: the model records the data it would be called with. The network submission that the callback performs is outside this model.
- React's asynchronous, batched `setState` is not modelled. Each handler is one atomic sequential update, and a handler never sees stale state.
- `InitialForm.DobProblem`: the age comparison uses the wall clock (`new Date()`, `setFullYear`) and Date parsing. It is taken as the boolean parameter `tooYoung`. Only the "required" branch is decided by the model.
- The upper-casing of `panNumber` in the lead form's `handleChange` is not modelled. The PAN and Aadhaar inputs and rules are commented out in the form.
- `Numbers.ParseNumber` and `Numbers.ParseFloat` read plain decimal text only. They do not model exponents, hexadecimal, `Infinity` or IEEE rounding.
- `Text.Lower` lower-cases ASCII letters only. Non-ASCII case mapping is not modelled.
- All arithmetic is exact `real` arithmetic. IEEE floating-point rounding, and the drift that `Math.max(0, …)` absorbs in the source, are not modelled.
- `Emi.EmiCalculator.CalculateEMI`: a tenure that is not a whole number of months leaves the result unchanged in the model. The source raises `1+R` to the fractional power `N` and still runs the loop ⌊N⌋ times. That combination is not modelled.
- `Text.Utf16Length`, `Text.Trim` and the character classes work on Unicode scalar values. A JavaScript string may hold an unpaired surrogate, which a Dafny string cannot, so such text is not modelled.
- Zero-rate loans cannot reach the installment formula: the guard refuses a rate ≤ 0, so no zero-rate branch exists.
