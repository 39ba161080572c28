# PCOS intake form: a Dafny model of its decision logic

The PCOS Health Tracker is a React form. A user enters sixteen health and lifestyle
attributes. The form derives body-mass index (BMI) from weight and height, validates the
record, and posts it to a remote prediction service. It then shows the returned score as
a Low, Moderate or High risk classification. This project models the four pieces of
that code that make decisions, and proves properties of them:

- **The intake schema** (`IntakeSchema`). This is the sixteen-field record with a per-field
  rule for each field: integrality and an inclusive range. It also covers the form's
  default values, the blood-group selector's code table, what a cleared number input
  stores, and the JSON body a valid record is posted as.
- **BMI derivation** (`Bmi`, plus the form's effect in `PcosForm` and the stand-alone
  component in `BmiCalculatorEffect`). The rule is `Math.round(w / (h/100)^2 * 10) / 10`,
  applied only when weight and height are both truthy.
- **The submission cycle** (`PcosForm.IntakeForm`). This class holds the form's
  `isSubmitting`, `showResults` and `predictionScore` state, together with the request
  in flight and the pending reset timer. Its methods are: press submit, the response
  arrives, the delayed reset fires, and close the results.
- **The results view** (`PcosResult`). It turns the score back into a number
  (`numericScore`) and classifies it at 30 and 60. The heading, icon, progress bar
  and explanation each test those thresholds on their own, and each is proved to
  agree with the one band.

Two helper modules support these. `Js` models JavaScript's number values:
`undefined`, `NaN`, and finite numbers as reals. It also gives their truthiness, `<`,
`Number.isInteger`, and `Math.round`, which is `Floor(x + 0.5)` (section 21.3.2.28 of
ECMA-262). `NumberText` models decimal text: `Number::toString` for plain decimals,
`replace('%', '')`, `parseFloat` and `parseInt`.

Behaviours of the code that the model keeps as they are:

- The schema accepts any integer as `BloodGroup`; only the selector restricts the
  choice to the eight codes 11..18.
- `Math.round` rounds a tie toward +∞ (`Math.round(-2.5)` is −2), not away from zero.
- BMI is derived whenever weight and height are truthy, so a negative weight or height
  still produces a value; only 0, `NaN` and `undefined` suppress it.
- BMI is a form field that the effect overwrites and no input writes; when weight or
  height is cleared to 0, BMI keeps its previous value.
- A score that reads as `NaN` is neither `< 30` nor `< 60`, so it is classified and
  shown as High.

A numeric score is a `CanonicalDecimal`: no zero at the end of its fraction and no
minus sign on zero, the form `Number::toString` writes. Every decimal has a canonical
form of the same value (`Normalize`), and equal values have one canonical form
(`CanonicalUnique`), so the score's text depends only on its value.

## Model

| member | source | states |
|---|---|---|
| Js.Truthy | components/pcos-form.tsx:85 | `weight && height` treats exactly `undefined`, `NaN` and 0 as false (also components/bmi_calculator.tsx:12) |
| Js.Less | components/pcos-result.tsx:24-25 | `numericScore < bound` is false for `undefined` and `NaN`, and for a number is the usual order |
| Js.IsInteger | components/pcos-form.tsx:31 | `.int()` accepts exactly the numbers that `Math.round` leaves unchanged |
| Js.ToNumber | components/pcos-form.tsx:31-46 | `z.coerce.number()` maps `undefined` to NaN and leaves numbers unchanged |
| Js.Round | components/pcos-form.tsx:88 | `Math.round(x)` lies in (x − 0.5, x + 0.5], so a tie goes up |
| Js.RoundIsNearest | components/bmi_calculator.tsx:18 | no integer is nearer to x than `Math.round(x)`, and of two equally near integers it is the larger |
| NumberText.Normalize | components/pcos-result.tsx:21 | every decimal has a canonical form (no trailing fraction zero, no `-0`) of the same value, and a canonical decimal is its own form |
| NumberText.CanonicalUnique | components/pcos-result.tsx:58 | two canonical decimals with the same value are the same decimal, so a number has one text |
| NumberText.CanonicalSign | components/pcos-result.tsx:21 | a canonical decimal carries a minus sign exactly when its value is negative |
| NumberText.Render | components/pcos-result.tsx:21 | `score.toString()` of a number uses only digits, `-` and `.`, and begins with `-` exactly for a negative number |
| NumberText.RemovePercent | components/pcos-result.tsx:21 | `replace('%', '')` leaves text without `%` unchanged and otherwise removes exactly one character |
| NumberText.RemovePercentFirst | components/pcos-result.tsx:21 | `replace('%', '')` removes the first percent sign and keeps everything around it |
| NumberText.ParseFloat | components/pcos-result.tsx:21 | `parseFloat` yields a number or NaN, never undefined; unsigned text is read as its magnitude |
| NumberText.ParseFloatRender | components/pcos-result.tsx:21 | round trip: `parseFloat(x.toString())` is x for every number x written in plain decimal notation |
| NumberText.ParseInt | components/pcos-form.tsx:216 | `parseInt` yields an integer, and yields a number exactly when a digit follows the optional sign |
| NumberText.ParseIntNatToString | components/pcos-form.tsx:216 | round trip: `parseInt` of a non-negative integer's digits is that integer |
| Bmi.RawBmi | components/bmi_calculator.tsx:14-16 | the unrounded index times the square of the height in metres (cm / 100) is the weight |
| Bmi.RoundToTenth | components/bmi_calculator.tsx:18 | `Math.round(x * 10) / 10` is a whole number of tenths within 0.05 of x |
| Bmi.RoundToTenthIsNearest | components/pcos-form.tsx:88 | no whole number of tenths is nearer to x than the rounded value |
| Bmi.DeriveBmi | components/pcos-form.tsx:84-91 | a BMI is produced exactly when weight and height are both truthy; it is a whole number of tenths within 0.05 of weight / (height/100)² |
| Bmi.DeriveBmiExample | components/pcos-form.tsx:86-88 | 60 kg at 165 cm derives BMI 22.0 |
| IntakeSchema.AllFieldsComplete | components/pcos-form.tsx:30-47 | the schema's sixteen keys cover every field |
| IntakeSchema.With | components/pcos-form.tsx:156 | storing a value in one field changes that field and no other |
| IntakeSchema.DefaultValuesShape | components/pcos-form.tsx:60-77 | the nine answers default to 0; every other field defaults to undefined |
| IntakeSchema.RuleOf | components/pcos-form.tsx:31-46 | the per-field rules: only BloodGroup has no range, every range is non-empty, the nine answers are integers in [0,1], and only Weight, Height and BMI may be fractional |
| IntakeSchema.Satisfies | components/pcos-form.tsx:31-46 | a value passes a `z.coerce.number()` rule only if it is a number: `undefined` (coerced to NaN) and NaN fail every rule |
| IntakeSchema.Accepted | components/pcos-form.tsx:30-47 | every field of an accepted record holds a number |
| IntakeSchema.FieldErrors | components/pcos-form.tsx:30-47 | a field is reported exactly when its value, coerced, is NaN, non-integral where `.int()` applies, or outside its range |
| IntakeSchema.AnswerRule | components/pcos-form.tsx:36-44 | an answer field passes `int().min(0).max(1)` exactly when it is 0 or 1 |
| IntakeSchema.AcceptedIffNoFieldErrors | components/pcos-form.tsx:30-47 | the field-by-field statement of validity (Age integer in [12,100], Weight in [30,200], Height in [120,220], BloodGroup integer, PeriodFrequency integer in [0,100], answers in {0,1}, PeriodDuration integer in [0,15], BMI in [10,50]) holds exactly when no field fails its rule |
| IntakeSchema.Validate | components/pcos-form.tsx:141 | the resolver accepts exactly the records every rule passes and returns them unchanged; otherwise it returns the non-empty set of failing fields |
| IntakeSchema.DefaultValuesInvalid | components/pcos-form.tsx:60-77 | the default record fails on Age and BMI, and none of its answers fails |
| IntakeSchema.BloodGroupRule | components/pcos-form.tsx:34 | BloodGroup passes exactly when it is an integer, whatever the integer |
| IntakeSchema.OptionValueIsCodeText | components/pcos-form.tsx:19-28 | option i's value text is the decimal text of 11 + i |
| IntakeSchema.SelectedCode | components/pcos-form.tsx:216 | choosing option i stores the code 11 + i, which passes validation |
| IntakeSchema.BloodGroupOptionsDistinct | components/pcos-form.tsx:19-28 | the eight options have distinct captions and distinct codes |
| IntakeSchema.StoredNumber | components/pcos-form.tsx:156 | a number input always stores a number, never undefined or NaN |
| IntakeSchema.ClearedInputValidity | components/pcos-form.tsx:275 | a cleared input stores 0, which fails for Age, Weight and Height and passes for PeriodFrequency and PeriodDuration |
| IntakeSchema.AcceptedRecordBmiIsDerived | components/pcos-form.tsx:84-91 | in an accepted record that the effect keeps consistent, BMI is the rounded index of its weight and height |
| IntakeSchema.ValidWeightAndHeightCanDeriveInvalidBmi | components/pcos-form.tsx:32-33 | 200 kg and 120 cm each pass validation but derive BMI 138.9, which fails the BMI range |
| IntakeSchema.KeyInjective | components/pcos-form.tsx:30-47 | distinct fields have distinct JSON keys |
| IntakeSchema.BodyKeysAreKeys | components/pcos-form.tsx:30-47 | the sixteen documented keys are exactly the fields' keys |
| IntakeSchema.RequestBody | components/pcos-form.tsx:100 | the posted body maps each field's key to the field's number and has no other key |
| IntakeSchema.RequestBodyKeys | components/pcos-form.tsx:100 | the posted body has exactly the sixteen documented keys |
| PcosResult.ScoreString | components/pcos-result.tsx:21 | `score.toString()` of a numeric score has no percent sign, reads back with `parseFloat` as the score, and begins with `-` exactly for a negative score |
| PcosResult.NumericScore | components/pcos-result.tsx:21 | `numericScore` is never undefined, and for a numeric score it equals the score |
| PcosResult.PercentTextScore | components/pcos-result.tsx:21 | a score sent as text with a trailing `%` reads as the number before it |
| PcosResult.UnreadableTextScore | components/pcos-result.tsx:21 | empty text or a lone `%` reads as NaN |
| PcosResult.BandsPartition | components/pcos-result.tsx:22-27 | every score lies in exactly one band |
| PcosResult.GetRiskLevel | components/pcos-result.tsx:22-27 | the level name and colour are those of the score's band: Low below 30, Moderate from 30 up to 60, High from 60 or for NaN |
| PcosResult.GetProgressColor | components/pcos-result.tsx:32-36 | the progress colour is the band's colour |
| PcosResult.ResultIcon | components/pcos-result.tsx:49-55 | the icon and its colour are the band's; the icon is CheckCircle exactly when the score is below 30 |
| PcosResult.Explanation | components/pcos-result.tsx:72-76 | the explanation is the band's text |
| PcosResult.RiskLevelBoundaries | components/pcos-result.tsx:24-26 | 29.9 is Low, 30 is Moderate, 59.9 is Moderate, 60 is High, −5 is Low, 150 is High, NaN is High |
| PcosResult.View | components/pcos-result.tsx:49-76 | the view shows the score's text and passes `numericScore` unclamped to the progress bar; icon, heading, colours and explanation all follow the one band |
| PcosResult.ViewDependsOnlyOnValue | components/pcos-result.tsx:49-76 | two numeric scores with the same value produce the same view, the shown text included |
| PcosResult.ViewIsUnclamped | components/pcos-result.tsx:66 | the progress bar receives the score itself; above 100 shows "High Risk" and below 0 shows "Low Risk" |
| PcosForm.WithDerivedBmi | components/pcos-form.tsx:84-91 | the effect leaves BMI consistent with weight and height, changes no other field, and changes nothing when weight or height is falsy |
| PcosForm.IntakeForm.constructor | components/pcos-form.tsx:54-77 | the form starts from the default values, not submitting, results hidden, score 0 |
| PcosForm.IntakeForm.RecomputeBmi | components/pcos-form.tsx:84-91 | the effect sets the record to its BMI-derived version |
| PcosForm.IntakeForm.EnterNumber | components/pcos-form.tsx:154-157 | a number input stores its number, or 0 when cleared; a weight or height edit then re-derives BMI; the invariant is kept |
| PcosForm.IntakeForm.Answer | components/pcos-form.tsx:316-331 | Yes stores 1 and No stores 0 in that answer alone |
| PcosForm.IntakeForm.ChooseBloodGroup | components/pcos-form.tsx:215-218 | the selector stores `parseInt` of the chosen option's code |
| PcosForm.IntakeForm.SubmitEnabled | components/pcos-form.tsx:625 | the button is enabled exactly when no request is unanswered and no reset is pending, and then every request sent has been answered |
| PcosForm.IntakeForm.PressSubmit | components/pcos-form.tsx:93-104 | while submitting the press does nothing (button disabled, line 625); an invalid record is rejected with its failing fields and no change; otherwise the flag is raised and exactly one request carrying the record's body is sent |
| PcosForm.IntakeForm.ReceiveResponse | components/pcos-form.tsx:106-113 | success stores the score and shows the results; failure changes neither; either way the reset timer starts and the flag stays raised |
| PcosForm.IntakeForm.FireResetTimer | components/pcos-form.tsx:113-118 | the delayed reset lowers the flag, re-enabling submit, and changes nothing else |
| PcosForm.IntakeForm.CloseResults | components/pcos-result.tsx:82 | closing hides the results |
| PcosForm.IntakeForm.DisplayedResults | components/pcos-form.tsx:638 | the results dialog is shown exactly when `showResults` is set; it shows the stored score with the heading and explanation of that score's band |
| PcosForm.DoubleSubmit | components/pcos-form.tsx:625 | two presses while a valid record is unsent post once; the second finds the button disabled |
| PcosForm.RetryAfterFailure | components/pcos-form.tsx:109-118 | after a failed request and the reset, the same record can be posted again, and no results were shown for the failure |
| BmiCalculatorEffect.BmiCalculator.constructor | components/bmi_calculator.tsx:9 | `bmi` starts at 0 and nothing has been reported |
| BmiCalculatorEffect.BmiCalculator.Run | components/bmi_calculator.tsx:11-23 | with both inputs truthy, the rounded index is stored and the same value is reported once; otherwise `bmi` keeps its value and the callback is not called |

## Left out

- IEEE-754 arithmetic: numbers are reals. Infinity, overflow and double rounding are not
  modelled, and the BMI formula and its rounding are exact.
- The HTTP request to the prediction service, and the decoding of its JSON. A response
  is `Success(score)` or `Failure`. A response without a score field (where
  `undefined.toString()` would throw while rendering) is not modelled.
- Toast notifications and console logging: they have no state that the logic reads.
- Timing of the 1500 ms reset timer: its firing is a separate step, allowed once the
  response has been handled.
- The optional `onSubmit` prop called from the timer: it is a caller hook with no effect
  on this state.
- PcosForm.IntakeForm.PressSubmit: each press is atomic. The short window between a
  click and the re-render that disables the button, during which the asynchronous
  validation of a second click could still start, is not modelled.
- react-hook-form and zod internals beyond the per-field rules: resolver plumbing, `watch`
  subscriptions, error messages.
- IntakeSchema.StoredNumber: an input's non-empty text is represented by the number it
  denotes. `Number(text)` on arbitrary strings is not modelled.
- NumberText.ParseFloat: leading whitespace is not skipped, so " 45" reads as NaN and
  the view classifies it High, where `parseFloat` gives 45. An exponent is not read,
  so "4.5e1" reads as 4.5, and "Infinity" reads as NaN. A score the service sends as
  a JSON number never takes these forms, because its text is canonical.
- NumberText.ParseInt: leading whitespace and `0x` prefixes are not handled (" 12" reads
  as NaN, and "0x1A" as 0). The selector only ever passes the option codes "11".."18".
- NumberText.Render: the exponent notation that `Number::toString` uses at or above 1e21
  and below 1e-6 is not modelled.
- The effects' dependency lists. The form's BMI effect runs after every weight or
  height edit; since it depends only on those two fields, re-running it is harmless.
  Each call of `BmiCalculator.Run` is one run of the component's effect.
- JSX rendering, Tailwind class names (abstracted as the tones Green, Amber and Red),
  the dialog, card and button components, and `app/page.tsx`, which only mounts the
  form. The stand-alone BMI calculator is not mounted by the form; it is modelled on
  its own.
