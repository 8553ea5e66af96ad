# Applicant form validation, modelled in Dafny

This project models the validation core of a job-application web form (a
"hoja de vida", or CV). There are three Zod 4 schemas:

- `PostulanteSchema`, the applicant;
- `ConyugeSchema`, the applicant's spouse;
- `vacunasCovidSchema`, the Covid vaccination history.

A schema takes the record a form submits. It either accepts it, returning
normalised values (trimmed and upper-cased text, a lower-cased e-mail
address), or rejects it with a list of issues. Each issue has a path and
a code, the way `safeParse` reports them.

The model is pure, like the source. Each field rule is written as the Zod
chain the schema uses, on top of a small model of the Zod 4 fragment
involved:

- string checks that do not abort, then transforms;
- `optional().or(z.literal(""))`, enums and dates;
- `z.number()` checks, and `z.coerce.number()` with JavaScript's `Number()`;
- `z.object`, `z.array`, discriminated unions and `.and`.

An object is a run of **sections**. A section is a group of consecutive
properties, such as identity, birth, residence, contact or employer. Each
section has the following parts:

- `XObject` parses the section.
- `XRejects` says, for every property, when it breaks its rule.
- `XReports` proves that the section reports exactly the properties that
  `XRejects` names.
- `XSucceeds` proves that the section accepts exactly when it rejects
  nothing.
- `XNormalised` and `XNormalises` state what an accepted section returns.
- `XReparse` states what happens when that output is submitted again.

The schema-level lemmas are built from the section lemmas.

**Modules:**

- `Keys`: the property names.
- `JsValues`: JavaScript values and records.
- `JsText`: `trim()`, `toUpperCase()` and `toLowerCase()`.
- `Coercion`: `Number()`.
- `Phone`: the landline regular expression.
- `Zod`: the Zod fragment.
- `FieldRules`: one function per kind of field rule.
- `PersonData`: the sections that the applicant and spouse schemas share.
- `PostulanteSchema`, `ConyugeSchema` and `VacunaCovidSchema`: the three
  schemas.

**External inputs are parameters.** An `Env` value carries these:

- the option lists of the constant files, which are not part of this model;
- the e-mail grammar of `z.email()`;
- the 18-years birth-date bound, as a time value computed when the module
  loads.

**Behaviour of the code worth knowing:**

- Both schemas upper-case `direccion_residencia` (postulanteSchema.ts:76-80,
  conyugeSchema.ts:100-104), like every other free-text property.
- Validating an output again is not idempotent, because `min(1)` is
  checked on the raw text: a required text made only of white space
  passes, and its output is `""`.
  Submitting that output again fails. `ValidateIdempotent` therefore proves
  an if-and-only-if: a re-parse succeeds exactly when no required text was
  white space only, and then it gives the same value.
- The vaccine-name rule is not idempotent without a further condition. It
  upper-cases the chosen option, so a re-submitted entry is accepted only
  when the upper-cased name is itself an option (`EntryResubmitted`).
- A `vacunas` entry that is a Date passes `z.object`'s object test
  (vacunaCovidSchema.ts:8) with none of the shape's properties. It is
  therefore reported on each of its three properties, not as one
  `invalid_type` (`DateEntryIssues`).
- The applicant form's defaults give `personas_a_cargo` the number `1`
  (usePostulanteForm.ts:31), but the schema wants a string. As a result
  the untouched applicant form is rejected on that property too.

## Model

| member | source | states |
|---|---|---|
| JsText.TrimShape | src/schemas/postulanteSchema.ts:34 | `trim()` leaves no white space at either end, and the input is the output with only white space added before and after it |
| JsText.TrimEmpty | src/schemas/postulanteSchema.ts:34 | `trim()` gives "" exactly for strings made only of white space |
| JsText.TrimIdempotent | src/schemas/postulanteSchema.ts:34 | trimming twice is trimming once |
| JsText.TrimOfTrimmed | src/schemas/postulanteSchema.ts:34 | `trim()` leaves a string with no outer white space unchanged |
| JsText.TrimShortens | src/schemas/postulanteSchema.ts:34 | `trim()` never lengthens a string |
| JsText.PaddingUnique | src/schemas/postulanteSchema.ts:34 | a string is a trimmed string padded with white space in only one way |
| JsText.ConvertCaseAt | src/schemas/postulanteSchema.ts:34 | case conversion maps each character on its own, position by position |
| JsText.ConvertCaseIdempotent | src/schemas/postulanteSchema.ts:34 | upper-casing (or lower-casing) twice is doing it once |
| JsText.ConvertCaseKeepsWhiteSpace | src/schemas/postulanteSchema.ts:34 | case conversion keeps white space, so a string is blank, or trimmed, exactly when its conversion is |
| JsText.TrimConvertCommute | src/schemas/postulanteSchema.ts:34 | `trim()` and case conversion commute |
| JsText.NormaliseIdempotent | src/schemas/postulanteSchema.ts:34 | `val.trim().toUpperCase()` applied to its own output changes nothing |
| JsText.NormaliseShape | src/schemas/postulanteSchema.ts:34 | the normalised text has no outer white space and is never longer than the input; it is empty exactly when the input was blank |
| Coercion.ToNumber | src/schemas/vacunaCovidSchema.ts:13 | `Number(v)` is always a finite number, NaN or an infinity |
| Coercion.DecimalStringValue | src/schemas/vacunaCovidSchema.ts:13 | the digits `String(n)` prints denote `n` |
| Coercion.StringToNumberOfDigits | src/schemas/vacunaCovidSchema.ts:13 | `Number()` of a plain string of decimal digits, with no leading zero, is the value of those digits |
| Coercion.DecimalRoundTrip | src/schemas/vacunaCovidSchema.ts:13 | `Number()` of a natural number's decimal form is that number |
| Coercion.BlankIsZero | src/schemas/vacunaCovidSchema.ts:13 | `Number()` of "" or of white space is 0 |
| Coercion.WordIsNaN | src/schemas/vacunaCovidSchema.ts:13 | example: `Number("abc")` is NaN |
| Coercion.FractionKept | src/schemas/vacunaCovidSchema.ts:13 | example: `Number("2.5")` is 2.5, so a fraction is not rounded to an integer |
| Phone.PhoneAutomatonMatchesPattern | src/schemas/postulanteSchema.ts:145 | a character-by-character automaton accepts exactly the strings that the regular expression `^(?:\+57)?(?:\d{7,10})$` matches |
| Phone.PhoneShape | src/schemas/postulanteSchema.ts:145 | a matching landline has 7 to 13 characters and ends in a digit |
| Phone.PhoneExamples | src/schemas/postulanteSchema.ts:145 | examples: the spouse form's default landline matches; "+57" with ten digits matches; an eleventh digit, six digits, or "" do not |
| Zod.RunChecksSound | src/schemas/postulanteSchema.ts:30-34 | the checks of a string schema report no code exactly when every check passes |
| Zod.ReportsMeaning | src/schemas/postulanteSchema.ts:20-150 | an issue list reports a property exactly when some issue's path starts at it |
| Zod.ReportsAppend | src/schemas/postulanteSchema.ts:20-150 | the issues of consecutive properties report what either part reports |
| Zod.ReportsAt | src/schemas/postulanteSchema.ts:20-150 | a property's issues report that property, and only when its rule failed |
| Zod.ReportsAllAt | src/schemas/postulanteSchema.ts:20-150 | issues that all sit at one property report that property, and only if there is at least one |
| Zod.LocatesAt | src/schemas/vacunaCovidSchema.ts:8-21 | a property's issues sit at exactly the path of that property, and only when its rule failed |
| Zod.ZArrayAccepts | src/schemas/vacunaCovidSchema.ts:7-22 | `z.array` accepts exactly when every item is accepted |
| Zod.ZArrayOutput | src/schemas/vacunaCovidSchema.ts:7-22 | an accepted array's output has one value per item, in order, each the item's own output |
| Zod.ZArrayLocates | src/schemas/vacunaCovidSchema.ts:7-22 | an issue sits at `[i] + q` exactly when item `i` exists and its own issues include one at `q` |
| Zod.LocatesUnder | src/schemas/vacunaCovidSchema.ts:7-22 | nesting issues under a path segment moves every issue one level down |
| FieldRules.BoundedText | src/schemas/postulanteSchema.ts:25-29 | accepts exactly a string of `lo` to `hi` characters and returns it unchanged; otherwise `invalid_type`, or the failed length bounds |
| FieldRules.RequiredText | src/schemas/postulanteSchema.ts:30-34 | accepts exactly a string of 1 to `max` characters (counted before trimming) and returns it trimmed and upper-cased; otherwise `invalid_type`, or the failed bounds |
| FieldRules.OptionalText | src/schemas/postulanteSchema.ts:35-38 | accepts a missing value (as absent) or a string of at most `max` characters (trimmed and upper-cased) |
| FieldRules.OptionalMinText | src/schemas/postulanteSchema.ts:91-96 | accepts a missing value, "" (through the literal branch), or a string of 1 to `max` characters (normalised) |
| FieldRules.OptionalPhone | src/schemas/postulanteSchema.ts:144-149 | accepts a missing value, "", or a string matching the landline pattern, unchanged |
| FieldRules.Choice | src/schemas/postulanteSchema.ts:21-24 | accepts exactly a string among the options and returns it unchanged; otherwise one `invalid_value` |
| FieldRules.UpperChoice | src/schemas/vacunaCovidSchema.ts:9-12 | accepts exactly a string among the options and returns it upper-cased; otherwise one `invalid_value` |
| FieldRules.EmailAddress | src/schemas/postulanteSchema.ts:137-143 | accepts exactly a string the e-mail grammar accepts, of 1 to 100 characters, and returns it trimmed and lower-cased |
| FieldRules.BirthDate | src/schemas/postulanteSchema.ts:48-55 | accepts exactly a valid date no later than the 18-years bound; a later date gives `too_big` |
| FieldRules.AnyDate | src/schemas/vacunaCovidSchema.ts:18-20 | accepts exactly a valid date, with no bound |
| FieldRules.ChildCount | src/schemas/postulanteSchema.ts:14-16 | accepts exactly a safe integer of at least 1; gives the codes of `.nonnegative()` and `.min(1)` for 0 and for negative integers |
| FieldRules.DoseCount | src/schemas/vacunaCovidSchema.ts:13-17 | accepts exactly a value that `Number()` turns into a number above 0; NaN gives `invalid_type`, and 0 or less gives the `refine` issue |
| FieldRules.RequiredTextReparse | src/schemas/postulanteSchema.ts:30-34 | a required text's output, submitted again, is accepted exactly when the original was not blank, and then comes back unchanged |
| FieldRules.BlankRequiredText | src/schemas/postulanteSchema.ts:30-34 | white space alone passes `min(1)` and becomes "" |
| FieldRules.PaddedTextRejected | src/schemas/postulanteSchema.ts:30-34 | the length limit applies to the raw text, so padding counts even when the trimmed text would fit |
| FieldRules.OptionalTextReparse | src/schemas/postulanteSchema.ts:35-38 | an optional text's output, submitted again, is accepted unchanged |
| FieldRules.CorrespondenceLikeSecondName | src/schemas/postulanteSchema.ts:91-114 | the correspondence rule (`min(1)` plus the "" literal) accepts and returns exactly what the second-name rule does |
| FieldRules.OptionalPhoneReparse | src/schemas/postulanteSchema.ts:144-149 | a landline output, submitted again, is accepted unchanged |
| FieldRules.EmailReparse | src/schemas/postulanteSchema.ts:137-143 | an e-mail output, submitted again, is accepted exactly when the original was not blank, and then comes back unchanged (given that the e-mail grammar accepts the lower-cased, trimmed address) |
| FieldRules.DoseCountExamples | src/schemas/vacunaCovidSchema.ts:13-17 | examples: "2.5" is accepted as 2.5 (no integer check); "" and 0 fail the `refine`; "abc" and a missing value are not numbers |
| FieldRules.DoseCountReparse | src/schemas/vacunaCovidSchema.ts:13-17 | a dose count's output, submitted as a number, is accepted unchanged |
| PersonData.IdentityReports | src/schemas/postulanteSchema.ts:21-47 | the identity properties are reported exactly when they break their rules (document type, document number 6-10, names 1-50, optional second names up to 50) |
| PersonData.IdentitySucceeds | src/schemas/postulanteSchema.ts:21-47 | the identity section accepts exactly when it rejects no property |
| PersonData.IdentityNormalises | src/schemas/postulanteSchema.ts:21-47 | accepted names come back trimmed and upper-cased, and the document fields unchanged |
| PersonData.IdentityReparse | src/schemas/postulanteSchema.ts:21-47 | the identity output, submitted again, is accepted exactly when no required name was blank, and then comes back the same |
| PersonData.BirthReports | src/schemas/postulanteSchema.ts:48-70 | the birth properties are reported exactly when they break their rules (a date by the 18-years bound, place names 1-100) |
| PersonData.BirthSucceeds | src/schemas/postulanteSchema.ts:48-70 | the birth section accepts exactly when it rejects no property |
| PersonData.BirthNormalises | src/schemas/postulanteSchema.ts:48-70 | the birth date's time value is kept; place names come back normalised |
| PersonData.BirthReparse | src/schemas/postulanteSchema.ts:48-70 | the birth output, submitted again, is accepted exactly when no place name was blank, and then comes back the same |
| PersonData.ResidenceReports | src/schemas/postulanteSchema.ts:71-90 | the residence properties are reported exactly when they are not strings of 1 to 100 characters |
| PersonData.ResidenceSucceeds | src/schemas/postulanteSchema.ts:71-90 | the residence section accepts exactly when it rejects no property |
| PersonData.ResidenceNormalises | src/schemas/postulanteSchema.ts:71-90 | the residence texts, the address included, come back trimmed and upper-cased |
| PersonData.ResidenceReparse | src/schemas/postulanteSchema.ts:71-90 | the residence output, submitted again, is accepted exactly when no text was blank, and then comes back the same |
| PersonData.ContactReports | src/schemas/postulanteSchema.ts:132-149 | the contact properties are reported exactly when they break their rules (a mobile of exactly 10 characters, an e-mail address, an optional landline) |
| PersonData.ContactSucceeds | src/schemas/postulanteSchema.ts:132-149 | the contact section accepts exactly when it rejects no property |
| PersonData.ContactNormalises | src/schemas/postulanteSchema.ts:132-149 | the mobile and landline come back unchanged; the e-mail comes back trimmed and lower-cased |
| PersonData.ContactReparse | src/schemas/postulanteSchema.ts:132-149 | the contact output, submitted again, is accepted exactly when the e-mail was not blank (given that the grammar accepts the normalised address), and then comes back the same |
| PostulanteSchema.CorrespondenceReports | src/schemas/postulanteSchema.ts:91-114 | a correspondence property is reported exactly when it is present, not "", and not a string of 1 to 100 characters |
| PostulanteSchema.CorrespondenceSucceeds | src/schemas/postulanteSchema.ts:91-114 | the correspondence section accepts exactly when it rejects no property |
| PostulanteSchema.CorrespondenceNormalises | src/schemas/postulanteSchema.ts:91-114 | a missing value comes back absent; a present value comes back normalised |
| PostulanteSchema.CorrespondenceReparse | src/schemas/postulanteSchema.ts:91-114 | the correspondence output, submitted again, is accepted and comes back the same |
| PostulanteSchema.PersonalReports | src/schemas/postulanteSchema.ts:115-131 | sex, blood type and marital status are reported when they are not options; `personas_a_cargo` when it is not a string of 1 to 10 characters |
| PostulanteSchema.PersonalSucceeds | src/schemas/postulanteSchema.ts:115-131 | the personal section accepts exactly when it rejects no property |
| PostulanteSchema.PersonalNormalises | src/schemas/postulanteSchema.ts:115-131 | the personal values come back unchanged |
| PostulanteSchema.PersonalReparse | src/schemas/postulanteSchema.ts:115-131 | the personal output, submitted again, is accepted and comes back the same |
| PostulanteSchema.TieneHijosUnion | src/schemas/postulanteSchema.ts:8-18 | accepts exactly `tiene_hijos` false, or true with a child count; gives no children or the count; a tag that is not a boolean is one `invalid_union` issue at `tiene_hijos` |
| PostulanteSchema.HijosReports | src/schemas/postulanteSchema.ts:8-18 | the union reports `tiene_hijos` for a tag that is not a boolean, and `numero_hijos` for a bad count under `true`, and nothing else |
| PostulanteSchema.ValidateReports | src/schemas/postulanteSchema.ts:20-150 | the applicant schema reports exactly the properties that break their rules, in the object or in the union |
| PostulanteSchema.ValidateSucceeds | src/schemas/postulanteSchema.ts:150 | the intersection accepts exactly when every section of the object and the union accept |
| PostulanteSchema.ValidateAccepts | src/schemas/postulanteSchema.ts:20-150 | a record is accepted exactly when every property meets its rule |
| PostulanteSchema.ValidateNormalises | src/schemas/postulanteSchema.ts:20-150 | an accepted applicant holds each section's normalised values, and the children part the tag selects |
| PostulanteSchema.ValidateIdempotent | src/schemas/postulanteSchema.ts:20-150 | an accepted applicant's output, submitted again, is accepted exactly when no required text was blank, and then gives the same applicant |
| PostulanteSchema.DefaultBreachesListed | src/hooks/usePostulanteForm.ts:9-36 | the set of properties the untouched form breaks is exactly the eighteen listed |
| PostulanteSchema.DefaultFormRejected | src/hooks/usePostulanteForm.ts:9-36 | the untouched applicant form is rejected on exactly those eighteen properties: empty texts and choices, a birth date of today, and a numeric `personas_a_cargo` (given that the bound is before today and that "" is no option) |
| ConyugeSchema.ReferenceReports | src/schemas/conyugeSchema.ts:133-137 | `numero_documento_postulante` is reported exactly when it is not a string of 6 to 10 characters |
| ConyugeSchema.ReferenceSucceeds | src/schemas/conyugeSchema.ts:133-137 | the reference section accepts exactly when it rejects nothing |
| ConyugeSchema.ReferenceNormalises | src/schemas/conyugeSchema.ts:133-137 | the applicant's document number comes back unchanged |
| ConyugeSchema.ReferenceReparse | src/schemas/conyugeSchema.ts:133-137 | the reference output, submitted again, is accepted and comes back the same |
| ConyugeSchema.EmployerReports | src/schemas/conyugeSchema.ts:7-37 | the employer properties are reported exactly when they break their rules (texts of 1 to 100 characters, an optional landline) |
| ConyugeSchema.EmployerSucceeds | src/schemas/conyugeSchema.ts:7-37 | the employer section accepts exactly when it rejects no property |
| ConyugeSchema.EmployerNormalises | src/schemas/conyugeSchema.ts:7-37 | the employer texts come back normalised, and the landline unchanged |
| ConyugeSchema.EmployerReparse | src/schemas/conyugeSchema.ts:7-37 | the employer output, submitted again, is accepted exactly when no text was blank, and then comes back the same |
| ConyugeSchema.TieneTrabajoUnion | src/schemas/conyugeSchema.ts:4-42 | accepts exactly `tiene_trabajo` false, or true with an accepted employer; a tag that is not a boolean is one `invalid_union` issue at `tiene_trabajo` |
| ConyugeSchema.TrabajoReports | src/schemas/conyugeSchema.ts:4-42 | the union reports `tiene_trabajo` for a tag that is not a boolean, and under `true` exactly the employer properties that break their rules |
| ConyugeSchema.TrabajoSucceeds | src/schemas/conyugeSchema.ts:4-42 | the union accepts exactly when it rejects no property |
| ConyugeSchema.ValidateReports | src/schemas/conyugeSchema.ts:44-138 | the spouse schema reports exactly the properties that break their rules, in the object or in the union |
| ConyugeSchema.ValidateSucceeds | src/schemas/conyugeSchema.ts:138 | the intersection accepts exactly when every section and the union accept |
| ConyugeSchema.ValidateAccepts | src/schemas/conyugeSchema.ts:44-138 | a record is accepted exactly when every property meets its rule |
| ConyugeSchema.ValidateNormalises | src/schemas/conyugeSchema.ts:44-138 | an accepted spouse holds each section's normalised values, and an employer exactly when `tiene_trabajo` is true |
| ConyugeSchema.ValidateIdempotent | src/schemas/conyugeSchema.ts:44-138 | an accepted spouse's output, submitted again, is accepted exactly when no required text was blank, and then gives the same spouse |
| ConyugeSchema.DefaultReference | src/hooks/useConyugeForm.ts:9-29 | the form's empty `numero_documento_postulante` breaks its rule, and is the only property of the reference section that does |
| ConyugeSchema.DefaultFormRejected | src/hooks/useConyugeForm.ts:9-29 | the untouched spouse form is rejected on `numero_documento_postulante` alone (given that "CC" is a document-type option, that its birth date is by the 18-years bound, and that the e-mail grammar accepts its address) |
| VacunaCovidSchema.EntryAccepts | src/schemas/vacunaCovidSchema.ts:8-21 | an entry is accepted exactly when it passes the object test (an object or a Date) and its name, dose count and date meet their rules; it then holds the upper-cased name, the coerced count and the date |
| VacunaCovidSchema.EntryLocates | src/schemas/vacunaCovidSchema.ts:8-21 | an entry has an issue at property `g` exactly when it passes the object test and its `g` breaks its rule |
| VacunaCovidSchema.DateEntryIssues | src/schemas/vacunaCovidSchema.ts:8-21 | a Date entry, valid or not, gives exactly three issues: `invalid_value` at the name, and `invalid_type` at the dose count and at the date; so it breaks exactly those three properties |
| VacunaCovidSchema.ItemsAccepts | src/schemas/vacunaCovidSchema.ts:7-22 | entries are validated independently: the list is accepted exactly when every entry is |
| VacunaCovidSchema.ItemsLocate | src/schemas/vacunaCovidSchema.ts:7-22 | an issue at `[i].g` appears exactly when entry `i` exists and its `g` breaks its rule |
| VacunaCovidSchema.ValidateAccepts | src/schemas/vacunaCovidSchema.ts:4-27 | `false` alone is accepted as no vaccines; `true` needs an array whose every entry is accepted; any other tag is one `invalid_union` issue at `tiene_vacunas` |
| VacunaCovidSchema.ValidateNormalises | src/schemas/vacunaCovidSchema.ts:7-22 | an accepted list keeps its length and order, each entry being that entry's own output |
| VacunaCovidSchema.EmptyListAccepted | src/schemas/vacunaCovidSchema.ts:7-22 | the array has no length bound: `true` with an empty list is accepted |
| VacunaCovidSchema.ValidateReports | src/schemas/vacunaCovidSchema.ts:4-27 | reports `tiene_vacunas` exactly for a tag that is not a boolean, and `vacunas` exactly when the tag is true and the array or one of its entries fails |
| VacunaCovidSchema.ValidateLocates | src/schemas/vacunaCovidSchema.ts:4-27 | an issue at `vacunas[i].g` appears exactly when the tag is true, entry `i` exists and its `g` breaks its rule |
| VacunaCovidSchema.EntryResubmitted | src/schemas/vacunaCovidSchema.ts:9-12 | an accepted entry, submitted again, is accepted exactly when its upper-cased name is itself an option, and then comes back unchanged |

## Left out

- Error messages: only the issue codes and paths are modelled.
- FieldRules.BoundedText, FieldRules.RequiredText, FieldRules.EmailAddress: a value that is not a string gives `invalid_type` alone. The length checks that Zod may also run on a non-string with a `length` (an array, say) are not modelled. No form sends such a value to a text field.
- Zod issue details beyond code and path. The issues nested inside an `invalid_union` and the limits carried by `too_small` / `too_big` are not modelled, apart from the bound itself.
- Newer Zod 4 releases may surface the single non-aborted branch's issue in place of `invalid_union`. The model keeps `invalid_union` at the same path.
- String length counts Unicode code points (`seq<char>`). JavaScript counts UTF-16 code units, so characters outside the Basic Multilingual Plane count once here and twice in JavaScript.
- Case mapping covers ASCII and Latin-1, plus `ÿ` and `µ`. `ß`, which JavaScript upper-cases to "SS", and all characters above U+00FF are left unchanged. So this mapping keeps the length, and JavaScript's does not. For example, 26 × "ß" passes `max(50)`, but its upper-cased output has 52 characters and fails on re-submission. The lemmas below rely on the length being kept. They hold for JavaScript only on text whose characters are at most U+00FF and are not `ß`.
- JsText.NormaliseShape: `|Normalise(s)| <= |s|` holds for JavaScript only on text of characters up to U+00FF other than `ß`.
- JsText.NormaliseIdempotent: it is stated of this model's case mapping, not of JavaScript's full Unicode mapping.
- FieldRules.RequiredTextReparse: it holds for JavaScript only on text of characters up to U+00FF other than `ß`.
- FieldRules.OptionalTextReparse: it holds for JavaScript only on text of characters up to U+00FF other than `ß`.
- FieldRules.EmailReparse: it holds for JavaScript only on addresses of characters up to U+00FF, where lower-casing keeps the length.
- PersonData.IdentityReparse: the names are limited to characters up to U+00FF other than `ß`, as above.
- PersonData.BirthReparse: the place names are limited to characters up to U+00FF other than `ß`, as above.
- PersonData.ResidenceReparse: the residence texts are limited to characters up to U+00FF other than `ß`, as above.
- PersonData.ContactReparse: the e-mail address is limited to characters up to U+00FF, as above.
- PostulanteSchema.CorrespondenceReparse: the texts are limited to characters up to U+00FF other than `ß`, as above.
- ConyugeSchema.EmployerReparse: the texts are limited to characters up to U+00FF other than `ß`, as above.
- `Number()` reads arrays and other objects as NaN. JavaScript reads them through their string form, so for example `Number([5])` is 5.
- Numbers are exact reals, and nothing is rounded to the nearest double.
- The 18-years bound (`new Date(year - 18, month, day)`, local time, with Feb 29 rolling over to Mar 1) is a parameter computed when the module loads. The calendar arithmetic is not modelled.
- The option lists (`tipoDocumento`, `sexo`, `tipoSangre`, `estadoCivil`, `vacunasCovid`) are parameters, because the constant files are not part of this model.
- The e-mail grammar of `z.email()` is a parameter.
- React components, pages, `react-hook-form` configuration, select-option rendering and form submission are not modelled. The `onSubmit` handlers only log or set flags. The hooks' default values are used only as fixtures.
- A top-level record that is not an object is not modelled: the record is always a map from the schemas' property names to values.
- Properties other than the schemas' own are not modelled, because `z.object` strips them.
- The object output of `.and` is modelled as a pair of the two sides' outputs. The two sides share no key, so merging them never fails.
- PostulanteSchema.ValidateIdempotent: this is an if-and-only-if on blank required texts, not plain idempotence, because the code checks `min(1)` before trimming. For JavaScript it also needs text of characters up to U+00FF other than `ß`.
- ConyugeSchema.ValidateIdempotent: as above, an if-and-only-if on blank required texts. It also needs text of characters up to U+00FF other than `ß`.
- VacunaCovidSchema.EntryResubmitted: re-parsing holds only when the upper-cased vaccine name is itself an option. The output name is this model's upper-casing, which is JavaScript's for names of characters up to U+00FF other than `ß`.
- ConyugeSchema.DefaultFormRejected: it assumes that "CC" is a document-type option, that 1999-02-07 is by the 18-years bound, and that the grammar accepts the example address. These are all parameters here.
