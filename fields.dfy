/**
 * The kinds of field rule the three schemas are written with, each as the
 * Zod chain the schemas use, with contracts stating, for every input value,
 * when the rule accepts, what it returns and which codes it reports.
 */
module FieldRules {
  import opened Wrappers
  import opened Keys
  import opened JsValues
  import opened JsText
  import opened Zod
  import Phone
  import Coercion

  /** The option lists of the constant files, which are not part of this model. */
  datatype Options = Options(
    tiposDocumento: set<string>,
    sexos: set<string>,
    tiposSangre: set<string>,
    estadosCiviles: set<string>,
    vacunasCovid: set<string>)

  /**
   * What a validation depends on besides its input: the option lists, the
   * e-mail grammar of `z.email()`, and the latest accepted birth instant
   * (milliseconds since the epoch), fixed when the schema module is loaded.
   */
  datatype Env = Env(options: Options, isEmail: string -> bool, cutoff: int)

  // ---- what each rule accepts, in plain terms ----

  predicate HasLength(v: JsValue, lo: nat, hi: nat) {
    v.JsString? && lo <= |v.s| <= hi
  }

  predicate OptionalUpTo(v: JsValue, max: nat) {
    v == Undefined || (v.JsString? && |v.s| <= max)
  }

  predicate PhoneOrEmpty(v: JsValue) {
    v == Undefined || v == JsString("") || (v.JsString? && Phone.MatchesPhonePattern(v.s))
  }

  predicate IsStringIn(v: JsValue, options: set<string>) {
    v.JsString? && v.s in options
  }

  predicate IsEmailAddress(isEmail: string -> bool, v: JsValue) {
    v.JsString? && isEmail(v.s) && 1 <= |v.s| <= 100
  }

  predicate BornBy(v: JsValue, cutoff: int) {
    v.JsDate? && v.time <= cutoff
  }

  predicate IsChildCount(v: JsValue) {
    v.JsNumber? && IsInteger(v.n) && 1.0 <= v.n <= MaxSafeInteger as real
  }

  predicate IsDoseCount(v: JsValue) {
    Coercion.ToNumber(v).JsNumber? && Coercion.ToNumber(v).n > 0.0
  }

  /** The codes a length-bounded string rule reports for a string of length `n`. */
  function LengthCodes(n: nat, lo: nat, hi: nat): seq<Code> {
    (if n < lo then [TooSmall(lo)] else []) + (if n > hi then [TooBig(hi)] else [])
  }

  // ---- the rules ----

  /** `z.string().min(lo).max(hi)`: a string kept exactly as given. */
  function BoundedText(lo: nat, hi: nat, v: JsValue): (r: Checked<string>)
    ensures r.Success? <==> HasLength(v, lo, hi)
    ensures r.Success? ==> r.value == v.s
    ensures r.Failure? ==> r.error == if v.JsString? then LengthCodes(|v.s|, lo, hi) else [InvalidType]
  {
    RunChecksShort([MinLength(lo), MaxLength(hi)]);
    ZString([MinLength(lo), MaxLength(hi)], Keep, v)
  }

  /** `z.string().min(1).max(max).transform(val => val.trim().toUpperCase())`. */
  function RequiredText(max: nat, v: JsValue): (r: Checked<string>)
    ensures r.Success? <==> HasLength(v, 1, max)
    ensures r.Success? ==> r.value == Normalise(Upper, v.s)
    ensures r.Failure? ==> r.error == if v.JsString? then LengthCodes(|v.s|, 1, max) else [InvalidType]
  {
    RunChecksShort([MinLength(1), MaxLength(max)]);
    ZString([MinLength(1), MaxLength(max)], TrimThen(Upper), v)
  }

  /**
   * `z.string().max(max).transform(val => val.trim().toUpperCase()).optional().or(z.literal(""))`,
   * the rule of the second name and second surname.
   */
  function OptionalText(max: nat, v: JsValue): (r: Checked<Option<string>>)
    ensures r.Success? <==> OptionalUpTo(v, max)
    ensures r.Success? ==> r.value == if v == Undefined then None else Some(Normalise(Upper, v.s))
    ensures r.Failure? ==> r.error == [InvalidUnion]
  {
    RunChecksShort([MaxLength(max)]);
    Or(Optional(v, ZString([MaxLength(max)], TrimThen(Upper), v)), Literal("", v))
  }

  /**
   * `z.string().min(1).max(max).transform(...).optional().or(z.literal(""))`,
   * the rule of the correspondence address fields.
   */
  function OptionalMinText(max: nat, v: JsValue): (r: Checked<Option<string>>)
    ensures r.Success? <==> OptionalUpTo(v, max)
    ensures r.Success? ==> r.value == if v == Undefined then None else Some(Normalise(Upper, v.s))
    ensures r.Failure? ==> r.error == [InvalidUnion]
  {
    RunChecksShort([MinLength(1), MaxLength(max)]);
    var r := Or(Optional(v, ZString([MinLength(1), MaxLength(max)], TrimThen(Upper), v)), Literal("", v));
    assert v == JsString("") ==> Normalise(Upper, v.s) == "" by {
      if v == JsString("") {
        TrimEmpty(v.s);
        assert Trim(v.s) == [];
      }
    }
    r
  }

  /** `z.string().regex(/^(?:\+57)?(?:\d{7,10})$/).optional().or(z.literal(""))`: a landline number. */
  function OptionalPhone(v: JsValue): (r: Checked<Option<string>>)
    ensures r.Success? <==> PhoneOrEmpty(v)
    ensures r.Success? ==> r.value == if v == Undefined then None else Some(v.s)
    ensures r.Failure? ==> r.error == [InvalidUnion]
  {
    RunChecksShort([PhoneRegex]);
    Or(Optional(v, ZString([PhoneRegex], Keep, v)), Literal("", v))
  }

  /** `z.enum(options)`: one of the options, as given. */
  function Choice(options: set<string>, v: JsValue): (r: Checked<string>)
    ensures r.Success? <==> IsStringIn(v, options)
    ensures r.Success? ==> r.value == v.s
    ensures r.Failure? ==> r.error == [InvalidValue]
  {
    ZEnum(options, v)
  }

  /** `z.enum(options).transform(val => val.toUpperCase())`: one of the options, upper-cased. */
  function UpperChoice(options: set<string>, v: JsValue): (r: Checked<string>)
    ensures r.Success? <==> IsStringIn(v, options)
    ensures r.Success? ==> r.value == ToUpperCase(v.s)
    ensures r.Failure? ==> r.error == [InvalidValue]
  {
    match ZEnum(options, v)
    case Success(s) => Success(ToUpperCase(s))
    case Failure(codes) => Failure(codes)
  }

  /** `z.email().min(1).max(100).transform(val => val.trim().toLowerCase())`. */
  function EmailAddress(isEmail: string -> bool, v: JsValue): (r: Checked<string>)
    ensures r.Success? <==> IsEmailAddress(isEmail, v)
    ensures r.Success? ==> r.value == Normalise(Lower, v.s)
    ensures r.Failure? && v.JsString? ==>
              r.error == (if isEmail(v.s) then [] else [InvalidFormat]) + LengthCodes(|v.s|, 1, 100)
    ensures r.Failure? && !v.JsString? ==> r.error == [InvalidType]
  {
    RunChecksShort([EmailFormat(isEmail), MinLength(1), MaxLength(100)]);
    ZString([EmailFormat(isEmail), MinLength(1), MaxLength(100)], TrimThen(Lower), v)
  }

  /** `z.date().max(cutoff)`: a valid date no later than the cutoff. */
  function BirthDate(cutoff: int, v: JsValue): (r: Checked<int>)
    ensures r.Success? <==> BornBy(v, cutoff)
    ensures r.Success? ==> r.value == v.time
    ensures r.Failure? ==> r.error == if v.JsDate? then [TooBig(cutoff)] else [InvalidType]
  {
    ZDate(Some(cutoff), v)
  }

  /** `z.date()`: any valid date. */
  function AnyDate(v: JsValue): (r: Checked<int>)
    ensures r.Success? <==> v.JsDate?
    ensures r.Success? ==> r.value == v.time
    ensures r.Failure? ==> r.error == [InvalidType]
  {
    ZDate(None, v)
  }

  /** `z.number().int().nonnegative().min(1)`: a safe integer of at least one. */
  function ChildCount(v: JsValue): (r: Checked<real>)
    ensures r.Success? <==> IsChildCount(v)
    ensures r.Success? ==> r.value == v.n
    ensures r.Failure? && v.JsNumber? && IsInteger(v.n) && -MaxSafeInteger as real <= v.n < 0.0 ==>
              r.error == [TooSmall(0), TooSmall(1)]
    ensures r.Failure? && v.JsNumber? && v.n == 0.0 ==> r.error == [TooSmall(1)]
    ensures r.Failure? && !(v.JsNumber? && IsInteger(v.n)) ==> r.error == [InvalidType]
  {
    var checks := [SafeInteger, AtLeast(0), AtLeast(1)];
    assert checks[1..][1..][1..] == [];
    if v.JsNumber? then
      var t := checks[1..];
      assert RunNumberChecks(t[1..], v.n) == NumberCodes(AtLeast(1), v.n);
      assert RunNumberChecks(t, v.n) == NumberCodes(AtLeast(0), v.n) + NumberCodes(AtLeast(1), v.n);
      assert RunNumberChecks(checks, v.n) ==
        var c := NumberCodes(SafeInteger, v.n);
        if c == [InvalidType] then c else c + NumberCodes(AtLeast(0), v.n) + NumberCodes(AtLeast(1), v.n);
      ZNumber(checks, v)
    else
      ZNumber(checks, v)
  }

  /** `z.coerce.number().refine(val => !isNaN(Number(val)) && Number(val) > 0)`. */
  function DoseCount(v: JsValue): (r: Checked<real>)
    ensures r.Success? <==> IsDoseCount(v)
    ensures r.Success? ==> r.value == Coercion.ToNumber(v).n
    ensures r.Failure? ==> r.error == if Coercion.ToNumber(v).JsNumber? then [Custom] else [InvalidType]
  {
    RefinePositive(ZCoerceNumber(v))
  }

  // ---- what a rule's issues report ----

  lemma ChoiceAt(f: FieldName, options: set<string>, v: JsValue, g: FieldName)
    ensures Reports(At(f, Choice(options, v)), g) <==> g == f && !IsStringIn(v, options)
  {
    ReportsAt(f, Choice(options, v), g);
  }

  lemma BoundedTextAt(f: FieldName, lo: nat, hi: nat, v: JsValue, g: FieldName)
    ensures Reports(At(f, BoundedText(lo, hi, v)), g) <==> g == f && !HasLength(v, lo, hi)
  {
    ReportsAt(f, BoundedText(lo, hi, v), g);
  }

  lemma RequiredTextAt(f: FieldName, max: nat, v: JsValue, g: FieldName)
    ensures Reports(At(f, RequiredText(max, v)), g) <==> g == f && !HasLength(v, 1, max)
  {
    ReportsAt(f, RequiredText(max, v), g);
  }

  lemma OptionalTextAt(f: FieldName, max: nat, v: JsValue, g: FieldName)
    ensures Reports(At(f, OptionalText(max, v)), g) <==> g == f && !OptionalUpTo(v, max)
  {
    ReportsAt(f, OptionalText(max, v), g);
  }

  lemma OptionalMinTextAt(f: FieldName, max: nat, v: JsValue, g: FieldName)
    ensures Reports(At(f, OptionalMinText(max, v)), g) <==> g == f && !OptionalUpTo(v, max)
  {
    ReportsAt(f, OptionalMinText(max, v), g);
  }

  lemma OptionalPhoneAt(f: FieldName, v: JsValue, g: FieldName)
    ensures Reports(At(f, OptionalPhone(v)), g) <==> g == f && !PhoneOrEmpty(v)
  {
    ReportsAt(f, OptionalPhone(v), g);
  }

  lemma EmailAddressAt(f: FieldName, isEmail: string -> bool, v: JsValue, g: FieldName)
    ensures Reports(At(f, EmailAddress(isEmail, v)), g) <==> g == f && !IsEmailAddress(isEmail, v)
  {
    ReportsAt(f, EmailAddress(isEmail, v), g);
  }

  lemma BirthDateAt(f: FieldName, cutoff: int, v: JsValue, g: FieldName)
    ensures Reports(At(f, BirthDate(cutoff, v)), g) <==> g == f && !BornBy(v, cutoff)
  {
    ReportsAt(f, BirthDate(cutoff, v), g);
  }

  /** What an optional text rule returns for an accepted value. */
  function UpperOption(v: JsValue): Option<string> {
    if v.JsString? then Some(Normalise(Upper, v.s)) else None
  }

  /** What the landline rule returns for an accepted value. */
  function StringOption(v: JsValue): Option<string> {
    if v.JsString? then Some(v.s) else None
  }

  // ---- submitting an output again ----

  /** How an optional output is submitted again: an absent value as a missing property. */
  function OptionValue(o: Option<string>): JsValue {
    match o
    case None => Undefined
    case Some(x) => JsString(x)
  }

  /**
   * A required text's output, submitted again, is accepted exactly when the
   * original was not all white space, and then comes back unchanged.
   */
  lemma RequiredTextReparse(max: nat, v: JsValue)
    requires RequiredText(max, v).Success?
    ensures var again := RequiredText(max, JsString(RequiredText(max, v).value));
      (again.Success? <==> !AllWhiteSpace(v.s)) &&
      (again.Success? ==> again.value == RequiredText(max, v).value)
  {
    NormaliseShape(Upper, v.s);
    NormaliseIdempotent(Upper, v.s);
  }

  /** White space alone passes `min(1)` and is turned into the empty string. */
  lemma BlankRequiredText(max: nat, s: string)
    requires 1 <= |s| <= max && AllWhiteSpace(s)
    ensures RequiredText(max, JsString(s)) == Success("")
  {
    NormaliseShape(Upper, s);
  }

  /** The limit applies to the raw text: padding counts even when the trimmed text fits. */
  lemma PaddedTextRejected(max: nat, s: string)
    requires |s| > max && |Trim(s)| <= max
    ensures RequiredText(max, JsString(s)) == Failure([TooBig(max)])
  {
    assert LengthCodes(|s|, 1, max) == [TooBig(max)];
  }

  /** An optional text's output, submitted again, is accepted and comes back unchanged. */
  lemma OptionalTextReparse(max: nat, v: JsValue)
    requires OptionalText(max, v).Success?
    ensures OptionalText(max, OptionValue(OptionalText(max, v).value)) == OptionalText(max, v)
  {
    if v != Undefined {
      NormaliseShape(Upper, v.s);
      NormaliseIdempotent(Upper, v.s);
    }
  }

  /**
   * The correspondence rule accepts and returns what the second-name rule
   * does: the `z.literal("")` branch takes the empty string that `min(1)`
   * turns away, and the empty string trims to itself.
   */
  lemma CorrespondenceLikeSecondName(max: nat, v: JsValue)
    ensures OptionalMinText(max, v) == OptionalText(max, v)
  {
  }

  lemma OptionalPhoneReparse(v: JsValue)
    requires OptionalPhone(v).Success?
    ensures OptionalPhone(OptionValue(OptionalPhone(v).value)) == OptionalPhone(v)
  {
  }

  /**
   * An e-mail output, submitted again, is accepted exactly when the original
   * was not all white space, provided the grammar accepts the normalised
   * address; it then comes back unchanged.
   */
  lemma EmailReparse(isEmail: string -> bool, v: JsValue)
    requires EmailAddress(isEmail, v).Success?
    requires isEmail(Normalise(Lower, v.s))
    ensures var again := EmailAddress(isEmail, JsString(EmailAddress(isEmail, v).value));
      (again.Success? <==> !AllWhiteSpace(v.s)) &&
      (again.Success? ==> again.value == EmailAddress(isEmail, v).value)
  {
    NormaliseShape(Lower, v.s);
    NormaliseIdempotent(Lower, v.s);
  }

  /** A dose count is any number above zero: the coercion adds no integer check. */
  lemma DoseCountExamples()
    ensures DoseCount(JsString("2.5")) == Success(2.5)
    ensures DoseCount(JsString("")) == Failure([Custom])
    ensures DoseCount(JsString("abc")) == Failure([InvalidType])
    ensures DoseCount(Undefined) == Failure([InvalidType])
    ensures DoseCount(JsNumber(0.0)) == Failure([Custom])
  {
    Coercion.FractionKept();
    Coercion.BlankIsZero("");
    Coercion.WordIsNaN();
  }

  /** A dose count's output, submitted as a number, is accepted unchanged. */
  lemma DoseCountReparse(v: JsValue)
    requires DoseCount(v).Success?
    ensures DoseCount(JsNumber(DoseCount(v).value)) == DoseCount(v)
  {
  }
}
