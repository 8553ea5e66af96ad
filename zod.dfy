/**
 * The fragment of Zod 4 the schemas are built from, as functions from a
 * JavaScript value to either the parsed value or the issues found.
 *
 * A field schema (a string, enum, date or number schema with its checks)
 * reports the codes of its failed checks; `z.object` attaches the property
 * name to them, giving issues with a path, as `safeParse` reports them.
 * Checks do not stop at the first failure (Zod's checks do not abort by
 * default), so one field can report several codes; a transform runs only
 * when every check has passed.
 */
module Zod {
  import opened Wrappers
  import opened Keys
  import opened JsValues
  import opened JsText
  import Phone
  import Coercion

  /** The issue codes of the checks used by the three schemas. */
  datatype Code =
    | InvalidType               // wrong JavaScript type or missing value, NaN, an invalid date, a non-integer
    | TooSmall(minimum: int)    // shorter than `min`, below `min` / `nonnegative`, an unsafe negative integer
    | TooBig(maximum: int)      // longer than `max`, a date after `max`, an unsafe positive integer
    | InvalidFormat             // the phone pattern or the e-mail grammar does not match
    | InvalidValue              // not one of an enum's values, not the literal
    | InvalidUnion              // no branch of a union accepted, or no discriminator value matched
    | Custom                    // a `refine` predicate returned false

  /** The codes a failing field schema reports: never none. */
  type Codes = c: seq<Code> | c != [] witness [InvalidType]

  /** What a field schema yields: its value, or the codes of its failed checks. */
  type Checked<T> = Result<T, Codes>

  datatype PathSeg = Field(name: FieldName) | Index(i: nat)
  type Path = seq<PathSeg>
  datatype Issue = Issue(path: Path, code: Code)
  type Issues = seq<Issue>

  /** The issues a failing object schema reports: never none. */
  type Rejection = i: Issues | i != [] witness [Issue([], InvalidType)]

  /** What an object schema yields: its value, or the issues with their paths. */
  type Parsed<T> = Result<T, Rejection>

  // ---- strings ----

  datatype StringCheck =
    | MinLength(n: nat)                      // .min(n)
    | MaxLength(n: nat)                      // .max(n)
    | PhoneRegex                             // .regex(/^(?:\+57)?(?:\d{7,10})$/)
    | EmailFormat(isEmail: string -> bool)   // z.email(): the grammar is a parameter

  predicate Passes(c: StringCheck, s: string) {
    match c
    case MinLength(n) => |s| >= n
    case MaxLength(n) => |s| <= n
    case PhoneRegex => Phone.MatchesPhonePattern(s)
    case EmailFormat(isEmail) => isEmail(s)
  }

  function CodeOf(c: StringCheck): Code {
    match c
    case MinLength(n) => TooSmall(n)
    case MaxLength(n) => TooBig(n)
    case PhoneRegex => InvalidFormat
    case EmailFormat(_) => InvalidFormat
  }

  /** The code one check reports: none when it passes. */
  function CheckCodes(c: StringCheck, s: string): seq<Code> {
    if Passes(c, s) then [] else [CodeOf(c)]
  }

  /** The codes of the failed checks, in the order the checks were declared. */
  function RunChecks(checks: seq<StringCheck>, s: string): seq<Code> {
    if checks == [] then [] else CheckCodes(checks[0], s) + RunChecks(checks[1..], s)
  }

  /** The check lists of the schemas have one, two or three checks. */
  lemma RunChecksShort(checks: seq<StringCheck>)
    requires 1 <= |checks| <= 3
    ensures |checks| == 1 ==> forall s :: RunChecks(checks, s) == CheckCodes(checks[0], s)
    ensures |checks| == 2 ==> forall s ::
      RunChecks(checks, s) == CheckCodes(checks[0], s) + CheckCodes(checks[1], s)
    ensures |checks| == 3 ==> forall s ::
      RunChecks(checks, s) == CheckCodes(checks[0], s) + CheckCodes(checks[1], s) + CheckCodes(checks[2], s)
  {
    var t := checks[1..];
    if |checks| >= 2 {
      assert t[1..] == checks[2..];
    }
    if |checks| == 3 {
      assert checks[2..][1..] == [];
    }
  }

  /** A check list reports nothing exactly when every check passes, and reports every failure. */
  lemma {:induction false} RunChecksSound(checks: seq<StringCheck>, s: string)
    ensures RunChecks(checks, s) == [] <==> forall k :: 0 <= k < |checks| ==> Passes(checks[k], s)
    ensures forall k :: 0 <= k < |checks| && !Passes(checks[k], s) ==> CodeOf(checks[k]) in RunChecks(checks, s)
  {
    if checks != [] {
      RunChecksSound(checks[1..], s);
      assert forall k :: 1 <= k < |checks| ==> checks[k] == checks[1..][k - 1];
    }
  }

  /** `.transform(...)` on a string: none, `trim()` then a case conversion, or a case conversion only. */
  datatype Transform = Keep | TrimThen(k: Case) | ConvertOnly(k: Case)

  function Apply(t: Transform, s: string): string {
    match t
    case Keep => s
    case TrimThen(k) => Normalise(k, s)
    case ConvertOnly(k) => ConvertCase(k, s)
  }

  /** `z.string()` (or `z.email()`) with its checks, then its transform. */
  function ZString(checks: seq<StringCheck>, t: Transform, v: JsValue): Checked<string> {
    if !v.JsString? then Failure([InvalidType])
    else
      var codes := RunChecks(checks, v.s);
      if codes == [] then Success(Apply(t, v.s)) else Failure(codes)
  }

  // ---- optional, literal, union ----

  /** `schema.optional()`: `undefined` (or a missing property) is accepted as absent. */
  function Optional<T>(v: JsValue, inner: Checked<T>): Checked<Option<T>> {
    if v == Undefined then Success(None)
    else match inner
      case Success(x) => Success(Some(x))
      case Failure(codes) => Failure(codes)
  }

  /** `z.literal(lit)`, typed as a branch of an optional string. */
  function Literal(lit: string, v: JsValue): Checked<Option<string>> {
    if v == JsString(lit) then Success(Some(lit)) else Failure([InvalidValue])
  }

  /** `a.or(b)`: the first branch that accepts; one `invalid_union` issue when both reject. */
  function Or<T>(a: Checked<T>, b: Checked<T>): Checked<T> {
    if a.Success? then a else if b.Success? then b else Failure([InvalidUnion])
  }

  // ---- enums and dates ----

  /** `z.enum(options)`: the value must be one of the options and is returned as it is. */
  function ZEnum(options: set<string>, v: JsValue): Checked<string> {
    if v.JsString? && v.s in options then Success(v.s) else Failure([InvalidValue])
  }

  /** `z.date()`, with `.max(bound)` when `bound` is given: a valid Date, compared by time value. */
  function ZDate(bound: Option<int>, v: JsValue): Checked<int> {
    if !v.JsDate? then Failure([InvalidType])
    else if bound.Some? && v.time > bound.value then Failure([TooBig(bound.value)])
    else Success(v.time)
  }

  // ---- numbers ----

  /** `Number.MAX_SAFE_INTEGER`, the bound of Zod 4's `.int()`. */
  const MaxSafeInteger: int := 9007199254740991

  predicate IsInteger(n: real) {
    n.Floor as real == n
  }

  datatype NumberCheck =
    | SafeInteger         // .int()
    | AtLeast(bound: int) // .nonnegative() is AtLeast(0), .min(k) is AtLeast(k)

  function NumberCodes(c: NumberCheck, n: real): seq<Code> {
    match c
    case SafeInteger =>
      if !IsInteger(n) then [InvalidType]
      else if n > MaxSafeInteger as real then [TooBig(MaxSafeInteger)]
      else if n < -MaxSafeInteger as real then [TooSmall(-MaxSafeInteger)]
      else []
    case AtLeast(b) => if n >= b as real then [] else [TooSmall(b)]
  }

  /**
   * The codes of the failed number checks. A non-integer aborts the chain:
   * the checks after `.int()` are not run on it.
   */
  function RunNumberChecks(checks: seq<NumberCheck>, n: real): seq<Code> {
    if checks == [] then []
    else
      var codes := NumberCodes(checks[0], n);
      if codes == [InvalidType] then codes else codes + RunNumberChecks(checks[1..], n)
  }

  /** `z.number()` with its checks: NaN and the infinities are not numbers to Zod 4. */
  function ZNumber(checks: seq<NumberCheck>, v: JsValue): Checked<real> {
    if !v.JsNumber? then Failure([InvalidType])
    else
      var codes := RunNumberChecks(checks, v.n);
      if codes == [] then Success(v.n) else Failure(codes)
  }

  /** `z.coerce.number()`: `Number(v)` first, then the number schema. */
  function ZCoerceNumber(v: JsValue): Checked<real> {
    ZNumber([], Coercion.ToNumber(v))
  }

  /** `.refine(val => !isNaN(Number(val)) && Number(val) > 0)` on a parsed number. */
  function RefinePositive(p: Checked<real>): Checked<real> {
    if p.Success? && !(p.value > 0.0) then Failure([Custom]) else p
  }

  // ---- objects ----

  /**
   * The properties `z.object` reads from `v`, or `None` when `v` fails its
   * object test (`typeof v === "object"`, not `null`, not an array). A Date,
   * valid or not, passes that test and has none of the shape's properties.
   */
  function ObjectProps(v: JsValue): Option<Record> {
    match v
    case JsObject(props) => Some(props)
    case JsDate(_) => Some(map[])
    case JsInvalidDate => Some(map[])
    case _ => None
  }

  /** The issues of property `f` of an object: its codes, located at `f`. */
  function At<T>(f: FieldName, c: Checked<T>): (r: Issues)
    ensures r == [] <==> c.Success?
  {
    if c.Success? then [] else seq(|c.error|, k requires 0 <= k < |c.error| => Issue([Field(f)], c.error[k]))
  }

  /** The issues of a nested schema, each placed under `seg`. */
  function Under(seg: PathSeg, issues: Issues): (r: Issues)
    ensures |r| == |issues|
  {
    seq(|issues|, k requires 0 <= k < |issues| => Issue([seg] + issues[k].path, issues[k].code))
  }

  /** The issues of a parse result: none when it succeeded. */
  function Errors<T>(p: Parsed<T>): (r: Issues)
    ensures r == [] <==> p.Success?
  {
    if p.Success? then [] else p.error
  }

  /** Whether an issue's path starts at property `f`. */
  predicate Names(i: Issue, f: FieldName) {
    i.path != [] && i.path[0] == Field(f)
  }

  /** Whether an issue list reports property `f`. */
  predicate Reports(issues: Issues, f: FieldName) {
    issues != [] && (Names(issues[0], f) || Reports(issues[1..], f))
  }

  /** A property is reported exactly when some issue's path starts at it. */
  lemma {:induction false} ReportsMeaning(issues: Issues, f: FieldName)
    ensures Reports(issues, f) <==> exists k :: 0 <= k < |issues| && Names(issues[k], f)
  {
    if issues != [] {
      ReportsMeaning(issues[1..], f);
      assert forall k :: 1 <= k < |issues| ==> issues[k] == issues[1..][k - 1];
    }
  }

  /** A concatenation reports what either part reports. */
  lemma {:induction false} ReportsAppend(a: Issues, b: Issues, f: FieldName)
    ensures Reports(a + b, f) <==> Reports(a, f) || Reports(b, f)
  {
    if a == [] {
      assert a + b == b;
    } else {
      assert (a + b)[1..] == a[1..] + b;
      ReportsAppend(a[1..], b, f);
    }
  }

  /** Issues all located at `f` report `f` alone, when there is any. */
  lemma {:induction false} ReportsAllAt(f: FieldName, issues: Issues, g: FieldName)
    requires forall k :: 0 <= k < |issues| ==> issues[k].path == [Field(f)]
    ensures Reports(issues, g) <==> issues != [] && g == f
  {
    if issues != [] {
      ReportsAllAt(f, issues[1..], g);
    }
  }

  /** A property's issues report that property, and only when its schema failed. */
  lemma ReportsAt<T>(f: FieldName, c: Checked<T>, g: FieldName)
    ensures Reports(At(f, c), g) <==> c.Failure? && g == f
  {
    ReportsAllAt(f, At(f, c), g);
  }

  /** A concatenation of several issue lists reports what one of the lists reports. */
  lemma ReportsConcat3(i1: Issues, i2: Issues, i3: Issues, f: FieldName)
    ensures Reports(i1 + i2 + i3, f) <==> Reports(i1, f) || Reports(i2, f) || Reports(i3, f)
  {
    ReportsAppend(i1, i2, f);
    ReportsAppend(i1 + i2, i3, f);
  }

  lemma ReportsConcat4(i1: Issues, i2: Issues, i3: Issues, i4: Issues, f: FieldName)
    ensures Reports(i1 + i2 + i3 + i4, f) <==> Reports(i1, f) || Reports(i2, f) || Reports(i3, f) || Reports(i4, f)
  {
    ReportsConcat3(i1, i2, i3, f);
    ReportsAppend(i1 + i2 + i3, i4, f);
  }

  lemma ReportsConcat5(i1: Issues, i2: Issues, i3: Issues, i4: Issues, i5: Issues, f: FieldName)
    ensures Reports(i1 + i2 + i3 + i4 + i5, f) <==> Reports(i1, f) || Reports(i2, f) || Reports(i3, f) || Reports(i4, f) || Reports(i5, f)
  {
    ReportsConcat4(i1, i2, i3, i4, f);
    ReportsAppend(i1 + i2 + i3 + i4, i5, f);
  }

  lemma ReportsConcat6(i1: Issues, i2: Issues, i3: Issues, i4: Issues, i5: Issues, i6: Issues, f: FieldName)
    ensures Reports(i1 + i2 + i3 + i4 + i5 + i6, f) <==> Reports(i1, f) || Reports(i2, f) || Reports(i3, f) || Reports(i4, f) || Reports(i5, f) || Reports(i6, f)
  {
    ReportsConcat5(i1, i2, i3, i4, i5, f);
    ReportsAppend(i1 + i2 + i3 + i4 + i5, i6, f);
  }

  lemma ReportsConcat7(i1: Issues, i2: Issues, i3: Issues, i4: Issues, i5: Issues, i6: Issues, i7: Issues, f: FieldName)
    ensures Reports(i1 + i2 + i3 + i4 + i5 + i6 + i7, f) <==> Reports(i1, f) || Reports(i2, f) || Reports(i3, f) || Reports(i4, f) || Reports(i5, f) || Reports(i6, f) || Reports(i7, f)
  {
    ReportsConcat6(i1, i2, i3, i4, i5, i6, f);
    ReportsAppend(i1 + i2 + i3 + i4 + i5 + i6, i7, f);
  }

  // ---- where an issue is ----

  /** Whether some issue sits exactly at path `p`. */
  predicate Locates(issues: Issues, p: Path) {
    exists k :: 0 <= k < |issues| && issues[k].path == p
  }

  lemma LocatesAppend(a: Issues, b: Issues, p: Path)
    ensures Locates(a + b, p) <==> Locates(a, p) || Locates(b, p)
  {
    if Locates(a + b, p) {
      var k :| 0 <= k < |a + b| && (a + b)[k].path == p;
      if k < |a| {
        assert a[k] == (a + b)[k];
      } else {
        assert b[k - |a|] == (a + b)[k];
      }
    }
    if Locates(a, p) {
      var k :| 0 <= k < |a| && a[k].path == p;
      assert (a + b)[k] == a[k];
    }
    if Locates(b, p) {
      var k :| 0 <= k < |b| && b[k].path == p;
      assert (a + b)[|a| + k] == b[k];
    }
  }

  /** Nesting under `seg` moves every issue one level down. */
  lemma LocatesUnder(seg: PathSeg, issues: Issues, p: Path)
    ensures Locates(Under(seg, issues), p) <==> p != [] && p[0] == seg && Locates(issues, p[1..])
  {
    var u := Under(seg, issues);
    if Locates(u, p) {
      var k :| 0 <= k < |u| && u[k].path == p;
      assert p == [seg] + issues[k].path;
      assert p[1..] == issues[k].path;
    }
    if p != [] && p[0] == seg && Locates(issues, p[1..]) {
      var k :| 0 <= k < |issues| && issues[k].path == p[1..];
      assert u[k].path == [seg] + p[1..] == p;
    }
  }

  /** A property's issues sit at that property, and only when its schema failed. */
  lemma LocatesAt<T>(f: FieldName, c: Checked<T>, p: Path)
    ensures Locates(At(f, c), p) <==> c.Failure? && p == [Field(f)]
  {
    if c.Failure? {
      assert At(f, c)[0].path == [Field(f)];
    }
  }

  // ---- arrays ----

  /**
   * `z.array(element)`, given the element schema's result for each item:
   * each item's issues, placed under its index, in index order; the items'
   * outputs when none failed.
   */
  function ZArray<T>(results: seq<Parsed<T>>): Parsed<seq<T>>
    decreases |results|
  {
    if results == [] then Success([])
    else
      var init := ZArray(results[..|results| - 1]);
      var last := results[|results| - 1];
      var issues := Errors(init) + Under(Index(|results| - 1), Errors(last));
      if issues != [] then Failure(issues)
      else Success(init.value + [last.value])
  }

  lemma ZArrayErrors<T>(results: seq<Parsed<T>>)
    requires results != []
    ensures Errors(ZArray(results)) ==
              Errors(ZArray(results[..|results| - 1])) + Under(Index(|results| - 1), Errors(results[|results| - 1]))
  {
  }

  /** Items are parsed independently: the array is accepted exactly when every item is. */
  lemma {:induction false} ZArrayAccepts<T>(results: seq<Parsed<T>>)
    ensures ZArray(results).Success? <==> forall i :: 0 <= i < |results| ==> results[i].Success?
    decreases |results|
  {
    if results != [] {
      var n := |results| - 1;
      ZArrayErrors(results);
      assert |Under(Index(n), Errors(results[n]))| == |Errors(results[n])|;
      ZArrayAccepts(results[..n]);
      assert forall i :: 0 <= i < n ==> results[..n][i] == results[i];
    }
  }

  /** An accepted array's output has one value per item, in order, each the item's own output. */
  lemma {:induction false} ZArrayOutput<T>(results: seq<Parsed<T>>)
    requires ZArray(results).Success?
    ensures |ZArray(results).value| == |results|
    ensures forall i :: 0 <= i < |results| ==>
              results[i].Success? && ZArray(results).value[i] == results[i].value
    decreases |results|
  {
    if results != [] {
      var n := |results| - 1;
      var init := ZArray(results[..n]);
      assert init.Success? && results[n].Success? by {
        ZArrayErrors(results);
        assert |Under(Index(n), Errors(results[n]))| == |Errors(results[n])|;
      }
      assert ZArray(results) == Success(init.value + [results[n].value]) by {
        assert Errors(init) + Under(Index(n), Errors(results[n])) == [];
      }
      ZArrayOutput(results[..n]);
      forall i | 0 <= i < |results|
        ensures results[i].Success? && ZArray(results).value[i] == results[i].value
      {
        if i < n {
          assert results[..n][i] == results[i];
        }
      }
    }
  }

  /** An issue sits at `[i] + q` exactly when there is an item `i` and its own issues have one at `q`. */
  lemma {:induction false} ZArrayLocates<T>(results: seq<Parsed<T>>, i: nat, q: Path)
    ensures Locates(Errors(ZArray(results)), [Index(i)] + q) <==>
              i < |results| && Locates(Errors(results[i]), q)
    decreases |results|
  {
    var p := [Index(i)] + q;
    assert p[1..] == q;
    if results != [] {
      var n := |results| - 1;
      ZArrayLocates(results[..n], i, q);
      ZArrayErrors(results);
      LocatesAppend(Errors(ZArray(results[..n])), Under(Index(n), Errors(results[n])), p);
      LocatesUnder(Index(n), Errors(results[n]), p);
      if i < n {
        assert results[..n][i] == results[i];
      }
    }
  }
}
