/**
 * `vacunasCovidSchema`, the Covid vaccination history: a union discriminated
 * by `tiene_vacunas`. With `false` nothing else is read; with `true`,
 * `vacunas` must be an array of dose entries, each an object with a vaccine
 * name from the option list (upper-cased on output), a dose count that
 * coerces to a number above zero, and a date.
 */
module VacunaCovidSchema {
  import opened Wrappers
  import opened Keys
  import opened JsValues
  import opened JsText
  import opened Zod
  import opened FieldRules
  import Coercion

  // ---- one dose entry ----

  /** An accepted entry: the upper-cased vaccine name, the dose count and the date's time value. */
  datatype VaccineEntry = VaccineEntry(nombreVacuna: string, dosisSuministradas: real, fechasDosis: int)

  /**
   * The entry object: a value that fails the object test is one
   * `invalid_type` issue at the entry itself; otherwise each property's
   * issues, in shape order.
   */
  function EntryObject(env: Env, v: JsValue): Parsed<VaccineEntry> {
    match ObjectProps(v)
    case None => Failure([Issue([], InvalidType)])
    case Some(props) =>
      var name := UpperChoice(env.options.vacunasCovid, Get(props, NombreVacuna));
      var dose := DoseCount(Get(props, DosisSuministradas));
      var date := AnyDate(Get(props, FechasDosis));
      var issues := At(NombreVacuna, name) + At(DosisSuministradas, dose) + At(FechasDosis, date);
      if issues != [] then Failure(issues)
      else Success(VaccineEntry(name.value, dose.value, date.value))
  }

  /** Whether property `g` of entry `v` breaks its rule. */
  predicate EntryRejects(env: Env, v: JsValue, g: FieldName) {
    ObjectProps(v).Some? &&
    var props := ObjectProps(v).value;
    ((g == NombreVacuna && !IsStringIn(Get(props, NombreVacuna), env.options.vacunasCovid)) ||
     (g == DosisSuministradas && !IsDoseCount(Get(props, DosisSuministradas))) ||
     (g == FechasDosis && !Get(props, FechasDosis).JsDate?))
  }

  /**
   * An entry is accepted exactly when it passes the object test and its three
   * properties meet their rules, and then it is normalised.
   */
  lemma EntryAccepts(env: Env, v: JsValue)
    ensures EntryObject(env, v).Success? <==>
              ObjectProps(v).Some? && forall g :: !EntryRejects(env, v, g)
    ensures EntryObject(env, v).Success? ==>
              ObjectProps(v).Some? &&
              EntryObject(env, v).value == VaccineEntry(
                ToUpperCase(Get(ObjectProps(v).value, NombreVacuna).s),
                Coercion.ToNumber(Get(ObjectProps(v).value, DosisSuministradas)).n,
                Get(ObjectProps(v).value, FechasDosis).time)
  {
    if ObjectProps(v).Some? && !EntryObject(env, v).Success? {
      assert EntryRejects(env, v, NombreVacuna) || EntryRejects(env, v, DosisSuministradas) ||
             EntryRejects(env, v, FechasDosis);
    }
  }

  /** The issues at property `g` of an entry are those of a property that breaks its rule. */
  lemma EntryLocates(env: Env, v: JsValue, g: FieldName)
    ensures Locates(Errors(EntryObject(env, v)), [Field(g)]) <==> EntryRejects(env, v, g)
  {
    if ObjectProps(v).Some? {
      var props := ObjectProps(v).value;
      var t0 := At(NombreVacuna, UpperChoice(env.options.vacunasCovid, Get(props, NombreVacuna)));
      var t1 := At(DosisSuministradas, DoseCount(Get(props, DosisSuministradas)));
      var t2 := At(FechasDosis, AnyDate(Get(props, FechasDosis)));
      assert Errors(EntryObject(env, v)) == t0 + t1 + t2;
      LocatesAppend(t0 + t1, t2, [Field(g)]);
      LocatesAppend(t0, t1, [Field(g)]);
      LocatesAt(NombreVacuna, UpperChoice(env.options.vacunasCovid, Get(props, NombreVacuna)), [Field(g)]);
      LocatesAt(DosisSuministradas, DoseCount(Get(props, DosisSuministradas)), [Field(g)]);
      LocatesAt(FechasDosis, AnyDate(Get(props, FechasDosis)), [Field(g)]);
    } else {
      var issues := [Issue([], InvalidType)];
      assert !Locates(issues, [Field(g)]) by {
        assert forall k :: 0 <= k < |issues| ==> issues[k].path == [];
      }
    }
  }

  /**
   * A Date, valid or not, passes the object test with none of the shape's
   * properties, so each of the three is reported, with its rule's code for a
   * missing value.
   */
  lemma DateEntryIssues(env: Env, v: JsValue)
    requires v.JsDate? || v.JsInvalidDate?
    ensures Errors(EntryObject(env, v)) ==
              [Issue([Field(NombreVacuna)], InvalidValue),
               Issue([Field(DosisSuministradas)], InvalidType),
               Issue([Field(FechasDosis)], InvalidType)]
    ensures forall g :: EntryRejects(env, v, g) <==>
              g == NombreVacuna || g == DosisSuministradas || g == FechasDosis
  {
    assert ObjectProps(v) == Some(map[]);
    assert DoseCount(Undefined) == Failure([InvalidType]) by { DoseCountExamples(); }
  }

  // ---- the array ----

  /** Each item's entry parse, in order. */
  function EntryResults(env: Env, items: seq<JsValue>): (r: seq<Parsed<VaccineEntry>>)
    ensures |r| == |items|
    ensures forall i :: 0 <= i < |items| ==> r[i] == EntryObject(env, items[i])
  {
    seq(|items|, i requires 0 <= i < |items| => EntryObject(env, items[i]))
  }

  /** Entries are validated independently: the array is accepted exactly when every entry is. */
  lemma ItemsAccepts(env: Env, items: seq<JsValue>)
    ensures ZArray(EntryResults(env, items)).Success? <==>
              forall i :: 0 <= i < |items| ==> EntryObject(env, items[i]).Success?
  {
    ZArrayAccepts(EntryResults(env, items));
  }

  /** The issues at property `g` of entry `i` are exactly those of an entry `i` whose `g` breaks its rule. */
  lemma ItemsLocate(env: Env, items: seq<JsValue>, i: nat, g: FieldName)
    ensures Locates(Errors(ZArray(EntryResults(env, items))), [Index(i), Field(g)]) <==>
              i < |items| && EntryRejects(env, items[i], g)
  {
    ZArrayLocates(EntryResults(env, items), i, [Field(g)]);
    assert [Index(i)] + [Field(g)] == [Index(i), Field(g)];
    if i < |items| {
      EntryLocates(env, items[i], g);
    }
  }

  /** `vacunas: z.array(...)`: a value that is no array is one `invalid_type` issue. */
  function VacunasArray(env: Env, v: JsValue): Parsed<seq<VaccineEntry>> {
    if v.JsArray? then ZArray(EntryResults(env, v.items)) else Failure([Issue([], InvalidType)])
  }

  // ---- the schema ----

  /** An accepted history: no vaccines, or the list of dose entries. */
  datatype Historial = SinVacunas | ConVacunas(vacunas: seq<VaccineEntry>)

  /**
   * `vacunasCovidSchema.safeParse`: with `tiene_vacunas` `true` the array's
   * issues sit under `vacunas`; with `false` the record is accepted; any
   * other tag matches no option of the union.
   */
  function Validate(env: Env, rec: Record): Parsed<Historial> {
    match Get(rec, TieneVacunas)
    case JsBool(b) =>
      if !b then Success(SinVacunas)
      else
        var a := VacunasArray(env, Get(rec, Vacunas));
        if a.Success? then Success(ConVacunas(a.value)) else Failure(Under(Field(Vacunas), a.error))
    case _ => Failure([Issue([Field(TieneVacunas)], InvalidUnion)])
  }

  /**
   * The tag decides: `false` alone is accepted as no vaccines, `true` needs an
   * array whose every entry is accepted, and any other tag is one
   * `invalid_union` issue at `tiene_vacunas`.
   */
  lemma ValidateAccepts(env: Env, rec: Record)
    ensures Get(rec, TieneVacunas) == JsBool(false) ==> Validate(env, rec) == Success(SinVacunas)
    ensures !Get(rec, TieneVacunas).JsBool? ==>
              Validate(env, rec) == Failure([Issue([Field(TieneVacunas)], InvalidUnion)])
    ensures Get(rec, TieneVacunas) == JsBool(true) ==>
              (Validate(env, rec).Success? <==>
                 Get(rec, Vacunas).JsArray? &&
                 forall i :: 0 <= i < |Get(rec, Vacunas).items| ==> EntryObject(env, Get(rec, Vacunas).items[i]).Success?)
  {
    if Get(rec, TieneVacunas) == JsBool(true) && Get(rec, Vacunas).JsArray? {
      ItemsAccepts(env, Get(rec, Vacunas).items);
    }
  }

  /** An accepted list keeps its length and order, each entry normalised. */
  lemma ValidateNormalises(env: Env, rec: Record)
    requires Validate(env, rec).Success?
    requires Get(rec, TieneVacunas) == JsBool(true)
    ensures Validate(env, rec).value.ConVacunas?
    ensures |Validate(env, rec).value.vacunas| == |Get(rec, Vacunas).items|
    ensures forall i :: 0 <= i < |Get(rec, Vacunas).items| ==>
              EntryObject(env, Get(rec, Vacunas).items[i]).Success? &&
              Validate(env, rec).value.vacunas[i] == EntryObject(env, Get(rec, Vacunas).items[i]).value
  {
    ZArrayOutput(EntryResults(env, Get(rec, Vacunas).items));
  }

  /** The array has no length bound: `true` with an empty list is accepted. */
  lemma EmptyListAccepted(env: Env, rec: Record)
    requires Get(rec, TieneVacunas) == JsBool(true) && Get(rec, Vacunas) == JsArray([])
    ensures Validate(env, rec) == Success(ConVacunas([]))
  {
  }

  /**
   * The schema reports `tiene_vacunas` for a tag that is no boolean, and
   * `vacunas` when the tag is `true` and the array or one of its entries fails.
   */
  lemma ValidateReports(env: Env, rec: Record, g: FieldName)
    ensures Reports(Errors(Validate(env, rec)), g) <==>
              (g == TieneVacunas && !Get(rec, TieneVacunas).JsBool?) ||
              (g == Vacunas && Get(rec, TieneVacunas) == JsBool(true) && VacunasArray(env, Get(rec, Vacunas)).Failure?)
  {
    var issues := Errors(Validate(env, rec));
    ReportsMeaning(issues, g);
    if Get(rec, TieneVacunas) == JsBool(true) && VacunasArray(env, Get(rec, Vacunas)).Failure? {
      var e := VacunasArray(env, Get(rec, Vacunas)).error;
      assert issues == Under(Field(Vacunas), e);
      assert forall k :: 0 <= k < |issues| ==> issues[k].path[0] == Field(Vacunas);
      assert Names(issues[0], Vacunas);
    } else if !Get(rec, TieneVacunas).JsBool? {
      assert issues == [Issue([Field(TieneVacunas)], InvalidUnion)];
    }
  }

  /**
   * Entry issues are reported where they belong: property `g` of entry `i`
   * has an issue at `vacunas[i].g` exactly when the tag is `true`, `vacunas`
   * is an array with an entry `i`, and that entry's `g` breaks its rule.
   */
  lemma ValidateLocates(env: Env, rec: Record, i: nat, g: FieldName)
    ensures Locates(Errors(Validate(env, rec)), [Field(Vacunas), Index(i), Field(g)]) <==>
              Get(rec, TieneVacunas) == JsBool(true) && Get(rec, Vacunas).JsArray? &&
              i < |Get(rec, Vacunas).items| && EntryRejects(env, Get(rec, Vacunas).items[i], g)
  {
    var p := [Field(Vacunas), Index(i), Field(g)];
    assert p[1..] == [Index(i), Field(g)];
    var tag := Get(rec, TieneVacunas);
    if tag == JsBool(true) {
      var a := VacunasArray(env, Get(rec, Vacunas));
      if a.Failure? {
        LocatesUnder(Field(Vacunas), a.error, p);
        if Get(rec, Vacunas).JsArray? {
          ItemsLocate(env, Get(rec, Vacunas).items, i, g);
        } else {
          assert a.error[0].path == [];
        }
      } else if Get(rec, Vacunas).JsArray? {
        ItemsLocate(env, Get(rec, Vacunas).items, i, g);
      }
    } else if !tag.JsBool? {
      var issues := [Issue([Field(TieneVacunas)], InvalidUnion)];
      assert issues[0].path != p;
    }
  }

  // ---- submitting an accepted entry again ----

  /** An entry as a caller would submit it again. */
  function EntryValue(e: VaccineEntry): JsValue {
    JsObject(map[
      NombreVacuna := JsString(e.nombreVacuna),
      DosisSuministradas := JsNumber(e.dosisSuministradas),
      FechasDosis := JsDate(e.fechasDosis)])
  }

  /**
   * An accepted entry submitted again is accepted exactly when its
   * upper-cased name is itself one of the options, and then it comes back
   * unchanged.
   */
  lemma EntryResubmitted(env: Env, v: JsValue)
    requires EntryObject(env, v).Success?
    ensures EntryObject(env, EntryValue(EntryObject(env, v).value)).Success? <==>
              EntryObject(env, v).value.nombreVacuna in env.options.vacunasCovid
    ensures EntryObject(env, EntryValue(EntryObject(env, v).value)).Success? ==>
              EntryObject(env, EntryValue(EntryObject(env, v).value)) == EntryObject(env, v)
  {
    EntryAccepts(env, v);
    var e := EntryObject(env, v).value;
    var w := EntryValue(e);
    assert Get(w.props, NombreVacuna) == JsString(e.nombreVacuna);
    assert Get(w.props, DosisSuministradas) == JsNumber(e.dosisSuministradas);
    assert Get(w.props, FechasDosis) == JsDate(e.fechasDosis);
    assert e.nombreVacuna == ToUpperCase(e.nombreVacuna) by {
      ConvertCaseIdempotent(Upper, Get(ObjectProps(v).value, NombreVacuna).s);
    }
    assert e.dosisSuministradas > 0.0;
  }
}
