/**
 * `PostulanteSchema`, the applicant form's schema: an object of the
 * applicant's person data, correspondence address and personal data,
 * intersected (`.and`) with `tieneHijosSchema`, a union discriminated by
 * `tiene_hijos` that asks for `numero_hijos` when the applicant has children.
 */
module PostulanteSchema {
  import opened Wrappers
  import opened Keys
  import opened JsValues
  import opened JsText
  import opened Zod
  import opened FieldRules
  import opened PersonData

  /** Correspondence address: `barrio_correspondencia` to `departamento_correspondencia`. */
  datatype Correspondence = Correspondence(
    barrioCorrespondencia: Option<string>,
    direccionCorrespondencia: Option<string>,
    ciudadCorrespondencia: Option<string>,
    departamentoCorrespondencia: Option<string>)

  /** The properties of the correspondence section, in the order of the shape. */
  const CorrespondenceShape: seq<FieldName> := [BarrioCorrespondencia, DireccionCorrespondencia, CiudadCorrespondencia, DepartamentoCorrespondencia]

  /** The correspondence properties of the object: their issues in shape order, or their values. */
  function CorrespondenceObject(env: Env, rec: Record): Parsed<Correspondence> {
    var issues :=
      At(BarrioCorrespondencia, OptionalMinText(100, Get(rec, BarrioCorrespondencia))) +
      At(DireccionCorrespondencia, OptionalMinText(100, Get(rec, DireccionCorrespondencia))) +
      At(CiudadCorrespondencia, OptionalMinText(100, Get(rec, CiudadCorrespondencia))) +
      At(DepartamentoCorrespondencia, OptionalMinText(100, Get(rec, DepartamentoCorrespondencia)));
    if issues != [] then Failure(issues)
    else Success(Correspondence(
      OptionalMinText(100, Get(rec, BarrioCorrespondencia)).value,
      OptionalMinText(100, Get(rec, DireccionCorrespondencia)).value,
      OptionalMinText(100, Get(rec, CiudadCorrespondencia)).value,
      OptionalMinText(100, Get(rec, DepartamentoCorrespondencia)).value))
  }

  /** Whether the correspondence section reports property `g`: it is one of them and breaks its rule. */
  predicate CorrespondenceRejects(env: Env, rec: Record, g: FieldName) {
    (g == BarrioCorrespondencia && !OptionalUpTo(Get(rec, BarrioCorrespondencia), 100)) ||
    (g == DireccionCorrespondencia && !OptionalUpTo(Get(rec, DireccionCorrespondencia), 100)) ||
    (g == CiudadCorrespondencia && !OptionalUpTo(Get(rec, CiudadCorrespondencia), 100)) ||
    (g == DepartamentoCorrespondencia && !OptionalUpTo(Get(rec, DepartamentoCorrespondencia), 100))
  }

  /** The section's issues are its properties' issues, in shape order. */
  lemma CorrespondenceErrors(env: Env, rec: Record)
    ensures Errors(CorrespondenceObject(env, rec)) ==
      At(BarrioCorrespondencia, OptionalMinText(100, Get(rec, BarrioCorrespondencia))) +
      At(DireccionCorrespondencia, OptionalMinText(100, Get(rec, DireccionCorrespondencia))) +
      At(CiudadCorrespondencia, OptionalMinText(100, Get(rec, CiudadCorrespondencia))) +
      At(DepartamentoCorrespondencia, OptionalMinText(100, Get(rec, DepartamentoCorrespondencia)))
  {
  }

  /** The section reports exactly the properties that break their rules. */
  lemma {:induction false} CorrespondenceReports(env: Env, rec: Record, g: FieldName)
    ensures Reports(Errors(CorrespondenceObject(env, rec)), g) <==> CorrespondenceRejects(env, rec, g)
  {
    CorrespondenceErrors(env, rec);
    ReportsConcat4(
      At(BarrioCorrespondencia, OptionalMinText(100, Get(rec, BarrioCorrespondencia))),
      At(DireccionCorrespondencia, OptionalMinText(100, Get(rec, DireccionCorrespondencia))),
      At(CiudadCorrespondencia, OptionalMinText(100, Get(rec, CiudadCorrespondencia))),
      At(DepartamentoCorrespondencia, OptionalMinText(100, Get(rec, DepartamentoCorrespondencia))), g);
    OptionalMinTextAt(BarrioCorrespondencia, 100, Get(rec, BarrioCorrespondencia), g);
    OptionalMinTextAt(DireccionCorrespondencia, 100, Get(rec, DireccionCorrespondencia), g);
    OptionalMinTextAt(CiudadCorrespondencia, 100, Get(rec, CiudadCorrespondencia), g);
    OptionalMinTextAt(DepartamentoCorrespondencia, 100, Get(rec, DepartamentoCorrespondencia), g);
  }

  /** The section accepts exactly when it reports no property. */
  lemma CorrespondenceSucceeds(env: Env, rec: Record)
    ensures CorrespondenceObject(env, rec).Success? <==> forall g :: !CorrespondenceRejects(env, rec, g)
  {
    if CorrespondenceObject(env, rec).Success? {
      forall g ensures !CorrespondenceRejects(env, rec, g) {
        CorrespondenceReports(env, rec, g);
      }
    } else {
      assert CorrespondenceRejects(env, rec, BarrioCorrespondencia) || CorrespondenceRejects(env, rec, DireccionCorrespondencia) || CorrespondenceRejects(env, rec, CiudadCorrespondencia) || CorrespondenceRejects(env, rec, DepartamentoCorrespondencia);
    }
  }

  /** What the correspondence section makes of an accepted record. */
  predicate CorrespondenceNormalised(rec: Record, s: Correspondence) {
    s.barrioCorrespondencia == UpperOption(Get(rec, BarrioCorrespondencia)) &&
    s.direccionCorrespondencia == UpperOption(Get(rec, DireccionCorrespondencia)) &&
    s.ciudadCorrespondencia == UpperOption(Get(rec, CiudadCorrespondencia)) &&
    s.departamentoCorrespondencia == UpperOption(Get(rec, DepartamentoCorrespondencia))
  }

  lemma CorrespondenceNormalises(env: Env, rec: Record)
    requires CorrespondenceObject(env, rec).Success?
    ensures CorrespondenceNormalised(rec, CorrespondenceObject(env, rec).value)
  {
  }

  /** Whether `rec` holds the correspondence values `s`, as a form would submit them again. */
  predicate CorrespondenceEncoded(rec: Record, s: Correspondence) {
    Get(rec, BarrioCorrespondencia) == OptionValue(s.barrioCorrespondencia) &&
    Get(rec, DireccionCorrespondencia) == OptionValue(s.direccionCorrespondencia) &&
    Get(rec, CiudadCorrespondencia) == OptionValue(s.ciudadCorrespondencia) &&
    Get(rec, DepartamentoCorrespondencia) == OptionValue(s.departamentoCorrespondencia)
  }

  /**
   * The correspondence values of an accepted record, submitted again, are
   * accepted, and come back unchanged.
   */
  lemma CorrespondenceReparse(env: Env, rec: Record, again: Record)
    requires CorrespondenceObject(env, rec).Success?
    requires CorrespondenceEncoded(again, CorrespondenceObject(env, rec).value)
    ensures CorrespondenceObject(env, again).Success?
    ensures CorrespondenceObject(env, again).Success? ==> CorrespondenceObject(env, again) == CorrespondenceObject(env, rec)
  {
    CorrespondenceLikeSecondName(100, Get(rec, BarrioCorrespondencia));
      OptionalTextReparse(100, Get(rec, BarrioCorrespondencia));
    CorrespondenceLikeSecondName(100, Get(rec, DireccionCorrespondencia));
      OptionalTextReparse(100, Get(rec, DireccionCorrespondencia));
    CorrespondenceLikeSecondName(100, Get(rec, CiudadCorrespondencia));
      OptionalTextReparse(100, Get(rec, CiudadCorrespondencia));
    CorrespondenceLikeSecondName(100, Get(rec, DepartamentoCorrespondencia));
      OptionalTextReparse(100, Get(rec, DepartamentoCorrespondencia));
  }

  /** Personal data: `sexo`, `tipo_sangre`, `estado_civil` and `personas_a_cargo`. */
  datatype Personal = Personal(
    sexo: string,
    tipoSangre: string,
    estadoCivil: string,
    personasACargo: string)

  /** The properties of the personal section, in the order of the shape. */
  const PersonalShape: seq<FieldName> := [Sexo, TipoSangre, EstadoCivil, PersonasACargo]

  /** The personal properties of the object: their issues in shape order, or their values. */
  function PersonalObject(env: Env, rec: Record): Parsed<Personal> {
    var issues :=
      At(Sexo, Choice(env.options.sexos, Get(rec, Sexo))) +
      At(TipoSangre, Choice(env.options.tiposSangre, Get(rec, TipoSangre))) +
      At(EstadoCivil, Choice(env.options.estadosCiviles, Get(rec, EstadoCivil))) +
      At(PersonasACargo, BoundedText(1, 10, Get(rec, PersonasACargo)));
    if issues != [] then Failure(issues)
    else Success(Personal(
      Choice(env.options.sexos, Get(rec, Sexo)).value,
      Choice(env.options.tiposSangre, Get(rec, TipoSangre)).value,
      Choice(env.options.estadosCiviles, Get(rec, EstadoCivil)).value,
      BoundedText(1, 10, Get(rec, PersonasACargo)).value))
  }

  /** Whether the personal section reports property `g`: it is one of them and breaks its rule. */
  predicate PersonalRejects(env: Env, rec: Record, g: FieldName) {
    (g == Sexo && !IsStringIn(Get(rec, Sexo), env.options.sexos)) ||
    (g == TipoSangre && !IsStringIn(Get(rec, TipoSangre), env.options.tiposSangre)) ||
    (g == EstadoCivil && !IsStringIn(Get(rec, EstadoCivil), env.options.estadosCiviles)) ||
    (g == PersonasACargo && !HasLength(Get(rec, PersonasACargo), 1, 10))
  }

  /** The section's issues are its properties' issues, in shape order. */
  lemma PersonalErrors(env: Env, rec: Record)
    ensures Errors(PersonalObject(env, rec)) ==
      At(Sexo, Choice(env.options.sexos, Get(rec, Sexo))) +
      At(TipoSangre, Choice(env.options.tiposSangre, Get(rec, TipoSangre))) +
      At(EstadoCivil, Choice(env.options.estadosCiviles, Get(rec, EstadoCivil))) +
      At(PersonasACargo, BoundedText(1, 10, Get(rec, PersonasACargo)))
  {
  }

  /** The section reports exactly the properties that break their rules. */
  lemma {:induction false} PersonalReports(env: Env, rec: Record, g: FieldName)
    ensures Reports(Errors(PersonalObject(env, rec)), g) <==> PersonalRejects(env, rec, g)
  {
    PersonalErrors(env, rec);
    ReportsConcat4(
      At(Sexo, Choice(env.options.sexos, Get(rec, Sexo))),
      At(TipoSangre, Choice(env.options.tiposSangre, Get(rec, TipoSangre))),
      At(EstadoCivil, Choice(env.options.estadosCiviles, Get(rec, EstadoCivil))),
      At(PersonasACargo, BoundedText(1, 10, Get(rec, PersonasACargo))), g);
    ChoiceAt(Sexo, env.options.sexos, Get(rec, Sexo), g);
    ChoiceAt(TipoSangre, env.options.tiposSangre, Get(rec, TipoSangre), g);
    ChoiceAt(EstadoCivil, env.options.estadosCiviles, Get(rec, EstadoCivil), g);
    BoundedTextAt(PersonasACargo, 1, 10, Get(rec, PersonasACargo), g);
  }

  /** The section accepts exactly when it reports no property. */
  lemma PersonalSucceeds(env: Env, rec: Record)
    ensures PersonalObject(env, rec).Success? <==> forall g :: !PersonalRejects(env, rec, g)
  {
    if PersonalObject(env, rec).Success? {
      forall g ensures !PersonalRejects(env, rec, g) {
        PersonalReports(env, rec, g);
      }
    } else {
      assert PersonalRejects(env, rec, Sexo) || PersonalRejects(env, rec, TipoSangre) || PersonalRejects(env, rec, EstadoCivil) || PersonalRejects(env, rec, PersonasACargo);
    }
  }

  /** What the personal section makes of an accepted record. */
  predicate PersonalNormalised(rec: Record, s: Personal) {
    s.sexo == Text(rec, Sexo) &&
    s.tipoSangre == Text(rec, TipoSangre) &&
    s.estadoCivil == Text(rec, EstadoCivil) &&
    s.personasACargo == Text(rec, PersonasACargo)
  }

  lemma PersonalNormalises(env: Env, rec: Record)
    requires PersonalObject(env, rec).Success?
    ensures PersonalNormalised(rec, PersonalObject(env, rec).value)
  {
  }

  /** Whether `rec` holds the personal values `s`, as a form would submit them again. */
  predicate PersonalEncoded(rec: Record, s: Personal) {
    Get(rec, Sexo) == JsString(s.sexo) &&
    Get(rec, TipoSangre) == JsString(s.tipoSangre) &&
    Get(rec, EstadoCivil) == JsString(s.estadoCivil) &&
    Get(rec, PersonasACargo) == JsString(s.personasACargo)
  }

  /**
   * The personal values of an accepted record, submitted again, are
   * accepted, and come back unchanged.
   */
  lemma PersonalReparse(env: Env, rec: Record, again: Record)
    requires PersonalObject(env, rec).Success?
    requires PersonalEncoded(again, PersonalObject(env, rec).value)
    ensures PersonalObject(env, again).Success?
    ensures PersonalObject(env, again).Success? ==> PersonalObject(env, again) == PersonalObject(env, rec)
  {
  }

  // ---- the object ----

  /** The values of the object part, section by section. */
  datatype PostulanteBase = PostulanteBase(
    identity: Identity,
    birth: Birth,
    residence: Residence,
    correspondence: Correspondence,
    personal: Personal,
    contact: Contact)

  /** The object's properties, in the order of its shape. */
  const BaseShape: seq<FieldName> :=
    IdentityShape + BirthShape + ResidenceShape + CorrespondenceShape + PersonalShape + ContactShape

  /** The object part: every property's issues, in shape order, or all values. */
  function BaseObject(env: Env, rec: Record): Parsed<PostulanteBase> {
    var identity := IdentityObject(env, rec);
    var birth := BirthObject(env, rec);
    var residence := ResidenceObject(env, rec);
    var correspondence := CorrespondenceObject(env, rec);
    var personal := PersonalObject(env, rec);
    var contact := ContactObject(env, rec);
    var issues := Errors(identity) + Errors(birth) + Errors(residence) + Errors(correspondence) + Errors(personal) + Errors(contact);
    assert |issues| == |Errors(identity)| + |Errors(birth)| + |Errors(residence)| + |Errors(correspondence)| + |Errors(personal)| + |Errors(contact)|;
    if issues != [] then Failure(issues)
    else Success(PostulanteBase(identity.value, birth.value, residence.value, correspondence.value, personal.value, contact.value))
  }

  // ---- tieneHijosSchema ----

  /** The children part: no children, or how many. */
  datatype Hijos = SinHijos | ConHijos(numeroHijos: real)

  /** Whether `tiene_hijos` and, when it is `true`, `numero_hijos` meet the union's options. */
  predicate HasChildrenPart(rec: Record) {
    Get(rec, TieneHijos).JsBool? && (Get(rec, TieneHijos).b ==> IsChildCount(Get(rec, NumeroHijos)))
  }

  /**
   * `tieneHijosSchema`: the option is chosen by `tiene_hijos`; with `false`
   * nothing else is read, with `true` `numero_hijos` must be a child count,
   * and any other `tiene_hijos` matches no option.
   */
  function TieneHijosUnion(rec: Record): (r: Parsed<Hijos>)
    ensures r.Success? <==> HasChildrenPart(rec)
    ensures r.Success? ==> r.value == if Get(rec, TieneHijos).b then ConHijos(Get(rec, NumeroHijos).n) else SinHijos
    ensures !Get(rec, TieneHijos).JsBool? ==> r == Failure([Issue([Field(TieneHijos)], InvalidUnion)])
  {
    match Get(rec, TieneHijos)
    case JsBool(b) =>
      if !b then Success(SinHijos)
      else
        var n := ChildCount(Get(rec, NumeroHijos));
        if n.Success? then Success(ConHijos(n.value)) else Failure(At(NumeroHijos, n))
    case _ => Failure([Issue([Field(TieneHijos)], InvalidUnion)])
  }

  /** Whether the union reports property `g`: a bad tag, or a bad count under `true`. */
  predicate HijosRejects(rec: Record, g: FieldName) {
    (g == TieneHijos && !Get(rec, TieneHijos).JsBool?) ||
    (g == NumeroHijos && Get(rec, TieneHijos) == JsBool(true) && !IsChildCount(Get(rec, NumeroHijos)))
  }

  lemma HijosReports(rec: Record, g: FieldName)
    ensures Reports(Errors(TieneHijosUnion(rec)), g) <==> HijosRejects(rec, g)
  {
    ReportsAt(NumeroHijos, ChildCount(Get(rec, NumeroHijos)), g);
    var issues := [Issue([Field(TieneHijos)], InvalidUnion)];
    assert Reports(issues, g) <==> g == TieneHijos by { assert issues[1..] == []; }
  }

  // ---- the schema ----

  /** An accepted applicant: the object part and the children part. */
  datatype Postulante = Postulante(base: PostulanteBase, hijos: Hijos)

  /**
   * `PostulanteSchema.safeParse`: both sides of the intersection parse the
   * record, and the issues are the object's followed by the union's. The
   * two outputs share no key, so merging them never fails.
   */
  function Validate(env: Env, rec: Record): Parsed<Postulante> {
    var base := BaseObject(env, rec);
    var hijos := TieneHijosUnion(rec);
    if base.Success? && hijos.Success? then Success(Postulante(base.value, hijos.value))
    else Failure(Errors(base) + Errors(hijos))
  }

  /**
   * Whether property `g` of `rec` meets its rule in the schema: no section
   * of the object and no option of the union finds it broken. Properties the
   * schema does not read always do.
   */
  predicate MeetsRule(env: Env, rec: Record, g: FieldName) {
    !(IdentityRejects(env, rec, g) ||
      BirthRejects(env, rec, g) ||
      ResidenceRejects(env, rec, g) ||
      CorrespondenceRejects(env, rec, g) ||
      PersonalRejects(env, rec, g) ||
      ContactRejects(env, rec, g) ||
      HijosRejects(rec, g))
  }

  /** The schema reports exactly the properties that break their rules, each of them. */
  lemma {:induction false} ValidateReports(env: Env, rec: Record, g: FieldName)
    ensures Reports(Errors(Validate(env, rec)), g) <==> !MeetsRule(env, rec, g)
  {
    IdentityReports(env, rec, g);
    BirthReports(env, rec, g);
    ResidenceReports(env, rec, g);
    CorrespondenceReports(env, rec, g);
    PersonalReports(env, rec, g);
    ContactReports(env, rec, g);
    HijosReports(rec, g);
    ReportsConcat7(
      Errors(IdentityObject(env, rec)),
      Errors(BirthObject(env, rec)),
      Errors(ResidenceObject(env, rec)),
      Errors(CorrespondenceObject(env, rec)),
      Errors(PersonalObject(env, rec)),
      Errors(ContactObject(env, rec)),
      Errors(TieneHijosUnion(rec)), g);
    assert Errors(Validate(env, rec)) == Errors(IdentityObject(env, rec)) + Errors(BirthObject(env, rec)) + Errors(ResidenceObject(env, rec)) + Errors(CorrespondenceObject(env, rec)) + Errors(PersonalObject(env, rec)) + Errors(ContactObject(env, rec)) + Errors(TieneHijosUnion(rec));
  }

  /** The schema accepts exactly when every section and the union accept. */
  lemma ValidateSucceeds(env: Env, rec: Record)
    ensures Validate(env, rec).Success? <==>
      IdentityObject(env, rec).Success? &&
      BirthObject(env, rec).Success? &&
      ResidenceObject(env, rec).Success? &&
      CorrespondenceObject(env, rec).Success? &&
      PersonalObject(env, rec).Success? &&
      ContactObject(env, rec).Success? &&
      TieneHijosUnion(rec).Success?
  {
  }

  /** A record is accepted exactly when every property meets its rule. */
  lemma ValidateAccepts(env: Env, rec: Record)
    ensures Validate(env, rec).Success? <==> forall g :: MeetsRule(env, rec, g)
  {
    if forall g :: MeetsRule(env, rec, g) {
      forall g ensures !IdentityRejects(env, rec, g) { assert MeetsRule(env, rec, g); }
      IdentitySucceeds(env, rec);
      forall g ensures !BirthRejects(env, rec, g) { assert MeetsRule(env, rec, g); }
      BirthSucceeds(env, rec);
      forall g ensures !ResidenceRejects(env, rec, g) { assert MeetsRule(env, rec, g); }
      ResidenceSucceeds(env, rec);
      forall g ensures !CorrespondenceRejects(env, rec, g) { assert MeetsRule(env, rec, g); }
      CorrespondenceSucceeds(env, rec);
      forall g ensures !PersonalRejects(env, rec, g) { assert MeetsRule(env, rec, g); }
      PersonalSucceeds(env, rec);
      forall g ensures !ContactRejects(env, rec, g) { assert MeetsRule(env, rec, g); }
      ContactSucceeds(env, rec);
      assert !HijosRejects(rec, TieneHijos) && !HijosRejects(rec, NumeroHijos) by {
        assert MeetsRule(env, rec, TieneHijos) && MeetsRule(env, rec, NumeroHijos);
      }
      ValidateSucceeds(env, rec);
    } else {
      var g :| !MeetsRule(env, rec, g);
      ValidateReports(env, rec, g);
    }
  }

  /** What an accepted applicant holds: each section's normalised values and the children part. */
  lemma ValidateNormalises(env: Env, rec: Record)
    requires Validate(env, rec).Success?
    ensures IdentityNormalised(rec, Validate(env, rec).value.base.identity)
    ensures BirthNormalised(rec, Validate(env, rec).value.base.birth)
    ensures ResidenceNormalised(rec, Validate(env, rec).value.base.residence)
    ensures CorrespondenceNormalised(rec, Validate(env, rec).value.base.correspondence)
    ensures PersonalNormalised(rec, Validate(env, rec).value.base.personal)
    ensures ContactNormalised(rec, Validate(env, rec).value.base.contact)
    ensures Validate(env, rec).value.hijos ==
      if Get(rec, TieneHijos).b then ConHijos(Get(rec, NumeroHijos).n) else SinHijos
  {
    ValidateSucceeds(env, rec);
    IdentityNormalises(env, rec);
    BirthNormalises(env, rec);
    ResidenceNormalises(env, rec);
    CorrespondenceNormalises(env, rec);
    PersonalNormalises(env, rec);
    ContactNormalises(env, rec);
  }

  // ---- submitting an accepted applicant again ----

  /** Whether `rec` holds the properties of the schema's output for `p`, as a caller would submit it again. */
  predicate Holds(rec: Record, p: Postulante) {
    IdentityEncoded(rec, p.base.identity) &&
    BirthEncoded(rec, p.base.birth) &&
    ResidenceEncoded(rec, p.base.residence) &&
    CorrespondenceEncoded(rec, p.base.correspondence) &&
    PersonalEncoded(rec, p.base.personal) &&
    ContactEncoded(rec, p.base.contact) &&
    Get(rec, TieneHijos) == JsBool(p.hijos.ConHijos?) &&
    (p.hijos.ConHijos? ==> Get(rec, NumeroHijos) == JsNumber(p.hijos.numeroHijos))
  }

  /** Whether a required text of `rec` is white space only: it passes `min(1)` but trims to "". */
  predicate Blank(rec: Record) {
    IdentityBlank(rec) || BirthBlank(rec) || ResidenceBlank(rec) || ContactBlank(rec)
  }

  /**
   * Parsing an accepted applicant's output again accepts it exactly when no
   * required text was white space only, and then gives the same applicant.
   * The e-mail rule is a parameter, so it is asked to accept its own
   * normalised output.
   */
  lemma ValidateIdempotent(env: Env, rec: Record, again: Record)
    requires Validate(env, rec).Success?
    requires env.isEmail(Validate(env, rec).value.base.contact.correo)
    requires Holds(again, Validate(env, rec).value)
    ensures Validate(env, again).Success? <==> !Blank(rec)
    ensures Validate(env, again).Success? ==> Validate(env, again) == Validate(env, rec)
  {
    var p := Validate(env, rec).value;
    ValidateSucceeds(env, rec);
    ValidateSucceeds(env, again);

    IdentityReparse(env, rec, again);
    BirthReparse(env, rec, again);
    ResidenceReparse(env, rec, again);
    CorrespondenceReparse(env, rec, again);
    PersonalReparse(env, rec, again);
    ContactReparse(env, rec, again);
    assert TieneHijosUnion(again) == TieneHijosUnion(rec);
  }

  // ---- the form's default values ----

  /**
   * Whether `rec` holds the applicant form's default values: every text
   * empty, the birth date the instant `now` the form was opened, one person
   * in care given as a number, and no children.
   */
  predicate DefaultForm(rec: Record, now: int) {
    Get(rec, TipoDocumento) == JsString("") &&
    Get(rec, NumeroDocumento) == JsString("") &&
    Get(rec, PrimerNombre) == JsString("") &&
    Get(rec, SegundoNombre) == JsString("") &&
    Get(rec, PrimerApellido) == JsString("") &&
    Get(rec, SegundoApellido) == JsString("") &&
    Get(rec, FechaNacimiento) == JsDate(now) &&
    Get(rec, PaisNacimiento) == JsString("") &&
    Get(rec, DepartamentoNacimiento) == JsString("") &&
    Get(rec, CiudadNacimiento) == JsString("") &&
    Get(rec, BarrioResidencia) == JsString("") &&
    Get(rec, DireccionResidencia) == JsString("") &&
    Get(rec, CiudadResidencia) == JsString("") &&
    Get(rec, DepartamentoResidencia) == JsString("") &&
    Get(rec, BarrioCorrespondencia) == JsString("") &&
    Get(rec, DireccionCorrespondencia) == JsString("") &&
    Get(rec, CiudadCorrespondencia) == JsString("") &&
    Get(rec, DepartamentoCorrespondencia) == JsString("") &&
    Get(rec, Sexo) == JsString("") &&
    Get(rec, TipoSangre) == JsString("") &&
    Get(rec, EstadoCivil) == JsString("") &&
    Get(rec, PersonasACargo) == JsNumber(1.0) &&
    Get(rec, Celular) == JsString("") &&
    Get(rec, Correo) == JsString("") &&
    Get(rec, Telefono) == JsString("") &&
    Get(rec, TieneHijos) == JsBool(false)
  }

  /** The properties the untouched form breaks. */
  const DefaultBreaches: set<FieldName> := {
    TipoDocumento,
    NumeroDocumento,
    PrimerNombre,
    PrimerApellido,
    FechaNacimiento,
    PaisNacimiento,
    DepartamentoNacimiento,
    CiudadNacimiento,
    BarrioResidencia,
    DireccionResidencia,
    CiudadResidencia,
    DepartamentoResidencia,
    Sexo,
    TipoSangre,
    EstadoCivil,
    PersonasACargo,
    Celular,
    Correo}

  lemma DefaultIdentity(env: Env, rec: Record, now: int, g: FieldName)
    requires DefaultForm(rec, now)
    requires "" !in env.options.tiposDocumento
    ensures IdentityRejects(env, rec, g) <==> g == TipoDocumento || g == NumeroDocumento || g == PrimerNombre || g == PrimerApellido
  {
  }

  lemma DefaultBirth(env: Env, rec: Record, now: int, g: FieldName)
    requires DefaultForm(rec, now)
    requires env.cutoff < now
    ensures BirthRejects(env, rec, g) <==> g == FechaNacimiento || g == PaisNacimiento || g == DepartamentoNacimiento || g == CiudadNacimiento
  {
  }

  lemma DefaultResidence(env: Env, rec: Record, now: int, g: FieldName)
    requires DefaultForm(rec, now)
    ensures ResidenceRejects(env, rec, g) <==> g == BarrioResidencia || g == DireccionResidencia || g == CiudadResidencia || g == DepartamentoResidencia
  {
  }

  lemma DefaultCorrespondence(env: Env, rec: Record, now: int, g: FieldName)
    requires DefaultForm(rec, now)
    ensures !CorrespondenceRejects(env, rec, g)
  {
  }

  lemma DefaultPersonal(env: Env, rec: Record, now: int, g: FieldName)
    requires DefaultForm(rec, now)
    requires "" !in env.options.sexos && "" !in env.options.tiposSangre && "" !in env.options.estadosCiviles
    ensures PersonalRejects(env, rec, g) <==> g == Sexo || g == TipoSangre || g == EstadoCivil || g == PersonasACargo
  {
  }

  lemma DefaultContact(env: Env, rec: Record, now: int, g: FieldName)
    requires DefaultForm(rec, now)
    ensures ContactRejects(env, rec, g) <==> g == Celular || g == Correo
  {
  }

  lemma DefaultBreachesListed(g: FieldName)
    ensures g in DefaultBreaches <==> g == TipoDocumento || g == NumeroDocumento || g == PrimerNombre || g == PrimerApellido || g == FechaNacimiento || g == PaisNacimiento || g == DepartamentoNacimiento || g == CiudadNacimiento || g == BarrioResidencia || g == DireccionResidencia || g == CiudadResidencia || g == DepartamentoResidencia || g == Sexo || g == TipoSangre || g == EstadoCivil || g == PersonasACargo || g == Celular || g == Correo
  {
  }

  /**
   * The untouched form is rejected, and its issues name exactly the required
   * properties left empty, the birth date (later than the cutoff), and the
   * number in care (a number where text is expected). The optional texts,
   * the empty phone and the children part pass.
   */
  lemma DefaultFormRejected(env: Env, rec: Record, now: int)
    requires DefaultForm(rec, now)
    requires env.cutoff < now
    requires "" !in env.options.tiposDocumento && "" !in env.options.sexos
    requires "" !in env.options.tiposSangre && "" !in env.options.estadosCiviles
    ensures Validate(env, rec).Failure?
    ensures forall g :: Reports(Errors(Validate(env, rec)), g) <==> g in DefaultBreaches
  {
    forall g ensures Reports(Errors(Validate(env, rec)), g) <==> g in DefaultBreaches {
      ValidateReports(env, rec, g);
      DefaultIdentity(env, rec, now, g);
      DefaultBirth(env, rec, now, g);
      DefaultResidence(env, rec, now, g);
      DefaultCorrespondence(env, rec, now, g);
      DefaultPersonal(env, rec, now, g);
      DefaultContact(env, rec, now, g);
      assert Reports(Errors(Validate(env, rec)), g) <==> IdentityRejects(env, rec, g) || BirthRejects(env, rec, g) || ResidenceRejects(env, rec, g) || CorrespondenceRejects(env, rec, g) || PersonalRejects(env, rec, g) || ContactRejects(env, rec, g) || HijosRejects(rec, g);
      assert !HijosRejects(rec, g);
      DefaultBreachesListed(g);
    }
    assert Reports(Errors(Validate(env, rec)), Correo);
  }
}
