/**
 * `ConyugeSchema`, the spouse form's schema: an object of the spouse's
 * person data and the applicant's document number, intersected (`.and`)
 * with `tieneTrabajoSchema`, a union discriminated by `tiene_trabajo` that
 * asks for the employer's data when the spouse works.
 */
module ConyugeSchema {
  import opened Wrappers
  import opened Keys
  import opened JsValues
  import opened JsText
  import opened Zod
  import opened FieldRules
  import opened PersonData
  import Phone

  /** The applicant the spouse belongs to: `numero_documento_postulante`. */
  datatype Reference = Reference(
    numeroDocumentoPostulante: string)

  /** The properties of the reference section, in the order of the shape. */
  const ReferenceShape: seq<FieldName> := [NumeroDocumentoPostulante]

  /** The reference properties of the object: their issues in shape order, or their values. */
  function ReferenceObject(env: Env, rec: Record): Parsed<Reference> {
    var issues :=
      At(NumeroDocumentoPostulante, BoundedText(6, 10, Get(rec, NumeroDocumentoPostulante)));
    if issues != [] then Failure(issues)
    else Success(Reference(
      BoundedText(6, 10, Get(rec, NumeroDocumentoPostulante)).value))
  }

  /** Whether the reference section reports property `g`: it is one of them and breaks its rule. */
  predicate ReferenceRejects(env: Env, rec: Record, g: FieldName) {
    (g == NumeroDocumentoPostulante && !HasLength(Get(rec, NumeroDocumentoPostulante), 6, 10))
  }

  /** The section's issues are its properties' issues, in shape order. */
  lemma ReferenceErrors(env: Env, rec: Record)
    ensures Errors(ReferenceObject(env, rec)) ==
      At(NumeroDocumentoPostulante, BoundedText(6, 10, Get(rec, NumeroDocumentoPostulante)))
  {
  }

  /** The section reports exactly the properties that break their rules. */
  lemma {:induction false} ReferenceReports(env: Env, rec: Record, g: FieldName)
    ensures Reports(Errors(ReferenceObject(env, rec)), g) <==> ReferenceRejects(env, rec, g)
  {
    ReferenceErrors(env, rec);
    BoundedTextAt(NumeroDocumentoPostulante, 6, 10, Get(rec, NumeroDocumentoPostulante), g);
  }

  /** The section accepts exactly when it reports no property. */
  lemma ReferenceSucceeds(env: Env, rec: Record)
    ensures ReferenceObject(env, rec).Success? <==> forall g :: !ReferenceRejects(env, rec, g)
  {
    if ReferenceObject(env, rec).Success? {
      forall g ensures !ReferenceRejects(env, rec, g) {
        ReferenceReports(env, rec, g);
      }
    } else {
      assert ReferenceRejects(env, rec, NumeroDocumentoPostulante);
    }
  }

  /** What the reference section makes of an accepted record. */
  predicate ReferenceNormalised(rec: Record, s: Reference) {
    s.numeroDocumentoPostulante == Text(rec, NumeroDocumentoPostulante)
  }

  lemma ReferenceNormalises(env: Env, rec: Record)
    requires ReferenceObject(env, rec).Success?
    ensures ReferenceNormalised(rec, ReferenceObject(env, rec).value)
  {
  }

  /** Whether `rec` holds the reference values `s`, as a form would submit them again. */
  predicate ReferenceEncoded(rec: Record, s: Reference) {
    Get(rec, NumeroDocumentoPostulante) == JsString(s.numeroDocumentoPostulante)
  }

  /**
   * The reference values of an accepted record, submitted again, are
   * accepted, and come back unchanged.
   */
  lemma ReferenceReparse(env: Env, rec: Record, again: Record)
    requires ReferenceObject(env, rec).Success?
    requires ReferenceEncoded(again, ReferenceObject(env, rec).value)
    ensures ReferenceObject(env, again).Success?
    ensures ReferenceObject(env, again).Success? ==> ReferenceObject(env, again) == ReferenceObject(env, rec)
  {
  }

  /** The employer, asked for when `tiene_trabajo` is `true`: `nombre_empresa` to `cargo_conyuge_empresa`. */
  datatype Employer = Employer(
    nombreEmpresa: string,
    direccionEmpresa: string,
    tipoDeEmpresa: string,
    telefonoEmpresa: Option<string>,
    ciudadEmpresa: string,
    cargoConyugeEmpresa: string)

  /** The properties of the employer section, in the order of the shape. */
  const EmployerShape: seq<FieldName> := [NombreEmpresa, DireccionEmpresa, TipoDeEmpresa, TelefonoEmpresa, CiudadEmpresa, CargoConyugeEmpresa]

  /** The employer properties of the object: their issues in shape order, or their values. */
  function EmployerObject(env: Env, rec: Record): Parsed<Employer> {
    var issues :=
      At(NombreEmpresa, RequiredText(100, Get(rec, NombreEmpresa))) +
      At(DireccionEmpresa, RequiredText(100, Get(rec, DireccionEmpresa))) +
      At(TipoDeEmpresa, RequiredText(100, Get(rec, TipoDeEmpresa))) +
      At(TelefonoEmpresa, OptionalPhone(Get(rec, TelefonoEmpresa))) +
      At(CiudadEmpresa, RequiredText(100, Get(rec, CiudadEmpresa))) +
      At(CargoConyugeEmpresa, RequiredText(100, Get(rec, CargoConyugeEmpresa)));
    if issues != [] then Failure(issues)
    else Success(Employer(
      RequiredText(100, Get(rec, NombreEmpresa)).value,
      RequiredText(100, Get(rec, DireccionEmpresa)).value,
      RequiredText(100, Get(rec, TipoDeEmpresa)).value,
      OptionalPhone(Get(rec, TelefonoEmpresa)).value,
      RequiredText(100, Get(rec, CiudadEmpresa)).value,
      RequiredText(100, Get(rec, CargoConyugeEmpresa)).value))
  }

  /** Whether the employer section reports property `g`: it is one of them and breaks its rule. */
  predicate EmployerRejects(env: Env, rec: Record, g: FieldName) {
    (g == NombreEmpresa && !HasLength(Get(rec, NombreEmpresa), 1, 100)) ||
    (g == DireccionEmpresa && !HasLength(Get(rec, DireccionEmpresa), 1, 100)) ||
    (g == TipoDeEmpresa && !HasLength(Get(rec, TipoDeEmpresa), 1, 100)) ||
    (g == TelefonoEmpresa && !PhoneOrEmpty(Get(rec, TelefonoEmpresa))) ||
    (g == CiudadEmpresa && !HasLength(Get(rec, CiudadEmpresa), 1, 100)) ||
    (g == CargoConyugeEmpresa && !HasLength(Get(rec, CargoConyugeEmpresa), 1, 100))
  }

  /** The section's issues are its properties' issues, in shape order. */
  lemma EmployerErrors(env: Env, rec: Record)
    ensures Errors(EmployerObject(env, rec)) ==
      At(NombreEmpresa, RequiredText(100, Get(rec, NombreEmpresa))) +
      At(DireccionEmpresa, RequiredText(100, Get(rec, DireccionEmpresa))) +
      At(TipoDeEmpresa, RequiredText(100, Get(rec, TipoDeEmpresa))) +
      At(TelefonoEmpresa, OptionalPhone(Get(rec, TelefonoEmpresa))) +
      At(CiudadEmpresa, RequiredText(100, Get(rec, CiudadEmpresa))) +
      At(CargoConyugeEmpresa, RequiredText(100, Get(rec, CargoConyugeEmpresa)))
  {
  }

  /** The section reports exactly the properties that break their rules. */
  lemma {:induction false} EmployerReports(env: Env, rec: Record, g: FieldName)
    ensures Reports(Errors(EmployerObject(env, rec)), g) <==> EmployerRejects(env, rec, g)
  {
    EmployerErrors(env, rec);
    ReportsConcat6(
      At(NombreEmpresa, RequiredText(100, Get(rec, NombreEmpresa))),
      At(DireccionEmpresa, RequiredText(100, Get(rec, DireccionEmpresa))),
      At(TipoDeEmpresa, RequiredText(100, Get(rec, TipoDeEmpresa))),
      At(TelefonoEmpresa, OptionalPhone(Get(rec, TelefonoEmpresa))),
      At(CiudadEmpresa, RequiredText(100, Get(rec, CiudadEmpresa))),
      At(CargoConyugeEmpresa, RequiredText(100, Get(rec, CargoConyugeEmpresa))), g);
    RequiredTextAt(NombreEmpresa, 100, Get(rec, NombreEmpresa), g);
    RequiredTextAt(DireccionEmpresa, 100, Get(rec, DireccionEmpresa), g);
    RequiredTextAt(TipoDeEmpresa, 100, Get(rec, TipoDeEmpresa), g);
    OptionalPhoneAt(TelefonoEmpresa, Get(rec, TelefonoEmpresa), g);
    RequiredTextAt(CiudadEmpresa, 100, Get(rec, CiudadEmpresa), g);
    RequiredTextAt(CargoConyugeEmpresa, 100, Get(rec, CargoConyugeEmpresa), g);
  }

  /** The section accepts exactly when it reports no property. */
  lemma EmployerSucceeds(env: Env, rec: Record)
    ensures EmployerObject(env, rec).Success? <==> forall g :: !EmployerRejects(env, rec, g)
  {
    if EmployerObject(env, rec).Success? {
      forall g ensures !EmployerRejects(env, rec, g) {
        EmployerReports(env, rec, g);
      }
    } else {
      assert EmployerRejects(env, rec, NombreEmpresa) || EmployerRejects(env, rec, DireccionEmpresa) || EmployerRejects(env, rec, TipoDeEmpresa) || EmployerRejects(env, rec, TelefonoEmpresa) || EmployerRejects(env, rec, CiudadEmpresa) || EmployerRejects(env, rec, CargoConyugeEmpresa);
    }
  }

  /** What the employer section makes of an accepted record. */
  predicate EmployerNormalised(rec: Record, s: Employer) {
    s.nombreEmpresa == Normalise(Upper, Text(rec, NombreEmpresa)) &&
    s.direccionEmpresa == Normalise(Upper, Text(rec, DireccionEmpresa)) &&
    s.tipoDeEmpresa == Normalise(Upper, Text(rec, TipoDeEmpresa)) &&
    s.telefonoEmpresa == StringOption(Get(rec, TelefonoEmpresa)) &&
    s.ciudadEmpresa == Normalise(Upper, Text(rec, CiudadEmpresa)) &&
    s.cargoConyugeEmpresa == Normalise(Upper, Text(rec, CargoConyugeEmpresa))
  }

  lemma EmployerNormalises(env: Env, rec: Record)
    requires EmployerObject(env, rec).Success?
    ensures EmployerNormalised(rec, EmployerObject(env, rec).value)
  {
  }

  /** Whether `rec` holds the employer values `s`, as a form would submit them again. */
  predicate EmployerEncoded(rec: Record, s: Employer) {
    Get(rec, NombreEmpresa) == JsString(s.nombreEmpresa) &&
    Get(rec, DireccionEmpresa) == JsString(s.direccionEmpresa) &&
    Get(rec, TipoDeEmpresa) == JsString(s.tipoDeEmpresa) &&
    Get(rec, TelefonoEmpresa) == OptionValue(s.telefonoEmpresa) &&
    Get(rec, CiudadEmpresa) == JsString(s.ciudadEmpresa) &&
    Get(rec, CargoConyugeEmpresa) == JsString(s.cargoConyugeEmpresa)
  }

  /** Whether a required text of the employer section is white space only. */
  predicate EmployerBlank(rec: Record) {
    AllWhiteSpace(Text(rec, NombreEmpresa)) ||
    AllWhiteSpace(Text(rec, DireccionEmpresa)) ||
    AllWhiteSpace(Text(rec, TipoDeEmpresa)) ||
    AllWhiteSpace(Text(rec, CiudadEmpresa)) ||
    AllWhiteSpace(Text(rec, CargoConyugeEmpresa))
  }

  /**
   * The employer values of an accepted record, submitted again, are
   * accepted exactly when no required text was white space only, and then
   * come back unchanged.
   */
  lemma EmployerReparse(env: Env, rec: Record, again: Record)
    requires EmployerObject(env, rec).Success?
    requires EmployerEncoded(again, EmployerObject(env, rec).value)
    ensures EmployerObject(env, again).Success? <==> !EmployerBlank(rec)
    ensures EmployerObject(env, again).Success? ==> EmployerObject(env, again) == EmployerObject(env, rec)
  {
    RequiredTextReparse(100, Get(rec, NombreEmpresa));
    RequiredTextReparse(100, Get(rec, DireccionEmpresa));
    RequiredTextReparse(100, Get(rec, TipoDeEmpresa));
    OptionalPhoneReparse(Get(rec, TelefonoEmpresa));
    RequiredTextReparse(100, Get(rec, CiudadEmpresa));
    RequiredTextReparse(100, Get(rec, CargoConyugeEmpresa));
  }

  // ---- the object ----

  /** The values of the object part, section by section. */
  datatype ConyugeBase = ConyugeBase(
    identity: Identity,
    birth: Birth,
    residence: Residence,
    contact: Contact,
    reference: Reference)

  /** The object's properties, in the order of its shape. */
  const BaseShape: seq<FieldName> :=
    IdentityShape + BirthShape + ResidenceShape + ContactShape + ReferenceShape

  /** The object part: every property's issues, in shape order, or all values. */
  function BaseObject(env: Env, rec: Record): Parsed<ConyugeBase> {
    var identity := IdentityObject(env, rec);
    var birth := BirthObject(env, rec);
    var residence := ResidenceObject(env, rec);
    var contact := ContactObject(env, rec);
    var reference := ReferenceObject(env, rec);
    var issues := Errors(identity) + Errors(birth) + Errors(residence) + Errors(contact) + Errors(reference);
    assert |issues| == |Errors(identity)| + |Errors(birth)| + |Errors(residence)| + |Errors(contact)| + |Errors(reference)|;
    if issues != [] then Failure(issues)
    else Success(ConyugeBase(identity.value, birth.value, residence.value, contact.value, reference.value))
  }

  // ---- tieneTrabajoSchema ----

  /** The work part: no work, or the employer. */
  datatype Trabajo = SinTrabajo | ConTrabajo(empresa: Employer)

  /**
   * `tieneTrabajoSchema`: the option is chosen by `tiene_trabajo`; with
   * `false` nothing else is read, with `true` the employer's properties are
   * parsed (the tag itself is the option's `z.literal(true)`, which then
   * holds), and any other `tiene_trabajo` matches no option.
   */
  function TieneTrabajoUnion(env: Env, rec: Record): (r: Parsed<Trabajo>)
    ensures r.Success? <==>
              Get(rec, TieneTrabajo).JsBool? && (Get(rec, TieneTrabajo).b ==> EmployerObject(env, rec).Success?)
    ensures r.Success? && !Get(rec, TieneTrabajo).b ==> r.value == SinTrabajo
    ensures r.Success? && Get(rec, TieneTrabajo).b ==> r.value == ConTrabajo(EmployerObject(env, rec).value)
    ensures !Get(rec, TieneTrabajo).JsBool? ==> r == Failure([Issue([Field(TieneTrabajo)], InvalidUnion)])
  {
    match Get(rec, TieneTrabajo)
    case JsBool(b) =>
      if !b then Success(SinTrabajo)
      else
        var e := EmployerObject(env, rec);
        if e.Success? then Success(ConTrabajo(e.value)) else Failure(e.error)
    case _ => Failure([Issue([Field(TieneTrabajo)], InvalidUnion)])
  }

  /** Whether the union reports property `g`: a bad tag, or a bad employer property under `true`. */
  predicate TrabajoRejects(env: Env, rec: Record, g: FieldName) {
    (g == TieneTrabajo && !Get(rec, TieneTrabajo).JsBool?) ||
    (Get(rec, TieneTrabajo) == JsBool(true) && EmployerRejects(env, rec, g))
  }

  /** The union's issues: the employer's under `true`, none under `false`, a union issue otherwise. */
  lemma TrabajoErrors(env: Env, rec: Record)
    ensures Errors(TieneTrabajoUnion(env, rec)) ==
      if Get(rec, TieneTrabajo) == JsBool(true) then Errors(EmployerObject(env, rec))
      else if Get(rec, TieneTrabajo).JsBool? then []
      else [Issue([Field(TieneTrabajo)], InvalidUnion)]
  {
  }

  lemma TrabajoReports(env: Env, rec: Record, g: FieldName)
    ensures Reports(Errors(TieneTrabajoUnion(env, rec)), g) <==> TrabajoRejects(env, rec, g)
  {
    TrabajoErrors(env, rec);
    if Get(rec, TieneTrabajo) == JsBool(true) {
      EmployerReports(env, rec, g);
    } else if !Get(rec, TieneTrabajo).JsBool? {
      var issues := [Issue([Field(TieneTrabajo)], InvalidUnion)];
      assert Reports(issues, g) <==> g == TieneTrabajo by { assert issues[1..] == []; }
    }
  }

  /** The union accepts exactly when it reports no property. */
  lemma TrabajoSucceeds(env: Env, rec: Record)
    ensures TieneTrabajoUnion(env, rec).Success? <==> forall g :: !TrabajoRejects(env, rec, g)
  {
    if TieneTrabajoUnion(env, rec).Success? {
      forall g ensures !TrabajoRejects(env, rec, g) {
        TrabajoReports(env, rec, g);
      }
    } else if !Get(rec, TieneTrabajo).JsBool? {
      assert TrabajoRejects(env, rec, TieneTrabajo);
    } else {
      EmployerSucceeds(env, rec);
      var g :| EmployerRejects(env, rec, g);
      assert TrabajoRejects(env, rec, g);
    }
  }

  // ---- the schema ----

  /** An accepted spouse: the object part and the work part. */
  datatype Conyuge = Conyuge(base: ConyugeBase, trabajo: Trabajo)

  /**
   * `ConyugeSchema.safeParse`: both sides of the intersection parse the
   * record, and the issues are the object's followed by the union's. The
   * two outputs share no key, so merging them never fails.
   */
  function Validate(env: Env, rec: Record): Parsed<Conyuge> {
    var base := BaseObject(env, rec);
    var trabajo := TieneTrabajoUnion(env, rec);
    if base.Success? && trabajo.Success? then Success(Conyuge(base.value, trabajo.value))
    else Failure(Errors(base) + Errors(trabajo))
  }

  /**
   * Whether property `g` of `rec` meets its rule in the schema: no section
   * of the object and no option of the union finds it broken. Properties the
   * schema does not read always do.
   */
  predicate MeetsRule(env: Env, rec: Record, g: FieldName) {
    !(IdentityRejects(env, rec, g) ||
      BirthRejects(env, rec, g) ||
      ResidenceRejects(env, rec, g) ||
      ContactRejects(env, rec, g) ||
      ReferenceRejects(env, rec, g) ||
      TrabajoRejects(env, rec, g))
  }

  /** The schema reports exactly the properties that break their rules, each of them. */
  lemma {:induction false} ValidateReports(env: Env, rec: Record, g: FieldName)
    ensures Reports(Errors(Validate(env, rec)), g) <==> !MeetsRule(env, rec, g)
  {
    IdentityReports(env, rec, g);
    BirthReports(env, rec, g);
    ResidenceReports(env, rec, g);
    ContactReports(env, rec, g);
    ReferenceReports(env, rec, g);
    TrabajoReports(env, rec, g);
    ReportsConcat6(
      Errors(IdentityObject(env, rec)),
      Errors(BirthObject(env, rec)),
      Errors(ResidenceObject(env, rec)),
      Errors(ContactObject(env, rec)),
      Errors(ReferenceObject(env, rec)),
      Errors(TieneTrabajoUnion(env, rec)), g);
    assert Errors(Validate(env, rec)) == Errors(IdentityObject(env, rec)) + Errors(BirthObject(env, rec)) + Errors(ResidenceObject(env, rec)) + Errors(ContactObject(env, rec)) + Errors(ReferenceObject(env, rec)) + Errors(TieneTrabajoUnion(env, rec));
  }

  /** The schema accepts exactly when every section and the union accept. */
  lemma ValidateSucceeds(env: Env, rec: Record)
    ensures Validate(env, rec).Success? <==>
      IdentityObject(env, rec).Success? &&
      BirthObject(env, rec).Success? &&
      ResidenceObject(env, rec).Success? &&
      ContactObject(env, rec).Success? &&
      ReferenceObject(env, rec).Success? &&
      TieneTrabajoUnion(env, rec).Success?
  {
  }

  /** A record is accepted exactly when every property meets its rule. */
  lemma ValidateAccepts(env: Env, rec: Record)
    ensures Validate(env, rec).Success? <==> forall g :: MeetsRule(env, rec, g)
  {
    if forall g :: MeetsRule(env, rec, g) {
      forall g ensures !IdentityRejects(env, rec, g) { assert MeetsRule(env, rec, g); }
      IdentitySucceeds(env, rec);
      forall g ensures !BirthRejects(env, rec, g) { assert MeetsRule(env, rec, g); }
      BirthSucceeds(env, rec);
      forall g ensures !ResidenceRejects(env, rec, g) { assert MeetsRule(env, rec, g); }
      ResidenceSucceeds(env, rec);
      forall g ensures !ContactRejects(env, rec, g) { assert MeetsRule(env, rec, g); }
      ContactSucceeds(env, rec);
      forall g ensures !ReferenceRejects(env, rec, g) { assert MeetsRule(env, rec, g); }
      ReferenceSucceeds(env, rec);
      forall g ensures !TrabajoRejects(env, rec, g) { assert MeetsRule(env, rec, g); }
      TrabajoSucceeds(env, rec);
      ValidateSucceeds(env, rec);
    } else {
      var g :| !MeetsRule(env, rec, g);
      ValidateReports(env, rec, g);
    }
  }

  /** What an accepted spouse holds: each section's normalised values and the work part. */
  lemma ValidateNormalises(env: Env, rec: Record)
    requires Validate(env, rec).Success?
    ensures IdentityNormalised(rec, Validate(env, rec).value.base.identity)
    ensures BirthNormalised(rec, Validate(env, rec).value.base.birth)
    ensures ResidenceNormalised(rec, Validate(env, rec).value.base.residence)
    ensures ContactNormalised(rec, Validate(env, rec).value.base.contact)
    ensures ReferenceNormalised(rec, Validate(env, rec).value.base.reference)
    ensures Validate(env, rec).value.trabajo.ConTrabajo? <==> Get(rec, TieneTrabajo).b
    ensures Validate(env, rec).value.trabajo.ConTrabajo? ==> EmployerNormalised(rec, Validate(env, rec).value.trabajo.empresa)
  {
    ValidateSucceeds(env, rec);
    IdentityNormalises(env, rec);
    BirthNormalises(env, rec);
    ResidenceNormalises(env, rec);
    ContactNormalises(env, rec);
    ReferenceNormalises(env, rec);
    if Get(rec, TieneTrabajo).b {
      EmployerNormalises(env, rec);
    }
  }

  // ---- submitting an accepted spouse again ----

  /** Whether `rec` holds the properties of the schema's output for `p`, as a caller would submit it again. */
  predicate Holds(rec: Record, p: Conyuge) {
    IdentityEncoded(rec, p.base.identity) &&
    BirthEncoded(rec, p.base.birth) &&
    ResidenceEncoded(rec, p.base.residence) &&
    ContactEncoded(rec, p.base.contact) &&
    ReferenceEncoded(rec, p.base.reference) &&
    Get(rec, TieneTrabajo) == JsBool(p.trabajo.ConTrabajo?) &&
    (p.trabajo.ConTrabajo? ==> EmployerEncoded(rec, p.trabajo.empresa))
  }

  /**
   * Whether a required text of `rec` is white space only: it passes `min(1)`
   * but trims to "". The employer's texts count when the spouse works.
   */
  predicate Blank(rec: Record) {
    IdentityBlank(rec) || BirthBlank(rec) || ResidenceBlank(rec) || ContactBlank(rec) ||
    (Get(rec, TieneTrabajo) == JsBool(true) && EmployerBlank(rec))
  }

  /**
   * Parsing an accepted spouse's output again accepts it exactly when no
   * required text was white space only, and then gives the same spouse.
   * The e-mail rule is a parameter, so it is asked to accept its own
   * normalised output.
   */
  lemma ValidateIdempotent(env: Env, rec: Record, again: Record)
    requires Validate(env, rec).Success?
    requires env.isEmail(Validate(env, rec).value.base.contact.correo)
    requires Holds(again, Validate(env, rec).value)
    ensures Validate(env, again).Success? <==> !Blank(rec)
    ensures Validate(env, again).Success? ==> Validate(env, again) == Validate(env, rec)
  {
    ValidateSucceeds(env, rec);
    ValidateSucceeds(env, again);

    IdentityReparse(env, rec, again);
    BirthReparse(env, rec, again);
    ResidenceReparse(env, rec, again);
    ContactReparse(env, rec, again);
    ReferenceReparse(env, rec, again);
    if Get(rec, TieneTrabajo).b {
      EmployerReparse(env, rec, again);
    }
  }

  // ---- the form's default values ----

  /** `new Date("1999-02-07")`: a date-only string is read as midnight UTC, in milliseconds. */
  const DefaultBirthTime: int := 918345600000

  /**
   * Whether `rec` holds the spouse form's default values: a filled-in
   * example spouse without work, and no applicant document number yet.
   */
  predicate DefaultForm(rec: Record) {
    DefaultIdentityValues(rec) &&
    DefaultBirthValues(rec) &&
    DefaultResidenceValues(rec) &&
    DefaultContactValues(rec) &&
    DefaultReferenceValues(rec) &&
    Get(rec, TieneTrabajo) == JsBool(false)
  }

  predicate DefaultIdentityValues(rec: Record) {
    Get(rec, TipoDocumento) == JsString("CC") &&
    Get(rec, NumeroDocumento) == JsString("1143994968") &&
    Get(rec, PrimerNombre) == JsString("steven") &&
    Get(rec, SegundoNombre) == JsString("") &&
    Get(rec, PrimerApellido) == JsString("alvarado") &&
    Get(rec, SegundoApellido) == JsString("paez")
  }

  predicate DefaultBirthValues(rec: Record) {
    Get(rec, FechaNacimiento) == JsDate(DefaultBirthTime) &&
    Get(rec, PaisNacimiento) == JsString("colombia") &&
    Get(rec, DepartamentoNacimiento) == JsString("valle del cauca") &&
    Get(rec, CiudadNacimiento) == JsString("cali")
  }

  predicate DefaultResidenceValues(rec: Record) {
    Get(rec, BarrioResidencia) == JsString("villacolombia") &&
    Get(rec, DireccionResidencia) == JsString("Calle 33b #12A 15") &&
    Get(rec, CiudadResidencia) == JsString("cali") &&
    Get(rec, DepartamentoResidencia) == JsString("valle del cauca")
  }

  predicate DefaultContactValues(rec: Record) {
    Get(rec, Celular) == JsString("3192976668") &&
    Get(rec, Correo) == JsString("stevenalvarado@example.com") &&
    Get(rec, Telefono) == JsString("123456789")
  }

  predicate DefaultReferenceValues(rec: Record) {
    Get(rec, NumeroDocumentoPostulante) == JsString("")
  }

  lemma DefaultIdentity(env: Env, rec: Record, g: FieldName)
    requires DefaultIdentityValues(rec)
    requires "CC" in env.options.tiposDocumento
    ensures !IdentityRejects(env, rec, g)
  {
  }

  lemma DefaultBirth(env: Env, rec: Record, g: FieldName)
    requires DefaultBirthValues(rec)
    requires DefaultBirthTime <= env.cutoff
    ensures !BirthRejects(env, rec, g)
  {
  }

  lemma DefaultResidence(env: Env, rec: Record, g: FieldName)
    requires DefaultResidenceValues(rec)
    ensures !ResidenceRejects(env, rec, g)
  {
  }

  lemma DefaultContact(env: Env, rec: Record, g: FieldName)
    requires DefaultContactValues(rec)
    requires env.isEmail("stevenalvarado@example.com")
    ensures !ContactRejects(env, rec, g)
  {
    Phone.PhoneExamples();
  }

  lemma DefaultReference(env: Env, rec: Record, g: FieldName)
    requires DefaultReferenceValues(rec)
    ensures ReferenceRejects(env, rec, g) <==> g == NumeroDocumentoPostulante
  {
  }

  /**
   * The untouched form is rejected on the applicant's document number alone,
   * provided the example's document type is an option, its birth date is
   * at least eighteen years back and its address is an e-mail address.
   */
  lemma DefaultFormRejected(env: Env, rec: Record)
    requires DefaultForm(rec)
    requires "CC" in env.options.tiposDocumento
    requires DefaultBirthTime <= env.cutoff
    requires env.isEmail("stevenalvarado@example.com")
    ensures Validate(env, rec).Failure?
    ensures forall g :: Reports(Errors(Validate(env, rec)), g) <==> g == NumeroDocumentoPostulante
  {
    forall g ensures Reports(Errors(Validate(env, rec)), g) <==> g == NumeroDocumentoPostulante {
      ValidateReports(env, rec, g);
      DefaultIdentity(env, rec, g);
      DefaultBirth(env, rec, g);
      DefaultResidence(env, rec, g);
      DefaultContact(env, rec, g);
      DefaultReference(env, rec, g);
      assert Reports(Errors(Validate(env, rec)), g) <==> IdentityRejects(env, rec, g) || BirthRejects(env, rec, g) || ResidenceRejects(env, rec, g) || ContactRejects(env, rec, g) || ReferenceRejects(env, rec, g) || TrabajoRejects(env, rec, g);
      assert !TrabajoRejects(env, rec, g);
    }
    assert Reports(Errors(Validate(env, rec)), NumeroDocumentoPostulante);
  }
}
