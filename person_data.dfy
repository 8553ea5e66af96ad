/**
 * The sections of person data the applicant and spouse schemas share, with
 * the same rules in both: identity, birth, residence and contact. Each is
 * a run of consecutive properties of the schema's object; an object's
 * issues are its sections' issues in order, which is the order of its shape.
 */
module PersonData {
  import opened Wrappers
  import opened Keys
  import opened JsValues
  import opened JsText
  import opened Zod
  import opened FieldRules

  /** Document and names: `tipo_documento` to `segundo_apellido`. */
  datatype Identity = Identity(
    tipoDocumento: string,
    numeroDocumento: string,
    primerNombre: string,
    segundoNombre: Option<string>,
    primerApellido: string,
    segundoApellido: Option<string>)

  /** The properties of the identity section, in the order of the shape. */
  const IdentityShape: seq<FieldName> := [TipoDocumento, NumeroDocumento, PrimerNombre, SegundoNombre, PrimerApellido, SegundoApellido]

  /** The identity properties of the object: their issues in shape order, or their values. */
  function IdentityObject(env: Env, rec: Record): Parsed<Identity> {
    var issues :=
      At(TipoDocumento, Choice(env.options.tiposDocumento, Get(rec, TipoDocumento))) +
      At(NumeroDocumento, BoundedText(6, 10, Get(rec, NumeroDocumento))) +
      At(PrimerNombre, RequiredText(50, Get(rec, PrimerNombre))) +
      At(SegundoNombre, OptionalText(50, Get(rec, SegundoNombre))) +
      At(PrimerApellido, RequiredText(50, Get(rec, PrimerApellido))) +
      At(SegundoApellido, OptionalText(50, Get(rec, SegundoApellido)));
    if issues != [] then Failure(issues)
    else Success(Identity(
      Choice(env.options.tiposDocumento, Get(rec, TipoDocumento)).value,
      BoundedText(6, 10, Get(rec, NumeroDocumento)).value,
      RequiredText(50, Get(rec, PrimerNombre)).value,
      OptionalText(50, Get(rec, SegundoNombre)).value,
      RequiredText(50, Get(rec, PrimerApellido)).value,
      OptionalText(50, Get(rec, SegundoApellido)).value))
  }

  /** Whether the identity section reports property `g`: it is one of them and breaks its rule. */
  predicate IdentityRejects(env: Env, rec: Record, g: FieldName) {
    (g == TipoDocumento && !IsStringIn(Get(rec, TipoDocumento), env.options.tiposDocumento)) ||
    (g == NumeroDocumento && !HasLength(Get(rec, NumeroDocumento), 6, 10)) ||
    (g == PrimerNombre && !HasLength(Get(rec, PrimerNombre), 1, 50)) ||
    (g == SegundoNombre && !OptionalUpTo(Get(rec, SegundoNombre), 50)) ||
    (g == PrimerApellido && !HasLength(Get(rec, PrimerApellido), 1, 50)) ||
    (g == SegundoApellido && !OptionalUpTo(Get(rec, SegundoApellido), 50))
  }

  /** The section's issues are its properties' issues, in shape order. */
  lemma IdentityErrors(env: Env, rec: Record)
    ensures Errors(IdentityObject(env, rec)) ==
      At(TipoDocumento, Choice(env.options.tiposDocumento, Get(rec, TipoDocumento))) +
      At(NumeroDocumento, BoundedText(6, 10, Get(rec, NumeroDocumento))) +
      At(PrimerNombre, RequiredText(50, Get(rec, PrimerNombre))) +
      At(SegundoNombre, OptionalText(50, Get(rec, SegundoNombre))) +
      At(PrimerApellido, RequiredText(50, Get(rec, PrimerApellido))) +
      At(SegundoApellido, OptionalText(50, Get(rec, SegundoApellido)))
  {
  }

  /** The section reports exactly the properties that break their rules. */
  lemma {:induction false} IdentityReports(env: Env, rec: Record, g: FieldName)
    ensures Reports(Errors(IdentityObject(env, rec)), g) <==> IdentityRejects(env, rec, g)
  {
    IdentityErrors(env, rec);
    ReportsConcat6(
      At(TipoDocumento, Choice(env.options.tiposDocumento, Get(rec, TipoDocumento))),
      At(NumeroDocumento, BoundedText(6, 10, Get(rec, NumeroDocumento))),
      At(PrimerNombre, RequiredText(50, Get(rec, PrimerNombre))),
      At(SegundoNombre, OptionalText(50, Get(rec, SegundoNombre))),
      At(PrimerApellido, RequiredText(50, Get(rec, PrimerApellido))),
      At(SegundoApellido, OptionalText(50, Get(rec, SegundoApellido))), g);
    ChoiceAt(TipoDocumento, env.options.tiposDocumento, Get(rec, TipoDocumento), g);
    BoundedTextAt(NumeroDocumento, 6, 10, Get(rec, NumeroDocumento), g);
    RequiredTextAt(PrimerNombre, 50, Get(rec, PrimerNombre), g);
    OptionalTextAt(SegundoNombre, 50, Get(rec, SegundoNombre), g);
    RequiredTextAt(PrimerApellido, 50, Get(rec, PrimerApellido), g);
    OptionalTextAt(SegundoApellido, 50, Get(rec, SegundoApellido), g);
  }

  /** The section accepts exactly when it reports no property. */
  lemma IdentitySucceeds(env: Env, rec: Record)
    ensures IdentityObject(env, rec).Success? <==> forall g :: !IdentityRejects(env, rec, g)
  {
    if IdentityObject(env, rec).Success? {
      forall g ensures !IdentityRejects(env, rec, g) {
        IdentityReports(env, rec, g);
      }
    } else {
      assert IdentityRejects(env, rec, TipoDocumento) || IdentityRejects(env, rec, NumeroDocumento) || IdentityRejects(env, rec, PrimerNombre) || IdentityRejects(env, rec, SegundoNombre) || IdentityRejects(env, rec, PrimerApellido) || IdentityRejects(env, rec, SegundoApellido);
    }
  }

  /** What the identity section makes of an accepted record. */
  predicate IdentityNormalised(rec: Record, s: Identity) {
    s.tipoDocumento == Text(rec, TipoDocumento) &&
    s.numeroDocumento == Text(rec, NumeroDocumento) &&
    s.primerNombre == Normalise(Upper, Text(rec, PrimerNombre)) &&
    s.segundoNombre == UpperOption(Get(rec, SegundoNombre)) &&
    s.primerApellido == Normalise(Upper, Text(rec, PrimerApellido)) &&
    s.segundoApellido == UpperOption(Get(rec, SegundoApellido))
  }

  lemma IdentityNormalises(env: Env, rec: Record)
    requires IdentityObject(env, rec).Success?
    ensures IdentityNormalised(rec, IdentityObject(env, rec).value)
  {
  }

  /** Whether `rec` holds the identity values `s`, as a form would submit them again. */
  predicate IdentityEncoded(rec: Record, s: Identity) {
    Get(rec, TipoDocumento) == JsString(s.tipoDocumento) &&
    Get(rec, NumeroDocumento) == JsString(s.numeroDocumento) &&
    Get(rec, PrimerNombre) == JsString(s.primerNombre) &&
    Get(rec, SegundoNombre) == OptionValue(s.segundoNombre) &&
    Get(rec, PrimerApellido) == JsString(s.primerApellido) &&
    Get(rec, SegundoApellido) == OptionValue(s.segundoApellido)
  }

  /** Whether a required text of the identity section is white space only. */
  predicate IdentityBlank(rec: Record) {
    AllWhiteSpace(Text(rec, PrimerNombre)) ||
    AllWhiteSpace(Text(rec, PrimerApellido))
  }

  /**
   * The identity values of an accepted record, submitted again, are
   * accepted exactly when no required text was white space only, and then
   * come back unchanged.
   */
  lemma IdentityReparse(env: Env, rec: Record, again: Record)
    requires IdentityObject(env, rec).Success?
    requires IdentityEncoded(again, IdentityObject(env, rec).value)
    ensures IdentityObject(env, again).Success? <==> !IdentityBlank(rec)
    ensures IdentityObject(env, again).Success? ==> IdentityObject(env, again) == IdentityObject(env, rec)
  {
    RequiredTextReparse(50, Get(rec, PrimerNombre));
    OptionalTextReparse(50, Get(rec, SegundoNombre));
    RequiredTextReparse(50, Get(rec, PrimerApellido));
    OptionalTextReparse(50, Get(rec, SegundoApellido));
  }

  /** Birth date and place: `fecha_nacimiento` to `ciudad_nacimiento`. */
  datatype Birth = Birth(
    fechaNacimiento: int,
    paisNacimiento: string,
    departamentoNacimiento: string,
    ciudadNacimiento: string)

  /** The properties of the birth section, in the order of the shape. */
  const BirthShape: seq<FieldName> := [FechaNacimiento, PaisNacimiento, DepartamentoNacimiento, CiudadNacimiento]

  /** The birth properties of the object: their issues in shape order, or their values. */
  function BirthObject(env: Env, rec: Record): Parsed<Birth> {
    var issues :=
      At(FechaNacimiento, BirthDate(env.cutoff, Get(rec, FechaNacimiento))) +
      At(PaisNacimiento, RequiredText(100, Get(rec, PaisNacimiento))) +
      At(DepartamentoNacimiento, RequiredText(100, Get(rec, DepartamentoNacimiento))) +
      At(CiudadNacimiento, RequiredText(100, Get(rec, CiudadNacimiento)));
    if issues != [] then Failure(issues)
    else Success(Birth(
      BirthDate(env.cutoff, Get(rec, FechaNacimiento)).value,
      RequiredText(100, Get(rec, PaisNacimiento)).value,
      RequiredText(100, Get(rec, DepartamentoNacimiento)).value,
      RequiredText(100, Get(rec, CiudadNacimiento)).value))
  }

  /** Whether the birth section reports property `g`: it is one of them and breaks its rule. */
  predicate BirthRejects(env: Env, rec: Record, g: FieldName) {
    (g == FechaNacimiento && !BornBy(Get(rec, FechaNacimiento), env.cutoff)) ||
    (g == PaisNacimiento && !HasLength(Get(rec, PaisNacimiento), 1, 100)) ||
    (g == DepartamentoNacimiento && !HasLength(Get(rec, DepartamentoNacimiento), 1, 100)) ||
    (g == CiudadNacimiento && !HasLength(Get(rec, CiudadNacimiento), 1, 100))
  }

  /** The section's issues are its properties' issues, in shape order. */
  lemma BirthErrors(env: Env, rec: Record)
    ensures Errors(BirthObject(env, rec)) ==
      At(FechaNacimiento, BirthDate(env.cutoff, Get(rec, FechaNacimiento))) +
      At(PaisNacimiento, RequiredText(100, Get(rec, PaisNacimiento))) +
      At(DepartamentoNacimiento, RequiredText(100, Get(rec, DepartamentoNacimiento))) +
      At(CiudadNacimiento, RequiredText(100, Get(rec, CiudadNacimiento)))
  {
  }

  /** The section reports exactly the properties that break their rules. */
  lemma {:induction false} BirthReports(env: Env, rec: Record, g: FieldName)
    ensures Reports(Errors(BirthObject(env, rec)), g) <==> BirthRejects(env, rec, g)
  {
    BirthErrors(env, rec);
    ReportsConcat4(
      At(FechaNacimiento, BirthDate(env.cutoff, Get(rec, FechaNacimiento))),
      At(PaisNacimiento, RequiredText(100, Get(rec, PaisNacimiento))),
      At(DepartamentoNacimiento, RequiredText(100, Get(rec, DepartamentoNacimiento))),
      At(CiudadNacimiento, RequiredText(100, Get(rec, CiudadNacimiento))), g);
    BirthDateAt(FechaNacimiento, env.cutoff, Get(rec, FechaNacimiento), g);
    RequiredTextAt(PaisNacimiento, 100, Get(rec, PaisNacimiento), g);
    RequiredTextAt(DepartamentoNacimiento, 100, Get(rec, DepartamentoNacimiento), g);
    RequiredTextAt(CiudadNacimiento, 100, Get(rec, CiudadNacimiento), g);
  }

  /** The section accepts exactly when it reports no property. */
  lemma BirthSucceeds(env: Env, rec: Record)
    ensures BirthObject(env, rec).Success? <==> forall g :: !BirthRejects(env, rec, g)
  {
    if BirthObject(env, rec).Success? {
      forall g ensures !BirthRejects(env, rec, g) {
        BirthReports(env, rec, g);
      }
    } else {
      assert BirthRejects(env, rec, FechaNacimiento) || BirthRejects(env, rec, PaisNacimiento) || BirthRejects(env, rec, DepartamentoNacimiento) || BirthRejects(env, rec, CiudadNacimiento);
    }
  }

  /** What the birth section makes of an accepted record. */
  predicate BirthNormalised(rec: Record, s: Birth) {
    Get(rec, FechaNacimiento) == JsDate(s.fechaNacimiento) &&
    s.paisNacimiento == Normalise(Upper, Text(rec, PaisNacimiento)) &&
    s.departamentoNacimiento == Normalise(Upper, Text(rec, DepartamentoNacimiento)) &&
    s.ciudadNacimiento == Normalise(Upper, Text(rec, CiudadNacimiento))
  }

  lemma BirthNormalises(env: Env, rec: Record)
    requires BirthObject(env, rec).Success?
    ensures BirthNormalised(rec, BirthObject(env, rec).value)
  {
  }

  /** Whether `rec` holds the birth values `s`, as a form would submit them again. */
  predicate BirthEncoded(rec: Record, s: Birth) {
    Get(rec, FechaNacimiento) == JsDate(s.fechaNacimiento) &&
    Get(rec, PaisNacimiento) == JsString(s.paisNacimiento) &&
    Get(rec, DepartamentoNacimiento) == JsString(s.departamentoNacimiento) &&
    Get(rec, CiudadNacimiento) == JsString(s.ciudadNacimiento)
  }

  /** Whether a required text of the birth section is white space only. */
  predicate BirthBlank(rec: Record) {
    AllWhiteSpace(Text(rec, PaisNacimiento)) ||
    AllWhiteSpace(Text(rec, DepartamentoNacimiento)) ||
    AllWhiteSpace(Text(rec, CiudadNacimiento))
  }

  /**
   * The birth values of an accepted record, submitted again, are
   * accepted exactly when no required text was white space only, and then
   * come back unchanged.
   */
  lemma BirthReparse(env: Env, rec: Record, again: Record)
    requires BirthObject(env, rec).Success?
    requires BirthEncoded(again, BirthObject(env, rec).value)
    ensures BirthObject(env, again).Success? <==> !BirthBlank(rec)
    ensures BirthObject(env, again).Success? ==> BirthObject(env, again) == BirthObject(env, rec)
  {
    RequiredTextReparse(100, Get(rec, PaisNacimiento));
    RequiredTextReparse(100, Get(rec, DepartamentoNacimiento));
    RequiredTextReparse(100, Get(rec, CiudadNacimiento));
  }

  /** Home address: `barrio_residencia` to `departamento_residencia`. */
  datatype Residence = Residence(
    barrioResidencia: string,
    direccionResidencia: string,
    ciudadResidencia: string,
    departamentoResidencia: string)

  /** The properties of the residence section, in the order of the shape. */
  const ResidenceShape: seq<FieldName> := [BarrioResidencia, DireccionResidencia, CiudadResidencia, DepartamentoResidencia]

  /** The residence properties of the object: their issues in shape order, or their values. */
  function ResidenceObject(env: Env, rec: Record): Parsed<Residence> {
    var issues :=
      At(BarrioResidencia, RequiredText(100, Get(rec, BarrioResidencia))) +
      At(DireccionResidencia, RequiredText(100, Get(rec, DireccionResidencia))) +
      At(CiudadResidencia, RequiredText(100, Get(rec, CiudadResidencia))) +
      At(DepartamentoResidencia, RequiredText(100, Get(rec, DepartamentoResidencia)));
    if issues != [] then Failure(issues)
    else Success(Residence(
      RequiredText(100, Get(rec, BarrioResidencia)).value,
      RequiredText(100, Get(rec, DireccionResidencia)).value,
      RequiredText(100, Get(rec, CiudadResidencia)).value,
      RequiredText(100, Get(rec, DepartamentoResidencia)).value))
  }

  /** Whether the residence section reports property `g`: it is one of them and breaks its rule. */
  predicate ResidenceRejects(env: Env, rec: Record, g: FieldName) {
    (g == BarrioResidencia && !HasLength(Get(rec, BarrioResidencia), 1, 100)) ||
    (g == DireccionResidencia && !HasLength(Get(rec, DireccionResidencia), 1, 100)) ||
    (g == CiudadResidencia && !HasLength(Get(rec, CiudadResidencia), 1, 100)) ||
    (g == DepartamentoResidencia && !HasLength(Get(rec, DepartamentoResidencia), 1, 100))
  }

  /** The section's issues are its properties' issues, in shape order. */
  lemma ResidenceErrors(env: Env, rec: Record)
    ensures Errors(ResidenceObject(env, rec)) ==
      At(BarrioResidencia, RequiredText(100, Get(rec, BarrioResidencia))) +
      At(DireccionResidencia, RequiredText(100, Get(rec, DireccionResidencia))) +
      At(CiudadResidencia, RequiredText(100, Get(rec, CiudadResidencia))) +
      At(DepartamentoResidencia, RequiredText(100, Get(rec, DepartamentoResidencia)))
  {
  }

  /** The section reports exactly the properties that break their rules. */
  lemma {:induction false} ResidenceReports(env: Env, rec: Record, g: FieldName)
    ensures Reports(Errors(ResidenceObject(env, rec)), g) <==> ResidenceRejects(env, rec, g)
  {
    ResidenceErrors(env, rec);
    ReportsConcat4(
      At(BarrioResidencia, RequiredText(100, Get(rec, BarrioResidencia))),
      At(DireccionResidencia, RequiredText(100, Get(rec, DireccionResidencia))),
      At(CiudadResidencia, RequiredText(100, Get(rec, CiudadResidencia))),
      At(DepartamentoResidencia, RequiredText(100, Get(rec, DepartamentoResidencia))), g);
    RequiredTextAt(BarrioResidencia, 100, Get(rec, BarrioResidencia), g);
    RequiredTextAt(DireccionResidencia, 100, Get(rec, DireccionResidencia), g);
    RequiredTextAt(CiudadResidencia, 100, Get(rec, CiudadResidencia), g);
    RequiredTextAt(DepartamentoResidencia, 100, Get(rec, DepartamentoResidencia), g);
  }

  /** The section accepts exactly when it reports no property. */
  lemma ResidenceSucceeds(env: Env, rec: Record)
    ensures ResidenceObject(env, rec).Success? <==> forall g :: !ResidenceRejects(env, rec, g)
  {
    if ResidenceObject(env, rec).Success? {
      forall g ensures !ResidenceRejects(env, rec, g) {
        ResidenceReports(env, rec, g);
      }
    } else {
      assert ResidenceRejects(env, rec, BarrioResidencia) || ResidenceRejects(env, rec, DireccionResidencia) || ResidenceRejects(env, rec, CiudadResidencia) || ResidenceRejects(env, rec, DepartamentoResidencia);
    }
  }

  /** What the residence section makes of an accepted record. */
  predicate ResidenceNormalised(rec: Record, s: Residence) {
    s.barrioResidencia == Normalise(Upper, Text(rec, BarrioResidencia)) &&
    s.direccionResidencia == Normalise(Upper, Text(rec, DireccionResidencia)) &&
    s.ciudadResidencia == Normalise(Upper, Text(rec, CiudadResidencia)) &&
    s.departamentoResidencia == Normalise(Upper, Text(rec, DepartamentoResidencia))
  }

  lemma ResidenceNormalises(env: Env, rec: Record)
    requires ResidenceObject(env, rec).Success?
    ensures ResidenceNormalised(rec, ResidenceObject(env, rec).value)
  {
  }

  /** Whether `rec` holds the residence values `s`, as a form would submit them again. */
  predicate ResidenceEncoded(rec: Record, s: Residence) {
    Get(rec, BarrioResidencia) == JsString(s.barrioResidencia) &&
    Get(rec, DireccionResidencia) == JsString(s.direccionResidencia) &&
    Get(rec, CiudadResidencia) == JsString(s.ciudadResidencia) &&
    Get(rec, DepartamentoResidencia) == JsString(s.departamentoResidencia)
  }

  /** Whether a required text of the residence section is white space only. */
  predicate ResidenceBlank(rec: Record) {
    AllWhiteSpace(Text(rec, BarrioResidencia)) ||
    AllWhiteSpace(Text(rec, DireccionResidencia)) ||
    AllWhiteSpace(Text(rec, CiudadResidencia)) ||
    AllWhiteSpace(Text(rec, DepartamentoResidencia))
  }

  /**
   * The residence values of an accepted record, submitted again, are
   * accepted exactly when no required text was white space only, and then
   * come back unchanged.
   */
  lemma ResidenceReparse(env: Env, rec: Record, again: Record)
    requires ResidenceObject(env, rec).Success?
    requires ResidenceEncoded(again, ResidenceObject(env, rec).value)
    ensures ResidenceObject(env, again).Success? <==> !ResidenceBlank(rec)
    ensures ResidenceObject(env, again).Success? ==> ResidenceObject(env, again) == ResidenceObject(env, rec)
  {
    RequiredTextReparse(100, Get(rec, BarrioResidencia));
    RequiredTextReparse(100, Get(rec, DireccionResidencia));
    RequiredTextReparse(100, Get(rec, CiudadResidencia));
    RequiredTextReparse(100, Get(rec, DepartamentoResidencia));
  }

  /** Contact: `celular`, `correo` and `telefono`. */
  datatype Contact = Contact(
    celular: string,
    correo: string,
    telefono: Option<string>)

  /** The properties of the contact section, in the order of the shape. */
  const ContactShape: seq<FieldName> := [Celular, Correo, Telefono]

  /** The contact properties of the object: their issues in shape order, or their values. */
  function ContactObject(env: Env, rec: Record): Parsed<Contact> {
    var issues :=
      At(Celular, BoundedText(10, 10, Get(rec, Celular))) +
      At(Correo, EmailAddress(env.isEmail, Get(rec, Correo))) +
      At(Telefono, OptionalPhone(Get(rec, Telefono)));
    if issues != [] then Failure(issues)
    else Success(Contact(
      BoundedText(10, 10, Get(rec, Celular)).value,
      EmailAddress(env.isEmail, Get(rec, Correo)).value,
      OptionalPhone(Get(rec, Telefono)).value))
  }

  /** Whether the contact section reports property `g`: it is one of them and breaks its rule. */
  predicate ContactRejects(env: Env, rec: Record, g: FieldName) {
    (g == Celular && !HasLength(Get(rec, Celular), 10, 10)) ||
    (g == Correo && !IsEmailAddress(env.isEmail, Get(rec, Correo))) ||
    (g == Telefono && !PhoneOrEmpty(Get(rec, Telefono)))
  }

  /** The section's issues are its properties' issues, in shape order. */
  lemma ContactErrors(env: Env, rec: Record)
    ensures Errors(ContactObject(env, rec)) ==
      At(Celular, BoundedText(10, 10, Get(rec, Celular))) +
      At(Correo, EmailAddress(env.isEmail, Get(rec, Correo))) +
      At(Telefono, OptionalPhone(Get(rec, Telefono)))
  {
  }

  /** The section reports exactly the properties that break their rules. */
  lemma {:induction false} ContactReports(env: Env, rec: Record, g: FieldName)
    ensures Reports(Errors(ContactObject(env, rec)), g) <==> ContactRejects(env, rec, g)
  {
    ContactErrors(env, rec);
    ReportsConcat3(
      At(Celular, BoundedText(10, 10, Get(rec, Celular))),
      At(Correo, EmailAddress(env.isEmail, Get(rec, Correo))),
      At(Telefono, OptionalPhone(Get(rec, Telefono))), g);
    BoundedTextAt(Celular, 10, 10, Get(rec, Celular), g);
    EmailAddressAt(Correo, env.isEmail, Get(rec, Correo), g);
    OptionalPhoneAt(Telefono, Get(rec, Telefono), g);
  }

  /** The section accepts exactly when it reports no property. */
  lemma ContactSucceeds(env: Env, rec: Record)
    ensures ContactObject(env, rec).Success? <==> forall g :: !ContactRejects(env, rec, g)
  {
    if ContactObject(env, rec).Success? {
      forall g ensures !ContactRejects(env, rec, g) {
        ContactReports(env, rec, g);
      }
    } else {
      assert ContactRejects(env, rec, Celular) || ContactRejects(env, rec, Correo) || ContactRejects(env, rec, Telefono);
    }
  }

  /** What the contact section makes of an accepted record. */
  predicate ContactNormalised(rec: Record, s: Contact) {
    s.celular == Text(rec, Celular) &&
    s.correo == Normalise(Lower, Text(rec, Correo)) &&
    s.telefono == StringOption(Get(rec, Telefono))
  }

  lemma ContactNormalises(env: Env, rec: Record)
    requires ContactObject(env, rec).Success?
    ensures ContactNormalised(rec, ContactObject(env, rec).value)
  {
  }

  /** Whether `rec` holds the contact values `s`, as a form would submit them again. */
  predicate ContactEncoded(rec: Record, s: Contact) {
    Get(rec, Celular) == JsString(s.celular) &&
    Get(rec, Correo) == JsString(s.correo) &&
    Get(rec, Telefono) == OptionValue(s.telefono)
  }

  /** Whether a required text of the contact section is white space only. */
  predicate ContactBlank(rec: Record) {
    AllWhiteSpace(Text(rec, Correo))
  }

  /**
   * The contact values of an accepted record, submitted again, are
   * accepted exactly when no required text was white space only, and then
   * come back unchanged.
   */
  lemma ContactReparse(env: Env, rec: Record, again: Record)
    requires ContactObject(env, rec).Success?
    requires env.isEmail(ContactObject(env, rec).value.correo)
    requires ContactEncoded(again, ContactObject(env, rec).value)
    ensures ContactObject(env, again).Success? <==> !ContactBlank(rec)
    ensures ContactObject(env, again).Success? ==> ContactObject(env, again) == ContactObject(env, rec)
  {
    EmailReparse(env.isEmail, Get(rec, Correo));
    OptionalPhoneReparse(Get(rec, Telefono));
  }
}
