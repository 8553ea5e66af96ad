/**
 * The property names read by the three schemas (applicant, spouse and
 * vaccination history). A candidate record maps these names to JavaScript
 * values; `z.object` strips every other property, so no other name is
 * modelled.
 */
module Keys {

  datatype FieldName =
    // identity, birth, residence and contact: applicant and spouse
    | TipoDocumento | NumeroDocumento
    | PrimerNombre | SegundoNombre | PrimerApellido | SegundoApellido
    | FechaNacimiento | PaisNacimiento | DepartamentoNacimiento | CiudadNacimiento
    | BarrioResidencia | DireccionResidencia | CiudadResidencia | DepartamentoResidencia
    | Celular | Correo | Telefono
    // applicant only
    | BarrioCorrespondencia | DireccionCorrespondencia
    | CiudadCorrespondencia | DepartamentoCorrespondencia
    | Sexo | TipoSangre | EstadoCivil | PersonasACargo
    | TieneHijos | NumeroHijos
    // spouse only
    | NumeroDocumentoPostulante
    | TieneTrabajo | NombreEmpresa | DireccionEmpresa | TipoDeEmpresa
    | TelefonoEmpresa | CiudadEmpresa | CargoConyugeEmpresa
    // vaccination history
    | TieneVacunas | Vacunas | NombreVacuna | DosisSuministradas | FechasDosis
}
