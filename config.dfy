/** Project configuration the dashboard imports: the canonical state order,
    the properties an uploaded record must carry, the goals per document
    filter and the predefined subcontract list. */
module Config {

  /** `ESTADO_ORDER`: the lifecycle states in display order. */
  const ESTADO_ORDER: seq<string> := [
    "En elaboración",
    "En elaboración cartografía",
    "Subcontrato",
    "En revisor técnico",
    "En coordinador",
    "En revisor editorial",
    "Incorporada",
    "Pendiente"
  ]

  /** `REQUIRED_FIELDS`: properties every uploaded record must have. */
  const REQUIRED_FIELDS: seq<string> := [
    "ID", "ID_Corregido", "Documento", "Estado", "Elaborador", "Revisor",
    "Coordinador", "FechaReporte", "Tematica", "Pregunta"
  ]

  /** Goals: all questions, and the two documents. */
  const META_TOTAL: nat := 494
  const META_ADC: nat := 318
  const META_PAC: nat := 176

  /** `PREDEFINED_DATA.subcontracts`. */
  const PREDEFINED_SUBCONTRACTS: seq<string> := [
    "SEDNA - Arqueología", "FISIOAQUA - Medio marino", "ECODIVERSIDAD - Chinchilla",
    "EIS AMBIENTAL - Medio humano", "CELAB - Infiltraciones PAS 138",
    "PAISAJE AMBIENTAL - Paisaje", "HUGO DÍAZ - Microrruteo y avifauna",
    "ECOTECNOS - Modelación pluma salina", "RUIDO AMBIENTAL - Ruido",
    "CRAMSA-ECOS"
  ]
}
