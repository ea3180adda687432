/** The business rules: points per applause, the level ladder and the five badges. */
module Constants {

  const PointsPerApplause: nat := 100

  datatype LevelEntry = LevelEntry(level: nat, name: string, requiredApplause: nat)

  const Levels: seq<LevelEntry> := [
    LevelEntry(0, "Novato", 0),
    LevelEntry(1, "Aprendiz", 2),
    LevelEntry(2, "Participante", 4),
    LevelEntry(3, "Contribuidor", 6),
    LevelEntry(4, "Mentor", 8),
    LevelEntry(5, "Líder", 10),
    LevelEntry(6, "Leyenda", 12)
  ]

  /**
   * A level table the level functions can rely on: it starts at level 0 with
   * threshold 0, entry `i` is level `i`, and thresholds strictly increase.
   */
  ghost predicate WellFormedLevels(table: seq<LevelEntry>)
  {
    |table| >= 1 && table[0].requiredApplause == 0
    && (forall i :: 0 <= i < |table| ==> table[i].level == i)
    && (forall i, j :: 0 <= i < j < |table| ==> table[i].requiredApplause < table[j].requiredApplause)
  }

  lemma LevelsWellFormed()
    ensures WellFormedLevels(Levels)
    ensures |Levels| == 7 && Levels[6].requiredApplause == 12
  {
  }

  datatype BadgeDefinition = BadgeDefinition(name: string, principle: string, description: string)

  const BadgeDefinitions: seq<BadgeDefinition> := [
    BadgeDefinition("Maestro de la Innovación", "Innovación",
      "Premiado por ideas creativas que rompen esquemas y mejoran procesos."),
    BadgeDefinition("Campeón del Cliente", "Foco en el Cliente",
      "Destacado por ir más allá para satisfacer y deleitar a los clientes."),
    BadgeDefinition("Colaborador Estrella", "Trabajo en Equipo",
      "Celebrado por fomentar un ambiente de cooperación y apoyo mutuo."),
    BadgeDefinition("Ejecutor Impecable", "Excelencia",
      "Reconocido por entregar resultados de alta calidad de manera consistente."),
    BadgeDefinition("Pilar de Integridad", "Integridad",
      "Premiado por actuar siempre con honestidad, transparencia y ética.")
  ]

  const BadgeThreshold: nat := 3

  /** Five badges, no two sharing a name or a principle. */
  lemma BadgeDefinitionsDistinct()
    ensures |BadgeDefinitions| == 5
    ensures forall i, j :: 0 <= i < j < |BadgeDefinitions| ==>
      BadgeDefinitions[i].name != BadgeDefinitions[j].name
      && BadgeDefinitions[i].principle != BadgeDefinitions[j].principle
  {
  }
}
