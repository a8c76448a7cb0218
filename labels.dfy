/**
 * The labels the admin tables show: the Dutch name of a conversation type,
 * and a status badge (text and colour).
 */
module Labels {
  import opened Wrappers
  import opened Badges

  const UnknownLabel := "Onbekend"

  /**
   * `formatConversationTypeName`: the three known type names get their
   * Dutch label, a missing or empty name reads "Onbekend", and any other
   * name is shown as it is.
   */
  function TypeLabel(name: Option<string>): (shown: string)
    ensures name.None? || name.value == "" ==> shown == UnknownLabel
    ensures name == Some("individueel gesprek") ==> shown == "Individueel ontwikkelgesprek"
    ensures name == Some("groepsontwikkelgesprek") ==> shown == "Ontwikkelgesprek in groepsvorm"
    ensures name == Some("inloopgesprek") ==> shown == "Ontwikkelgesprek \U{2013} spelwerkvorm (individueel)"
    ensures name.Some? && name.value !in KnownTypeNames && name.value != "" ==> shown == name.value
  {
    if name.None? || name.value == "" then UnknownLabel
    else if name.value == "individueel gesprek" then "Individueel ontwikkelgesprek"
    else if name.value == "groepsontwikkelgesprek" then "Ontwikkelgesprek in groepsvorm"
    else if name.value == "inloopgesprek" then "Ontwikkelgesprek \U{2013} spelwerkvorm (individueel)"
    else name.value
  }

  const KnownTypeNames: set<string> := {"individueel gesprek", "groepsontwikkelgesprek", "inloopgesprek"}

  /** The three known types get three different labels, none of them "Onbekend". */
  lemma KnownLabelsDistinct(a: string, b: string)
    requires a in KnownTypeNames && b in KnownTypeNames && a != b
    ensures TypeLabel(Some(a)) != TypeLabel(Some(b))
    ensures TypeLabel(Some(a)) != UnknownLabel
  {
  }

  /** A badge: its text and its colour. */
  datatype Badge = Badge(text: string, variant: BadgeVariant)
}
