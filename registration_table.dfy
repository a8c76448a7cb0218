/**
 * The admin registration table: the type and status filters and the
 * status badge.
 */
module RegistrationTable {
  import opened Wrappers
  import opened Records
  import opened Lists
  import opened Badges
  import opened Labels

  /**
   * The row filter: the type filter hides a registration only when its
   * session's type name is known and differs; the status filter keeps
   * only the chosen status.
   */
  function Keep(filterType: string, filterStatus: string): Registration -> bool {
    (reg: Registration) =>
      (filterType == "all" || RegistrationTypeName(reg).None? || RegistrationTypeName(reg).value == filterType) &&
      (filterStatus == "all" || reg.status.Name() == filterStatus)
  }

  /** `filtered`. */
  function Filtered(regs: seq<Registration>, filterType: string, filterStatus: string): (r: seq<Registration>)
    ensures forall reg :: reg in r <==>
      reg in regs &&
      (filterType == "all" || RegistrationTypeName(reg).None? || RegistrationTypeName(reg).value == filterType) &&
      (filterStatus == "all" || reg.status.Name() == filterStatus)
  {
    Filter(regs, Keep(filterType, filterStatus))
  }

  /** With both filters on "all" the table lists every registration, in order. */
  lemma AllFiltersKeepEverything(regs: seq<Registration>)
    ensures Filtered(regs, "all", "all") == regs
  {
    FilterAll(regs, Keep("all", "all"));
  }

  /** A registration whose session type is unknown passes every type filter. */
  lemma UntypedPassesTypeFilter(regs: seq<Registration>, filterType: string)
    ensures forall i :: 0 <= i < |regs| && RegistrationTypeName(regs[i]).None? ==> regs[i] in Filtered(regs, filterType, "all")
  {
  }

  /** The filter keeps the list order: it distributes over concatenation. */
  lemma FilteredKeepsOrder(a: seq<Registration>, b: seq<Registration>, filterType: string, filterStatus: string)
    ensures Filtered(a + b, filterType, filterStatus) == Filtered(a, filterType, filterStatus) + Filtered(b, filterType, filterStatus)
  {
    FilterConcat(a, b, Keep(filterType, filterStatus));
  }

  /** `statusBadge`: the three registration statuses get a Dutch text and colour; anything else is shown plain. */
  function StatusBadge(status: string): (b: Badge)
    ensures status == "active" ==> b == Badge("Actief", Success)
    ensures status == "cancelled" ==> b == Badge("Geannuleerd", Danger)
    ensures status == "no_show" ==> b == Badge("No-show", Warning)
    ensures status !in {"active", "cancelled", "no_show"} ==> b == Badge(status, Default)
  {
    match status
    case "active" => Badge("Actief", Success)
    case "cancelled" => Badge("Geannuleerd", Danger)
    case "no_show" => Badge("No-show", Warning)
    case _ => Badge(status, Default)
  }

  /** Every stored status gets its own colour. */
  lemma StoredStatusesColoured(s: RegistrationStatus, t: RegistrationStatus)
    requires s != t
    ensures StatusBadge(s.Name()).variant != StatusBadge(t.Name()).variant
    ensures StatusBadge(s.Name()).variant != Default
  {
  }

  /** "Geen aanmeldingen gevonden." shows under the table exactly when no row is left. */
  function ShowsNoneFound(regs: seq<Registration>, filterType: string, filterStatus: string): (shown: bool)
    ensures shown <==> forall reg :: reg in regs ==> !Keep(filterType, filterStatus)(reg)
  {
    var r := Filtered(regs, filterType, filterStatus);
    assert |r| > 0 ==> r[0] in r;
    |r| == 0
  }

  /** The e-mail column: the address, or "-" when it is empty. */
  function EmailCell(reg: Registration): (cell: string)
    ensures reg.email != "" ==> cell == reg.email
    ensures reg.email == "" ==> cell == "-"
  {
    if reg.email != "" then reg.email else "-"
  }
}
