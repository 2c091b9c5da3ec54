/** Values shared by every part of the launcher: the action descriptors it
    dispatches, the provenance records attached to each entry, the entry
    itself and the session flags. */
module Types {

  datatype Option<T> = None | Some(value: T)

  /** Where a spawned tab is created. Only `DomainName` is built by the launcher. */
  datatype SpawnTabDomain = DefaultDomain | CurrentPaneDomain | DomainName(name: string)

  /** A spawn request; every field other than the domain keeps its default. */
  datatype SpawnCommand = SpawnCommand(domain: SpawnTabDomain)

  /** The dispatchable action descriptor (wezterm's `KeyAssignment`), with
      structural equality. The variants the launcher inspects or builds are
      spelled out; all others are `OtherAssignment`. */
  datatype KeyAssignment =
    | ActivateTab(index: int)
    | ActivateTabRelative(delta: int)
    | SpawnCommandInNewTab(spawn: SpawnCommand)
    | AttachDomain(domain: string)
    | OtherAssignment(name: string)

  /** The two actions that select a tab by position; shortcut and command
      entries never carry them, since tab entries already do. */
  predicate IsTabAction(a: KeyAssignment) {
    a.ActivateTab? || a.ActivateTabRelative?
  }

  datatype DomainState = Attached | Detached

  /** Provenance of an entry (`LauncherEntryType`). */
  datatype LauncherEntryType =
    | TabKind(title: string, tabId: nat, tabIdx: nat, paneCount: nat)
    | DomainKind(domainId: nat, name: string, state: DomainState, domainLabel: string)
    | KeyAssignmentKind(code: string, mods: string, assignment: KeyAssignment)
    | CommandKind(brief: string, doc: string, keys: string, action: KeyAssignment)

  /** One selectable row: what is shown, what is dispatched, where it came from. */
  datatype LauncherEntry = LauncherEntry(labelText: string, action: KeyAssignment, launchType: LauncherEntryType)

  /** The launcher's option bits (`LauncherFlags`), one boolean per bit used here. */
  datatype LauncherFlags = LauncherFlags(
    domains: bool,
    tabs: bool,
    keyAssignments: bool,
    commands: bool,
    workspaces: bool,
    fuzzy: bool)

  /** `a.saturating_sub(b)` on unsigned integers. */
  function SaturatingSub(a: nat, b: nat): (r: nat)
    ensures a >= b ==> r + b == a
    ensures a < b ==> r == 0
  {
    if a >= b then a - b else 0
  }
}
