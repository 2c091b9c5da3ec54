/** The four kinds of launcher item (domain, tab, key binding, command), each
    with the label and action it contributes, and the entry constructor that
    lets the user's label hook rewrite the label. */
module Items {
  import opened Types

  /** The outcome of the user's `format-launcher-item` hook for a given
      (label, action, kind): `Some` with the new label, or `None` when the
      call failed (no Lua context, callback error, or a non-string result). */
  type Formatter = (string, KeyAssignment, LauncherEntryType) -> Option<string>

  /** `LauncherEntry::new`: a hook failure is logged and swallowed, keeping
      the original label; the action and the kind are never rewritten. */
  function NewEntry(text: string, action: KeyAssignment, kind: LauncherEntryType, format: Formatter): (e: LauncherEntry)
    ensures e.action == action && e.launchType == kind
    ensures format(text, action, kind).None? ==> e.labelText == text
    ensures format(text, action, kind).Some? ==> e.labelText == format(text, action, kind).value
  {
    match format(text, action, kind)
    case Some(formatted) => LauncherEntry(formatted, action, kind)
    case None => LauncherEntry(text, action, kind)
  }

  // ---------------------------------------------------------------- domains

  /** What the launcher reads from a mux domain. */
  datatype DomainInfo = DomainInfo(
    domainId: nat,
    name: string,
    displayLabel: string,
    state: DomainState,
    spawnable: bool)

  function DomainPrefix(name: string): string {
    "domain `" + name + "`"
  }

  /** ``domain `name` ``, with ` - label` appended only when the domain's
      label is non-empty and differs from its name. */
  function DomainLabel(d: DomainInfo): (r: string)
    ensures |r| >= |DomainPrefix(d.name)| && r[..|DomainPrefix(d.name)|] == DomainPrefix(d.name)
    ensures |r| == |DomainPrefix(d.name)| <==> (d.name == d.displayLabel || d.displayLabel == "")
    ensures |r| > |DomainPrefix(d.name)| ==> r[|DomainPrefix(d.name)|..] == " - " + d.displayLabel
  {
    if d.name == d.displayLabel || d.displayLabel == "" then DomainPrefix(d.name)
    else DomainPrefix(d.name) + " - " + d.displayLabel
  }

  /** The domain an action refers to by name, if any. */
  function ActionDomain(a: KeyAssignment): Option<string> {
    match a
    case AttachDomain(name) => Some(name)
    case SpawnCommandInNewTab(SpawnCommand(DomainName(name))) => Some(name)
    case _ => None
  }

  /** An attached domain spawns a new tab in itself; any other domain is attached. */
  function DomainAction(d: DomainInfo): (r: KeyAssignment)
    ensures ActionDomain(r) == Some(d.name)
    ensures r.AttachDomain? <==> d.state != Attached
    ensures r.SpawnCommandInNewTab? <==> d.state == Attached
    ensures !IsTabAction(r)
  {
    if d.state == Attached then SpawnCommandInNewTab(SpawnCommand(DomainName(d.name)))
    else AttachDomain(d.name)
  }

  /** The domain's entry; its kind record carries an empty label. */
  function DomainEntry(d: DomainInfo, format: Formatter): (e: LauncherEntry)
    ensures e.action == DomainAction(d)
    ensures e.launchType == DomainKind(d.domainId, d.name, d.state, "")
    ensures var h := format(DomainLabel(d), e.action, e.launchType);
      e.labelText == if h.Some? then h.value else DomainLabel(d)
  {
    NewEntry(DomainLabel(d), DomainAction(d), DomainKind(d.domainId, d.name, d.state, ""), format)
  }

  // ------------------------------------------------------------------- tabs

  /** What the launcher reads from a tab of the invoking window. */
  datatype TabInfo = TabInfo(tabId: nat, title: string, activePaneIdx: nat, paneCount: nat)

  function DigitChar(d: nat): (c: char)
    requires d < 10
    ensures '0' <= c <= '9' && c as int - '0' as int == d
  {
    ('0' as int + d) as char
  }

  /** `{}` of an unsigned integer: its decimal digits, most significant first. */
  function DecimalString(n: nat): (s: string)
    ensures |s| >= 1
    ensures forall k :: 0 <= k < |s| ==> '0' <= s[k] <= '9'
    decreases n
  {
    if n < 10 then [DigitChar(n)] else DecimalString(n / 10) + [DigitChar(n % 10)]
  }

  function ParseDecimal(s: string): nat
    requires forall k :: 0 <= k < |s| ==> '0' <= s[k] <= '9'
  {
    if s == [] then 0
    else ParseDecimal(s[..|s| - 1]) * 10 + (s[|s| - 1] as int - '0' as int)
  }

  /** The pane count printed in a tab label is the pane count. */
  lemma {:induction false} DecimalRoundTrip(n: nat)
    ensures ParseDecimal(DecimalString(n)) == n
    decreases n
  {
    var s := DecimalString(n);
    if n >= 10 {
      DecimalRoundTrip(n / 10);
      assert s[..|s| - 1] == DecimalString(n / 10);
    }
  }

  /** `{title}. {pane_count} panes`. */
  function TabLabel(t: TabInfo): (l: string)
    ensures |l| == |t.title| + 2 + |DecimalString(t.paneCount)| + 6
    ensures l[..|t.title|] == t.title && l[|t.title|..|t.title| + 2] == ". "
    ensures l[|t.title| + 2..|l| - 6] == DecimalString(t.paneCount)
    ensures l[|l| - 6..] == " panes"
  {
    t.title + ". " + DecimalString(t.paneCount) + " panes"
  }

  /** A tab activates the tab whose position is the tab's id (the code passes
      `tab_id`, not the enumeration index). */
  function TabAction(t: TabInfo): (r: KeyAssignment)
    ensures IsTabAction(r)
  {
    ActivateTab(t.tabId)
  }

  /** The entry for the `idx`-th tab of the window; the kind's `tab_id` field
      holds the tab's active pane index, as the code fills it. */
  function TabEntry(t: TabInfo, idx: nat, format: Formatter): (e: LauncherEntry)
    ensures e.action == TabAction(t)
    ensures e.launchType == TabKind(t.title, t.activePaneIdx, idx, t.paneCount)
    ensures var h := format(TabLabel(t), e.action, e.launchType);
      e.labelText == if h.Some? then h.value else TabLabel(t)
  {
    NewEntry(TabLabel(t), TabAction(t), TabKind(t.title, t.activePaneIdx, idx, t.paneCount), format)
  }

  // ------------------------------------------------------------ key bindings

  /** A key code or modifier set, as its `Display` and its `Debug` text. */
  datatype KeyText = KeyText(display: string, debug: string)

  /** One binding of the default key table. */
  datatype KeyBinding = KeyBinding(code: KeyText, mods: KeyText, action: KeyAssignment)

  /** `Debug` rendering of an action. */
  type ShowAction = KeyAssignment -> string

  /** `{action:?} ({mods:?} {code:?})`. */
  function KeyLabel(k: KeyBinding, show: ShowAction): (l: string)
    ensures var a, m, c := show(k.action), k.mods.debug, k.code.debug;
      && |l| == |a| + 2 + |m| + 1 + |c| + 1
      && l[..|a|] == a && l[|a|..|a| + 2] == " ("
      && l[|a| + 2..|a| + 2 + |m|] == m && l[|a| + 2 + |m|] == ' '
      && l[|a| + 3 + |m|..|l| - 1] == c && l[|l| - 1] == ')'
  {
    show(k.action) + " (" + k.mods.debug + " " + k.code.debug + ")"
  }

  function KeyEntry(k: KeyBinding, show: ShowAction, format: Formatter): (e: LauncherEntry)
    ensures e.action == k.action
    ensures e.launchType == KeyAssignmentKind(k.code.display, k.mods.display, k.action)
    ensures var h := format(KeyLabel(k, show), e.action, e.launchType);
      e.labelText == if h.Some? then h.value else KeyLabel(k, show)
  {
    NewEntry(KeyLabel(k, show), k.action, KeyAssignmentKind(k.code.display, k.mods.display, k.action), format)
  }

  // --------------------------------------------------------------- commands

  /** One command of the expanded command palette; `keys` is the `Debug`
      text of its key hints. */
  datatype ExpandedCommand = ExpandedCommand(brief: string, doc: string, keys: string, action: KeyAssignment)

  /** `{brief}. {doc}`. */
  function CommandLabel(c: ExpandedCommand): (l: string)
    ensures |l| == |c.brief| + 2 + |c.doc|
    ensures l[..|c.brief|] == c.brief && l[|c.brief|..|c.brief| + 2] == ". " && l[|c.brief| + 2..] == c.doc
  {
    c.brief + ". " + c.doc
  }

  function CommandEntry(c: ExpandedCommand, format: Formatter): (e: LauncherEntry)
    ensures e.action == c.action
    ensures e.launchType == CommandKind(c.brief, c.doc, c.keys, c.action)
    ensures var h := format(CommandLabel(c), e.action, e.launchType);
      e.labelText == if h.Some? then h.value else CommandLabel(c)
  {
    NewEntry(CommandLabel(c), c.action, CommandKind(c.brief, c.doc, c.keys, c.action), format)
  }

  /** Without a hook, a command's label is its brief, a `. ` separator and its doc. */
  lemma CommandLabelSplits(c: ExpandedCommand, format: Formatter)
    requires format(CommandLabel(c), c.action, CommandKind(c.brief, c.doc, c.keys, c.action)).None?
    ensures var l := CommandEntry(c, format).labelText;
      && |l| == |c.brief| + 2 + |c.doc|
      && l[..|c.brief|] == c.brief && l[|c.brief|..|c.brief| + 2] == ". " && l[|c.brief| + 2..] == c.doc
  {
  }

  /** Without a hook, a tab's label ends with its pane count and ` panes`. */
  lemma {:induction false} TabLabelShowsPanes(t: TabInfo, idx: nat, format: Formatter)
    requires format(TabLabel(t), TabAction(t), TabKind(t.title, t.activePaneIdx, idx, t.paneCount)).None?
    ensures var l := TabEntry(t, idx, format).labelText;
      var digits := DecimalString(t.paneCount);
      |l| == |t.title| + 2 + |digits| + 6
      && l[..|t.title|] == t.title && l[|t.title|..|t.title| + 2] == ". "
      && ParseDecimal(l[|t.title| + 2..|t.title| + 2 + |digits|]) == t.paneCount
      && l[|l| - 6..] == " panes"
  {
    var l := TabEntry(t, idx, format).labelText;
    var digits := DecimalString(t.paneCount);
    assert l == t.title + ". " + digits + " panes";
    assert l[|t.title| + 2..|t.title| + 2 + |digits|] == digits;
    DecimalRoundTrip(t.paneCount);
  }
}
