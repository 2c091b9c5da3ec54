/** `LauncherArgs::new`: the entry groups gathered before the session starts.
    Each group has a specification function (`...Catalog`) and a method that
    builds it with the source's loops; the lemmas say what the rules promise. */
module Catalog {
  import opened Types
  import opened Sorting
  import opened Items

  /** The gathered groups (workspaces are collected by the source but never
      used, so they are not kept here). `entries` is always empty. */
  datatype LauncherArgs = LauncherArgs(
    flags: LauncherFlags,
    domains: seq<LauncherEntry>,
    cmddefs: seq<LauncherEntry>,
    shortcuts: seq<LauncherEntry>,
    tabs: seq<LauncherEntry>,
    entries: seq<LauncherEntry>,
    paneId: nat,
    domainIdOfCurrentTab: nat,
    title: string)

  function EntryAction(e: LauncherEntry): KeyAssignment { e.action }

  // --------------------------------------------------------------- commands

  /** The commands that survive the tab-action exclusion, in palette order. */
  function KeptCommands(cmds: seq<ExpandedCommand>): seq<ExpandedCommand> {
    if cmds == [] then []
    else
      var last := cmds[|cmds| - 1];
      KeptCommands(cmds[..|cmds| - 1]) + (if IsTabAction(last.action) then [] else [last])
  }

  function CommandCatalog(cmds: seq<ExpandedCommand>, format: Formatter): seq<LauncherEntry> {
    var kept := KeptCommands(cmds);
    seq(|kept|, k requires 0 <= k < |kept| => CommandEntry(kept[k], format))
  }

  /** A command is kept exactly when its action is not a tab action. */
  lemma {:induction false} KeptCommandsExact(cmds: seq<ExpandedCommand>, c: ExpandedCommand)
    ensures c in KeptCommands(cmds) <==> c in cmds && !IsTabAction(c.action)
  {
    if cmds != [] {
      var init := cmds[..|cmds| - 1];
      KeptCommandsExact(init, c);
      assert cmds == init + [cmds[|cmds| - 1]];
    }
  }

  /** No command entry carries a tab action. */
  lemma CommandCatalogNoTabs(cmds: seq<ExpandedCommand>, format: Formatter)
    ensures var r := CommandCatalog(cmds, format);
      forall k :: 0 <= k < |r| ==> !IsTabAction(r[k].action)
  {
    var kept := KeptCommands(cmds);
    forall k | 0 <= k < |kept| ensures !IsTabAction(kept[k].action) {
      assert kept[k] in kept;
      KeptCommandsExact(cmds, kept[k]);
    }
  }

  method CollectCommands(cmds: seq<ExpandedCommand>, format: Formatter) returns (cmddefs: seq<LauncherEntry>)
    ensures cmddefs == CommandCatalog(cmds, format)
    ensures forall k :: 0 <= k < |cmddefs| ==> !IsTabAction(cmddefs[k].action)
    ensures forall c :: c in cmds && !IsTabAction(c.action) ==> CommandEntry(c, format) in cmddefs
  {
    cmddefs := [];
    var i := 0;
    while i < |cmds|
      invariant 0 <= i <= |cmds|
      invariant cmddefs == CommandCatalog(cmds[..i], format)
    {
      assert cmds[..i + 1][..i] == cmds[..i];
      match cmds[i].action {
        case ActivateTabRelative(_) =>
        case ActivateTab(_) =>
        case _ =>
          var entry := CommandEntry(cmds[i], format);
          cmddefs := cmddefs + [entry];
      }
      i := i + 1;
    }
    assert cmds[..i] == cmds;
    CommandCatalogNoTabs(cmds, format);
    forall c | c in cmds && !IsTabAction(c.action) ensures CommandEntry(c, format) in cmddefs {
      KeptCommandsExact(cmds, c);
      var kept := KeptCommands(cmds);
      var k :| 0 <= k < |kept| && kept[k] == c;
      assert cmddefs[k] == CommandEntry(c, format);
    }
  }

  // -------------------------------------------------------------- shortcuts

  predicate HasAction(bs: seq<KeyBinding>, a: KeyAssignment) {
    exists k :: 0 <= k < |bs| && bs[k].action == a
  }

  /** The bindings that survive: tab actions are skipped, and a binding whose
      action an earlier kept binding already has is dropped. */
  function KeptBindings(keys: seq<KeyBinding>): seq<KeyBinding> {
    if keys == [] then []
    else
      var prev := KeptBindings(keys[..|keys| - 1]);
      var last := keys[|keys| - 1];
      if IsTabAction(last.action) || HasAction(prev, last.action) then prev else prev + [last]
  }

  function KeyEntries(bs: seq<KeyBinding>, show: ShowAction, format: Formatter): (r: seq<LauncherEntry>)
    ensures |r| == |bs| && forall k :: 0 <= k < |bs| ==> r[k] == KeyEntry(bs[k], show, format)
  {
    seq(|bs|, k requires 0 <= k < |bs| => KeyEntry(bs[k], show, format))
  }

  /** Entries compare by label, as `a.label.cmp(&b.label)`. */
  function LabelLeq(a: LauncherEntry, b: LauncherEntry): bool {
    LexLeq(a.labelText, b.labelText)
  }

  lemma LabelLeqTotalPreorder()
    ensures TotalPreorder(LabelLeq)
  {
    forall a: LauncherEntry, b: LauncherEntry ensures LabelLeq(a, b) || LabelLeq(b, a) {
      LexLeqTotal(a.labelText, b.labelText);
    }
    forall a: LauncherEntry, b: LauncherEntry, c: LauncherEntry | LabelLeq(a, b) && LabelLeq(b, c)
      ensures LabelLeq(a, c)
    {
      LexLeqTransitive(a.labelText, b.labelText, c.labelText);
    }
  }

  function ShortcutCatalog(keys: seq<KeyBinding>, show: ShowAction, format: Formatter): seq<LauncherEntry> {
    SortBy(KeyEntries(KeptBindings(keys), show, format), LabelLeq)
  }

  /** Every kept binding comes from the key table and has a non-tab action. */
  lemma {:induction false} KeptBindingsSound(keys: seq<KeyBinding>, b: KeyBinding)
    requires b in KeptBindings(keys)
    ensures b in keys && !IsTabAction(b.action)
  {
    if keys != [] {
      var init := keys[..|keys| - 1];
      assert keys == init + [keys[|keys| - 1]];
      if b in KeptBindings(init) {
        KeptBindingsSound(init, b);
      }
    }
  }

  /** No two kept bindings have equal actions. */
  lemma {:induction false} KeptBindingsDistinct(keys: seq<KeyBinding>)
    ensures DistinctBy(KeptBindings(keys), (b: KeyBinding) => b.action)
  {
    if keys != [] {
      KeptBindingsDistinct(keys[..|keys| - 1]);
    }
  }

  /** The first binding of each non-tab action is the one kept. */
  lemma {:induction false} KeptBindingsFirst(keys: seq<KeyBinding>, i: nat)
    requires i < |keys| && !IsTabAction(keys[i].action)
    requires forall j :: 0 <= j < i ==> keys[j].action != keys[i].action
    ensures keys[i] in KeptBindings(keys)
  {
    var init := keys[..|keys| - 1];
    if i < |keys| - 1 {
      KeptBindingsFirst(init, i);
    } else {
      var prev := KeptBindings(init);
      if HasAction(prev, keys[i].action) {
        var k :| 0 <= k < |prev| && prev[k].action == keys[i].action;
        KeptBindingsSound(init, prev[k]);
        assert false;
      }
    }
  }

  function ContainsAction(es: seq<LauncherEntry>, a: KeyAssignment): (b: bool)
    ensures b <==> exists k :: 0 <= k < |es| && es[k].action == a
  {
    if es == [] then false
    else es[0].action == a || (assert forall k :: 0 <= k < |es[1..]| ==> es[1..][k] == es[k + 1]; ContainsAction(es[1..], a))
  }

  /** The loop over the key table: a binding is skipped when its action is a
      tab action or an entry built so far already has it. */
  method GatherKeyEntries(keys: seq<KeyBinding>, show: ShowAction, format: Formatter) returns (keyEntries: seq<LauncherEntry>)
    ensures keyEntries == KeyEntries(KeptBindings(keys), show, format)
  {
    keyEntries := [];
    var i := 0;
    while i < |keys|
      invariant 0 <= i <= |keys|
      invariant keyEntries == KeyEntries(KeptBindings(keys[..i]), show, format)
    {
      assert keys[..i + 1][..i] == keys[..i];
      var keymap := keys[i];
      var kept := KeptBindings(keys[..i]);
      if !IsTabAction(keymap.action) {
        var found := ContainsAction(keyEntries, keymap.action);
        assert found <==> HasAction(kept, keymap.action);
        if !found {
          keyEntries := keyEntries + [KeyEntry(keymap, show, format)];
        }
      }
      i := i + 1;
    }
    assert keys[..i] == keys;
  }

  /** The first binding of every non-tab action has its entry in the catalog. */
  lemma ShortcutCatalogFirst(keys: seq<KeyBinding>, show: ShowAction, format: Formatter)
    ensures forall i :: 0 <= i < |keys| && !IsTabAction(keys[i].action)
              && (forall j :: 0 <= j < i ==> keys[j].action != keys[i].action)
              ==> KeyEntry(keys[i], show, format) in ShortcutCatalog(keys, show, format)
  {
    var kept := KeptBindings(keys);
    var keyEntries := KeyEntries(kept, show, format);
    forall i | 0 <= i < |keys| && !IsTabAction(keys[i].action)
              && (forall j :: 0 <= j < i ==> keys[j].action != keys[i].action)
      ensures KeyEntry(keys[i], show, format) in ShortcutCatalog(keys, show, format)
    {
      KeptBindingsFirst(keys, i);
      var j :| 0 <= j < |kept| && kept[j] == keys[i];
      assert keyEntries[j] == KeyEntry(keys[i], show, format);
      SortByMembers(keyEntries, LabelLeq, keyEntries[j]);
    }
  }

  /** No shortcut entry carries a tab action. */
  lemma ShortcutCatalogNoTabs(keys: seq<KeyBinding>, show: ShowAction, format: Formatter)
    ensures var r := ShortcutCatalog(keys, show, format);
      forall k :: 0 <= k < |r| ==> !IsTabAction(r[k].action)
  {
    var kept := KeptBindings(keys);
    var keyEntries := KeyEntries(kept, show, format);
    forall j | 0 <= j < |keyEntries| ensures !IsTabAction(keyEntries[j].action) {
      assert kept[j] in kept;
      KeptBindingsSound(keys, kept[j]);
    }
    var r := SortBy(keyEntries, LabelLeq);
    forall k | 0 <= k < |r| ensures !IsTabAction(r[k].action) {
      SortByMembers(keyEntries, LabelLeq, r[k]);
    }
  }

  method CollectShortcuts(keys: seq<KeyBinding>, show: ShowAction, format: Formatter) returns (shortcuts: seq<LauncherEntry>)
    ensures shortcuts == ShortcutCatalog(keys, show, format)
    ensures Sorted(shortcuts, LabelLeq)
    ensures forall k :: 0 <= k < |shortcuts| ==> !IsTabAction(shortcuts[k].action)
    ensures DistinctBy(shortcuts, EntryAction)
    ensures forall i :: 0 <= i < |keys| && !IsTabAction(keys[i].action)
              && (forall j :: 0 <= j < i ==> keys[j].action != keys[i].action)
              ==> KeyEntry(keys[i], show, format) in shortcuts
  {
    var keyEntries := GatherKeyEntries(keys, show, format);
    shortcuts := SortBy(keyEntries, LabelLeq);
    LabelLeqTotalPreorder();
    SortBySorted(keyEntries, LabelLeq);
    KeptBindingsDistinct(keys);
    assert DistinctBy(keyEntries, EntryAction);
    SortByDistinct(keyEntries, LabelLeq, EntryAction);
    ShortcutCatalogNoTabs(keys, show, format);
    ShortcutCatalogFirst(keys, show, format);
  }

  // ------------------------------------------------------------------- tabs

  function TabCatalog(tabs: seq<TabInfo>, format: Formatter): (r: seq<LauncherEntry>)
    ensures |r| == |tabs|
  {
    seq(|tabs|, k requires 0 <= k < |tabs| => TabEntry(tabs[k], k, format))
  }

  method CollectTabs(tabs: seq<TabInfo>, format: Formatter) returns (otabs: seq<LauncherEntry>)
    ensures otabs == TabCatalog(tabs, format)
    ensures forall k :: 0 <= k < |otabs| ==> otabs[k].action == ActivateTab(tabs[k].tabId) && otabs[k].launchType.tabIdx == k
  {
    otabs := [];
    var tabIdx := 0;
    while tabIdx < |tabs|
      invariant 0 <= tabIdx <= |tabs|
      invariant |otabs| == tabIdx
      invariant forall k :: 0 <= k < tabIdx ==> otabs[k] == TabEntry(tabs[k], k, format)
    {
      otabs := otabs + [TabEntry(tabs[tabIdx], tabIdx, format)];
      tabIdx := tabIdx + 1;
    }
  }

  // ---------------------------------------------------------------- domains

  /** Attached domains first, then ascending domain id. */
  function DomainLeq(a: DomainInfo, b: DomainInfo): (r: bool)
    ensures a.state == Attached && b.state != Attached ==> r
    ensures a.state != Attached && b.state == Attached ==> !r
    ensures a.state == b.state ==> (r <==> a.domainId <= b.domainId)
  {
    if a.state != b.state then a.state == Attached else a.domainId <= b.domainId
  }

  lemma DomainLeqTotalPreorder()
    ensures TotalPreorder(DomainLeq)
  {
  }

  /** `retain(|dom| dom.spawnable())`. */
  function Spawnable(ds: seq<DomainInfo>): (r: seq<DomainInfo>)
    ensures |r| <= |ds|
    ensures forall k :: 0 <= k < |r| ==> r[k].spawnable
  {
    if ds == [] then []
    else (if ds[0].spawnable then [ds[0]] else []) + Spawnable(ds[1..])
  }

  lemma {:induction false} SpawnableExact(ds: seq<DomainInfo>, d: DomainInfo)
    ensures d in Spawnable(ds) <==> d in ds && d.spawnable
  {
    if ds != [] {
      SpawnableExact(ds[1..], d);
      assert ds == [ds[0]] + ds[1..];
    }
  }

  /** Retaining a sub-list keeps it sorted. */
  lemma {:induction false} SpawnableSorted(ds: seq<DomainInfo>)
    requires Sorted(ds, DomainLeq)
    ensures Sorted(Spawnable(ds), DomainLeq)
  {
    if ds != [] {
      var rest := ds[1..];
      assert Sorted(rest, DomainLeq) by {
        forall i, j | 0 <= i < j < |rest| ensures DomainLeq(rest[i], rest[j]) {
          assert rest[i] == ds[i + 1] && rest[j] == ds[j + 1];
        }
      }
      SpawnableSorted(rest);
      var tail := Spawnable(rest);
      forall k | 0 <= k < |tail| ensures DomainLeq(ds[0], tail[k]) {
        assert tail[k] in tail;
        SpawnableExact(rest, tail[k]);
        var j :| 0 <= j < |rest| && rest[j] == tail[k];
        assert ds[j + 1] == tail[k];
      }
    }
  }

  function KeptDomains(domains: seq<DomainInfo>): seq<DomainInfo> {
    Spawnable(SortBy(domains, DomainLeq))
  }

  function DomainEntries(kept: seq<DomainInfo>, format: Formatter): (r: seq<LauncherEntry>)
    ensures |r| == |kept| && forall k :: 0 <= k < |kept| ==> r[k] == DomainEntry(kept[k], format)
  {
    seq(|kept|, k requires 0 <= k < |kept| => DomainEntry(kept[k], format))
  }

  function DomainCatalog(domains: seq<DomainInfo>, format: Formatter): (r: seq<LauncherEntry>)
    ensures |r| == |KeptDomains(domains)|
  {
    DomainEntries(KeptDomains(domains), format)
  }

  /** The kept domains: exactly the spawnable ones, attached before detached,
      then by ascending id. */
  lemma KeptDomainsSpec(domains: seq<DomainInfo>)
    ensures forall d :: d in KeptDomains(domains) <==> d in domains && d.spawnable
    ensures var kept := KeptDomains(domains);
      forall i, j :: 0 <= i < j < |kept| ==>
        (kept[j].state == Attached ==> kept[i].state == Attached)
        && (kept[i].state == kept[j].state ==> kept[i].domainId <= kept[j].domainId)
  {
    var sorted := SortBy(domains, DomainLeq);
    forall d ensures d in KeptDomains(domains) <==> d in domains && d.spawnable {
      SpawnableExact(sorted, d);
      SortByMembers(domains, DomainLeq, d);
    }
    DomainLeqTotalPreorder();
    SortBySorted(domains, DomainLeq);
    SpawnableSorted(sorted);
  }

  /** No domain entry carries a tab action. */
  lemma DomainCatalogNoTabs(domains: seq<DomainInfo>, format: Formatter)
    ensures var r := DomainCatalog(domains, format);
      forall k :: 0 <= k < |r| ==> !IsTabAction(r[k].action)
  {
  }

  /** The loop over the retained domains: one entry each, in order. */
  method PushDomainEntries(kept: seq<DomainInfo>, format: Formatter) returns (d: seq<LauncherEntry>)
    ensures d == DomainEntries(kept, format)
    ensures forall k :: 0 <= k < |d| ==> d[k].action == DomainAction(kept[k])
  {
    d := [];
    var i := 0;
    while i < |kept|
      invariant 0 <= i <= |kept|
      invariant |d| == i
      invariant forall k :: 0 <= k < i ==> d[k] == DomainEntry(kept[k], format)
    {
      d := d + [DomainEntry(kept[i], format)];
      i := i + 1;
    }
  }

  method CollectDomains(domains: seq<DomainInfo>, format: Formatter) returns (d: seq<LauncherEntry>)
    ensures d == DomainCatalog(domains, format)
    ensures forall k :: 0 <= k < |d| ==> d[k].action == DomainAction(KeptDomains(domains)[k])
  {
    var sorted := SortBy(domains, DomainLeq);
    var retained := Spawnable(sorted);
    d := PushDomainEntries(retained, format);
  }

  // -------------------------------------------------------------- the args

  /** `LauncherArgs::new`, with the live state passed in: each group is
      gathered only when its flag is set. */
  method NewLauncherArgs(
    title: string, flags: LauncherFlags, paneId: nat, domainIdOfCurrentTab: nat,
    liveDomains: seq<DomainInfo>, windowTabs: seq<TabInfo>, keyTable: seq<KeyBinding>,
    commands: seq<ExpandedCommand>, show: ShowAction, format: Formatter)
    returns (args: LauncherArgs)
    ensures args.flags == flags && args.paneId == paneId && args.title == title
    ensures args.domainIdOfCurrentTab == domainIdOfCurrentTab
    ensures args.cmddefs == if flags.commands then CommandCatalog(commands, format) else []
    ensures args.shortcuts == if flags.keyAssignments then ShortcutCatalog(keyTable, show, format) else []
    ensures args.tabs == if flags.tabs then TabCatalog(windowTabs, format) else []
    ensures args.domains == if flags.domains then DomainCatalog(liveDomains, format) else []
    ensures args.entries == []
  {
    var cmddefs: seq<LauncherEntry> := [];
    if flags.commands {
      cmddefs := CollectCommands(commands, format);
    }
    var keyEntries: seq<LauncherEntry> := [];
    if flags.keyAssignments {
      keyEntries := CollectShortcuts(keyTable, show, format);
    }
    var tabs: seq<LauncherEntry> := [];
    if flags.tabs {
      tabs := CollectTabs(windowTabs, format);
    }
    var domains: seq<LauncherEntry> := [];
    if flags.domains {
      domains := CollectDomains(liveDomains, format);
    }
    args := LauncherArgs(flags, domains, cmddefs, keyEntries, tabs, [], paneId, domainIdOfCurrentTab, title);
  }
}
