/** `LauncherState` as the source has it: an object whose methods update its
    fields in place. The cursor, filter and event methods are proved to
    perform exactly the change the matching function of module Engine
    describes, so every lemma proved there holds of the object; the entry
    building, the launch and the render are specified directly. */
module Overlay {
  import opened Types
  import opened Sorting
  import opened Filter
  import opened Engine
  import Catalog

  /** `build_entries`' order: domains, tabs, free entries, commands, shortcuts. */
  function CatalogOf(args: Catalog.LauncherArgs): (r: seq<LauncherEntry>)
    ensures |r| == |args.domains| + |args.tabs| + |args.entries| + |args.cmddefs| + |args.shortcuts|
  {
    args.domains + args.tabs + args.entries + args.cmddefs + args.shortcuts
  }

  predicate NoTabActions(es: seq<LauncherEntry>) {
    forall k :: 0 <= k < |es| ==> !IsTabAction(es[k].action)
  }

  predicate AllTabActions(es: seq<LauncherEntry>) {
    forall k :: 0 <= k < |es| ==> IsTabAction(es[k].action)
  }

  /** Concatenating the groups puts the tab actions exactly in the tabs' slice. */
  lemma TabSlice(args: Catalog.LauncherArgs)
    requires NoTabActions(args.domains) && AllTabActions(args.tabs) && NoTabActions(args.entries)
    requires NoTabActions(args.cmddefs) && NoTabActions(args.shortcuts)
    ensures var c := CatalogOf(args);
      forall k :: 0 <= k < |c| ==>
        (IsTabAction(c[k].action) <==> |args.domains| <= k < |args.domains| + |args.tabs|)
  {
    var c := CatalogOf(args);
    var nd, nt, ne, nc := |args.domains|, |args.tabs|, |args.entries|, |args.cmddefs|;
    forall k | 0 <= k < |c|
      ensures IsTabAction(c[k].action) <==> nd <= k < nd + nt
    {
      if k < nd {
        assert c[k] == args.domains[k];
      } else if k < nd + nt {
        assert c[k] == args.tabs[k - nd];
      } else if k < nd + nt + ne {
        assert c[k] == args.entries[k - nd - nt];
      } else if k < nd + nt + ne + nc {
        assert c[k] == args.cmddefs[k - nd - nt - ne];
      } else {
        assert c[k] == args.shortcuts[k - nd - nt - ne - nc];
      }
    }
  }

  /** Tab actions are left out of the commands and the shortcuts because the
      tab entries already offer them: in a catalog built from the groups
      `LauncherArgs::new` gathers, an entry carries a tab action exactly when
      it lies in the tabs group. */
  lemma CatalogTabActions(
    args: Catalog.LauncherArgs, liveDomains: seq<Items.DomainInfo>, windowTabs: seq<Items.TabInfo>,
    keyTable: seq<Items.KeyBinding>, commands: seq<Items.ExpandedCommand>,
    show: Items.ShowAction, format: Items.Formatter)
    requires args.domains == if args.flags.domains then Catalog.DomainCatalog(liveDomains, format) else []
    requires args.tabs == if args.flags.tabs then Catalog.TabCatalog(windowTabs, format) else []
    requires args.entries == []
    requires args.cmddefs == if args.flags.commands then Catalog.CommandCatalog(commands, format) else []
    requires args.shortcuts == if args.flags.keyAssignments then Catalog.ShortcutCatalog(keyTable, show, format) else []
    ensures var c := CatalogOf(args);
      forall k :: 0 <= k < |c| ==>
        (IsTabAction(c[k].action) <==> |args.domains| <= k < |args.domains| + |args.tabs|)
  {
    Catalog.DomainCatalogNoTabs(liveDomains, format);
    Catalog.CommandCatalogNoTabs(commands, format);
    Catalog.ShortcutCatalogNoTabs(keyTable, show, format);
    assert AllTabActions(args.tabs) by {
      forall k | 0 <= k < |args.tabs| ensures IsTabAction(args.tabs[k].action) {
        assert args.tabs[k] == Items.TabEntry(windowTabs[k], k, format);
      }
    }
    TabSlice(args);
  }

  /** The state `launcher` hands to `run_loop`: cursor and view at 0, the
      viewport the screen height minus the overhead, filter mode on when the
      FUZZY flag is set, the full catalog shown. */
  function InitialState(args: Catalog.LauncherArgs, screenRows: nat, matcher: Matcher): (s: State)
    ensures s.entries == CatalogOf(args) && s.filterTerm == []
    ensures s.maxItems == SaturatingSub(screenRows, ROW_OVERHEAD)
    ensures s.paneId == args.paneId && s.flags == args.flags
  {
    var s := State(0, SaturatingSub(screenRows, ROW_OVERHEAD), 0, CatalogOf(args), [], [],
                   args.paneId, args.flags.fuzzy, args.flags);
    Engine.UpdateFilter(s, matcher)
  }

  /** The initial state shows the whole catalog, in catalog order, with the
      cursor on its first row and the invariant established. */
  lemma InitialStateSpec(args: Catalog.LauncherArgs, screenRows: nat, matcher: Matcher)
    ensures var s := InitialState(args, screenRows, matcher);
      && s.filtered == CatalogOf(args)
      && s.activeIdx == 0 && s.topRow == 0
      && s.filtering == args.flags.fuzzy
      && s.maxItems + ROW_OVERHEAD >= screenRows
      && Inv(s)
  {
  }

  /** A session fed only key events ends with the cursor and the view still
      consistent, whatever the catalog and the screen height. */
  lemma {:induction false} KeyboardSession(args: Catalog.LauncherArgs, screenRows: nat, events: seq<InputEvent>, matcher: Matcher)
    requires forall k :: 0 <= k < |events| ==> events[k].Key?
    ensures Inv(Run(InitialState(args, screenRows, matcher), events, matcher).state)
  {
    InitialStateSpec(args, screenRows, matcher);
    KeyRunKeepsInv(InitialState(args, screenRows, matcher), events, matcher);
  }

  /** The `filter_map` over the enumerated entries. */
  method ScoreEntries(es: seq<LauncherEntry>, term: string, matcher: Matcher) returns (scores: seq<MatchResult>)
    ensures scores == Matches(es, term, matcher)
  {
    scores := [];
    var rowIdx := 0;
    while rowIdx < |es|
      invariant 0 <= rowIdx <= |es|
      invariant scores == Matches(es[..rowIdx], term, matcher)
    {
      assert es[..rowIdx + 1][..rowIdx] == es[..rowIdx];
      match matcher(es[rowIdx].labelText, term) {
        case Some(score) => scores := scores + [MatchResult(rowIdx, score)];
        case None =>
      }
      rowIdx := rowIdx + 1;
    }
    assert es[..rowIdx] == es;
  }

  /** The push loop: the entry each result names, in result order. */
  method PickEntries(es: seq<LauncherEntry>, scores: seq<MatchResult>) returns (result: seq<LauncherEntry>)
    requires forall k :: 0 <= k < |scores| ==> scores[k].rowIdx < |es|
    ensures |result| == |scores|
    ensures forall j :: 0 <= j < |scores| ==> result[j] == es[scores[j].rowIdx]
  {
    result := [];
    var k := 0;
    while k < |scores|
      invariant 0 <= k <= |scores|
      invariant |result| == k
      invariant forall j :: 0 <= j < k ==> result[j] == es[scores[j].rowIdx]
    {
      result := result + [es[scores[k].rowIdx]];
      k := k + 1;
    }
  }

  /** The body of `update_filter` for a non-empty term: score each entry,
      keep the matches, sort them by descending score, and collect the
      entries they name. */
  method FilterEntries(es: seq<LauncherEntry>, term: string, matcher: Matcher) returns (result: seq<LauncherEntry>)
    requires term != []
    ensures result == Filtered(es, term, matcher)
  {
    var scores := ScoreEntries(es, term, matcher);
    scores := SortBy(scores, ScoreGeq);
    assert scores == Ranking(es, term, matcher);
    result := PickEntries(es, scores);
  }

  class LauncherState {
    var activeIdx: nat
    var maxItems: nat
    var topRow: nat
    var entries: seq<LauncherEntry>
    var filterTerm: string
    var filteredEntries: seq<LauncherEntry>
    var paneId: nat
    var filtering: bool
    var flags: LauncherFlags
    /** What has been sent to the window with `notify`. */
    var notifications: seq<Notification>

    function View(): State
      reads this
    {
      State(activeIdx, maxItems, topRow, entries, filterTerm, filteredEntries, paneId, filtering, flags)
    }

    /** The state `launcher` builds before adding the entries. */
    constructor (maxItems: nat, paneId: nat, flags: LauncherFlags)
      ensures View() == State(0, maxItems, 0, [], [], [], paneId, flags.fuzzy, flags)
      ensures notifications == []
    {
      this.activeIdx := 0;
      this.maxItems := maxItems;
      this.topRow := 0;
      this.entries := [];
      this.filterTerm := [];
      this.filteredEntries := [];
      this.paneId := paneId;
      this.filtering := flags.fuzzy;
      this.flags := flags;
      this.notifications := [];
    }

    method UpdateFilter(matcher: Matcher)
      modifies this
      ensures View() == Engine.UpdateFilter(old(View()), matcher)
      ensures notifications == old(notifications)
    {
      if filterTerm == [] {
        filteredEntries := entries;
        return;
      }
      filteredEntries := FilterEntries(entries, filterTerm, matcher);
      activeIdx := 0;
      topRow := 0;
    }

    /** Appends one group of entries, one push at a time. */
    method AppendAll(group: seq<LauncherEntry>)
      modifies this`entries
      ensures entries == old(entries) + group
    {
      var i := 0;
      while i < |group|
        invariant 0 <= i <= |group|
        invariant entries == old(entries) + group[..i]
      {
        assert group[..i + 1] == group[..i] + [group[i]];
        entries := entries + [group[i]];
        i := i + 1;
      }
      assert group[..i] == group;
    }

    method BuildEntries(args: Catalog.LauncherArgs)
      modifies this`entries
      ensures entries == old(entries) + CatalogOf(args)
    {
      AppendAll(args.domains);
      AppendAll(args.tabs);
      AppendAll(args.entries);
      AppendAll(args.cmddefs);
      AppendAll(args.shortcuts);
    }

    /** `launch`: the row's action goes to the window; the index is not
        checked, so the caller must keep it in range. */
    method Launch(idx: nat)
      requires idx < |filteredEntries|
      modifies this`notifications
      ensures notifications == old(notifications) + [PerformAssignment(paneId, filteredEntries[idx].action)]
    {
      var assignment := filteredEntries[idx].action;
      notifications := notifications + [PerformAssignment(paneId, assignment)];
    }

    method MoveUp()
      modifies this`activeIdx, this`topRow
      ensures View() == Engine.MoveUp(old(View()))
    {
      activeIdx := SaturatingSub(activeIdx, 1);
      if activeIdx < topRow {
        topRow := activeIdx;
      }
    }

    method MoveDown()
      requires |filteredEntries| > 0
      modifies this`activeIdx, this`topRow
      ensures View() == Engine.MoveDown(old(View()))
    {
      var last := |filteredEntries| - 1;
      activeIdx := if activeIdx + 1 < last then activeIdx + 1 else last;
      if activeIdx + topRow > maxItems {
        topRow := SaturatingSub(activeIdx, maxItems);
      }
    }

    /** `move_down` where the loop calls it; the empty list is the underflow. */
    method Down() returns (outcome: Outcome)
      modifies this`activeIdx, this`topRow
      ensures StepResult(View(), outcome) == Engine.Down(old(View()))
    {
      if |filteredEntries| == 0 {
        return Panic;
      }
      MoveDown();
      return Continue;
    }

    /** A typed character, tried against the loop's arms in their order. */
    method TypeChar(c: char, mods: set<Modifier>, matcher: Matcher) returns (outcome: Outcome)
      modifies this
      ensures StepResult(View(), outcome) == CharKey(old(View()), c, mods, matcher)
      ensures notifications == old(notifications)
    {
      outcome := Continue;
      if !filtering && '1' <= c <= '9' {
        outcome := LaunchRow(topRow + (c as int - '1' as int));
      } else if c == 'j' && !filtering {
        outcome := Down();
      } else if c == 'k' && !filtering {
        MoveUp();
      } else if c == 'P' && mods == {Ctrl} {
        MoveUp();
      } else if c == 'N' && mods == {Ctrl} {
        outcome := Down();
      } else if c == '/' && !filtering {
        filtering := true;
      } else if c == 'G' && mods == {Ctrl} {
        outcome := Cancel;
      } else if filtering {
        filterTerm := filterTerm + [c];
        UpdateFilter(matcher);
      }
    }

    method Backspace(matcher: Matcher)
      modifies this
      ensures StepResult(View(), Continue) == BackspaceKey(old(View()), matcher)
      ensures notifications == old(notifications)
    {
      if filterTerm == [] {
        if !flags.fuzzy {
          filtering := false;
        }
      } else {
        filterTerm := filterTerm[..|filterTerm| - 1];
      }
      UpdateFilter(matcher);
    }

    method ScrollWheel(y: nat, positive: bool)
      modifies this`activeIdx, this`topRow
      ensures View() == Wheel(old(View()), y, positive)
    {
      if positive {
        topRow := SaturatingSub(topRow, 1);
      } else {
        topRow := topRow + 1;
        var limit := SaturatingSub(SaturatingSub(|filteredEntries|, maxItems), 1);
        if limit < topRow {
          topRow := limit;
        }
      }
      if 0 < y <= |filteredEntries| {
        activeIdx := topRow + y - 1;
      }
    }

    method MouseClick(y: nat, buttons: set<MouseButton>) returns (outcome: Outcome)
      modifies this`activeIdx
      ensures StepResult(View(), outcome) == Click(old(View()), y, buttons)
    {
      if 0 < y <= |filteredEntries| {
        activeIdx := topRow + y - 1;
        if buttons == {Left} {
          return LaunchRow(activeIdx);
        }
      }
      outcome := if buttons != {} then Cancel else Continue;
    }

    /** The body of one loop iteration, without the launch and the render. */
    method HandleEvent(e: InputEvent, matcher: Matcher) returns (outcome: Outcome)
      modifies this
      ensures StepResult(View(), outcome) == Step(old(View()), e, matcher)
      ensures notifications == old(notifications)
    {
      outcome := Continue;
      match e {
        case Key(Char(c), mods) =>
          outcome := TypeChar(c, mods, matcher);
        case Key(Backspace, _) =>
          Backspace(matcher);
        case Key(Escape, _) =>
          outcome := Cancel;
        case Key(UpArrow, _) =>
          MoveUp();
        case Key(DownArrow, _) =>
          outcome := Down();
        case Key(Enter, _) =>
          outcome := LaunchRow(activeIdx);
        case Key(OtherKey, _) =>
        case Mouse(y, buttons) =>
          if VertWheel in buttons {
            ScrollWheel(y, WheelPositive in buttons);
          } else {
            outcome := MouseClick(y, buttons);
          }
        case Resized(rows) =>
          maxItems := SaturatingSub(rows, ROW_OVERHEAD);
        case OtherInput =>
      }
    }

    /** `run_loop` over a scripted input stream: at most one notification is
        ever sent, and only by the iteration that ends the loop; every other
        iteration draws a frame. */
    method RunLoop(events: seq<InputEvent>, matcher: Matcher) returns (end: SessionEnd, frames: seq<Frame>)
      modifies this
      ensures RunResult(View(), end) == Run(old(View()), events, matcher)
      ensures frames == Frames(old(View()), events, matcher)
      ensures notifications == old(notifications) + (if end.Launched? then [end.notification] else [])
    {
      frames := [];
      var i := 0;
      while i < |events|
        invariant 0 <= i <= |events|
        invariant Run(View(), events[i..], matcher) == Run(old(View()), events, matcher)
        invariant frames + Frames(View(), events[i..], matcher) == Frames(old(View()), events, matcher)
        invariant notifications == old(notifications)
      {
        assert events[i..][0] == events[i] && events[i..][1..] == events[i + 1..];
        StepUnfolds(View(), events[i..], matcher);
        var outcome := HandleEvent(events[i], matcher);
        match outcome {
          case Continue =>
          case LaunchRow(idx) =>
            if idx < |filteredEntries| {
              Launch(idx);
              return Launched(PerformAssignment(paneId, filteredEntries[idx].action)), frames;
            }
            return Panicked, frames;
          case Cancel =>
            return Cancelled, frames;
          case Panic =>
            return Panicked, frames;
        }
        var frame := Render();
        frames := frames + [frame];
        i := i + 1;
      }
      end := InputClosed;
    }

    /** The row selection and header of `render`. */
    method Render() returns (frame: Frame)
      ensures frame == FrameOf(View())
    {
      var rows: seq<Row> := [];
      var rowNum := 0;
      while topRow + rowNum < |filteredEntries| && rowNum <= maxItems
        invariant 0 <= rowNum <= VisibleCount(View())
        invariant |rows| == rowNum
        invariant forall k :: 0 <= k < rowNum ==>
          rows[k] == Row(RowPrefix(k, filtering), filteredEntries[topRow + k], topRow + k == activeIdx)
      {
        var entryIdx := topRow + rowNum;
        rows := rows + [Row(RowPrefix(rowNum, filtering), filteredEntries[entryIdx], entryIdx == activeIdx)];
        rowNum := rowNum + 1;
      }
      frame := Frame(Header(View()), rows);
    }
  }

  /** `launcher`: build the state, the entries and the initial view, draw the
      first frame, then run the loop. Returns how the session ended, the first
      frame, the frames the loop drew, and what was sent to the window. */
  method Launcher(args: Catalog.LauncherArgs, screenRows: nat, events: seq<InputEvent>, matcher: Matcher)
    returns (end: SessionEnd, firstFrame: Frame, laterFrames: seq<Frame>, sent: seq<Notification>)
    ensures firstFrame == FrameOf(InitialState(args, screenRows, matcher))
    ensures laterFrames == Frames(InitialState(args, screenRows, matcher), events, matcher)
    ensures end == Run(InitialState(args, screenRows, matcher), events, matcher).end
    ensures sent == if end.Launched? then [end.notification] else []
  {
    ghost var s0 := InitialState(args, screenRows, matcher);
    var state := new LauncherState(SaturatingSub(screenRows, ROW_OVERHEAD), args.paneId, args.flags);
    state.BuildEntries(args);
    assert state.View() == State(0, SaturatingSub(screenRows, ROW_OVERHEAD), 0, CatalogOf(args), [], [],
                                 args.paneId, args.flags.fuzzy, args.flags);
    state.UpdateFilter(matcher);
    assert state.View() == s0;
    firstFrame := state.Render();
    end, laterFrames := state.RunLoop(events, matcher);
    sent := state.notifications;
  }
}
