/** The session engine as values: the session state, the cursor and scroll
    operations, the filter refresh, one iteration of the input loop (`Step`),
    the whole loop over a scripted input stream (`Run`) and the rows a render
    shows (`FrameOf`). The class in module Overlay performs the same changes
    in place and is proved equal to these functions. */
module Engine {
  import opened Types
  import opened Filter
  import Items

  /** Rows of the terminal not available for entries. */
  const ROW_OVERHEAD: nat := 3

  datatype Modifier = Ctrl | Shift | Alt | Super
  datatype KeyCode = Char(c: char) | Backspace | Escape | Enter | UpArrow | DownArrow | OtherKey
  datatype MouseButton = Left | Middle | Right | VertWheel | HorzWheel | WheelPositive

  /** The events the loop distinguishes; `Mouse.y` is the pointer's row. */
  datatype InputEvent =
    | Key(key: KeyCode, modifiers: set<Modifier>)
    | Mouse(y: nat, buttons: set<MouseButton>)
    | Resized(rows: nat)
    | OtherInput

  /** `LauncherState`, without the window handle. */
  datatype State = State(
    activeIdx: nat,
    maxItems: nat,
    topRow: nat,
    entries: seq<LauncherEntry>,
    filterTerm: string,
    filtered: seq<LauncherEntry>,
    paneId: nat,
    filtering: bool,
    flags: LauncherFlags)

  /** What one loop iteration decides: keep going, leave without an action,
      launch the filtered row `idx`, or crash (`len() - 1` underflowing in
      `move_down` on an empty list). */
  datatype Outcome = Continue | Cancel | LaunchRow(idx: nat) | Panic

  datatype StepResult = StepResult(state: State, outcome: Outcome)

  /** `TermWindowNotif::PerformAssignment`. */
  datatype Notification = PerformAssignment(paneId: nat, assignment: KeyAssignment)

  /** How a session ends: the input stream ran dry, the user cancelled, one
      action was dispatched, or the code panicked (an out-of-range launch
      index, or the `move_down` underflow). */
  datatype SessionEnd = InputClosed | Cancelled | Launched(notification: Notification) | Panicked

  datatype RunResult = RunResult(state: State, end: SessionEnd)

  // -------------------------------------------------------------- filtering

  /** `update_filter`: an empty term shows every entry and leaves the cursor
      where it is; any other term ranks the entries and resets the cursor. */
  function UpdateFilter(s: State, matcher: Matcher): (r: State)
    ensures r.filtered == Filtered(s.entries, s.filterTerm, matcher)
    ensures s.filterTerm == [] ==> r.activeIdx == s.activeIdx && r.topRow == s.topRow
    ensures s.filterTerm != [] ==> r.activeIdx == 0 && r.topRow == 0
    ensures r.(filtered := s.filtered, activeIdx := s.activeIdx, topRow := s.topRow) == s
  {
    if s.filterTerm == [] then s.(filtered := s.entries)
    else s.(filtered := Filtered(s.entries, s.filterTerm, matcher), activeIdx := 0, topRow := 0)
  }

  // ------------------------------------------------------ cursor and scroll

  /** `move_up`: one row up, stopping at 0; the view follows a cursor that
      leaves its top. */
  function MoveUp(s: State): (r: State)
    ensures r.activeIdx == SaturatingSub(s.activeIdx, 1)
    ensures r.topRow <= r.activeIdx
    ensures r.topRow != s.topRow ==> r.activeIdx < s.topRow && r.topRow == r.activeIdx
    ensures r.(activeIdx := s.activeIdx, topRow := s.topRow) == s
  {
    var active := SaturatingSub(s.activeIdx, 1);
    s.(activeIdx := active, topRow := if active < s.topRow then active else s.topRow)
  }

  /** `move_down`: one row down, stopping at the last filtered row. The code
      scrolls when `active_idx + top_row` (a sum, not a difference) exceeds
      `max_items`, and then puts the cursor on the view's last row. The
      `len() - 1` is unsigned, so the list must be non-empty. */
  function MoveDown(s: State): (r: State)
    requires |s.filtered| > 0
    ensures r.activeIdx < |s.filtered|
    ensures r.activeIdx == if s.activeIdx + 1 < |s.filtered| then s.activeIdx + 1 else |s.filtered| - 1
    ensures r.topRow != s.topRow ==> r.activeIdx + s.topRow > s.maxItems
    ensures r.activeIdx + s.topRow > s.maxItems ==> r.topRow == SaturatingSub(r.activeIdx, s.maxItems)
    ensures r.(activeIdx := s.activeIdx, topRow := s.topRow) == s
  {
    var active := if s.activeIdx + 1 < |s.filtered| then s.activeIdx + 1 else |s.filtered| - 1;
    s.(activeIdx := active,
       topRow := if active + s.topRow > s.maxItems then SaturatingSub(active, s.maxItems) else s.topRow)
  }

  function Down(s: State): (r: StepResult)
    ensures r.outcome.Panic? <==> |s.filtered| == 0
    ensures r.outcome.Continue? <==> |s.filtered| > 0
    ensures |s.filtered| == 0 ==> r.state == s
    ensures |s.filtered| > 0 ==> r.state == MoveDown(s)
  {
    if |s.filtered| == 0 then StepResult(s, Panic) else StepResult(MoveDown(s), Continue)
  }

  /** The vertical-wheel arm: scroll by one row (up when the wheel is positive,
      else down, stopping at `len - max_items - 1`), then put the cursor under
      the pointer whenever `0 < y <= len` - with no check that the row exists. */
  function Wheel(s: State, y: nat, positive: bool): (r: State)
    ensures positive ==> r.topRow == SaturatingSub(s.topRow, 1)
    ensures !positive ==> var limit := SaturatingSub(SaturatingSub(|s.filtered|, s.maxItems), 1);
      r.topRow == if s.topRow + 1 < limit then s.topRow + 1 else limit
    ensures 0 < y <= |s.filtered| ==> r.activeIdx == r.topRow + y - 1
    ensures !(0 < y <= |s.filtered|) ==> r.activeIdx == s.activeIdx
    ensures r.(activeIdx := s.activeIdx, topRow := s.topRow) == s
  {
    var top := if positive then SaturatingSub(s.topRow, 1)
               else var t := s.topRow + 1;
                    var limit := SaturatingSub(SaturatingSub(|s.filtered|, s.maxItems), 1);
                    if t < limit then t else limit;
    s.(topRow := top, activeIdx := if 0 < y <= |s.filtered| then top + y - 1 else s.activeIdx)
  }

  /** The other mouse arm: a pointer on `0 < y <= len` moves the cursor there
      and a left click (exactly the left button) launches it; any event with a
      button pressed that did not launch cancels. */
  function Click(s: State, y: nat, buttons: set<MouseButton>): (r: StepResult)
    ensures r.outcome.LaunchRow? <==> 0 < y <= |s.filtered| && buttons == {Left}
    ensures r.outcome.LaunchRow? ==> r.outcome.idx == s.topRow + y - 1
    ensures r.outcome.Cancel? <==> buttons != {} && !r.outcome.LaunchRow?
    ensures r.outcome.Continue? <==> buttons == {}
    ensures r.state.activeIdx == if 0 < y <= |s.filtered| then s.topRow + y - 1 else s.activeIdx
    ensures r.state.(activeIdx := s.activeIdx) == s
  {
    var onRow := 0 < y <= |s.filtered|;
    var s1 := if onRow then s.(activeIdx := s.topRow + y - 1) else s;
    if onRow && buttons == {Left} then StepResult(s1, LaunchRow(s1.activeIdx))
    else if buttons != {} then StepResult(s1, Cancel)
    else StepResult(s1, Continue)
  }

  /** A typed character, tried against the loop's arms in their order. */
  function CharKey(s: State, c: char, mods: set<Modifier>, matcher: Matcher): (r: StepResult)
    ensures r.outcome.LaunchRow? <==> !s.filtering && '1' <= c <= '9'
    ensures r.outcome.LaunchRow? ==> r.outcome.idx == s.topRow + (c as int - '1' as int) && r.state == s
    ensures r.outcome.Panic? ==> |s.filtered| == 0
    ensures r.outcome.Cancel? ==> c == 'G' && mods == {Ctrl} && r.state == s
    ensures r.state.filterTerm != s.filterTerm ==> s.filtering && r.state.filterTerm == s.filterTerm + [c]
    ensures r.state.filtering != s.filtering ==> c == '/' && r.state.filtering
    ensures r.state.maxItems == s.maxItems
    ensures !s.filtering && !('1' <= c <= '9') && c != 'j' && c != 'k' && c != '/' && !(c in "PNG" && mods == {Ctrl}) ==>
      r == StepResult(s, Continue)
  {
    if !s.filtering && '1' <= c <= '9' then StepResult(s, LaunchRow(s.topRow + (c as int - '1' as int)))
    else if c == 'j' && !s.filtering then Down(s)
    else if c == 'k' && !s.filtering then StepResult(MoveUp(s), Continue)
    else if c == 'P' && mods == {Ctrl} then StepResult(MoveUp(s), Continue)
    else if c == 'N' && mods == {Ctrl} then Down(s)
    else if c == '/' && !s.filtering then StepResult(s.(filtering := true), Continue)
    else if c == 'G' && mods == {Ctrl} then StepResult(s, Cancel)
    else if s.filtering then StepResult(UpdateFilter(s.(filterTerm := s.filterTerm + [c]), matcher), Continue)
    else StepResult(s, Continue)
  }

  /** Backspace: pop one character; popping from an empty term leaves filter
      mode unless the FUZZY flag is set; refilter in every case. */
  function BackspaceKey(s: State, matcher: Matcher): (r: StepResult)
    ensures r.outcome == Continue
    ensures r.state.maxItems == s.maxItems
    ensures s.filterTerm != [] ==> r.state.filterTerm == s.filterTerm[..|s.filterTerm| - 1] && r.state.filtering == s.filtering
    ensures s.filterTerm == [] ==> r.state.filterTerm == [] && r.state.filtering == (s.filtering && s.flags.fuzzy)
    ensures r.state.filtered == Filtered(s.entries, r.state.filterTerm, matcher)
    ensures r.state.filterTerm != [] ==> r.state.activeIdx == 0 && r.state.topRow == 0
    ensures r.state.filterTerm == [] ==>
      r.state.activeIdx == s.activeIdx && r.state.topRow == s.topRow && r.state.filtered == s.entries
  {
    var term := s.filterTerm;
    var s1 := if term == [] then s.(filtering := if s.flags.fuzzy then s.filtering else false)
              else s.(filterTerm := term[..|term| - 1]);
    StepResult(UpdateFilter(s1, matcher), Continue)
  }

  /** One iteration of `run_loop`'s `match`. */
  function Step(s: State, e: InputEvent, matcher: Matcher): (r: StepResult)
    ensures r.state.entries == s.entries && r.state.paneId == s.paneId && r.state.flags == s.flags
    ensures r.outcome.Cancel? || r.outcome.LaunchRow? ==> e.Key? || e.Mouse?
    ensures !e.Resized? ==> r.state.maxItems == s.maxItems
    ensures e.OtherInput? || (e.Key? && e.key.OtherKey?) ==> r == StepResult(s, Continue)
  {
    match e
    case Key(Char(c), mods) => CharKey(s, c, mods, matcher)
    case Key(Backspace, _) => BackspaceKey(s, matcher)
    case Key(Escape, _) => StepResult(s, Cancel)
    case Key(UpArrow, _) => StepResult(MoveUp(s), Continue)
    case Key(DownArrow, _) => Down(s)
    case Key(Enter, _) => StepResult(s, LaunchRow(s.activeIdx))
    case Key(OtherKey, _) => StepResult(s, Continue)
    case Mouse(y, buttons) =>
      if VertWheel in buttons then StepResult(Wheel(s, y, WheelPositive in buttons), Continue)
      else Click(s, y, buttons)
    case Resized(rows) => StepResult(s.(maxItems := SaturatingSub(rows, ROW_OVERHEAD)), Continue)
    case OtherInput => StepResult(s, Continue)
  }

  /** `launch` followed by `break`: the action of the filtered row is sent to
      the window, or the unchecked index panics. */
  function Resolve(s: State, o: Outcome): (end: SessionEnd)
    requires !o.Continue?
    ensures end.Launched? <==> o.LaunchRow? && o.idx < |s.filtered|
    ensures end.Launched? ==> end.notification == PerformAssignment(s.paneId, s.filtered[o.idx].action)
    ensures end.Cancelled? <==> o.Cancel?
    ensures end.Panicked? <==> o.Panic? || (o.LaunchRow? && o.idx >= |s.filtered|)
  {
    match o
    case Cancel => Cancelled
    case Panic => Panicked
    case LaunchRow(idx) =>
      if idx < |s.filtered| then Launched(PerformAssignment(s.paneId, s.filtered[idx].action)) else Panicked
  }

  /** `run_loop` over a scripted input stream: one event per iteration until
      an iteration ends the session or the stream runs dry. */
  function Run(s: State, events: seq<InputEvent>, matcher: Matcher): (r: RunResult)
    ensures r.state.entries == s.entries && r.state.paneId == s.paneId && r.state.flags == s.flags
    ensures r.end.Launched? ==> r.end.notification.paneId == s.paneId
    ensures r.end.Launched? ==>
      exists k :: 0 <= k < |r.state.filtered| && r.end.notification.assignment == r.state.filtered[k].action
    decreases |events|
  {
    if events == [] then RunResult(s, InputClosed)
    else
      var r := Step(s, events[0], matcher);
      if r.outcome.Continue? then Run(r.state, events[1..], matcher)
      else RunResult(r.state, Resolve(r.state, r.outcome))
  }

  /** One iteration of `Run` and `Frames`: a continuing event draws its
      frame and the rest of the stream follows; any other event ends both. */
  lemma StepUnfolds(s: State, events: seq<InputEvent>, matcher: Matcher)
    requires events != []
    ensures var r := Step(s, events[0], matcher);
      && (r.outcome.Continue? ==>
            Run(s, events, matcher) == Run(r.state, events[1..], matcher)
            && Frames(s, events, matcher) == [FrameOf(r.state)] + Frames(r.state, events[1..], matcher))
      && (!r.outcome.Continue? ==>
            Run(s, events, matcher) == RunResult(r.state, Resolve(r.state, r.outcome))
            && Frames(s, events, matcher) == [])
  {
  }

  // --------------------------------------------------------------- render

  const INSTRUCTIONS: string := "Select an item and press Enter=launch  Esc=cancel  /=filter"
  const FUZZY_PREFIX: string := "Fuzzy matching: "

  /** One listed row: its gutter, its entry and whether it is drawn reversed. */
  datatype Row = Row(prefix: string, entry: LauncherEntry, reversed: bool)
  datatype Frame = Frame(header: string, rows: seq<Row>)

  /** ` N. ` for the first nine rows outside filter mode, else four blanks. */
  function RowPrefix(rowNum: nat, filtering: bool): (p: string)
    ensures |p| == 4
    ensures rowNum < 9 && !filtering ==> p == [' ', Items.DigitChar(rowNum + 1), '.', ' ']
    ensures !(rowNum < 9 && !filtering) ==> p == "    "
  {
    if rowNum < 9 && !filtering then [' ', Items.DigitChar(rowNum + 1), '.', ' '] else "    "
  }

  /** The loop in `render` stops once `row_num > max_items`, so it lists up to
      `max_items + 1` rows from `top_row` on. */
  function VisibleCount(s: State): nat {
    if s.topRow >= |s.filtered| then 0
    else if |s.filtered| - s.topRow < s.maxItems + 1 then |s.filtered| - s.topRow
    else s.maxItems + 1
  }

  /** The instructions, or `Fuzzy matching: ` and the term in filter mode or
      while a term is set. */
  function Header(s: State): (h: string)
    ensures s.filtering || s.filterTerm != [] ==>
      |h| == |FUZZY_PREFIX| + |s.filterTerm| && h[..|FUZZY_PREFIX|] == FUZZY_PREFIX && h[|FUZZY_PREFIX|..] == s.filterTerm
    ensures !(s.filtering || s.filterTerm != []) ==> h == INSTRUCTIONS
  {
    if s.filtering || s.filterTerm != [] then FUZZY_PREFIX + s.filterTerm else INSTRUCTIONS
  }

  /** The frame after the header line's overwrite (truncation to the width
      is not modelled). */
  function FrameOf(s: State): (f: Frame)
    ensures |f.rows| == VisibleCount(s)
    ensures forall k :: 0 <= k < |f.rows| ==> s.topRow + k < |s.filtered| && f.rows[k].entry == s.filtered[s.topRow + k]
    ensures forall k :: 0 <= k < |f.rows| ==>
      f.rows[k].prefix == RowPrefix(k, s.filtering) && (f.rows[k].reversed <==> s.topRow + k == s.activeIdx)
    ensures f.header == Header(s)
  {
    var n := VisibleCount(s);
    Frame(Header(s), seq(n, k requires 0 <= k < n => Row(RowPrefix(k, s.filtering), s.filtered[s.topRow + k], s.topRow + k == s.activeIdx)))
  }

  /** The frames `run_loop` draws: one after every event that does not end
      the session, each of the state that event left. */
  function Frames(s: State, events: seq<InputEvent>, matcher: Matcher): (f: seq<Frame>)
    ensures |f| <= |events|
    ensures |f| == |events| <==> Run(s, events, matcher).end.InputClosed?
    ensures |f| > 0 && |f| == |events| ==> f[|f| - 1] == FrameOf(Run(s, events, matcher).state)
    decreases |events|
  {
    if events == [] then []
    else
      var r := Step(s, events[0], matcher);
      if r.outcome.Continue? then [FrameOf(r.state)] + Frames(r.state, events[1..], matcher)
      else []
  }

  // ---------------------------------------------------------------- lemmas

  /** The cursor and the view are consistent: the cursor is on a filtered row
      (or at 0), within `max_items` rows below the view's top, and the
      filtered view is no longer than the catalog. */
  ghost predicate Inv(s: State) {
    && |s.filtered| <= |s.entries|
    && (s.activeIdx == 0 || s.activeIdx < |s.filtered|)
    && s.topRow <= s.activeIdx <= s.topRow + s.maxItems
  }

  lemma UpdateFilterKeepsInv(s: State, matcher: Matcher)
    requires |s.filtered| <= |s.entries|
    requires s.activeIdx == 0 || s.activeIdx < |s.filtered|
    requires s.topRow <= s.activeIdx <= s.topRow + s.maxItems
    ensures Inv(UpdateFilter(s, matcher))
  {
    if s.filterTerm != [] {
      FilteredNonEmptyTerm(s.entries, s.filterTerm, matcher);
    }
  }

  lemma MoveDownKeepsInv(s: State)
    requires Inv(s) && |s.filtered| > 0
    ensures Inv(MoveDown(s))
  {
  }

  /** Every key event keeps the invariant (mouse and resize events do not:
      see the counterexamples below). */
  lemma KeyKeepsInv(s: State, key: KeyCode, mods: set<Modifier>, matcher: Matcher)
    requires Inv(s)
    ensures Inv(Step(s, Key(key, mods), matcher).state)
  {
    match key {
      case Char(c) =>
        if s.filtering && !(c == 'P' && mods == {Ctrl}) && !(c == 'N' && mods == {Ctrl}) && !(c == 'G' && mods == {Ctrl}) {
          UpdateFilterKeepsInv(s.(filterTerm := s.filterTerm + [c]), matcher);
        } else if |s.filtered| > 0 {
          MoveDownKeepsInv(s);
        }
      case Backspace =>
        var term := s.filterTerm;
        var s1 := if term == [] then s.(filtering := if s.flags.fuzzy then s.filtering else false)
                  else s.(filterTerm := term[..|term| - 1]);
        UpdateFilterKeepsInv(s1, matcher);
      case DownArrow =>
        if |s.filtered| > 0 {
          MoveDownKeepsInv(s);
        }
      case _ =>
    }
  }

  /** Under the invariant the cursor's row is listed, and it is the only
      reversed row: the render's `max_items + 1` rows cover the window the
      invariant allows. */
  lemma {:induction false} ActiveRowShown(s: State)
    requires Inv(s) && |s.filtered| > 0
    ensures var f := FrameOf(s);
      && 0 <= s.activeIdx - s.topRow < |f.rows|
      && f.rows[s.activeIdx - s.topRow].reversed
      && forall k :: 0 <= k < |f.rows| && f.rows[k].reversed ==> k == s.activeIdx - s.topRow
  {
    var f := FrameOf(s);
    assert VisibleCount(s) > s.activeIdx - s.topRow;
    assert f.rows[s.activeIdx - s.topRow].reversed;
  }

  /** A quick-select digit launches the row whose gutter shows that digit. */
  lemma QuickSelectMatchesGutter(s: State, d: nat, mods: set<Modifier>, matcher: Matcher)
    requires !s.filtering && 1 <= d <= 9 && d - 1 < VisibleCount(s)
    ensures var c := Items.DigitChar(d);
      var r := Step(s, Key(Char(c), mods), matcher);
      && r.outcome == LaunchRow(s.topRow + d - 1)
      && FrameOf(s).rows[d - 1].prefix == [' ', c, '.', ' ']
      && Resolve(r.state, r.outcome) == Launched(PerformAssignment(s.paneId, FrameOf(s).rows[d - 1].entry.action))
  {
  }

  /** Outside filter mode every digit launches `top_row + d - 1` whatever the
      list holds; when fewer rows remain from the view's top, the launch
      panics: the digit is not bounds-checked. */
  lemma QuickSelectUnchecked(s: State, d: nat, mods: set<Modifier>, matcher: Matcher)
    requires !s.filtering && 1 <= d <= 9
    ensures var r := Step(s, Key(Char(Items.DigitChar(d)), mods), matcher);
      && r.state == s && r.outcome == LaunchRow(s.topRow + d - 1)
      && (s.topRow + d - 1 >= |s.filtered| ==> Resolve(r.state, r.outcome) == Panicked)
  {
  }

  /** Counterexample: a digit can launch a row the frame does not list. With
      ten entries and `max_items` 2 the frame lists three rows, yet `7`
      launches the seventh entry. */
  lemma QuickSelectPastFrame(es: seq<LauncherEntry>, matcher: Matcher)
    requires |es| == 10
    ensures var s := State(0, 2, 0, es, [], es, 0, false, LauncherFlags(false, false, false, false, false, false));
      var r := Step(s, Key(Char('7'), {}), matcher);
      && |FrameOf(s).rows| == 3
      && Run(s, [Key(Char('7'), {})], matcher).end == Launched(PerformAssignment(0, es[6].action))
  {
  }

  /** Enter launches the cursor's row; on an empty list that panics. */
  lemma EnterLaunchesCursor(s: State, mods: set<Modifier>, rest: seq<InputEvent>, matcher: Matcher)
    ensures Run(s, [Key(Enter, mods)] + rest, matcher).end ==
      if s.activeIdx < |s.filtered| then Launched(PerformAssignment(s.paneId, s.filtered[s.activeIdx].action))
      else Panicked
  {
    assert ([Key(Enter, mods)] + rest)[0] == Key(Enter, mods);
  }

  /** Escape and Ctrl-G end the session with nothing dispatched. */
  lemma EscapeCancels(s: State, e: InputEvent, rest: seq<InputEvent>, matcher: Matcher)
    requires e.Key? && (e.key == Escape || (e.key == Char('G') && e.modifiers == {Ctrl}))
    ensures Run(s, [e] + rest, matcher) == RunResult(s, Cancelled)
  {
    assert ([e] + rest)[0] == e;
  }

  /** A button other than exactly the left one ends the session with nothing
      dispatched, wherever the pointer is. */
  lemma OtherButtonCancels(s: State, y: nat, buttons: set<MouseButton>, rest: seq<InputEvent>, matcher: Matcher)
    requires buttons != {} && buttons != {Left} && VertWheel !in buttons
    ensures Run(s, [Mouse(y, buttons)] + rest, matcher).end == Cancelled
  {
    assert ([Mouse(y, buttons)] + rest)[0] == Mouse(y, buttons);
  }

  /** A left click on a listed position launches `top_row + y - 1`. */
  lemma LeftClickLaunches(s: State, y: nat, matcher: Matcher)
    requires 0 < y <= |s.filtered|
    ensures Step(s, Mouse(y, {Left}), matcher).outcome == LaunchRow(s.topRow + y - 1)
  {
  }

  /** A typed character in filter mode extends the term and puts the cursor
      on the best match. */
  lemma TypingRefilters(s: State, c: char, mods: set<Modifier>, matcher: Matcher)
    requires s.filtering
    requires !(c in "PNG" && mods == {Ctrl})
    ensures var r := Step(s, Key(Char(c), mods), matcher);
      && r.outcome == Continue
      && r.state.filterTerm == s.filterTerm + [c]
      && r.state.filtered == Filtered(s.entries, s.filterTerm + [c], matcher)
      && r.state.activeIdx == 0 && r.state.topRow == 0
  {
  }

  /** Backspace on an empty term leaves filter mode unless FUZZY is set, and
      shows the whole catalog. */
  lemma BackspaceOnEmptyTerm(s: State, mods: set<Modifier>, matcher: Matcher)
    requires s.filterTerm == []
    ensures var r := Step(s, Key(Backspace, mods), matcher).state;
      && r.filtering == (s.filtering && s.flags.fuzzy)
      && r.filtered == s.entries
      && r.activeIdx == s.activeIdx && r.topRow == s.topRow
  {
  }

  /** `/` outside filter mode enters it and changes nothing else. */
  lemma SlashStartsFiltering(s: State, mods: set<Modifier>, matcher: Matcher)
    requires !s.filtering
    ensures Step(s, Key(Char('/'), mods), matcher) == StepResult(s.(filtering := true), Continue)
  {
  }

  /** The navigation keys: the arrows and Ctrl-P/Ctrl-N move the cursor in
      either mode, `k` and `j` only outside filter mode (inside it they are
      typed into the term). */
  lemma NavigationKeys(s: State, mods: set<Modifier>, matcher: Matcher)
    ensures Step(s, Key(UpArrow, mods), matcher) == StepResult(MoveUp(s), Continue)
    ensures Step(s, Key(DownArrow, mods), matcher) == Down(s)
    ensures Step(s, Key(Char('P'), {Ctrl}), matcher) == StepResult(MoveUp(s), Continue)
    ensures Step(s, Key(Char('N'), {Ctrl}), matcher) == Down(s)
    ensures !s.filtering ==> Step(s, Key(Char('k'), mods), matcher) == StepResult(MoveUp(s), Continue)
    ensures !s.filtering ==> Step(s, Key(Char('j'), mods), matcher) == Down(s)
    ensures s.filtering && mods != {Ctrl} ==>
      Step(s, Key(Char('j'), mods), matcher).state.filterTerm == s.filterTerm + ['j']
  {
  }

  /** A resize sets the viewport to the new height minus the overhead,
      floored at 0, and moves neither the cursor nor the view. */
  lemma ResizeSetsViewport(s: State, rows: nat, matcher: Matcher)
    ensures var r := Step(s, Resized(rows), matcher);
      && r.outcome == Continue
      && r.state.maxItems + ROW_OVERHEAD >= rows
      && (rows >= ROW_OVERHEAD ==> r.state.maxItems + ROW_OVERHEAD == rows)
      && (rows < ROW_OVERHEAD ==> r.state.maxItems == 0)
      && r.state.(maxItems := s.maxItems) == s
  {
  }

  /** Backspace on a non-empty term pops its last character, stays in the
      current mode and refilters with the shorter term. */
  lemma BackspacePops(s: State, mods: set<Modifier>, matcher: Matcher)
    requires s.filterTerm != []
    ensures var term := s.filterTerm[..|s.filterTerm| - 1];
      var r := Step(s, Key(Backspace, mods), matcher);
      && r.outcome == Continue
      && r.state.filterTerm == term
      && r.state.filtering == s.filtering
      && r.state.filtered == Filtered(s.entries, term, matcher)
      && (term != [] ==> r.state.activeIdx == 0 && r.state.topRow == 0)
      && (term == [] ==> r.state.activeIdx == s.activeIdx && r.state.topRow == s.topRow && r.state.filtered == s.entries)
  {
  }

  /** Counterexample: a wheel event can put the cursor past the last row. */
  lemma WheelCanPassEnd(e: LauncherEntry, matcher: Matcher)
    ensures var s := State(0, 0, 0, [e, e], [], [e, e], 0, false, LauncherFlags(false, false, false, false, false, false));
      var r := Step(s, Mouse(2, {VertWheel}), matcher);
      && Inv(s) && r.outcome == Continue
      && r.state.topRow == 1 && r.state.activeIdx == 2 && r.state.activeIdx >= |r.state.filtered|
  {
  }

  /** Counterexample: a left click tests `y` against the list's length, not
      `top_row + y - 1`, so while scrolled a click below the listed rows
      launches past the end and panics. */
  lemma ClickCanPassEnd(es: seq<LauncherEntry>, matcher: Matcher)
    requires |es| == 6
    ensures var s := State(5, 2, 5, es, [], es, 0, false, LauncherFlags(false, false, false, false, false, false));
      Inv(s) && Run(s, [Mouse(3, {Left})], matcher).end == Panicked
  {
  }

  /** Counterexample: a resize does not move the view, so the cursor can end
      up below the listed rows. */
  lemma ResizeCanHideCursor(es: seq<LauncherEntry>, matcher: Matcher)
    requires |es| == 20
    ensures var s := State(10, 20, 0, es, [], es, 0, false, LauncherFlags(false, false, false, false, false, false));
      var r := Step(s, Resized(8), matcher).state;
      Inv(s) && r.maxItems == 5 && r.topRow == 0 && r.activeIdx == 10
      && !Inv(r) && |FrameOf(r).rows| == 6
  {
  }

  /** Moving down can move the view back up: the scroll test adds `top_row`. */
  lemma MoveDownCanScrollBack(es: seq<LauncherEntry>)
    requires |es| == 20
    ensures var s := State(10, 5, 10, es, [], es, 0, false, LauncherFlags(false, false, false, false, false, false));
      var r := MoveDown(s);
      Inv(s) && r.activeIdx == 11 && r.topRow == 6 && Inv(r)
  {
  }

  /** Going down then up, away from the ends, restores the cursor. */
  lemma DownThenUp(s: State)
    requires s.activeIdx + 1 < |s.filtered|
    ensures MoveUp(MoveDown(s)).activeIdx == s.activeIdx
  {
  }

  /** Going up then down, away from the ends, restores the cursor. */
  lemma UpThenDown(s: State)
    requires 0 < s.activeIdx < |s.filtered|
    ensures MoveDown(MoveUp(s)).activeIdx == s.activeIdx
  {
  }

  /** Running two scripts back to back is running them one after the other,
      unless the first ended the session: then the second is never read. At
      most one action is dispatched per session. */
  lemma {:induction false} RunAppend(s: State, a: seq<InputEvent>, b: seq<InputEvent>, matcher: Matcher)
    ensures var ra := Run(s, a, matcher);
      Run(s, a + b, matcher) == if ra.end.InputClosed? then Run(ra.state, b, matcher) else ra
    decreases |a|
  {
    if a != [] {
      assert (a + b)[0] == a[0];
      assert (a + b)[1..] == a[1..] + b;
      var r := Step(s, a[0], matcher);
      if r.outcome.Continue? {
        RunAppend(r.state, a[1..], b, matcher);
      }
    } else {
      assert a + b == b;
    }
  }

  /** A session that only receives key events keeps the invariant at its end. */
  lemma {:induction false} KeyRunKeepsInv(s: State, events: seq<InputEvent>, matcher: Matcher)
    requires Inv(s)
    requires forall k :: 0 <= k < |events| ==> events[k].Key?
    ensures Inv(Run(s, events, matcher).state)
    decreases |events|
  {
    if events != [] {
      KeyKeepsInv(s, events[0].key, events[0].modifiers, matcher);
      var r := Step(s, events[0], matcher);
      if r.outcome.Continue? {
        KeyRunKeepsInv(r.state, events[1..], matcher);
      }
    }
  }
}
