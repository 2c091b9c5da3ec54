# wezterm launcher overlay, modelled in Dafny

This project models wezterm's launcher overlay, `wezterm-gui/src/overlay/launcher.rs`. The overlay is a full-screen
menu. It lists domains, the window's tabs, commands of the command palette and key-table shortcuts. The user moves a
cursor over the list, fuzzy-filters it by typing, and launches the selected item. Launching sends the item's key
assignment to the window.

The model has seven modules:

- `Types` holds the value types the overlay reads and produces: key assignments, entry kinds, entries and flags.
- `Sorting` is a stable insertion sort `SortBy`, standing in for Rust's `sort_by`. It is proved to be a permutation of
  its input and sorted under any total preorder.
- `Items` holds the label and action each kind of item contributes, and `LauncherEntry::new` with its label-hook
  fallback.
- `Catalog` holds the list rules of `LauncherArgs::new`: command filtering, shortcut filtering, de-duplication and
  sorting, tab enumeration, and domain ordering and retention. Each list is built by a method with the source's loop.
  The method is proved equal to a specification function, and the properties are proved about that function.
- `Filter` is the filtered view of `update_filter` as a function.
- `Engine` is the overlay's state as a value. It holds `move_up`, `move_down`, the loop's steps, the row selection
  of `render`, and the lemmas about them.
- `Overlay` holds the class `LauncherState`, with the source's fields and methods. The cursor, filter and event
  methods are proved to change the object exactly as the matching `Engine` function changes the value `View()`, so
  every `Engine` lemma holds of the object. `Render` is tied to `Engine.FrameOf`: the frame it draws is `FrameOf` of
  `View()`. `AppendAll`, `BuildEntries` and `Launch` have no `Engine` counterpart: their contracts state the new
  entries and the notification sent directly.
  `Overlay.Launcher` is the `launcher` entry point.

Things the source gets from code outside the file are parameters here:

- The fuzzy scorer (`SkimMatcherV2::fuzzy_match`) is `Filter.Matcher`. It returns `None` for no match, otherwise a
  score.
- The user's `format-launcher-item` hook is `Items.Formatter`. It returns `None` when the call fails, otherwise the
  new label.
- The `Debug` text of an action is `Items.ShowAction`. The `Display` and `Debug` texts of key codes and modifier sets
  are given as data.
- The mux's domains, the window's tabs, the default key table and the expanded command list are given as sequences.
- Terminal input is a finite sequence of `Engine.InputEvent`.
  When the sequence runs out, the loop ends as it does when `poll_input` fails.
- `window.notify` is modelled as appending to `LauncherState.notifications`.

Where the documented design and the code differ, the model follows the code:

- The quick-select digit and `launch` check no bounds. A digit or an Enter past the end of the list ends the session
  as `Panicked` (the index panic). See `Engine.QuickSelectUnchecked` and `Engine.EnterLaunchesCursor`.
- `move_down` on an empty list underflows `len() - 1`. The `Ctrl-N`, `j` and down-arrow arms then end as
  `Panicked` (in a debug build).
- A resize changes only `max_items`. It can leave the cursor below the rows listed (`Engine.ResizeCanHideCursor`).
- The wheel scrolls, and then puts the cursor under the pointer with no check that a row exists there
  (`Engine.WheelCanPassEnd`).
- The other mouse arm checks `0 < y <= len`, not `top_row + y - 1 < len`. While the view is scrolled, a left click
  below the listed rows launches past the end and panics (`Engine.ClickCanPassEnd`). A pointer move with no button
  pressed can likewise put the cursor past the end.
- A tab entry activates `ActivateTab(tab_id)`. The documented design describes it as activating the tab by its
  position in the window; the code passes the tab's id (`Items.TabAction`, `Catalog.CollectTabs`).
- `move_down` scrolls when `active_idx + top_row` (a sum) exceeds `max_items`. This can move the view back up
  (`Engine.MoveDownCanScrollBack`).
- `render` lists up to `max_items + 1` rows, because its loop stops only when `row_num > max_items`.

## Model

| member | source | states |
|---|---|---|
| Sorting.SortBy | wezterm-gui/src/overlay/launcher.rs:371 | the sorted list has the same length and the same elements with the same multiplicities (a permutation) |
| Sorting.SortBySorted | wezterm-gui/src/overlay/launcher.rs:371 | under a total preorder the result is sorted |
| Sorting.SortByDistinct | wezterm-gui/src/overlay/launcher.rs:472 | sorting keeps a key that was distinct per element distinct |
| Sorting.LexLeqTotal | wezterm-gui/src/overlay/launcher.rs:371 | `String::cmp` (lexicographic order) relates every pair of labels one way or the other |
| Sorting.LexLeqTransitive | wezterm-gui/src/overlay/launcher.rs:371 | lexicographic order is transitive |
| Items.NewEntry | wezterm-gui/src/overlay/launcher.rs:71-107 | the action and kind are kept as given; the label is the hook's result when the hook succeeds and the original label when it fails |
| Items.DomainLabel | wezterm-gui/src/overlay/launcher.rs:186-195 | the label starts with ``domain `name` ``; nothing follows exactly when the domain label equals the name or is empty; otherwise ` - label` follows |
| Items.DomainAction | wezterm-gui/src/overlay/launcher.rs:197-206 | an attached domain spawns a new tab in that domain by name, any other domain is attached by name; never a tab action |
| Items.TabAction | wezterm-gui/src/overlay/launcher.rs:264-266 | the tab's action is a tab action (`ActivateTab`/`ActivateTabRelative`); its value, `ActivateTab` of the tab's id, is stated by `Catalog.CollectTabs` |
| Items.DomainEntry | wezterm-gui/src/overlay/launcher.rs:170-184 | the entry carries the domain's action, a domain kind with its id, name, state and an empty label, and as label the hook's result for `DomainLabel`, or `DomainLabel` itself when the hook fails |
| Items.TabEntry | wezterm-gui/src/overlay/launcher.rs:244-258 | the entry carries the tab's action, a tab kind whose `tab_id` field holds the active pane index and whose `tab_idx` is the enumeration index, and as label the hook's result for `TabLabel`, or `TabLabel` itself when the hook fails |
| Items.DecimalRoundTrip | wezterm-gui/src/overlay/launcher.rs:260-262 | the decimal text of the pane count reads back as the pane count |
| Items.TabLabel | wezterm-gui/src/overlay/launcher.rs:260-262 | the label is the title, then `. `, then the pane count in decimal, then ` panes` |
| Items.TabLabelShowsPanes | wezterm-gui/src/overlay/launcher.rs:260-262 | without a hook, the tab entry's label is the title, `. `, a digit string that reads back as the pane count, and ` panes` |
| Items.KeyLabel | wezterm-gui/src/overlay/launcher.rs:229-236 | the label is the action's `Debug` text, ` (`, the modifiers' `Debug` text, a space, the key code's `Debug` text and `)` |
| Items.KeyEntry | wezterm-gui/src/overlay/launcher.rs:212-240 | the entry carries the binding's action, a key-assignment kind with the code and modifiers in display form, and as label the hook's result for `KeyLabel`, or `KeyLabel` itself when the hook fails |
| Items.CommandEntry | wezterm-gui/src/overlay/launcher.rs:278-300 | the entry carries the command's action, a command kind with its brief, doc and keys, and as label the hook's result for `CommandLabel`, or `CommandLabel` itself when the hook fails |
| Items.CommandLabel | wezterm-gui/src/overlay/launcher.rs:294-296 | the label is the brief, then `. `, then the doc |
| Items.CommandLabelSplits | wezterm-gui/src/overlay/launcher.rs:294-296 | without a hook, the command label is the brief, `. ` and the doc |
| Catalog.KeptCommandsExact | wezterm-gui/src/overlay/launcher.rs:336-348 | `KeptCommands` keeps a command if and only if it is in the list and its action is not `ActivateTab`/`ActivateTabRelative` |
| Catalog.CommandCatalogNoTabs | wezterm-gui/src/overlay/launcher.rs:339-341 | no command entry carries an `ActivateTab`/`ActivateTabRelative` action |
| Catalog.CollectCommands | wezterm-gui/src/overlay/launcher.rs:336-348 | the loop yields `CommandCatalog`; no entry has a tab action; every non-tab command has its entry |
| Catalog.LabelLeqTotalPreorder | wezterm-gui/src/overlay/launcher.rs:371 | ordering entries by label is a total preorder |
| Catalog.KeptBindingsSound | wezterm-gui/src/overlay/launcher.rs:359-370 | every binding in `KeptBindings(keys)` comes from the key table and has no tab action |
| Catalog.KeptBindingsDistinct | wezterm-gui/src/overlay/launcher.rs:359-370 | no two bindings in `KeptBindings(keys)` have equal actions |
| Catalog.KeptBindingsFirst | wezterm-gui/src/overlay/launcher.rs:359-370 | the first binding of each non-tab action is in `KeptBindings(keys)` |
| Catalog.ContainsAction | wezterm-gui/src/overlay/launcher.rs:364 | `find` on the built entries succeeds exactly when one of them has the action |
| Catalog.GatherKeyEntries | wezterm-gui/src/overlay/launcher.rs:359-370 | the loop over the key table builds an entry for each binding whose action is neither a tab action nor already present, in key-table order |
| Catalog.ShortcutCatalogFirst | wezterm-gui/src/overlay/launcher.rs:359-372 | the entry of the first binding of every non-tab action is in the sorted shortcut catalog |
| Catalog.ShortcutCatalogNoTabs | wezterm-gui/src/overlay/launcher.rs:359-363 | no shortcut entry carries an `ActivateTab`/`ActivateTabRelative` action |
| Catalog.CollectShortcuts | wezterm-gui/src/overlay/launcher.rs:351-372 | the loop and sort yield `ShortcutCatalog`: sorted by label, no tab actions, pairwise distinct actions, and the first binding of every non-tab action present |
| Catalog.CollectTabs | wezterm-gui/src/overlay/launcher.rs:374-387 | one entry per tab, in window order; entry k activates tab k's id and records index k |
| Catalog.DomainLeq | wezterm-gui/src/overlay/launcher.rs:391-403 | an attached domain sorts before any other; between two domains in the same state the smaller id sorts first |
| Catalog.DomainLeqTotalPreorder | wezterm-gui/src/overlay/launcher.rs:391-401 | attached-first-then-id is a total preorder |
| Catalog.Spawnable | wezterm-gui/src/overlay/launcher.rs:404 | `retain` keeps no more domains than it is given, all of them spawnable |
| Catalog.SpawnableExact | wezterm-gui/src/overlay/launcher.rs:404 | `retain` keeps a domain if and only if it is in the list and spawnable |
| Catalog.SpawnableSorted | wezterm-gui/src/overlay/launcher.rs:404 | `retain` keeps a sorted list sorted |
| Catalog.KeptDomainsSpec | wezterm-gui/src/overlay/launcher.rs:389-404 | `KeptDomains` keeps a domain if and only if it is spawnable; attached domains come before the others, and domains in the same state come in ascending id |
| Catalog.CollectDomains | wezterm-gui/src/overlay/launcher.rs:389-413 | the loop yields `DomainCatalog`: one entry per kept domain, in order, each with that domain's action |
| Catalog.DomainCatalogNoTabs | wezterm-gui/src/overlay/launcher.rs:197-206 | no domain entry carries a tab action |
| Catalog.PushDomainEntries | wezterm-gui/src/overlay/launcher.rs:405-409 | the push loop yields one entry per retained domain, in order, each with that domain's action |
| Catalog.NewLauncherArgs | wezterm-gui/src/overlay/launcher.rs:318-428 | each list is its catalog when its flag is set and empty otherwise; free entries are empty; the flags, pane id, domain id and title are passed through |
| Filter.Matches | wezterm-gui/src/overlay/launcher.rs:462-470 | no more results than entries, each naming an existing row (that each row appears at most once follows from `Filter.MatchesSound`) |
| Filter.MatchesSound | wezterm-gui/src/overlay/launcher.rs:462-470 | results come in row order and carry each row's own score |
| Filter.MatchesComplete | wezterm-gui/src/overlay/launcher.rs:462-470 | every matching row has a result |
| Filter.SortRanked | wezterm-gui/src/overlay/launcher.rs:472 | the stable descending sort of row-ordered results puts equal scores in row order |
| Filter.RankingSpec | wezterm-gui/src/overlay/launcher.rs:462-472 | `Ranking` names each matching row exactly once, with its score, in descending score order with ties in row order |
| Filter.Filtered | wezterm-gui/src/overlay/launcher.rs:447-477 | the view is never longer than the catalog and holds only catalog entries |
| Filter.FilteredEmptyTerm | wezterm-gui/src/overlay/launcher.rs:448-451 | an empty term shows every entry in catalog order |
| Filter.FilteredNonEmptyTerm | wezterm-gui/src/overlay/launcher.rs:453-477 | a non-empty term shows only matching entries, every matching entry, no more than the catalog, in non-increasing score |
| Engine.UpdateFilter | wezterm-gui/src/overlay/launcher.rs:447-481 | the view becomes the filtered catalog; an empty term leaves cursor and view alone, any other resets both to 0; nothing else changes |
| Engine.MoveUp | wezterm-gui/src/overlay/launcher.rs:629-634 | the cursor goes up one, stopping at 0; afterwards the view's top is at or above it; the top changes only when the cursor passed above it, and then equals it |
| Engine.MoveDown | wezterm-gui/src/overlay/launcher.rs:636-641 | on a non-empty list the cursor goes down one, stopping at the last row; the top changes only when cursor plus top exceeds `max_items`, and then becomes the cursor minus `max_items`, floored at 0 |
| Engine.Resolve | wezterm-gui/src/overlay/launcher.rs:621-627 | a launch dispatches the listed row's action to the pane exactly when the index is in range; it panics exactly on a `Panic` or an out-of-range launch; only a cancel ends as cancelled |
| Engine.Down | wezterm-gui/src/overlay/launcher.rs:636-641 | `move_down` as the loop calls it: it panics exactly on an empty list, and otherwise moves down |
| Engine.Wheel | wezterm-gui/src/overlay/launcher.rs:723-740 | a positive wheel scrolls up one row, saturating; any other sets the top row to `min(top_row + 1, len - max_items - 1)`, both subtractions saturating; a pointer on `0 < y <= len` puts the cursor at `top_row + y - 1`, else the cursor stays; nothing else changes |
| Engine.Click | wezterm-gui/src/overlay/launcher.rs:741-756 | it launches exactly on a left click at `0 < y <= len`, at row `top_row + y - 1`; any other pressed button cancels; no button continues; the cursor follows a pointer on a row |
| Engine.CharKey | wezterm-gui/src/overlay/launcher.rs:646-710 | a character launches exactly when it is a digit 1-9 outside filter mode, and then launches row `top_row + (c - '1')` with the state unchanged; only an empty list panics; only Ctrl-G cancels; the term changes only in filter mode, by appending the character; the mode changes only by `/`, which turns it on; `max_items` is kept; outside filter mode a character no arm handles (not a digit, `j`, `k`, `/` or Ctrl-P/N/G) continues with the state unchanged, as the `_` arm at 767 |
| Engine.BackspaceKey | wezterm-gui/src/overlay/launcher.rs:683-693 | it always continues; a non-empty term loses its last character and the mode stays; an empty term stays empty and the mode stays on only with FUZZY; the view is refiltered with the new term; a non-empty new term puts cursor and view at 0, an empty one keeps both while the whole catalog is shown; `max_items` is kept |
| Engine.Step | wezterm-gui/src/overlay/launcher.rs:643-767 | no event changes the catalog, the pane or the flags; only key and mouse events cancel or launch; only a resize changes `max_items`; an unlisted key and any other input event continue with the state unchanged, as the `_` arm at 767 |
| Engine.NavigationKeys | wezterm-gui/src/overlay/launcher.rs:653-676 | Up and Ctrl-P move up, Down and Ctrl-N move down in either mode; `k` and `j` do so only outside filter mode, and inside it `j` is typed into the term |
| Engine.RowPrefix | wezterm-gui/src/overlay/launcher.rs:586-590 | the gutter is four characters: ` N. ` with N the row number plus one for the first nine rows outside filter mode, four blanks otherwise |
| Engine.Header | wezterm-gui/src/overlay/launcher.rs:604-616 | in filter mode or with a term set the header is `Fuzzy matching: ` followed by the term, otherwise the instructions line |
| Engine.FrameOf | wezterm-gui/src/overlay/launcher.rs:566-616 | the frame lists up to `max_items + 1` rows from `top_row` on; row k shows filtered entry `top_row + k` with the gutter `RowPrefix(k, filtering)` and is reversed exactly when it is the cursor's row; the header is `Header` of the state |
| Engine.Frames | wezterm-gui/src/overlay/launcher.rs:643-771 | the loop draws at most one frame per event, one for every event exactly when the stream runs dry, and then the last frame is that of the final state |
| Engine.UpdateFilterKeepsInv | wezterm-gui/src/overlay/launcher.rs:447-481 | refiltering keeps the cursor on a listed row within the viewport |
| Engine.MoveDownKeepsInv | wezterm-gui/src/overlay/launcher.rs:636-641 | moving down keeps the cursor on a listed row within the viewport |
| Engine.KeyKeepsInv | wezterm-gui/src/overlay/launcher.rs:643-722 | every key event keeps the cursor on a listed row within the viewport |
| Engine.KeyRunKeepsInv | wezterm-gui/src/overlay/launcher.rs:643-767 | a session of key events only ends with the cursor on a listed row within the viewport |
| Engine.ActiveRowShown | wezterm-gui/src/overlay/launcher.rs:566-602 | with the cursor in the viewport, its row is listed and is the only row drawn reversed |
| Engine.QuickSelectMatchesGutter | wezterm-gui/src/overlay/launcher.rs:646-652 | outside filter mode, digit d launches row `top_row + d - 1`, the row whose gutter shows d, and dispatches its action |
| Engine.QuickSelectUnchecked | wezterm-gui/src/overlay/launcher.rs:646-652 | outside filter mode every digit d launches row `top_row + d - 1` and leaves the state as it was; when that row does not exist the launch panics |
| Engine.QuickSelectPastFrame | wezterm-gui/src/overlay/launcher.rs:646-652 | a digit can launch an entry the frame does not list: with ten entries and `max_items` 2 the frame lists three rows, yet `7` dispatches the seventh entry's action |
| Engine.EnterLaunchesCursor | wezterm-gui/src/overlay/launcher.rs:757-763 | Enter dispatches the action of the cursor's row, or panics when the cursor is past the end |
| Engine.EscapeCancels | wezterm-gui/src/overlay/launcher.rs:694-703 | Escape and Ctrl-G end the session with nothing dispatched and the state unchanged |
| Engine.OtherButtonCancels | wezterm-gui/src/overlay/launcher.rs:741-756 | any pressed button other than exactly the left one, off the wheel, cancels |
| Engine.LeftClickLaunches | wezterm-gui/src/overlay/launcher.rs:741-751 | a left click on `0 < y <= len` launches row `top_row + y - 1` |
| Engine.TypingRefilters | wezterm-gui/src/overlay/launcher.rs:704-710 | in filter mode a character that is not Ctrl-P/N/G is appended to the term, and the view is refiltered with the cursor at 0 |
| Engine.BackspaceOnEmptyTerm | wezterm-gui/src/overlay/launcher.rs:683-693 | backspace on an empty term leaves filter mode unless FUZZY is set, and shows the whole catalog |
| Engine.BackspacePops | wezterm-gui/src/overlay/launcher.rs:683-693 | backspace on a non-empty term pops its last character, keeps the mode and refilters with the shorter term; the cursor goes to 0 unless the term became empty, in which case cursor and view stay where they were over the whole catalog |
| Engine.SlashStartsFiltering | wezterm-gui/src/overlay/launcher.rs:677-682 | `/` outside filter mode enters it and changes nothing else |
| Engine.ResizeSetsViewport | wezterm-gui/src/overlay/launcher.rs:764-766 | a resize sets `max_items` to the rows minus 3, and to 0 when there are fewer than 3 rows, and changes nothing else |
| Engine.WheelCanPassEnd | wezterm-gui/src/overlay/launcher.rs:723-740 | a wheel event on a two-row list can put the cursor at index 2, past the end |
| Engine.ClickCanPassEnd | wezterm-gui/src/overlay/launcher.rs:741-754 | with six entries scrolled to row 5 and the invariant holding, a left click at `y` 3 launches row 7 and the session panics |
| Engine.ResizeCanHideCursor | wezterm-gui/src/overlay/launcher.rs:764-766 | a resize can leave the cursor below the listed rows |
| Engine.MoveDownCanScrollBack | wezterm-gui/src/overlay/launcher.rs:636-641 | moving down from cursor 10 with top 10 and `max_items` 5 moves the top back to 6 |
| Engine.DownThenUp | wezterm-gui/src/overlay/launcher.rs:629-641 | away from the last row, down then up restores the cursor |
| Engine.UpThenDown | wezterm-gui/src/overlay/launcher.rs:629-641 | away from the first row, up then down restores the cursor |
| Engine.Run | wezterm-gui/src/overlay/launcher.rs:643-773 | a session never changes the catalog, the pane or the flags; a launch notifies the overlay's pane with the action of a row in the final view |
| Engine.RunAppend | wezterm-gui/src/overlay/launcher.rs:643-767 | input after the event that ends the session is never read: at most one launch per session |
| Overlay.CatalogOf | wezterm-gui/src/overlay/launcher.rs:483-543 | the catalog's length is the sum of the five groups' lengths |
| Overlay.TabSlice | wezterm-gui/src/overlay/launcher.rs:502-542 | when only the tabs group carries tab actions, the concatenated catalog carries them exactly in the tabs' slice |
| Overlay.CatalogTabActions | wezterm-gui/src/overlay/launcher.rs:336-387 | in the catalog built from the groups `LauncherArgs::new` gathers, an entry carries a tab action exactly when it comes from the tabs group: domains, commands and shortcuts carry none, and every tab entry does |
| Overlay.InitialState | wezterm-gui/src/overlay/launcher.rs:781-799 | the first state holds the whole catalog with an empty term, a viewport of the screen height minus 3 floored at 0, and the invocation's pane and flags |
| Overlay.InitialStateSpec | wezterm-gui/src/overlay/launcher.rs:776-801 | the first state shows the whole catalog with cursor and view at 0, filter mode as the FUZZY flag says, and the invariant holding |
| Overlay.KeyboardSession | wezterm-gui/src/overlay/launcher.rs:776-801 | a launcher session fed only key events ends with the invariant holding |
| Overlay.FilterEntries | wezterm-gui/src/overlay/launcher.rs:453-477 | the scoring loop, the sort and the push loop yield the filtered view |
| Overlay.ScoreEntries | wezterm-gui/src/overlay/launcher.rs:462-470 | the scoring loop yields one result per matching row, in row order |
| Overlay.PickEntries | wezterm-gui/src/overlay/launcher.rs:474-477 | the push loop yields, for each result in order, the entry it names |
| Overlay.LauncherState.constructor | wezterm-gui/src/overlay/launcher.rs:783-794 | the state starts empty with cursor and view at 0 and filter mode as the FUZZY flag says |
| Overlay.LauncherState.UpdateFilter | wezterm-gui/src/overlay/launcher.rs:447-481 | changes the object as `Engine.UpdateFilter` changes its view |
| Overlay.LauncherState.AppendAll | wezterm-gui/src/overlay/launcher.rs:502-504 | pushing a group appends it to the entries |
| Overlay.LauncherState.BuildEntries | wezterm-gui/src/overlay/launcher.rs:483-543 | appends domains, tabs, free entries, commands and shortcuts, in that order |
| Overlay.LauncherState.Launch | wezterm-gui/src/overlay/launcher.rs:621-627 | sends exactly one `PerformAssignment` with the pane id and the row's action |
| Overlay.LauncherState.MoveUp | wezterm-gui/src/overlay/launcher.rs:629-634 | changes the object as `Engine.MoveUp` |
| Overlay.LauncherState.MoveDown | wezterm-gui/src/overlay/launcher.rs:636-641 | changes the object as `Engine.MoveDown` |
| Overlay.LauncherState.Down | wezterm-gui/src/overlay/launcher.rs:636-641 | moves down, or reports the underflow panic on an empty list |
| Overlay.LauncherState.TypeChar | wezterm-gui/src/overlay/launcher.rs:646-710 | a character goes through the loop's arms in their order, as `Engine.CharKey` |
| Overlay.LauncherState.Backspace | wezterm-gui/src/overlay/launcher.rs:683-693 | pops or leaves filter mode, then refilters, as `Engine.BackspaceKey` |
| Overlay.LauncherState.ScrollWheel | wezterm-gui/src/overlay/launcher.rs:723-740 | scrolls and moves the cursor as `Engine.Wheel` |
| Overlay.LauncherState.MouseClick | wezterm-gui/src/overlay/launcher.rs:741-756 | moves the cursor, launches or cancels as `Engine.Click` |
| Overlay.LauncherState.HandleEvent | wezterm-gui/src/overlay/launcher.rs:644-767 | one loop iteration changes the object and reports the outcome as `Engine.Step` |
| Overlay.LauncherState.RunLoop | wezterm-gui/src/overlay/launcher.rs:643-773 | the loop ends as `Engine.Run` says, draws after each continuing event the frames `Engine.Frames` lists, and sends a notification only when it ends by launching |
| Overlay.LauncherState.Render | wezterm-gui/src/overlay/launcher.rs:566-602 | the row loop yields `Engine.FrameOf` of the current state |
| Overlay.Launcher | wezterm-gui/src/overlay/launcher.rs:776-801 | the first frame is that of the initial state; the loop's frames and end are `Engine.Frames` and `Engine.Run` from it; at most one notification is sent, the launched one |

## Left out

- Terminal I/O is left out: raw mode, the title change and the `Change` list `render` builds. Only the header text
  and the rows listed (gutter, entry, reverse video) are modelled.
- Truncating the header and the labels to the screen width, and `parse_status_text`, come from termwiz and wezterm
  code that is not part of this model. Labels are shown whole.
- A render error ends `run_loop` early through `?`. The model always renders successfully.
- The `log::error!` that `LauncherEntry::new` writes when the hook fails is left out: logging is I/O. Only the
  fallback to the original label is modelled.
- The Lua hook's asynchronous call and the main-thread hand-off are left out. Only the hook's result is modelled, as
  `Items.Formatter`.
- The code behind the given sequences is not part of this model: the mux, the window and tab lookups, the input map,
  the command definitions and the configuration.
- The exact `Debug` texts of key codes, modifiers and actions are inputs.
- Workspaces are left out. They are collected and then never used, and the code that would list them is commented
  out.
- `Catalog.CollectShortcuts`: the key table's iteration order is taken as the given sequence. The source collects a
  hash map, so its order is unspecified.
- `Items.NewEntry`: the hook is called in the order `LauncherArgs::new` visits the items. That order is commands,
  then key bindings in key-table order before the sort, then tabs, then domains; it is not the catalog order
  (domains, tabs, commands, shortcuts). The model ignores the order because `Items.Formatter` is a pure function,
  so a hook with side effects between calls is not modelled. Interleavings of the asynchronous
  calls are not modelled.
- `Engine.MoveDown`: the `len() - 1` underflow on an empty list is a precondition. `Engine.Down` turns it into
  `Panic`, as in a debug build. In a release build the value would wrap instead; that is not modelled.
- `Overlay.LauncherState.HandleEvent`: `usize` overflow of `top_row + 1` and `top_row + y - 1` is not modelled,
  because integers are unbounded here.
- `Sorting.SortBy`: stability is proved only where the model relies on it, for the ranking in `Filter.SortRanked`.
- Mouse events other than the buttons listed are not separated: horizontal-wheel and other buttons count as
  buttons pressed, as in the source's comparison with `NONE`.
