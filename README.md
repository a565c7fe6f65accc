# kitty-plus core, modelled in Dafny

This project models the four sequential state holders of the kitty-plus
terminal emulator and proves properties of them:

- **Terminal state and tab registry** (`terminal.dfy`, module `Terminal`).
  The class `Terminal` holds the fields of `TerminalState`: the cursor, the
  dimensions, the primary and alternate grids of cells, the alternate-buffer
  flag, and the tabs with the active index. `State()` packs these fields into
  the datatype `TerminalState`. Every method is proved against a pure
  function of the old state: `Printed`, `Executed`, `Resized`,
  `WithNewTab`, `WithTabActivity` and `WithTabSwitched`. The properties are
  stated on those functions and in lemmas about them. The escape-sequence
  parser is a foreign crate, so its output is modelled as a sequence of
  `Event`s, one per parser callback. `Run` folds those events over the state,
  and the loop method `ProcessEvents` stands for `process_input`.
- **Command palette** (`command_palette.dfy`, module `Palette`). The command
  list is fixed once from the feature switches. On top of it sit a
  case-insensitive substring filter and a cyclic selection.
- **Session recorder** (`session.dfy`, module `Session`). An append-only
  event log that is written only while recording is on.
- **AI assistant** (`ai.dfy`, module `Ai`). An on/off switch, an optional
  key, a memo cache of suggestions, and a fixed table of explanations.

`types.dfy` holds `Option` and the unsigned integer ranges (`u8`, `u16`,
`u32`, `u64`). `config.dfy` holds the `Features` switches that the palette
reads.

The model follows the code where the code and the design of a fuller
terminal differ:

- A line feed also resets the column.
- A tab is not clamped to the last column.
- Wrapping on the last row moves the cursor past `rows`. There is no
  scrolling: later prints fail the bounds guard and do nothing.
- `resize` reshapes only the primary buffer. It neither clamps the cursor
  nor rejects zero dimensions.
- The default cell holds the NUL glyph and all-zero colours.
- There is no backspace handling.
- The CSI, OSC, ESC and DCS callbacks do nothing.

`print` requires `PrintSafe`: when the bounds guard passes, the cell under
the cursor must exist in the active buffer. Without that, the Rust code
would index out of range. `ActiveShaped` (the active grid is exactly
`rows` × `cols`) implies `PrintSafe`, and every callback preserves it.

## Model

| member | source | states |
|---|---|---|
| `Terminal.ResizeVec` | src/terminal.rs:82-84 | `Vec::resize`: the result has length `n`, keeps the first elements and is padded with the fill value |
| `Terminal.TerminalState.ActiveShaped` | src/terminal.rs:118-125 | a grid of exactly `rows` rows of `cols` cells makes the cell write of `print` safe |
| `Terminal.Printed` | src/terminal.rs:117-133 | out of bounds nothing changes; in bounds only the glyph of the cell under the cursor in the active buffer changes (fg, bg, attributes, other cells, inactive buffer, tabs are kept); the cursor advances one column or wraps to column 0 of the next row, so the column stays below `cols`; the grid shape is preserved |
| `Terminal.TabStop` | src/terminal.rs:145 | the new column is a multiple of 8, greater than the old one by 1 to 8 |
| `Terminal.TabStopIsLeast` | src/terminal.rs:145 | the tab stop is the least multiple of 8 beyond the column |
| `Terminal.MaskRoundsDown` | src/terminal.rs:145 | on a 64-bit word, `& !7` rounds down to a multiple of 8, which is what `TabStop` computes |
| `Terminal.Executed` | src/terminal.rs:135-149 | only the cursor moves; LF goes to column 0 of the next row, CR to column 0 of the same row, HT to the next multiple of 8 (unclamped); any other byte changes nothing |
| `Terminal.Performed` | src/terminal.rs:116-156 | the dispatch callbacks `hook`, `put`, `unhook`, `osc_dispatch`, `csi_dispatch`, `esc_dispatch` leave the state unchanged; no callback touches dimensions, inactive buffer or tabs; the active grid keeps its shape |
| `Terminal.Run` | src/terminal.rs:88-92 | a whole input of callbacks keeps the active grid's shape and never touches dimensions, inactive buffer or tabs |
| `Terminal.RunConcat` | src/terminal.rs:88-92 | feeding two inputs in turn is feeding their concatenation |
| `Terminal.WrittenFrom` | src/terminal.rs:124 | a row whose glyphs from column `x` on are replaced, left to right, by the characters of a run: those cells keep their colours and attributes, every other cell is untouched |
| `Terminal.FirstPrint` | src/terminal.rs:123-131 | the first print of a run inside the bounds moves the cursor one column, or to the start of the next row at the edge, keeps the shape and dimensions, and the rest of the run continues from there |
| `Terminal.RunOfPrintsCursor` | src/terminal.rs:125-130 | after a run of prints that fits in the row, the cursor is just after it, or at column 0 of the next row when it reaches the edge |
| `Terminal.RunIsPrintAll` | src/terminal.rs:88-92 | a run of `Print` callbacks is `print` applied to each character in turn |
| `Terminal.PrintAllGrid` | src/terminal.rs:117-124 | a run of prints that fits in the row changes the active buffer only in that row, which becomes `WrittenFrom` the cursor column |
| `Terminal.RunOfPrints` | src/terminal.rs:117-131 | characters that fit in the rest of the row go left to right into that row's glyphs (`WrittenFrom`), every other row, the inactive buffer, the dimensions and the tabs are kept, and the cursor ends after them or wraps to the next row at the edge |
| `Terminal.PrintsPastLastRowAreNoOps` | src/terminal.rs:124 | once the cursor row is at or past `rows`, printing changes nothing |
| `Terminal.PrintsKeepColumnInRange` | src/terminal.rs:124-131 | starting from a column below `cols`, any run of prints keeps the column below `cols` |
| `Terminal.TabFromLastColumnLeavesGrid` | src/terminal.rs:144-146 | a tab from the last column of a grid whose width is a multiple of 8 puts the column at `cols`, and the next print is a no-op |
| `Terminal.CarriageReturnLineFeed` | src/terminal.rs:137-143 | CR then LF moves the cursor to column 0 of the next row and changes nothing else |
| `Terminal.WordThenNewLine` | src/terminal.rs:117-143 | from the origin, a word shorter than a row then CR LF: row 0 is the word written from column 0, and the cursor is at (0, 1) |
| `Terminal.WordThenFullRow` | src/terminal.rs:117-149 | from the origin, a word, CR LF, and one full row of characters: the word starts row 0, row 1 holds the characters, the cursor wraps to (0, 2) |
| `Terminal.HelloThenFullRow` | src/terminal.rs:117-149 | on an 80-column grid, "Hello", CR LF and eighty 'A's leave row 1 all 'A' and the cursor at (0, 2) |
| `Terminal.Reshaped` | src/terminal.rs:82-85 | the reshaped grid is `rows` × `cols`, keeps the cells of the overlapping rectangle and is default elsewhere |
| `Terminal.Resized` | src/terminal.rs:79-86 | `rows` and `cols` are set; the primary buffer is reshaped; the alternate buffer, the cursor and the tabs are unchanged; with the primary buffer active the active grid is shaped |
| `Terminal.GrowWithAltBufferBreaksPrint` | src/terminal.rs:79-86 | with the alternate buffer active, growing the row count leaves a cursor position inside the new bounds whose cell does not exist |
| `Terminal.ResizedBoth` | src/terminal.rs:79-86 | the corrected resize reshapes both buffers, so the active one is shaped whichever it is |
| `Terminal.ResizeAll` | src/terminal.rs:79-86 | a sequence of `resize` calls as written changes only the dimensions and the primary buffer; the buffer has the last shape, and a cell keeps its content exactly when it lay inside every intermediate shape, so what a shrink cuts off a later grow does not restore; with the primary buffer active the active grid is shaped |
| `Terminal.WithNewTab` | src/terminal.rs:94-100 | exactly one tab is appended, with the given title and no activity; earlier tabs and the active index are kept; the registry invariant is kept |
| `Terminal.WithTabActivity` | src/terminal.rs:102-106 | the flag is set only for an in-range index other than the active one; otherwise nothing changes; the registry invariant is kept |
| `Terminal.WithTabSwitched` | src/terminal.rs:108-113 | out of range nothing changes; otherwise the index becomes active and only that tab's flag is cleared, which establishes the registry invariant |
| `Terminal.MarkThenSwitch` | src/terminal.rs:102-113 | marking the active tab is a no-op; marking another tab sets its flag; switching to it clears the flag |
| `Terminal.Terminal.constructor` | src/terminal.rs:59-77 | 24 × 80 and both buffers 24 rows of 80 default cells; cursor at (0, 0); primary buffer active; one tab "Terminal" without activity, active index 0 |
| `Terminal.Terminal.Resize` | src/terminal.rs:79-86 | the state after the row-by-row loop is `Resized` of the old state |
| `Terminal.Terminal.CreateNewTab` | src/terminal.rs:94-100 | the new state is `WithNewTab` of the old |
| `Terminal.Terminal.MarkTabActivity` | src/terminal.rs:102-106 | the new state is `WithTabActivity` of the old |
| `Terminal.Terminal.SwitchTab` | src/terminal.rs:108-113 | the new state is `WithTabSwitched` of the old |
| `Terminal.Terminal.Print` | src/terminal.rs:117-133 | the new state is `Printed` of the old; requires that the cell under an in-bounds cursor exists |
| `Terminal.Terminal.Execute` | src/terminal.rs:135-149 | the new state is `Executed` of the old |
| `Terminal.Terminal.Perform` | src/terminal.rs:116-156 | the new state is `Performed` of the old, for any callback |
| `Terminal.Terminal.ProcessEvents` | src/terminal.rs:88-92 | the state after the loop over the events is `Run` of the old state |
| `Palette.Lower` | src/ui/command_palette.rs:148-149 | lower-casing keeps the length and lower-cases each ASCII letter |
| `Palette.LowerIdempotent` | src/ui/command_palette.rs:148-149 | lower-casing twice is lower-casing once |
| `Palette.Contains` | src/ui/command_palette.rs:148-149 | `str::contains`: true exactly when the needle occurs at some position of the haystack, in both directions |
| `Palette.MatchesOccurs` | src/ui/command_palette.rs:147-150 | the filter's test `Matches` holds exactly when the lower-cased query occurs at some position of the lower-cased name or of the lower-cased description |
| `Palette.FilterCommands` | src/ui/command_palette.rs:145-151 | the result is an order-preserving subsequence of the commands, no longer than them, of matching commands only, missing none |
| `Palette.FilterCounts` | src/ui/command_palette.rs:145-151 | `filter` keeps repeats: a matching command occurs in the result as often as in the list, any other not at all; with `FilterCommands`' subsequence clause this pins the result |
| `Palette.EmptyQueryKeepsAll` | src/ui/command_palette.rs:142-143 | every command matches the empty query, so the empty-query shortcut agrees with the filter |
| `Palette.FilterIdempotent` | src/ui/command_palette.rs:145-151 | filtering twice by the same query is filtering once |
| `Palette.NameMatchIsOffered` | src/ui/command_palette.rs:148 | a command whose name contains the query, letter case aside, is listed |
| `Palette.NextIndex` | src/ui/command_palette.rs:155-160 | with n > 0 the index becomes the cyclic successor and is below n; with n = 0 it is unchanged |
| `Palette.PrevIndex` | src/ui/command_palette.rs:162-171 | with n > 0, i − 1 when i > 0, else n − 1, and below n for a valid i; with n = 0 unchanged |
| `Palette.NextPrevInverse` | src/ui/command_palette.rs:155-171 | for i < n, previous undoes next and next undoes previous |
| `Palette.CommandPalette.constructor` | src/ui/command_palette.rs:36-122 | hidden, empty query, index 0; the eight base commands in order, then the AI command and the two recording commands when their switches are on; length 8 + 1 + 2 accordingly |
| `Palette.CommandPalette.Toggle` | src/ui/command_palette.rs:124-130 | visibility flips; becoming visible clears the query and the selection; becoming hidden keeps both |
| `Palette.CommandPalette.UpdateQuery` | src/ui/command_palette.rs:136-139 | the query is replaced and the selection reset to 0 |
| `Palette.CommandPalette.Filtered` | src/ui/command_palette.rs:141-153 | all commands for an empty query; otherwise exactly the matching commands, in order, each as often as in the list, never more than the list |
| `Palette.CommandPalette.SelectNext` | src/ui/command_palette.rs:155-160 | the index becomes `NextIndex` over the filtered length; the selection invariant is kept |
| `Palette.CommandPalette.SelectPrevious` | src/ui/command_palette.rs:162-171 | the index becomes `PrevIndex` over the filtered length; the selection invariant is kept |
| `Palette.CommandPalette.SelectedCommand` | src/ui/command_palette.rs:173-176 | a command exactly when the index is below the filtered length, namely the filtered command at the index; under the invariant, one exactly when any command is listed |
| `Palette.CommandPalette.ExecuteSelected` | src/ui/command_palette.rs:178-185 | with a selected command, its action and the palette hidden; otherwise `None` and no change |
| `Session.SessionRecorder.constructor` | src/core/session.rs:30-37 | not recording, no start time, no events, no output file |
| `Session.SessionRecorder.StartRecording` | src/core/session.rs:39-49 | recording on, start time from the clock, output file replaced, log emptied |
| `Session.SessionRecorder.StopRecording` | src/core/session.rs:51-58 | recording off; the events, start time and output file are kept; returns the file the log would be saved to |
| `Session.SessionRecorder.Record` | src/core/session.rs:62-74 | the shared step of the four `record_*` methods (this range and 80-92, 98-110, 116-128): while recording exactly the one event is appended, otherwise the log is unchanged; the invariant is kept |
| `Session.SessionRecorder.RecordInput` | src/core/session.rs:61-77 | while recording, one `Input` event with a copy of the bytes is appended; otherwise the log is unchanged |
| `Session.SessionRecorder.RecordOutput` | src/core/session.rs:79-95 | while recording, one `Output` event with a copy of the bytes is appended; otherwise the log is unchanged |
| `Session.SessionRecorder.RecordResize` | src/core/session.rs:97-113 | while recording, one `Resize(width, height)` event with empty data is appended; otherwise the log is unchanged |
| `Session.SessionRecorder.RecordCommand` | src/core/session.rs:115-131 | while recording, one `Command` event with empty data is appended; otherwise the log is unchanged |
| `Session.SessionRecorder.LogStart` | src/core/session.rs:149-158 | the start time `save_to_file` writes and measures from; under the invariant a non-empty log always has a real start time, so the fallback 0 never applies to it |
| `Session.RecordTwoThenStop` | src/core/session.rs:39-139 | start, two records and stop leave exactly those two events in order, measured from the start time, and a record after stopping adds nothing |
| `Ai.AIAssistant.constructor` | src/core/ai.rs:18-24 | disabled, no key, empty cache |
| `Ai.AIAssistant.Enable` | src/core/ai.rs:26-29 | the key is stored and the assistant enabled; the cache is kept |
| `Ai.AIAssistant.Disable` | src/core/ai.rs:31-33 | only the switch is cleared; the key and the cache are kept |
| `Ai.AIAssistant.GetCommandSuggestions` | src/core/ai.rs:35-56 | disabled: empty list, cache unchanged; cached context: the cached list, cache unchanged; new context: the five fixed suggestions, cached for that context only; afterwards the context is cached with the answer; under the invariant the answer is the fixed list |
| `Ai.AIAssistant.ExplainCommand` | src/core/ai.rs:58-72 | the disabled notice when disabled; when enabled, the table's text for the three known commands and the "not available" notice for any other |
| `Ai.ExplainedSuggestions` | src/core/ai.rs:46-69 | of the five fixed suggestions exactly the first three have an explanation |
| `Ai.AskTwice` | src/core/ai.rs:41-55 | once enabled, a second request for the same context returns the same list |

## Findings

| source | as written | input that shows it | evidently intended | confidence | as-written member | corrected member |
|---|---|---|---|---|---|---|
| src/terminal.rs:79-86 | `resize` reshapes only `buffer`; `alt_buffer` keeps its old shape | after `new`, set `using_alt_buffer` to true, call `resize(25, 80)` and put the cursor at (24, 0); `print` passes the guard and indexes `alt_buffer[24]`, which does not exist | both buffers take the new shape, so `print` stays in range whichever buffer is active | not executed; latent in this code, since nothing here sets `using_alt_buffer` | `Terminal.GrowWithAltBufferBreaksPrint` | `Terminal.ResizedBoth` |

## Left out

- The `vte` escape-sequence parser and the byte loop of `process_input`. The parser is a foreign crate. Its callbacks are modelled as `Event`s, and `ProcessEvents` folds them.
- The parser and the `Config` held by `Terminal`, and the `Arc`/`Mutex` imports. `Terminal::new` stores the configuration but never reads it, so the constructor takes none.
- `Terminal`'s cursor arithmetic does not model `usize` overflow at 2^64. A line feed at the extreme row would overflow `cursor_y`, and a tab at the extreme column would overflow `cursor_x`. Columns and rows are unbounded `nat`s.
- `Terminal.TabStop`: the bitwise form `(x + 8) & !7` is proved equal to rounding down only on `bv64` words (`MaskRoundsDown`). The step from `nat` to `bv64` is not proved.
- `Palette.Lower`: it lower-cases only ASCII letters, not full Unicode `to_lowercase`.
- `Palette.Contains`: it compares characters, not UTF-8 bytes. For valid strings this gives the same answer as `str::contains`.
- `CommandPalette::is_visible` is modelled as the function `IsVisible`, and `SessionRecorder::is_recording` and `get_events` as `IsRecording` and `GetEvents`. These are plain getters without contracts.
- `SessionRecorder::save_to_file`. It does file I/O, JSON and `f64` times. `StopRecording` returns the file the log would be written to instead of writing it, and `LogStart` is the start time it would use.
- The wall clock. `SystemTime::now()` is the `now` parameter of the recorder's methods. Its error path is left out: before the epoch, `start_recording` would return early with `recording` already set, and a `record_*` call would record nothing.
- The `Result` of the async AI methods. They never fail, so plain values are returned.
- The AI assistant variant for builds without the `ai` feature. It is an empty struct.
- src/config.rs loading and saving, src/core/plugins.rs, src/ui/app.rs and src/main.rs. These are file I/O, the WebAssembly host, the window event loop and the renderer, none of which is part of this model.
