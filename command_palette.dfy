/** The command palette of src/ui/command_palette.rs: a fixed list of
    commands, chosen once from the feature switches, and a small selection
    state machine over the commands that match the current query. */
module Palette {
  import opened Types
  import Config

  datatype CommandAction =
    | NewTab
    | CloseTab
    | SwitchTab(index: nat)
    | ToggleFullscreen
    | IncreaseFont
    | DecreaseFont
    | ResetFont
    | ToggleAISuggestions
    | StartRecording
    | StopRecording
    | OpenSettings
    | ShowHelp
    | Custom(name: string)

  datatype Command = Command(
    name: string,
    description: string,
    keybinding: Option<string>,
    action: CommandAction)

  /** The eight commands every palette offers, in order. */
  const BaseCommands: seq<Command> := [
    Command("New Tab", "Create a new terminal tab", Some("Ctrl+Shift+N"), NewTab),
    Command("Close Tab", "Close the current tab", Some("Ctrl+Shift+W"), CloseTab),
    Command("Toggle Fullscreen", "Toggle fullscreen mode", Some("F11"), ToggleFullscreen),
    Command("Increase Font Size", "Make text larger", Some("Ctrl+="), IncreaseFont),
    Command("Decrease Font Size", "Make text smaller", Some("Ctrl+-"), DecreaseFont),
    Command("Reset Font Size", "Reset font to default size", Some("Ctrl+0"), ResetFont),
    Command("Settings", "Open settings", Some("Ctrl+,"), OpenSettings),
    Command("Help", "Show help documentation", Some("F1"), ShowHelp)
  ]

  /** Offered when AI suggestions are switched on. */
  const AICommand :=
    Command("Toggle AI Suggestions", "Enable/disable AI command suggestions",
            Some("Ctrl+Shift+A"), ToggleAISuggestions)

  /** Offered when session recording is switched on. */
  const RecordingCommands: seq<Command> := [
    Command("Start Recording", "Start recording terminal session", Some("Ctrl+Shift+R"), StartRecording),
    Command("Stop Recording", "Stop recording terminal session", Some("Ctrl+Shift+S"), StopRecording)
  ]

  /** ASCII lower-casing of one character. */
  function LowerChar(ch: char): char {
    if 'A' <= ch <= 'Z' then (ch as int - 'A' as int + 'a' as int) as char else ch
  }

  /** `to_lowercase`, restricted to ASCII letters. */
  function Lower(s: string): (r: string)
    ensures |r| == |s|
    ensures forall i :: 0 <= i < |s| ==> r[i] == LowerChar(s[i])
    decreases |s|
  {
    if s == [] then [] else [LowerChar(s[0])] + Lower(s[1..])
  }

  /** Lower-casing is idempotent, so lower-casing the query first changes
      nothing about which commands match. */
  lemma LowerIdempotent(s: string)
    ensures Lower(Lower(s)) == Lower(s)
  {
  }

  /** `needle` is a prefix of `haystack`. */
  predicate IsPrefix(needle: string, haystack: string) {
    |needle| <= |haystack| && haystack[..|needle|] == needle
  }

  /** `needle` occurs in `haystack` starting at position `k`. */
  predicate OccursAt(haystack: string, needle: string, k: nat) {
    k + |needle| <= |haystack| && haystack[k..k + |needle|] == needle
  }

  /** `str::contains`, by trying each starting position in turn: true
      exactly when `needle` occurs somewhere in `haystack`. */
  function Contains(haystack: string, needle: string): (r: bool)
    ensures r <==> exists k: nat :: OccursAt(haystack, needle, k)
    decreases |haystack|
  {
    if IsPrefix(needle, haystack) then
      assert OccursAt(haystack, needle, 0);
      true
    else if |haystack| == 0 then
      false
    else
      var rest := Contains(haystack[1..], needle);
      OccursShift(haystack, needle);
      rest
  }

  /** When `needle` is not a prefix, it occurs in `haystack` exactly when it
      occurs in the tail, one position earlier. */
  lemma OccursShift(haystack: string, needle: string)
    requires |haystack| > 0 && !IsPrefix(needle, haystack)
    ensures (exists k: nat :: OccursAt(haystack, needle, k)) <==>
            (exists k: nat :: OccursAt(haystack[1..], needle, k))
  {
    forall k: nat | OccursAt(haystack[1..], needle, k)
      ensures OccursAt(haystack, needle, k + 1)
    {
      assert haystack[1..][k..k + |needle|] == haystack[k + 1..k + 1 + |needle|];
    }
    forall k: nat | OccursAt(haystack, needle, k)
      ensures k > 0 && OccursAt(haystack[1..], needle, k - 1)
    {
      assert haystack[1..][k - 1..k - 1 + |needle|] == haystack[k..k + |needle|];
    }
  }

  /** The filter's test: the lower-cased name or description contains the
      lower-cased query. */
  predicate Matches(cmd: Command, query: string) {
    Contains(Lower(cmd.name), Lower(query)) || Contains(Lower(cmd.description), Lower(query))
  }

  /** What the filter's test means: the lower-cased query occurs at some
      position of the lower-cased name or of the lower-cased description. */
  lemma MatchesOccurs(cmd: Command, query: string)
    ensures Matches(cmd, query) <==>
      (exists k: nat :: OccursAt(Lower(cmd.name), Lower(query), k)) ||
      (exists k: nat :: OccursAt(Lower(cmd.description), Lower(query), k))
  {
    assert Contains(Lower(cmd.name), Lower(query)) <==> exists k: nat :: OccursAt(Lower(cmd.name), Lower(query), k);
    assert Contains(Lower(cmd.description), Lower(query)) <==> exists k: nat :: OccursAt(Lower(cmd.description), Lower(query), k);
  }

  /** `a` is an order-preserving subsequence of `b`. */
  predicate IsSubsequence<T(==)>(a: seq<T>, b: seq<T>)
    decreases |b|
  {
    if a == [] then true
    else if b == [] then false
    else (a[0] == b[0] && IsSubsequence(a[1..], b[1..])) || IsSubsequence(a, b[1..])
  }

  /** The commands that match `query`, in their order: never more than there
      are, each one a matching command, and no matching command missed
      (`FilterCounts` adds: each as often as in `cmds`). */
  function FilterCommands(cmds: seq<Command>, query: string): (r: seq<Command>)
    ensures |r| <= |cmds|
    ensures IsSubsequence(r, cmds)
    ensures forall k :: 0 <= k < |r| ==> r[k] in cmds && Matches(r[k], query)
    ensures forall cmd :: cmd in cmds && Matches(cmd, query) ==> cmd in r
    decreases |cmds|
  {
    if cmds == [] then []
    else
      var rest := FilterCommands(cmds[1..], query);
      assert forall cmd :: cmd in cmds ==> cmd == cmds[0] || cmd in cmds[1..];
      if Matches(cmds[0], query) then [cmds[0]] + rest else rest
  }

  /** The filter keeps repeats: a matching command is listed as often as
      in `cmds`, any other not at all. With `IsSubsequence` this pins the
      result to the source's `filter` and `collect`. */
  lemma {:induction false} FilterCounts(cmds: seq<Command>, query: string)
    ensures forall cmd ::
      multiset(FilterCommands(cmds, query))[cmd] == if Matches(cmd, query) then multiset(cmds)[cmd] else 0
    decreases |cmds|
  {
    if cmds != [] {
      FilterCounts(cmds[1..], query);
      assert cmds == [cmds[0]] + cmds[1..];
      assert multiset(cmds) == multiset{cmds[0]} + multiset(cmds[1..]);
      var rest := FilterCommands(cmds[1..], query);
      assert multiset([cmds[0]] + rest) == multiset{cmds[0]} + multiset(rest);
    }
  }

  /** Every command matches the empty query, so the source's shortcut for an
      empty query returns what the filter would. */
  lemma {:induction false} EmptyQueryKeepsAll(cmds: seq<Command>)
    ensures FilterCommands(cmds, "") == cmds
    decreases |cmds|
  {
    if cmds != [] {
      assert IsPrefix("", Lower(cmds[0].name));
      EmptyQueryKeepsAll(cmds[1..]);
    }
  }

  /** Filtering twice by the same query filters once. */
  lemma {:induction false} FilterIdempotent(cmds: seq<Command>, query: string)
    ensures FilterCommands(FilterCommands(cmds, query), query) == FilterCommands(cmds, query)
    decreases |cmds|
  {
    if cmds != [] {
      FilterIdempotent(cmds[1..], query);
    }
  }

  /** A command whose name contains the query, letter case aside, is offered. */
  lemma NameMatchIsOffered(cmds: seq<Command>, query: string, cmd: Command, k: nat)
    requires cmd in cmds
    requires k + |query| <= |cmd.name| && Lower(cmd.name)[k..k + |query|] == Lower(query)
    ensures cmd in FilterCommands(cmds, query)
  {
    assert OccursAt(Lower(cmd.name), Lower(query), k);
  }

  /** The `select_next` step over `n` filtered commands: cyclic successor,
      no change when nothing is listed. */
  function NextIndex(i: nat, n: nat): (r: nat)
    ensures n == 0 ==> r == i
    ensures n > 0 ==> r < n
    ensures n > 0 && i + 1 < n ==> r == i + 1
    ensures n > 0 && i + 1 == n ==> r == 0
  {
    if n > 0 then (i + 1) % n else i
  }

  /** The `select_previous` step: one back, from the first to the last, no
      change when nothing is listed. */
  function PrevIndex(i: nat, n: nat): (r: nat)
    ensures n == 0 ==> r == i
    ensures n > 0 && i > 0 ==> r == i - 1
    ensures n > 0 && i == 0 ==> r == n - 1
    ensures n > 0 && i < n ==> r < n
  {
    if n > 0 then (if i > 0 then i - 1 else n - 1) else i
  }

  /** On a valid selection, previous undoes next and next undoes previous. */
  lemma NextPrevInverse(i: nat, n: nat)
    requires i < n
    ensures PrevIndex(NextIndex(i, n), n) == i
    ensures NextIndex(PrevIndex(i, n), n) == i
  {
  }

  class CommandPalette {
    var visible: bool
    var query: string
    /** Built once by the constructor and never changed afterwards. */
    const commands: seq<Command>
    var selectedIndex: nat

    /** The selection names a listed command, or is 0 when none is listed:
        it never dangles. */
    ghost predicate Valid()
      reads this
    {
      selectedIndex == 0 || selectedIndex < |Filtered()|
    }

    /** `CommandPalette::new`: hidden, empty query, first command selected;
        the eight base commands, then the AI command and the two recording
        commands when their features are on. */
    constructor (features: Config.Features)
      ensures !visible && query == "" && selectedIndex == 0
      ensures |commands| == 8 + (if features.aiSuggestions then 1 else 0)
                              + (if features.sessionRecording then 2 else 0)
      ensures commands[..8] == BaseCommands
      ensures features.aiSuggestions ==> commands[8] == AICommand
      ensures features.sessionRecording ==> commands[|commands| - 2..] == RecordingCommands
      ensures Valid()
    {
      var cmds := BaseCommands;
      if features.aiSuggestions {
        cmds := cmds + [AICommand];
      }
      if features.sessionRecording {
        cmds := cmds + RecordingCommands;
      }
      visible := false;
      query := "";
      commands := cmds;
      selectedIndex := 0;
    }

    /** Showing the palette clears the query and selects the first command;
        hiding it keeps both. */
    method Toggle()
      modifies this
      ensures visible == !old(visible)
      ensures visible ==> query == "" && selectedIndex == 0
      ensures !visible ==> query == old(query) && selectedIndex == old(selectedIndex)
      ensures old(Valid()) ==> Valid()
    {
      visible := !visible;
      if visible {
        query := "";
        selectedIndex := 0;
      }
    }

    function IsVisible(): bool
      reads this
    {
      visible
    }

    method UpdateQuery(newQuery: string)
      modifies this
      ensures query == newQuery && selectedIndex == 0 && visible == old(visible)
      ensures Valid()
    {
      query := newQuery;
      selectedIndex := 0;
    }

    /** `get_filtered_commands`: all commands for an empty query, otherwise
        exactly the matching ones, in order, each as often as it is listed. */
    function Filtered(): (r: seq<Command>)
      reads this`query
      ensures query == "" ==> r == commands
      ensures |r| <= |commands|
      ensures IsSubsequence(r, commands)
      ensures forall cmd :: cmd in r <==> cmd in commands && Matches(cmd, query)
      ensures forall cmd :: multiset(r)[cmd] == if Matches(cmd, query) then multiset(commands)[cmd] else 0
    {
      FilterCounts(commands, query);
      if |query| == 0 then
        EmptyQueryKeepsAll(commands);
        commands
      else FilterCommands(commands, query)
    }

    method SelectNext()
      modifies this`selectedIndex
      ensures selectedIndex == NextIndex(old(selectedIndex), |Filtered()|)
      ensures old(Valid()) ==> Valid()
    {
      var filtered := Filtered();
      if |filtered| > 0 {
        selectedIndex := (selectedIndex + 1) % |filtered|;
      }
    }

    method SelectPrevious()
      modifies this`selectedIndex
      ensures selectedIndex == PrevIndex(old(selectedIndex), |Filtered()|)
      ensures old(Valid()) ==> Valid()
    {
      var filtered := Filtered();
      if |filtered| > 0 {
        selectedIndex := if selectedIndex > 0 then selectedIndex - 1 else |filtered| - 1;
      }
    }

    /** `get_selected_command`: the filtered command at the selection, if
        there is one; under the invariant, there is one exactly when some
        command is listed. */
    function SelectedCommand(): (r: Option<Command>)
      reads this`query, this`selectedIndex
      ensures r.Some? <==> selectedIndex < |Filtered()|
      ensures r.Some? ==> r.value == Filtered()[selectedIndex] && r.value in commands
      ensures Valid() ==> (r.Some? <==> |Filtered()| > 0)
    {
      var filtered := Filtered();
      if selectedIndex < |filtered| then Some(filtered[selectedIndex]) else None
    }

    /** `execute_selected`: the selected command's action, hiding the
        palette; with no selected command, `None` and no change. */
    method ExecuteSelected() returns (r: Option<CommandAction>)
      modifies this`visible
      ensures old(SelectedCommand()).Some? ==>
        r == Some(old(SelectedCommand()).value.action) && !visible
      ensures old(SelectedCommand()).None? ==> r == None && visible == old(visible)
    {
      var selected := SelectedCommand();
      if selected.Some? {
        visible := false;
        r := Some(selected.value.action);
      } else {
        r := None;
      }
    }
  }
}
