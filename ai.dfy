/** The AI assistant of src/core/ai.rs (the variant built with the `ai`
    feature): an on/off switch, an optional API key, and a memo table from
    contexts to the suggestions given for them. The suggestions and the
    explanations are fixed tables. */
module Ai {
  import opened Types

  /** The five suggestions offered for a context not seen before, in order. */
  const MockSuggestions: seq<string> := ["ls -la", "cd ..", "git status", "npm start", "docker ps"]

  const DisabledText := "AI assistant is disabled"
  const UnknownText := "Command explanation not available"

  /** The commands `explain_command` knows, with their explanations. */
  const Explanations: map<string, string> := map[
    "ls -la" := "Lists all files and directories in long format with hidden files",
    "cd .." := "Changes to the parent directory",
    "git status" := "Shows the status of files in the Git repository"
  ]

  class AIAssistant {
    var enabled: bool
    var apiKey: Option<string>
    var suggestionsCache: map<string, seq<string>>

    /** Every cached entry is the fixed list: the cache only ever stores it. */
    ghost predicate Valid()
      reads this
    {
      forall context :: context in suggestionsCache ==> suggestionsCache[context] == MockSuggestions
    }

    /** `AIAssistant::new`: disabled, no key, empty cache. */
    constructor ()
      ensures !enabled && apiKey == None && suggestionsCache == map[]
      ensures Valid()
    {
      enabled := false;
      apiKey := None;
      suggestionsCache := map[];
    }

    /** `enable`: stores the key and switches on; the cache is kept. */
    method Enable(key: string)
      modifies this
      ensures enabled && apiKey == Some(key) && suggestionsCache == old(suggestionsCache)
    {
      apiKey := Some(key);
      enabled := true;
    }

    /** `disable`: switches off only; the key and the cache are kept. */
    method Disable()
      modifies this
      ensures !enabled && apiKey == old(apiKey) && suggestionsCache == old(suggestionsCache)
    {
      enabled := false;
    }

    /** `get_command_suggestions`: nothing when disabled; the cached list when
        the context was seen; otherwise the fixed list, which is remembered
        for the context and leaves every other entry alone. When enabled,
        the context is cached with the returned list afterwards, so asking
        again gives the same answer; under the invariant the answer is
        always the fixed list. */
    method GetCommandSuggestions(context: string) returns (suggestions: seq<string>)
      modifies this`suggestionsCache
      ensures !enabled ==> suggestions == [] && suggestionsCache == old(suggestionsCache)
      ensures enabled && context in old(suggestionsCache) ==>
        suggestions == old(suggestionsCache)[context] && suggestionsCache == old(suggestionsCache)
      ensures enabled && context !in old(suggestionsCache) ==>
        suggestions == MockSuggestions && suggestionsCache == old(suggestionsCache)[context := MockSuggestions]
      ensures enabled ==> context in suggestionsCache && suggestionsCache[context] == suggestions
      ensures old(Valid()) ==> Valid() && (enabled ==> suggestions == MockSuggestions)
    {
      if !enabled {
        return [];
      }
      if context in suggestionsCache {
        return suggestionsCache[context];
      }
      suggestions := MockSuggestions;
      suggestionsCache := suggestionsCache[context := suggestions];
    }

    /** `explain_command`: the disabled notice when switched off; otherwise
        the text for one of the three known commands, or the "not available"
        notice. Reads only the switch, so it changes nothing. */
    function ExplainCommand(command: string): (r: string)
      reads this`enabled
      ensures !enabled ==> r == DisabledText
      ensures enabled && command in Explanations ==> r == Explanations[command]
      ensures enabled && command !in Explanations ==> r == UnknownText
      ensures enabled ==> r != DisabledText
    {
      if !enabled then DisabledText
      else if command == "ls -la" then "Lists all files and directories in long format with hidden files"
      else if command == "cd .." then "Changes to the parent directory"
      else if command == "git status" then "Shows the status of files in the Git repository"
      else UnknownText
    }
  }

  /** Of the five suggestions, exactly the first three have an explanation. */
  lemma ExplainedSuggestions(ai: AIAssistant)
    requires ai.enabled
    ensures forall k :: 0 <= k < 3 ==> ai.ExplainCommand(MockSuggestions[k]) != UnknownText
    ensures forall k :: 3 <= k < |MockSuggestions| ==> ai.ExplainCommand(MockSuggestions[k]) == UnknownText
  {
  }

  /** A client's view: once enabled, two requests for the same context give
      the same list, the second one served from the cache. */
  method AskTwice(ai: AIAssistant, key: string, context: string) returns (first: seq<string>, second: seq<string>)
    modifies ai
    ensures first == second
    ensures ai.enabled && context in ai.suggestionsCache
  {
    ai.Enable(key);
    first := ai.GetCommandSuggestions(context);
    second := ai.GetCommandSuggestions(context);
  }
}
