/**
  * The first two steps of `AgentService.process`: the keyword classifier that
  * picks a persona for a prompt, and the choice of system prompt, read from
  * the agent store on disk or taken from the built-in table.
  */
module Router {
  import opened Text
  import opened Prompts

  const ArchitectWords: seq<string> := ["design", "architecture", "plan"]
  const DeveloperWords: seq<string> := ["write", "code", "create", "function", "component"]
  const DebuggerWords: seq<string> := ["fix", "error", "debug", "fail"]
  const GitWords: seq<string> := ["git", "repo", "commit", "push"]

  /** `words.some(w => s.includes(w))`, written as the chain of `||` the router uses. */
  predicate MentionsAny(s: string, words: seq<string>)
    decreases |words|
  {
    |words| > 0 && (Contains(s, words[0]) || MentionsAny(s, words[1..]))
  }

  /** The keywords of each persona, in the order the router tests them. */
  function Keywords(a: AgentType): seq<string> {
    match a
    case Architect => ArchitectWords
    case Developer => DeveloperWords
    case Debugger => DebuggerWords
    case GitSpecialist => GitWords
    case Root => []
  }

  /** Intent classification: the first persona, in priority order, one of whose keywords the lower-cased prompt contains. */
  function Classify(prompt: string): AgentType {
    var lower := ToLower(prompt);
    if MentionsAny(lower, ArchitectWords) then Architect
    else if MentionsAny(lower, DeveloperWords) then Developer
    else if MentionsAny(lower, DebuggerWords) then Debugger
    else if MentionsAny(lower, GitWords) then GitSpecialist
    else Root
  }

  /** Position of a persona in the router's priority order; ROOT comes last. */
  function Rank(a: AgentType): nat {
    match a
    case Architect => 0
    case Developer => 1
    case Debugger => 2
    case GitSpecialist => 3
    case Root => 4
  }

  /** A text mentions a persona's keyword. */
  predicate Mentions(s: string, a: AgentType) {
    exists w :: w in Keywords(a) && Contains(ToLower(s), w)
  }

  lemma {:induction false} MentionsAnyIff(s: string, words: seq<string>)
    ensures MentionsAny(s, words) <==> exists w :: w in words && Contains(s, w)
    decreases |words|
  {
    if |words| > 0 {
      MentionsAnyIff(s, words[1..]);
      assert forall w :: w in words <==> w == words[0] || w in words[1..];
    }
  }

  /**
    * The classifier's reference definition: a prompt goes to the persona of
    * highest priority that it mentions, and to ROOT when it mentions none.
    */
  lemma ClassifyIsFirstMentioned(prompt: string)
    ensures Classify(prompt) != Root ==> Mentions(prompt, Classify(prompt))
    ensures forall a: AgentType :: a != Root && Rank(a) < Rank(Classify(prompt)) ==> !Mentions(prompt, a)
  {
    var lower := ToLower(prompt);
    MentionsAnyIff(lower, ArchitectWords);
    MentionsAnyIff(lower, DeveloperWords);
    MentionsAnyIff(lower, DebuggerWords);
    MentionsAnyIff(lower, GitWords);
  }

  /** Classification ignores the case of ASCII letters. */
  lemma ClassifyIgnoresCase(prompt: string)
    ensures Classify(ToUpper(prompt)) == Classify(prompt)
    ensures Classify(ToLower(prompt)) == Classify(prompt)
  {
    ToLowerOfUpper(prompt);
    ToLowerIdempotent(prompt);
  }

  lemma MentionsInConcat(p: string, q: string, a: AgentType)
    ensures Mentions(p, a) ==> Mentions(p + q, a)
    ensures Mentions(q, a) ==> Mentions(p + q, a)
  {
    ToLowerConcat(p, q);
    forall w | w in Keywords(a)
      ensures Contains(ToLower(p), w) ==> Contains(ToLower(p + q), w)
      ensures Contains(ToLower(q), w) ==> Contains(ToLower(p + q), w)
    {
      ContainsInConcat(ToLower(p), ToLower(q), w);
    }
  }

  /**
    * Adding text to a prompt, before or after, can only move it to a persona
    * of the same or higher priority: a keyword once present stays present.
    */
  lemma ClassifyMonotone(p: string, q: string)
    ensures Rank(Classify(p + q)) <= Rank(Classify(p))
    ensures Rank(Classify(p + q)) <= Rank(Classify(q))
  {
    ClassifyIsFirstMentioned(p);
    ClassifyIsFirstMentioned(q);
    ClassifyIsFirstMentioned(p + q);
    MentionsInConcat(p, q, Classify(p));
    MentionsInConcat(p, q, Classify(q));
  }

  /** "explanation" holds "plan", so it goes to the ARCHITECT. */
  lemma ExplanationGoesToArchitect()
    ensures Classify("explanation") == Architect
  {
    var lower := ToLower("explanation");
    assert lower == "explanation";
    assert OccursAt(lower, "plan", 2);
    ContainsAt(lower, "plan", 2);
  }

  /** A prompt that names both a plan and writing goes to the ARCHITECT, who comes first. */
  lemma PlanBeatsWrite()
    ensures Classify("Write a Plan") == Architect
  {
    var lower := ToLower("Write a Plan");
    assert lower == "write a plan";
    assert OccursAt(lower, "plan", 8);
    ContainsAt(lower, "plan", 8);
  }

  /** What the agent store gives for one agent: `agents[agent]?.systemPrompt`, when it is a string. */
  datatype AgentConfig = AgentConfig(systemPrompt: Option<string>)

  /**
    * The agent store `brain/agents.json`: either it could not be read or
    * parsed, or it parsed to an object of agent entries keyed by name.
    */
  datatype BrainStore = Unreadable | Parsed(agents: map<string, AgentConfig>)

  /** The prompt the store holds for an agent, when it holds a non-empty one. */
  function Stored(agents: map<string, AgentConfig>, a: AgentType): Option<string> {
    if Tag(a) in agents && agents[Tag(a)].systemPrompt.Some? && agents[Tag(a)].systemPrompt.value != ""
    then agents[Tag(a)].systemPrompt
    else None
  }

  /**
    * The system prompt for an agent: the store's entry when the store parses,
    * falling back to ROOT's entry of the built-in table `defaults`; the
    * agent's own built-in entry when the store cannot be read. The service
    * uses `AgentPrompt` as `defaults`; it is a parameter here so that callers
    * can reason about the choice without the text of the prompts.
    */
  function SystemPrompt(agent: AgentType, store: BrainStore, defaults: AgentType -> string): string {
    match store
    case Parsed(agents) =>
      if Stored(agents, agent).Some? then Stored(agents, agent).value else defaults(Root)
    case Unreadable =>
      if defaults(agent) != "" then defaults(agent) else defaults(Root)
  }

  /**
    * A readable store decides the prompt: its own non-empty entry for the
    * agent wins, and any gap falls back to ROOT's prompt, never the agent's.
    */
  lemma ParsedStoreChoice(agent: AgentType, agents: map<string, AgentConfig>)
    ensures Stored(agents, agent).Some? ==> SystemPrompt(agent, Parsed(agents), AgentPrompt) == Stored(agents, agent).value
    ensures Stored(agents, agent).None? ==> SystemPrompt(agent, Parsed(agents), AgentPrompt) == RootPrompt
  {
  }

  /** When the store cannot be read, every agent gets its own built-in prompt: the `|| ROOT` fallback never fires. */
  lemma UnreadableStoreChoice(agent: AgentType)
    ensures SystemPrompt(agent, Unreadable, AgentPrompt) == AgentPrompt(agent)
  {
    AgentPromptNonEmpty(agent);
  }

  /** The system prompt is never empty, whatever the store holds. */
  lemma SystemPromptNonEmpty(agent: AgentType, store: BrainStore)
    ensures SystemPrompt(agent, store, AgentPrompt) != ""
  {
    AgentPromptNonEmpty(agent);
    AgentPromptNonEmpty(Root);
  }
}
