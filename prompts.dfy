/**
  * The short literals embedded in the persona prompts (the paths, contents
  * and commands of their examples), with the character facts the block and
  * command patterns need about them. They are kept apart from the scanner so
  * that those facts are checked over the literals alone.
  */
module PromptText {
  const FormatPath: string := "path/to/filename.ext"
  const FormatContent: string := "[Paste the full file content here]\n"

  const ButtonPath: string := "src/components/Button.tsx"
  const ButtonContent: string :=
    "import React from 'react';\n"
    + "export const Button = () => "
    + "<button>Click</button>;\n"

  const TemplateCommand: string := "git [command]"
  const AddCommand: string := "git add ."
  const CommitCommand: string := "git commit -m \"Update codebase\""

  /** Both example paths are printable ASCII, so neither spans two lines. */
  lemma FormatPathPrintable()
    ensures forall i :: 0 <= i < |FormatPath| ==> ' ' <= FormatPath[i] <= '~'
  {
  }

  lemma ButtonPathPrintable()
    ensures forall i :: 0 <= i < |ButtonPath| ==> ' ' <= ButtonPath[i] <= '~'
  {
  }

  /** Neither example content holds an underscore, so neither can hold `>>> END_FILE`. */
  lemma FormatContentWithoutUnderscore()
    ensures forall i :: 0 <= i < |FormatContent| ==> FormatContent[i] != '_'
  {
  }

  lemma ButtonContentWithoutUnderscore()
    ensures forall i :: 0 <= i < |ButtonContent| ==> ButtonContent[i] != '_'
  {
  }

  /** The example commands are printable ASCII, so none of them spans two lines. */
  lemma TemplateCommandPrintable()
    ensures forall i :: 0 <= i < |TemplateCommand| ==> ' ' <= TemplateCommand[i] <= '~'
  {
  }

  lemma AddCommandPrintable()
    ensures forall i :: 0 <= i < |AddCommand| ==> ' ' <= AddCommand[i] <= '~'
  {
  }

  lemma CommitCommandPrintable()
    ensures forall i :: 0 <= i < |CommitCommand| ==> ' ' <= CommitCommand[i] <= '~'
  {
  }
}

/**
  * The persona prompt table `AGENT_PROMPTS`: five fixed system prompts keyed
  * by the router's agent names. The DEVELOPER and GIT_SPECIALIST prompts are
  * written here as the text around their embedded action examples, so that
  * the examples can be read back with the block scanner.
  */
module Prompts {
  import opened Text
  import opened Blocks
  import opened PromptText

  /** The router's `AgentType`. */
  datatype AgentType = Root | Architect | Developer | Debugger | GitSpecialist

  /** The name of an agent, as the table and the prompt store key it. */
  function Tag(a: AgentType): string {
    match a
    case Root => "ROOT"
    case Architect => "ARCHITECT"
    case Developer => "DEVELOPER"
    case Debugger => "DEBUGGER"
    case GitSpecialist => "GIT_SPECIALIST"
  }

  const RootPrompt: string :=
    "You are VIRU (Virtual Intelligence "
    + "Research Unit), an advanced "
    + "self-hosted AI software engineer.\n"
    + "Your goal is to help the user "
    + "build, debug, and understand "
    + "software.\n"
    + "You are running LOCALLY on the "
    + "user's machine. You value privacy, "
    + "clean code, and security.\n"
    + "\n"
    + "RULES:\n"
    + "1. Be concise and professional.\n"
    + "2. Use Markdown for code blocks.\n"
    + "3. If asked to write code, provide "
    + "the full file content.\n"
    + "4. If you don't know something, "
    + "admit it and suggest how to find "
    + "out."

  const ArchitectPrompt: string :=
    "You are the VIRU ARCHITECT.\n"
    + "Your role is to design system "
    + "structures, choosing the best "
    + "technologies, and planning file "
    + "layouts.\n"
    + "Focus on: Scalability, Security, "
    + "and Best Practices.\n"
    + "Do not write implementation details "
    + "yet, just high-level blueprints."

  const DeveloperIntro: string :=
    "You are the VIRU DEVELOPER.\n"
    + "Your role is to write clean, "
    + "efficient, and type-safe code.\n"
    + "You prefer: TypeScript, React, "
    + "Node.js, and Modern patterns.\n"
    + "\n"
    + "CRITICAL INSTRUCTION:\n"
    + "If the user asks to CREATE, WRITE, "
    + "or SAVE a file (or if they ask for "
    + "a component/script that implies a "
    + "file), you MUST use this EXACT "
    + "format:\n"
    + "\n"

  /** The format template the DEVELOPER prompt shows. */
  const FormatBlock: FileBlock :=
    FileBlock(|DeveloperIntro|, FormatPath, FormatContent)

  const DeveloperMiddle: string :=
    "\n"
    + "\n"
    + "DO NOT wrap the content in markdown "
    + "code blocks inside the "
    + "START_FILE/END_FILE tags. Raw text "
    + "only.\n"
    + "DO NOT say \"Here is the code\". Just "
    + "output the format.\n"
    + "\n"
    + "Example:\n"
    + "User: \"Create a button component\"\n"
    + "You:\n"

  /** The example answer that closes the DEVELOPER prompt. */
  const ButtonBlock: FileBlock :=
    FileBlock(FormatBlock.End() + |DeveloperMiddle|, ButtonPath, ButtonContent)

  const DeveloperPrompt: string :=
    DeveloperIntro + FormatBlock.Text() + DeveloperMiddle + ButtonBlock.Text()

  const DebuggerPrompt: string :=
    "You are the VIRU DEBUGGER.\n"
    + "Your role is to analyze error logs "
    + "and fix bugs.\n"
    + "1. Identify the root cause.\n"
    + "2. Explain why it happened.\n"
    + "3. Provide the fix."

  const GitIntro: string :=
    "You are the VIRU VERSION CONTROL "
    + "SPECIALIST.\n"
    + "Your role is to manage the git "
    + "repository.\n"
    + "Use the following format to execute "
    + "commands:\n"
    + "\n"

  /** The command template the GIT_SPECIALIST prompt shows. */
  const TemplateLine: CmdLine :=
    CmdLine(|GitIntro|, TemplateCommand, true)

  const GitMiddle: string :=
    "\n"
    + "Example:\n"
    + "User: \"Commit this\"\n"
    + "You:\n"

  /** The two example commands of the GIT_SPECIALIST prompt. */
  const AddLine: CmdLine :=
    CmdLine(TemplateLine.End() + |GitMiddle|, AddCommand, true)

  const CommitLine: CmdLine :=
    CmdLine(AddLine.End(), CommitCommand, true)

  const GitOutro: string :=
    "\n"
    + "If the user asks to push, verify a "
    + "remote exists or ask for the repo "
    + "URL."

  const GitPrompt: string :=
    GitIntro + TemplateLine.Text() + GitMiddle + AddLine.Text() + CommitLine.Text() + GitOutro

  /**
    * `AGENT_PROMPTS`: the entry under each agent's name. The object literal
    * has one key per member of the router's agent type, so it is a total
    * function of the agent.
    */
  function AgentPrompt(a: AgentType): string {
    match a
    case Root => RootPrompt
    case Architect => ArchitectPrompt
    case Developer => DeveloperPrompt
    case Debugger => DebuggerPrompt
    case GitSpecialist => GitPrompt
  }

  /** Different agents have different names, so the table has one entry per agent. */
  lemma TagInjective(a: AgentType, b: AgentType)
    ensures Tag(a) == Tag(b) <==> a == b
  {
    if a != b && |Tag(a)| == |Tag(b)| {
      assert Tag(a)[0] != Tag(b)[0];
    }
  }

  lemma RootPromptNonEmpty() ensures |RootPrompt| > 0 {}
  lemma ArchitectPromptNonEmpty() ensures |ArchitectPrompt| > 0 {}
  lemma DeveloperPromptNonEmpty() ensures |DeveloperPrompt| > 0 {}
  lemma DebuggerPromptNonEmpty() ensures |DebuggerPrompt| > 0 {}
  lemma GitPromptNonEmpty() ensures |GitPrompt| > 0 {}

  /** No entry of the table is empty. */
  lemma AgentPromptNonEmpty(a: AgentType)
    ensures AgentPrompt(a) != ""
  {
    match a
    case Root => RootPromptNonEmpty();
    case Architect => ArchitectPromptNonEmpty();
    case Developer => DeveloperPromptNonEmpty();
    case Debugger => DebuggerPromptNonEmpty();
    case GitSpecialist => GitPromptNonEmpty();
  }

  lemma ExampleBlocksWellFormed()
    ensures FormatBlock.WellFormed() && ButtonBlock.WellFormed()
  {
    FormatPathPrintable();
    ButtonPathPrintable();
    PrintableSingleLine(FormatPath);
    PrintableSingleLine(ButtonPath);
    FormatContentWithoutUnderscore();
    ButtonContentWithoutUnderscore();
    EndsFirstWithoutUnderscore(FormatContent);
    EndsFirstWithoutUnderscore(ButtonContent);
  }

  /**
    * Both file blocks of the DEVELOPER prompt are accepted by the file-block
    * pattern where they stand: the format template, and the Button example
    * with path `src/components/Button.tsx`.
    */
  lemma DeveloperExamplesAccepted()
    ensures FileBlockAt(DeveloperPrompt, FormatBlock.start) == Some(FormatBlock)
    ensures FileBlockAt(DeveloperPrompt, ButtonBlock.start) == Some(ButtonBlock)
    ensures ButtonBlock.path == "src/components/Button.tsx"
  {
    ExampleBlocksWellFormed();
    TwoBlocksAccepted(DeveloperIntro, FormatBlock, DeveloperMiddle, ButtonBlock);
  }

  lemma ExampleCommandsSingleLine()
    ensures NoLineTerminator(TemplateCommand) && NoLineTerminator(AddCommand)
    ensures NoLineTerminator(CommitCommand)
  {
    TemplateCommandPrintable();
    AddCommandPrintable();
    CommitCommandPrintable();
    PrintableSingleLine(TemplateCommand);
    PrintableSingleLine(AddCommand);
    PrintableSingleLine(CommitCommand);
  }

  /**
    * The three command lines of the GIT_SPECIALIST prompt are accepted by the
    * command pattern where they stand.
    */
  lemma GitExamplesAccepted()
    ensures CmdLineAt(GitPrompt, TemplateLine.start) == Some(TemplateLine)
    ensures CmdLineAt(GitPrompt, AddLine.start) == Some(AddLine)
    ensures CmdLineAt(GitPrompt, CommitLine.start) == Some(CommitLine)
  {
    ExampleCommandsSingleLine();
    ThreeLinesAccepted(GitIntro, TemplateLine, GitMiddle, AddLine, CommitLine, GitOutro);
  }

  /** Both example commands of the GIT_SPECIALIST prompt pass the `git ` prefix check. */
  lemma GitExamplesAllowed()
    ensures Allowed(Trim(AddLine.command)) && Allowed(Trim(CommitLine.command))
  {
    assert Trim(AddCommand) == AddCommand;
    assert Trim(CommitCommand) == CommitCommand;
  }
}
