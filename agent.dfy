/**
  * `AgentService`: route a prompt, fetch the persona's answer, and carry out
  * the actions the answer asks for. The file system and the shell are
  * objects whose behaviour is given by an oracle; the model of the AI service
  * is passed in as the function that answers a prompt under a system prompt.
  */
module Agent {
  import opened Text
  import opened Blocks
  import opened Prompts
  import opened Router

  /** The files the file service writes, with the oracle that decides whether a write fails. */
  class FileSystem {
    var files: map<string, string>
    const refuse: WriteOracle

    constructor (files0: map<string, string>, refuse0: WriteOracle)
      ensures files == files0 && refuse == refuse0
    {
      files := files0;
      refuse := refuse0;
    }

    /** `fsService.writeFile(path, content)`: the error message when it throws, and the file written otherwise. */
    method WriteFile(path: string, content: string) returns (error: Option<string>)
      modifies this
      ensures error == refuse(old(files), path)
      ensures files == if error.None? then old(files)[path := content] else old(files)
    {
      error := refuse(files, path);
      if error.None? {
        files := files[path := content];
      }
    }
  }

  /** The shell `exec` runs commands in, with the commands it has been given so far. */
  class Shell {
    var executed: seq<string>
    const run: ExecOracle

    constructor (run0: ExecOracle)
      ensures executed == [] && run == run0
    {
      executed := [];
      run := run0;
    }

    /** `execAsync(command)`: its output streams, or the error it rejects with. */
    method Exec(command: string) returns (result: ExecResult)
      modifies this
      ensures result == run(old(executed), command)
      ensures executed == old(executed) + [command]
    {
      result := run(executed, command);
      executed := executed + [command];
    }
  }

  /**
    * `handleFileOperations`: every match of the file pattern in the original
    * text is written to its trimmed path (not joined with `projectPath`), and
    * the first occurrence of the match in the working text is replaced by the
    * outcome fragment.
    */
  method HandleFileOperations(fs: FileSystem, response: string, projectPath: string) returns (finalResponse: string)
    modifies fs
    ensures FileRun(finalResponse, fs.files) == FilePass(response, old(fs.files), fs.refuse)
  {
    finalResponse := response;
    var lastIndex: nat := 0;
    var match_ := NextFileBlock(response, lastIndex);
    while match_.Some?
      invariant match_ == NextFileBlock(response, lastIndex)
      invariant WriteBlocks(FileRun(finalResponse, fs.files), FileBlocksFrom(response, lastIndex), fs.refuse)
        == FilePass(response, old(fs.files), fs.refuse)
      decreases |response| - lastIndex
    {
      var b := match_.value;
      var cleanPath := Trim(b.path);
      var cleanContent := Trim(b.content);
      ghost var before := FileRun(finalResponse, fs.files);
      var error := fs.WriteFile(cleanPath, cleanContent);
      var fragment := match error
        case None => FileSuccess(cleanPath, cleanContent)
        case Some(reason) => FileFailure(cleanPath, reason);
      finalResponse := ReplaceFirst(finalResponse, b.Text(), fragment);
      assert FileRun(finalResponse, fs.files) == WriteBlock(before, b, fs.refuse);
      assert FileBlocksFrom(response, lastIndex) == [b] + FileBlocksFrom(response, b.End());
      lastIndex := b.End();
      match_ := NextFileBlock(response, lastIndex);
    }
  }

  /**
    * `handleCommandOperations`: every match of the command pattern in the
    * original text is checked for the `git ` prefix, run when it passes, and
    * replaced (first occurrence in the working text) by its outcome fragment.
    */
  method HandleCommandOperations(shell: Shell, response: string) returns (finalResponse: string)
    modifies shell
    ensures ShellRun(finalResponse, shell.executed) == CommandPass(response, old(shell.executed), shell.run)
  {
    finalResponse := response;
    var lastIndex: nat := 0;
    var match_ := NextCmdLine(response, lastIndex);
    while match_.Some?
      invariant match_ == NextCmdLine(response, lastIndex)
      invariant RunLines(ShellRun(finalResponse, shell.executed), CmdLinesFrom(response, lastIndex), shell.run)
        == CommandPass(response, old(shell.executed), shell.run)
      decreases |response| - lastIndex
    {
      var c := match_.value;
      var cleanCommand := Trim(c.command);
      var fragment;
      if !Allowed(cleanCommand) {
        fragment := CmdError(cleanCommand, SecurityRestriction);
      } else {
        var result := shell.Exec(cleanCommand);
        fragment := match result
          case Exited(stdout, stderr) => CmdExecuted(cleanCommand, CmdOutput(stdout, stderr))
          case Failed(message) => CmdError(cleanCommand, message);
      }
      finalResponse := ReplaceFirst(finalResponse, c.Text(), fragment);
      lastIndex := c.End();
      match_ := NextCmdLine(response, lastIndex);
    }
  }

  /** What `process` does with the generated text, the files and the shell, once the persona is known. */
  datatype Outcome = Outcome(text: string, files: map<string, string>, executed: seq<string>)

  function Respond(agent: AgentType, text: string, files: map<string, string>, executed: seq<string>,
                   refuse: WriteOracle, run: ExecOracle): Outcome
  {
    if agent == Developer && Contains(text, FileMarker) then
      var r := FilePass(text, files, refuse);
      Outcome(r.text, r.files, executed)
    else if agent == GitSpecialist && Contains(text, CmdMarker) then
      var r := CommandPass(text, executed, run);
      Outcome(r.text, files, r.executed)
    else Outcome(text, files, executed)
  }

  /**
    * The persona gates the passes: only the DEVELOPER writes files, only the
    * GIT_SPECIALIST runs commands, and every other persona's text comes back
    * as generated.
    */
  lemma RespondGating(agent: AgentType, text: string, files: map<string, string>, executed: seq<string>,
                      refuse: WriteOracle, run: ExecOracle)
    ensures var r := Respond(agent, text, files, executed, refuse, run);
      (agent != Developer ==> r.files == files)
      && (agent != GitSpecialist ==> r.executed == executed)
      && (agent != Developer && agent != GitSpecialist ==> r.text == text)
      && (agent == Developer ==> r.executed == executed && FileRun(r.text, r.files) == FilePass(text, files, refuse))
      && (agent == GitSpecialist ==> r.files == files && ShellRun(r.text, r.executed) == CommandPass(text, executed, run))
  {
    if agent == Developer && !Contains(text, FileMarker) {
      FilePassNoMarker(text, files, refuse);
    }
    if agent == GitSpecialist && !Contains(text, CmdMarker) {
      CommandPassNoMarker(text, executed, run);
    }
  }

  /**
    * `process`: classify the prompt, choose the system prompt from the agent
    * store with the built-in `AGENT_PROMPTS` table behind it, generate, then
    * run the pass the persona is allowed.
    */
  method Process(userPrompt: string, projectPath: string, store: BrainStore,
                 generate: (string, string) -> string, fs: FileSystem, shell: Shell)
    returns (response: string, agent: AgentType)
    modifies fs, shell
    ensures agent == Classify(userPrompt)
    ensures Outcome(response, fs.files, shell.executed)
      == Respond(agent, generate(userPrompt, SystemPrompt(agent, store, AgentPrompt)), old(fs.files), old(shell.executed),
                 fs.refuse, shell.run)
  {
    agent := Classify(userPrompt);
    var systemPrompt := SystemPrompt(agent, store, AgentPrompt);
    response := Answer(agent, userPrompt, systemPrompt, projectPath, generate, fs, shell);
  }

  /** The part of `process` after the system prompt is chosen: generate, then run the pass the persona is allowed. */
  method Answer(agent: AgentType, userPrompt: string, systemPrompt: string, projectPath: string,
                generate: (string, string) -> string, fs: FileSystem, shell: Shell)
    returns (response: string)
    modifies fs, shell
    ensures Outcome(response, fs.files, shell.executed)
      == Respond(agent, generate(userPrompt, systemPrompt), old(fs.files), old(shell.executed), fs.refuse, shell.run)
  {
    response := generate(userPrompt, systemPrompt);
    if agent == Developer && Contains(response, FileMarker) {
      response := HandleFileOperations(fs, response, projectPath);
    }
    if agent == GitSpecialist && Contains(response, CmdMarker) {
      response := HandleCommandOperations(shell, response);
    }
  }
}
