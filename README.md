# VIRU server core in Dafny

VIRU is a self-hosted AI software engineer. Its server routes a user's
instruction to one of five personas (ROOT, ARCHITECT, DEVELOPER, DEBUGGER,
GIT_SPECIALIST). It asks a local Ollama model for an answer under that
persona's system prompt. Then it carries out the actions the answer embeds:

- `>>> START_FILE: <path>` … `>>> END_FILE` blocks become file writes;
- `>>> EXEC_CMD: <command>` lines become `git` commands.

Around this loop sit:

- the autopilot, which plans the files a goal needs and has the agent write them one by one;
- a preview deployer, which serves each project on its own port;
- a retrieval store, which splits documents into paragraphs, embeds them and cites the best matches;
- the project registry, which gives every project a sanitised folder.

This project models each of these as Dafny. Every operation is tied by an
all-inputs lemma or a method contract to a specification function, an
inverse or an invariant.

| file | module | models |
|---|---|---|
| `text.dfy` | `Text` | the JavaScript string operations the server uses: `indexOf`, `includes`, `startsWith`, `trim`, `toLowerCase`, `substring(0, n)` in UTF-16 code units, `replace` with a string pattern, `join` and UTF-16 `length` |
| `prompts.dfy` | `PromptText`, `Prompts` | the `AGENT_PROMPTS` table, with the example blocks inside the DEVELOPER and GIT_SPECIALIST prompts located exactly |
| `router.dfy` | `Router` | intent classification and the choice of system prompt from the agent store |
| `blocks.dfy` | `Blocks` | both regular expressions as scanners, proved sound and complete; the two rewriting passes as specification functions |
| `agent.dfy` | `Agent` | `AgentService.process` and its two `while (regex.exec(...))` loops, over a file-system object and a shell object |
| `ai.dfy` | `Ai` | `AIService.generate`: the request body, and the diagnostic text that replaces every failure |
| `autopilot.dfy` | `Autopilot` | `AutopilotService.startMission` as a method appending to a message store, proved against a pure mission function |
| `deployment.dfy` | `Deployment` | `DeploymentService` as a class over a map of mutable records, with spawned and killed processes recorded |
| `rag.dfy` | `Rag` | `RagService`: the paragraph split, ingestion, scoring, stable sort, selection, citation, statistics and graph |
| `project.dfy` | `Projects` | `ProjectService.createProject` and its folder-name sanitiser |

Collaborators the model cannot see are parameters or objects whose behaviour is given by a function:

- the model server (`Transport`, `generate`);
- the file system (`WriteOracle`, `Reader`) and the shell (`ExecOracle`);
- the embedding endpoint (`Embedder`) and the cosine similarity (`Similarity`);
- `uuidv4` (`IdSource`) and `path.join` (`PathJoin`);
- the project table, the planner and the JSON parser of the autopilot.

The model follows the code as written; in particular:

- The file pass writes to the trimmed path as given; the project-relative `targetPath` it computes is never used (agent.service.ts:72, 79).
- The command output is stdout, or stderr when stdout is empty; the two are never combined.
- A parsed agent store that lacks a persona's prompt falls back to ROOT's prompt, not to that persona's built-in prompt.
- A plan with no JSON object logs three events: engaged, planning and plan failed.
- A plan whose JSON does not parse ends in a critical failure carrying the parser's message, not in "plan failed".
- The verifying step reads the planned file name itself, not the name joined with the project's path.
- The folder-name sanitiser replaces unsafe characters before it lower-cases, with the `i` flag. It emits one `_` per UTF-16 code unit, so a character outside the Basic Multilingual Plane becomes `__`. The folder name is therefore as long as the name's UTF-16 length, not its character count.

## Model

| member | source | states |
|---|---|---|
| Prompts.AgentPrompt | VIRU-main/server/src/agents/prompts.ts:1-58 | defines the `AGENT_PROMPTS` table, one prompt per persona; its meaning is stated by TagInjective, AgentPromptNonEmpty and the example lemmas below |
| Prompts.TagInjective | VIRU-main/server/src/agents/prompts.ts:1-58 | the table's keys are distinct, so each persona has exactly one entry |
| Prompts.AgentPromptNonEmpty | VIRU-main/server/src/agents/prompts.ts:1-58 | every persona's built-in prompt is non-empty |
| Prompts.ExampleBlocksWellFormed | VIRU-main/server/src/agents/prompts.ts:24-26 | the format template and the button example are well-formed file blocks: a one-line path and content without an earlier end marker |
| Prompts.DeveloperExamplesAccepted | VIRU-main/server/src/agents/prompts.ts:17-37 | the file pass's pattern matches both example blocks of the DEVELOPER prompt at their places, with path `src/components/Button.tsx` for the example |
| Prompts.ExampleCommandsSingleLine | VIRU-main/server/src/agents/prompts.ts:49-55 | the template and example commands of the GIT_SPECIALIST prompt contain no line terminator |
| Prompts.GitExamplesAccepted | VIRU-main/server/src/agents/prompts.ts:45-57 | the command pattern matches the template and both example lines of the GIT_SPECIALIST prompt at their places |
| Prompts.GitExamplesAllowed | VIRU-main/server/src/agents/prompts.ts:54-55 | both example commands pass the `git ` prefix check once trimmed |
| Router.Classify | server/src/agents/agent.service.ts:15-26 | defines the routing chain; its meaning is stated by ClassifyIsFirstMentioned, ClassifyIgnoresCase and ClassifyMonotone |
| Router.SystemPrompt | server/src/agents/agent.service.ts:31-40 | defines the choice of system prompt; its meaning is stated by ParsedStoreChoice, UnreadableStoreChoice and SystemPromptNonEmpty |
| Router.MentionsAnyIff | server/src/agents/agent.service.ts:18-24 | the chain of `includes` tests holds exactly when some keyword of the list occurs in the text |
| Router.ClassifyIsFirstMentioned | server/src/agents/agent.service.ts:15-26 | a non-ROOT result's keyword occurs in the lower-cased prompt, and no persona earlier in the priority order has a keyword in it |
| Router.ClassifyIgnoresCase | server/src/agents/agent.service.ts:16 | upper- or lower-casing the prompt does not change the persona |
| Router.MentionsInConcat | server/src/agents/agent.service.ts:16-24 | a keyword found in either part of a text is found in the whole |
| Router.ClassifyMonotone | server/src/agents/agent.service.ts:15-26 | adding text never moves the result later in the priority order than either part's result |
| Router.ExplanationGoesToArchitect | server/src/agents/agent.service.ts:18 | "explanation" is routed to ARCHITECT, because it contains "plan" |
| Router.PlanBeatsWrite | server/src/agents/agent.service.ts:18-21 | "Write a Plan" goes to ARCHITECT: ARCHITECT is checked before DEVELOPER |
| Router.ParsedStoreChoice | server/src/agents/agent.service.ts:32-36 | with a readable store, a persona's own non-empty stored prompt wins, and any gap falls back to ROOT's built-in prompt |
| Router.UnreadableStoreChoice | server/src/agents/agent.service.ts:37-40 | with an unreadable store, the persona's own built-in prompt is used |
| Router.SystemPromptNonEmpty | server/src/agents/agent.service.ts:31-40 | the chosen system prompt is never empty |
| Text.Take | server/src/agents/agent.service.ts:81 | `substring(0, n)` on UTF-16 code units: a prefix of the text whose UTF-16 length is at most n |
| Text.TakeMaximal | server/src/agents/agent.service.ts:111 | the prefix is the longest such: the whole text when it fits, otherwise the next character would overrun n |
| Text.TakeBmp | VIRU-main/server/src/services/rag.service.ts:126 | inside the Basic Multilingual Plane, the prefix is exactly the first n characters, or the whole text |
| Blocks.LineEnd | server/src/agents/agent.service.ts:59 | the end of `(.*?)\n`'s line: the first line terminator at or after the start, with none before it |
| Blocks.LineEndAt | server/src/agents/agent.service.ts:59 | any index with no terminator before it and a terminator (or the end) at it is the line end |
| Blocks.FileBlockAt | server/src/agents/agent.service.ts:59 | a match at an index starts there and ends within the text |
| Blocks.FileBlockAtSound | server/src/agents/agent.service.ts:59 | a match is a well-formed block (one-line path, content before the first end marker) placed at that index |
| Blocks.FileBlockAtPlaced | server/src/agents/agent.service.ts:59 | conversely, every well-formed block placed at an index is the match found there |
| Blocks.FileBlockAtFound | server/src/agents/agent.service.ts:59 | the match is the start marker, the path up to the first line feed, and the content up to the first end marker |
| Blocks.TwoBlocksAccepted | server/src/agents/agent.service.ts:59-63 | two well-formed blocks in one text are both matched at their places |
| Blocks.EndsFirstWithoutUnderscore | server/src/agents/agent.service.ts:59 | content without `_` cannot hide an end marker, so the lazy match ends at its own marker |
| Blocks.NextFileBlock | server/src/agents/agent.service.ts:63 | the next match found from an index starts at or after it |
| Blocks.NextFileBlockFirst | server/src/agents/agent.service.ts:63 | the next match is the leftmost: no match starts between the search index and it |
| Blocks.FileBlocksFrom | server/src/agents/agent.service.ts:63-86 | the matches the `/g` loop visits lie inside the text, in order, without overlapping |
| Blocks.NoFileMarkerNoBlocks | server/src/agents/agent.service.ts:63 | text without the start marker has no match |
| Blocks.FilePassNoMarker | server/src/agents/agent.service.ts:46 | text without the start marker comes back unchanged and nothing is written |
| Blocks.TargetPaths | server/src/agents/agent.service.ts:65 | every block's trimmed path is among the targets |
| Blocks.WriteBlocksFrame | server/src/agents/agent.service.ts:63-86 | a file no block targets is neither created nor changed by the pass |
| Blocks.WriteBlocksSplit | server/src/agents/agent.service.ts:63-86 | the pass over the blocks equals the pass over a prefix followed by the pass over the rest |
| Blocks.WriteBlocksKeepsWrite | server/src/agents/agent.service.ts:65-81 | a block whose write succeeds, with no later block on the same path, leaves its trimmed content in the file at its trimmed path |
| Blocks.FileSuccess | server/src/agents/agent.service.ts:81 | defines the success fragment with the first 100 UTF-16 code units of the content; used by WriteBlocksKeepsWrite and FirstBlockInPlace |
| Blocks.FileFailure | server/src/agents/agent.service.ts:84 | defines the failure fragment carrying the write error's message; used by FirstBlockInPlace |
| Blocks.WriteBlock | server/src/agents/agent.service.ts:64-85 | defines one iteration of the file loop; its effect is stated by WriteBlocksKeepsWrite, WriteBlocksFrame and FirstBlockInPlace |
| Blocks.FilePass | server/src/agents/agent.service.ts:58-88 | defines the file pass over all blocks; its meaning is stated by FilePassNoMarker, TargetPaths, WriteBlocksFrame, WriteBlocksKeepsWrite and FirstBlockInPlace |
| Blocks.FirstBlockInPlace | server/src/agents/agent.service.ts:79-84 | the first block is replaced in place by its outcome fragment (success preview or failure reason) |
| Blocks.CmdLineAt | server/src/agents/agent.service.ts:91 | a command match at an index starts there and ends within the text |
| Blocks.CmdLineAtSound | server/src/agents/agent.service.ts:91 | a match is a one-line command placed at that index, ending at a line feed or at the end of the text |
| Blocks.CmdLineAtPlaced | server/src/agents/agent.service.ts:91 | conversely, every such placed command is the match found there |
| Blocks.ThreeLinesAccepted | server/src/agents/agent.service.ts:91-95 | three consecutive command lines are all matched at their places |
| Blocks.NextCmdLineFirst | server/src/agents/agent.service.ts:95 | the next command match is the leftmost after the search index |
| Blocks.CmdLinesFrom | server/src/agents/agent.service.ts:95-117 | the command matches lie inside the text, in order, without overlapping |
| Blocks.NoCmdMarkerNoLines | server/src/agents/agent.service.ts:95 | text without the command marker has no command match |
| Blocks.CmdOutput | server/src/agents/agent.service.ts:110-111 | the output shown is stdout, else stderr, cut to its longest prefix within 200 UTF-16 code units (the whole output when it fits); with neither, "Done (No Output)" |
| Blocks.AllowedCommands | server/src/agents/agent.service.ts:103-105 | every command passed on to the shell starts with `git ` |
| Blocks.RunLinesExecutes | server/src/agents/agent.service.ts:95-117 | the shell receives exactly the trimmed commands that pass the prefix check, in order |
| Blocks.CommandPassOnlyGit | server/src/agents/agent.service.ts:103-108 | the pass only appends to the commands run, and everything it appends starts with `git ` |
| Blocks.CommandPassNoMarker | server/src/agents/agent.service.ts:51 | text without the command marker comes back unchanged and nothing runs |
| Blocks.LineOutcome | server/src/agents/agent.service.ts:97-115 | defines one command's fragment: refused without the `git ` prefix, the error's message when the command fails, else the executed output; used by FirstLineInPlace and CrlfLineOverwritten |
| Blocks.RunLine | server/src/agents/agent.service.ts:96-116 | defines one iteration of the command loop; its effect is stated by RunLinesExecutes and FirstLineInPlace |
| Blocks.CommandPass | server/src/agents/agent.service.ts:90-119 | defines the command pass as written; its meaning is stated by RunLinesExecutes, CommandPassOnlyGit, CommandPassNoMarker, FirstLineInPlace and CrlfLineOverwritten |
| Blocks.FirstLineInPlace | server/src/agents/agent.service.ts:111-115 | the first command line is replaced in place by its outcome fragment |
| Blocks.CommandPassInPlace | server/src/agents/agent.service.ts:90-119 | defines the command pass with each fragment put at its own match; its meaning is stated by SpliceInterleaves and SpliceExecutes |
| Blocks.SpliceInterleaves | server/src/agents/agent.service.ts:91-115 | with each fragment at its own match, the result is the text between the matches interleaved with the fragments, in match order |
| Blocks.SpliceExecutes | server/src/agents/agent.service.ts:95-108 | that pass runs exactly the trimmed commands with the `git ` prefix, in order |
| Blocks.CrlfLineOverwritten | server/src/agents/agent.service.ts:91-111 | for `>>> EXEC_CMD: c\r\n>>> EXEC_CMD: c`, only the second line matches, yet the pass as written puts its fragment over the first line; put at the match, it replaces the second |
| Agent.FileSystem.WriteFile | server/src/agents/agent.service.ts:79 | the oracle's error when the write throws, otherwise the file holds the content and nothing else changes |
| Agent.Shell.Exec | server/src/agents/agent.service.ts:108 | the command is recorded and its result is the oracle's answer for the commands run before it |
| Agent.HandleFileOperations | server/src/agents/agent.service.ts:58-88 | the loop's text and files are those of the specification pass over the original response |
| Agent.HandleCommandOperations | server/src/agents/agent.service.ts:90-119 | the loop's text and command history are those of the specification pass over the original response |
| Agent.Respond | server/src/agents/agent.service.ts:45-55 | defines the gating of the two passes by persona; its meaning is stated by RespondGating |
| Agent.RespondGating | server/src/agents/agent.service.ts:45-53 | only DEVELOPER writes files and only GIT_SPECIALIST runs commands; every other persona's answer comes back untouched |
| Agent.Process | server/src/agents/agent.service.ts:13-56 | the persona is the classification of the prompt, and the response, files and commands are the gated passes over the answer generated under the system prompt chosen from the store, with the built-in prompts as fallback |
| Agent.Answer | server/src/agents/agent.service.ts:43-55 | the response, files and commands are the gated passes over the answer generated for the prompt under the given system prompt |
| Ai.WrapPrompt | server/src/services/ai.service.ts:26 | defines the context-wrapped prompt; its shape is stated by WrapPromptParts |
| Ai.BuildRequest | server/src/services/ai.service.ts:21-33 | defines the request body; its fields are stated by BuildRequestFields |
| Ai.BuildRequestFields | server/src/services/ai.service.ts:21-33 | model and system fall back to "mistral" and the default prompt exactly when not given; streaming is off; images are sent only when non-empty |
| Ai.WrapPromptParts | server/src/services/ai.service.ts:26 | without a context the prompt is sent as is; with one, the header, the context, the instruction and the prompt appear in that order and nothing else |
| Ai.KindOf | server/src/services/ai.service.ts:56-62 | defines the choice of explanation for a failure; stated by ReadKindOfDiagnostic |
| Ai.Diagnostic | server/src/services/ai.service.ts:55-64 | a failure's text starts with the alert and ends with the troubleshooting recipe |
| Ai.ReadKindOfDiagnostic | server/src/services/ai.service.ts:56-62 | exactly one explanation is chosen, in the order abort, refused connection, details, and it can be read back from the text |
| Ai.DetailsRoundTrip | server/src/services/ai.service.ts:61 | a details diagnostic gives back the error's message unchanged |
| Ai.RefusedNamesUrl | server/src/services/ai.service.ts:59 | a refused connection names the model server's address |
| Ai.Generate | server/src/services/ai.service.ts:16-66 | defines `generate` over a transport; its outcomes are stated by GenerateOutcome |
| Ai.GenerateOutcome | server/src/services/ai.service.ts:16-66 | an OK reply yields its `response`; a thrown error yields its diagnostic; a bad status yields a details diagnostic carrying the status text; an unparsable body yields one carrying the parser's message |
| Autopilot.Describe | server/src/services/autopilot.service.ts:12-78 | defines the message text of each event; used by Conduct and StartMission |
| Autopilot.MessageStore.Log | server/src/services/autopilot.service.ts:82-92 | one AI message from AUTOPILOT with the given content is appended to the log |
| Autopilot.JsonSpan | server/src/services/autopilot.service.ts:33 | defines the greedy `{`…`}` match; stated by JsonSpanExists and JsonSpanGreedy |
| Autopilot.FilePrompt | server/src/services/autopilot.service.ts:48-52 | defines the per-file prompt; its routing is stated by FilePromptRouting and VerbIsDeveloper |
| Autopilot.Verdict | server/src/services/autopilot.service.ts:66-71 | defines the check on the read-back file: under ten UTF-16 code units needs correcting; used by ImplementVerdicts |
| Autopilot.Implement | server/src/services/autopilot.service.ts:44-72 | defines the execution loop's events; stated by ImplementLength, ImplementOrder, ImplementVerdicts and ImplementNotFinal |
| Autopilot.Mission | server/src/services/autopilot.service.ts:8-80 | defines the whole mission's events; stated by MissionFrame, UnknownProject, PlanWithoutJson, PlanRejected and MissionOutcome |
| Autopilot.JsonSpanExists | server/src/services/autopilot.service.ts:33 | `/\{[\s\S]*\}/` matches exactly when some `{` precedes some `}` |
| Autopilot.JsonSpanGreedy | server/src/services/autopilot.service.ts:33 | the match runs from the first `{` to the last `}` |
| Autopilot.HandleFile | server/src/services/autopilot.service.ts:44-71 | one file's turn: the agent writes, the file is read back, and the implementing, verifying and verdict messages are logged |
| Autopilot.ImplementPlan | server/src/services/autopilot.service.ts:44-72 | the loop logs the events of the specification loop, leaves its files and stops with its failure |
| Autopilot.Conduct | server/src/services/autopilot.service.ts:8-80 | the messages appended are the mission's events rendered in order, and the files are the mission's |
| Autopilot.StartMission | server/src/services/autopilot.service.ts:8-80 | as Conduct, with the service's own message texts |
| Autopilot.MissionFrame | server/src/services/autopilot.service.ts:8-80 | every mission opens with "engaged", logs at least two events, and ends with exactly one final event (plan failed, complete or critical failure) |
| Autopilot.ImplementNotFinal | server/src/services/autopilot.service.ts:44-72 | no event of the loop is final |
| Autopilot.UnknownProject | server/src/services/autopilot.service.ts:16-17 | an unknown project logs exactly "engaged" and "Project not found" and writes nothing, and only it gives a two-event log |
| Autopilot.PlanWithoutJson | server/src/services/autopilot.service.ts:33-38 | a plan without a JSON span logs engaged, planning and plan failed, and writes nothing |
| Autopilot.PlanRejected | server/src/services/autopilot.service.ts:40 | a span the parser rejects ends in a critical failure carrying the parser's message, and writes nothing |
| Autopilot.ImplementLength | server/src/services/autopilot.service.ts:44-72 | without a failed read the loop logs three events per file and leaves every file written; a failed read at file n stops it after n full turns and two events, with that read's message |
| Autopilot.ImplementOrder | server/src/services/autopilot.service.ts:45-63 | file k's implementing and verifying events sit at positions 3k and 3k+1, in plan order |
| Autopilot.ImplementVerdicts | server/src/services/autopilot.service.ts:65-71 | file k's third event is the verdict on what was read after the first k+1 turns: correction needed under ten UTF-16 code units, verified otherwise |
| Autopilot.MissionOutcome | server/src/services/autopilot.service.ts:41-79 | an accepted plan ends complete after 3·n+4 events exactly when no read fails; otherwise it ends with that read's failure, earlier |
| Autopilot.FilePromptRouting | server/src/services/autopilot.service.ts:48-56 | the file prompt is routed to ARCHITECT or DEVELOPER, and to ARCHITECT whenever the file name or goal mentions an ARCHITECT keyword |
| Autopilot.VerbIsDeveloper | server/src/services/autopilot.service.ts:49 | "Create/Update " alone already routes away from DEBUGGER, GIT_SPECIALIST and ROOT |
| Deployment.DecimalRoundTrip | server/src/services/deployment.service.ts:48 | the port's decimal text reads back as the port |
| Deployment.UrlInjective | server/src/services/deployment.service.ts:48 | different ports give different URLs |
| Deployment.KeyedInsert | server/src/services/deployment.service.ts:38-60 | adding a fresh record for a newly launched process keeps every entry keyed by its own project and tied to its own launch |
| Deployment.PortsFitInsert | server/src/services/deployment.service.ts:24 | while nothing has been removed, port 3000 + size + 1 is free and the ports stay distinct in 3001 … 3000 + size |
| Deployment.Record.constructor | server/src/services/deployment.service.ts:43-49 | a new record is running at `http://localhost:<port>` |
| Deployment.DeploymentService.constructor | server/src/services/deployment.service.ts:14-15 | the table starts empty |
| Deployment.DeploymentService.GetDeployment | server/src/services/deployment.service.ts:74-76 | defines `getDeployment`; what it returns after each operation is stated by DeployProject, DeployProjectFreshPort, StopDeployment, OnExit and OnExitGuarded |
| Deployment.DeploymentService.DeployProject | server/src/services/deployment.service.ts:17-62 | a tracked project gets its record back and nothing is spawned; otherwise one `serve` process is launched on port 3000 + size + 1 and its fresh running record joins the table; either way `getDeployment` then returns that record |
| Deployment.DeploymentService.DeployProjectFreshPort | server/src/services/deployment.service.ts:23-24 | numbering ports by launches instead of by the table's size, a new deployment's port is held by no tracked deployment, even after a stop |
| Deployment.DeploymentService.StopDeployment | server/src/services/deployment.service.ts:64-72 | true exactly when the project was tracked; its process is then killed and only its entry is removed; afterwards `getDeployment` finds nothing |
| Deployment.DeploymentService.OnExit | server/src/services/deployment.service.ts:54-58 | the close handler as written: it marks the tracked record stopped and drops it, so `getDeployment` then finds nothing, and fails when the entry is already gone |
| Deployment.DeploymentService.StopThenExit | server/src/services/deployment.service.ts:54-72 | after a successful stop, the close handler always fails |
| Deployment.DeploymentService.OnExitGuarded | server/src/services/deployment.service.ts:54-58 | the guarded handler removes the entry, marking it stopped if it was there, and never fails |
| Deployment.DeploymentService.StopThenExitGuarded | server/src/services/deployment.service.ts:54-72 | with the guarded handler, stop then exit leaves the table without the project and kills the process once |
| Deployment.PortReusedAfterStop | server/src/services/deployment.service.ts:24 | deploy a and b, stop a, deploy c: b and c are both running on port 3002 |
| Rag.Split | VIRU-main/server/src/services/rag.service.ts:71 | defines `split(/\n\s*\n/)`; stated by SplitFromReassembles and SplitCharacterised |
| Rag.Chunks | VIRU-main/server/src/services/rag.service.ts:71 | defines the split followed by the length filter; stated by KeepLongMembers and ChunksSound |
| Rag.SpaceRunEnd | VIRU-main/server/src/services/rag.service.ts:71 | the end of the whitespace run `\s*` |
| Rag.SeparatorEnd | VIRU-main/server/src/services/rag.service.ts:71 | a match of `\n\s*\n` at an index is a separator: whitespace from a line feed to a line feed |
| Rag.BlankLineMatches | VIRU-main/server/src/services/rag.service.ts:71 | wherever a blank line starts, the pattern matches |
| Rag.SplitFromReassembles | VIRU-main/server/src/services/rag.service.ts:71 | the pieces and the separators between them rebuild the text |
| Rag.SplitCharacterised | VIRU-main/server/src/services/rag.service.ts:71 | `split` gives pieces that, with the matched separators, rebuild the text, and no piece holds a blank line |
| Rag.KeepLongMembers | VIRU-main/server/src/services/rag.service.ts:71 | the filter keeps exactly the pieces longer than 50 UTF-16 code units |
| Rag.KeepLongConcat | VIRU-main/server/src/services/rag.service.ts:71 | the filter works piece by piece: filtering a concatenation concatenates the filtered parts, so order and repeats are kept |
| Rag.ChunksSound | VIRU-main/server/src/services/rag.service.ts:71 | each chunk is a paragraph of the document, holds no blank line and is longer than 50 code units |
| Rag.Ingest | VIRU-main/server/src/services/rag.service.ts:73-84 | defines the ingestion loop's new entries; stated by IngestShape and SourcesOfIngest |
| Rag.IngestShape | VIRU-main/server/src/services/rag.service.ts:73-84 | ingestion stores exactly the chunks that got a non-empty embedding, in order, each with the file name, its embedding and a fresh id |
| Rag.SourcesMembers | VIRU-main/server/src/services/rag.service.ts:116 | the set of sources holds exactly the chunks' source names |
| Rag.SourcesBound | VIRU-main/server/src/services/rag.service.ts:116-117 | there are no more documents than chunks, and at least one when there is a chunk |
| Rag.SourcesConcat | VIRU-main/server/src/services/rag.service.ts:116 | the documents of two stores together are the documents of each |
| Rag.SourcesOfIngest | VIRU-main/server/src/services/rag.service.ts:76-82 | every entry ingested for a document carries its name: the new entries name exactly that document, or none when nothing was stored |
| Rag.SourcesAfterIngest | VIRU-main/server/src/services/rag.service.ts:73-84 | adding a document adds its name to the sources exactly when some chunk of it was stored |
| Rag.Score | VIRU-main/server/src/services/rag.service.ts:96-99 | one scored entry per stored chunk |
| Rag.ScoredEntry | VIRU-main/server/src/services/rag.service.ts:96-99 | each scored entry is a stored chunk with its similarity to the query, 0 where there is none |
| Rag.InsertPermutes | VIRU-main/server/src/services/rag.service.ts:102 | inserting adds exactly the entry |
| Rag.InsertDescending | VIRU-main/server/src/services/rag.service.ts:102 | inserting into a descending list keeps it descending |
| Rag.InsertStable | VIRU-main/server/src/services/rag.service.ts:102 | inserting keeps the order of equal-score entries, with the new one last |
| Rag.SortByScore | VIRU-main/server/src/services/rag.service.ts:102 | defines the stable descending sort; stated by SortPermutes, SortDescends and SortStable |
| Rag.SortPermutes | VIRU-main/server/src/services/rag.service.ts:102 | the sort is a permutation |
| Rag.SortDescends | VIRU-main/server/src/services/rag.service.ts:102 | the sort orders by descending score |
| Rag.SortStable | VIRU-main/server/src/services/rag.service.ts:102 | entries with equal scores keep their store order, as `Array.prototype.sort` guarantees |
| Rag.RelevantMembers | VIRU-main/server/src/services/rag.service.ts:105 | the filter keeps exactly the entries scoring above 0.5 |
| Rag.RelevantConcat | VIRU-main/server/src/services/rag.service.ts:105 | the filter works entry by entry: filtering a concatenation concatenates the filtered parts, so order and repeats are kept |
| Rag.RelevantAll | VIRU-main/server/src/services/rag.service.ts:105 | a list whose every entry scores above 0.5 passes the filter whole |
| Rag.RelevantKeepsOrder | VIRU-main/server/src/services/rag.service.ts:105 | filtering a descending list leaves it descending |
| Rag.RelevantSubMultiset | VIRU-main/server/src/services/rag.service.ts:105 | filtering only drops entries |
| Rag.Top | VIRU-main/server/src/services/rag.service.ts:96-105 | defines the scored, sorted, sliced and filtered selection; stated by TopBounded, TopDescending, TopSubMultiset, TopFromStore, TopIsBest, TopComplete and TopEmptyIff |
| Rag.TopBounded | VIRU-main/server/src/services/rag.service.ts:89-105 | the selection holds at most `maxResults` entries (at most 3 with the default) and never more than are stored |
| Rag.TopDescending | VIRU-main/server/src/services/rag.service.ts:102-105 | the selection is in descending score order |
| Rag.TopSubMultiset | VIRU-main/server/src/services/rag.service.ts:96-105 | the selection is drawn from the scored store without repeats |
| Rag.TopFromStore | VIRU-main/server/src/services/rag.service.ts:96-105 | every selected entry is a stored chunk scoring above 0.5 with its own similarity |
| Rag.TopIsBest | VIRU-main/server/src/services/rag.service.ts:102-105 | nothing cut off by the slice scores higher than anything selected |
| Rag.TopComplete | VIRU-main/server/src/services/rag.service.ts:96-105 | an entry above 0.5 is left out only when the selection is full: it then has as many entries as the cut keeps, each scoring at least as much as the one left out |
| Rag.TopEmptyIff | VIRU-main/server/src/services/rag.service.ts:105-107 | nothing is selected exactly when the cut keeps nothing or no stored entry scores above 0.5 |
| Rag.Cite | VIRU-main/server/src/services/rag.service.ts:111 | one citation, `[Context from <source>]:`, a line feed and the content, is never empty; used by ConstructContext and JoinStartsWithFirst |
| Rag.CitesEntry | VIRU-main/server/src/services/rag.service.ts:111 | citation i is the citation of selected entry i |
| Rag.JoinStartsWithFirst | VIRU-main/server/src/services/rag.service.ts:111 | the joined context starts with the first citation |
| Rag.Preview | VIRU-main/server/src/services/rag.service.ts:126 | the longest prefix of the content within 50 UTF-16 code units, then "..."; the whole content when it fits |
| Rag.GraphEntry | VIRU-main/server/src/services/rag.service.ts:123-127 | node i carries chunk i's id, source and preview |
| Rag.RagService.constructor | VIRU-main/server/src/services/rag.service.ts:26-41 | the store is the stored knowledge when it could be read, empty otherwise |
| Rag.RagService.AddDocument | VIRU-main/server/src/services/rag.service.ts:66-87 | the store gains the ingested chunks of the document after its previous content, is saved, and the count of chunks is returned |
| Rag.RagService.Remember | VIRU-main/server/src/services/rag.service.ts:73-84 | the loop appends the ingestion of the chunks to the store |
| Rag.RagService.ConstructContext | VIRU-main/server/src/services/rag.service.ts:89-112 | empty exactly when nothing is stored, the query has no embedding, the cut keeps nothing or no entry scores above 0.5; otherwise the citations of the selection, in order, joined by a blank line, starting with the best entry's |
| Rag.RagService.GetStats | VIRU-main/server/src/services/rag.service.ts:114-119 | the chunk count is the store's size and the document count is the number of distinct sources; so it is at most the chunk count, and positive when the store is not empty |
| Rag.RagService.GetGraphData | VIRU-main/server/src/services/rag.service.ts:121-128 | one node per chunk, in store order, with its id, source and preview |
| Projects.SafeName | VIRU-main/server/src/services/project.service.ts:11 | defines the folder-name sanitiser; stated by SafeNameCharset, SafeNameLength, SafeNamePositions and SafeNameIdempotent |
| Projects.SafeNameConcat | VIRU-main/server/src/services/project.service.ts:11 | sanitising works character by character: the name of a concatenation is the concatenation of the names |
| Projects.SafeNameOfChar | VIRU-main/server/src/services/project.service.ts:11 | a letter is kept lower-cased, a digit is kept, anything else becomes one `_` per UTF-16 code unit |
| Projects.SafeNameCharset | VIRU-main/server/src/services/project.service.ts:11 | the folder name holds only `a`-`z`, `0`-`9` and `_` |
| Projects.SafeNameLength | VIRU-main/server/src/services/project.service.ts:11 | the folder name is as long as the name's UTF-16 length |
| Projects.SafeNamePositions | VIRU-main/server/src/services/project.service.ts:11 | for a name inside the Basic Multilingual Plane, each position holds that character sanitised |
| Projects.SafeNameIdempotent | VIRU-main/server/src/services/project.service.ts:11 | sanitising a folder name changes nothing |
| Projects.SafeOnSafe | VIRU-main/server/src/services/project.service.ts:11 | a name made of safe characters is its own folder name |
| Projects.CreateProject | VIRU-main/server/src/services/project.service.ts:9-32 | the record keeps the name and user as given, and its path joins the workspace root, `..` and the sanitised name, a folder of safe characters as long as the name's UTF-16 length, whether or not creating the folder failed |
| Projects.SharedFolder | VIRU-main/server/src/services/project.service.ts:11-12 | names that differ only in letter case or in which unsafe characters they hold get the same path |

## Left out

- The HTTP layer, the server entry point and the console logging are left out; none of them change the core's results.
- Reading and writing files, running commands, calling the model server, the embedding endpoint and the database: these are I/O. Each is a parameter, or an object whose behaviour is given by a function.
- The 300-second abort timer of `generate` is left out; it is a clock. Its effect, an `AbortError`, is a `Fault` the transport may return.
- `data.response` is modelled as a string; an OK reply whose JSON lacks the field, or whose `systemPrompt` argument is not a string, is not modelled.
- Blocks.FirstBlockInPlace: only the first block is proved to be replaced at its own match. A later block's `replace` searches from the start of the working text. The model computes that search exactly, but it does not prove that the search never lands on an earlier copy of the block's text.
- Blocks.FirstLineInPlace: for the pass as written, only the first command line is proved to be replaced at its own match. Placement of every line is proved for Blocks.CommandPassInPlace, and Blocks.CrlfLineOverwritten shows an input where the pass as written differs from it.
- `$` patterns in the replacement strings of `String.prototype.replace` are not interpreted; the model substitutes the text literally.
- `toLowerCase` is modelled on ASCII letters only. Only U+0130 and U+212A lower to ASCII letters, and no routing keyword is affected by either.
- The `path.join(projectPath, cleanPath)` of the file pass is left out: its result is only logged.
- In `deployProject`, `path.join(WORKSPACE_ROOT, projectPath)`, the stdout and stderr listeners and the exit code are left out. A launch records the project path as given.
- Deployment.PortsFitInsert: distinct ports are proved only while no deployment has been removed. After a stop they need not be distinct; the finding below shows it.
- The close handler of a process that exits while a newer deployment of the same project is tracked is not modelled; the model runs it only right after the stop.
- Rag.RagService.constructor: `init()` is not awaited, so `addDocument` can run before the stored knowledge is loaded, and the load then overwrites what it added. The model runs the load to completion inside the constructor.
- Rag.RagService.AddDocument: a failing `saveDb` write makes the call reject after the store has already grown. The model's write always succeeds, so it always returns the count and the saved snapshot equals the store.
- `createdAt` timestamps of stored chunks are left out (a clock). `uuidv4` is the `IdSource` parameter, which is given the store position.
- The JSON parse of the knowledge file is left out: the constructor takes the parsed chunks, or none when reading or parsing fails. The file write of `saveDb` is the `persisted` snapshot.
- Text.Take: a Dafny `char` cannot hold half a surrogate pair. Where `substring(0, n)` cuts through a pair and keeps a lone high surrogate, the model drops that whole character. This affects Blocks.FileSuccess, Blocks.CmdOutput and Rag.Preview.
- Rag.SortByScore: the in-place `Array.prototype.sort` is modelled as a stable insertion sort on a sequence. It is specified by the permutation, order and stability lemmas; update in place and the comparison count are not captured.
- NaN scores are left out: a similarity that is not a number is modelled as no score, and `|| 0` makes it 0.
- `getUserProjects` and `getProject` are single database queries with nothing to compute, so they are left out. So are the fields the database adds to a project record.
- Autopilot.FilePromptRouting: the converse (DEVELOPER when neither the file nor the goal mentions an ARCHITECT keyword) is not proved.
- The autopilot's plan prompt text and the `generate` call that answers it form the `Planner` parameter; `JSON.parse` together with `plan.files` is the `PlanParser` parameter.

## Findings

| source | as written | input that shows it | evidently intended | confidence | as-written member | corrected member |
|---|---|---|---|---|---|---|
| server/src/services/deployment.service.ts:54-58 | the `close` handler dereferences `this.deployments.get(projectId)!` unconditionally | deploy project p, call `stopDeployment(p)`, then the killed process emits `close`: the entry is already gone and the handler throws a TypeError | the handler should mark and drop the entry only when it is still tracked | high, not executed | Deployment.DeploymentService.StopThenExit | Deployment.DeploymentService.StopThenExitGuarded |
| server/src/agents/agent.service.ts:91-111 | each command's fragment is placed with `finalResponse.replace(fullMatch, …)`, which replaces the first occurrence of the matched text, not the match itself | `>>> EXEC_CMD: git st\r\n>>> EXEC_CMD: git st`: `.` stops at `\r`, so only the second line matches (ending at `$`), but its fragment overwrites the first line and the matched line stays in the answer | each fragment replaces the line that matched | medium, not executed | Blocks.CrlfLineOverwritten | Blocks.SpliceInterleaves |
| server/src/services/deployment.service.ts:24 | a new deployment's port is 3000 + the table's size + 1 | deploy a and b, stop a, deploy c: c is given port 3002, which b is still serving | a port not held by any running deployment | medium, not executed | Deployment.PortReusedAfterStop | Deployment.DeploymentService.DeployProjectFreshPort |
