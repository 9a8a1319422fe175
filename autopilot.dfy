/**
  * `AutopilotService.startMission`: plan the files a goal needs, have the
  * agent write each one, check that something non-trivial was written, and
  * report every step as a message appended to the project's chat log. The
  * project table, the planning model, the JSON parser, the agent and file
  * reads are inputs; the run is one sequential pass.
  */
module Autopilot {
  import opened Text
  import opened Prompts
  import opened Router

  /** The steps of a mission, as the messages the log records. */
  datatype Event =
    | Engaged(goal: string)
    | Planning
    | PlanFailed
    | Approved(files: seq<string>)
    | Implementing(file: string)
    | Verifying(file: string)
    | CorrectionNeeded
    | Verified(file: string)
    | Complete
    | CriticalFailure(message: string)
  {
    /** The events after which the mission logs nothing more. */
    predicate Final() {
      PlanFailed? || Complete? || CriticalFailure?
    }
  }

  /** The plan's file list as the approval message lists it. */
  function Bullets(files: seq<string>): (r: seq<string>)
    ensures |r| == |files|
  {
    seq(|files|, i requires 0 <= i < |files| => "- `" + files[i] + "`")
  }

  /** The content of the message an event is logged as. */
  function Describe(e: Event): string {
    match e
    case Engaged(goal) => "\U{1F680} **Autopilot Engaged**\nMission: " + goal
    case Planning => "\U{1F9E0} **Planning**: Analyzing architecture..."
    case PlanFailed => "\U{274C} **Plan Failed**: Could not parse AI plan."
    case Approved(files) => "\U{1F4CB} **Plan Approved**: \n" + Join(Bullets(files), "\n")
    case Implementing(file) => "\U{1F528} **Implementing**: `" + file + "`..."
    case Verifying(file) => "\U{1F9D0} **Verifying**: `" + file + "`..."
    case CorrectionNeeded => "\U{26A0}\U{FE0F} **Correction Needed**: File seems empty. Retrying..."
    case Verified(file) => "\U{2705} **Verified**: `" + file + "` looks good."
    case Complete => "\U{1F389} **Mission Complete**: All tasks finished."
    case CriticalFailure(message) => "\U{1F4A5} **CRITICAL FAILURE**: " + message
  }

  /** The message the thrown error carries when the project id is unknown. */
  const ProjectNotFound: string := "Project not found"

  /** A row of the message table. */
  datatype Message = Message(role: string, content: string, userId: string, projectId: string, agent: string)

  /** How an event becomes the content of its message: `Describe` in the service. */
  type Renderer = Event -> string

  /** What `log` writes for an event. */
  function Record(projectId: string, userId: string, render: Renderer, e: Event): Message {
    Message("ai", render(e), userId, projectId, "AUTOPILOT")
  }

  function Stamp(projectId: string, userId: string, render: Renderer, events: seq<Event>): (r: seq<Message>)
    ensures |r| == |events|
  {
    seq(|events|, i requires 0 <= i < |events| => Record(projectId, userId, render, events[i]))
  }

  /** The message table, which the mission only ever appends to. */
  class MessageStore {
    var messages: seq<Message>

    constructor ()
      ensures messages == []
    {
      messages := [];
    }

    /** `log(projectId, userId, content)`: one new message from the autopilot. */
    method Log(projectId: string, userId: string, content: string)
      modifies this
      ensures messages == old(messages) + [Message("ai", content, userId, projectId, "AUTOPILOT")]
    {
      messages := messages + [Message("ai", content, userId, projectId, "AUTOPILOT")];
    }
  }

  /** The model's answer to the planning prompt, given the goal and the project path. */
  type Planner = (string, string) -> string
  /** `JSON.parse` followed by reading `plan.files`: the file list, or the message of the error thrown. */
  type PlanParser = string -> Result<seq<string>>
  /** `agentService.process(prompt, projectPath)` seen through its effect on the files. */
  type AgentCall = (string, string, map<string, string>) -> map<string, string>
  /** The agent's turn on one planned file: the files before it, the files after it. */
  type Turn = (string, map<string, string>) -> map<string, string>
  /** `fsService.readFile(file)` on the current files: the content, or the message of the error thrown. */
  type Reader = (map<string, string>, string) -> Result<string>

  // ------------------------------------------------------------------
  // The greedy JSON span `/\{[\s\S]*\}/`
  // ------------------------------------------------------------------

  /** The first index at or after `from` holding `c`. */
  function FirstIndex(s: string, c: char, from: nat): (r: Option<nat>)
    ensures r.Some? ==> from <= r.value < |s| && s[r.value] == c
    ensures forall k :: from <= k < |s| && (r.None? || k < r.value) ==> s[k] != c
    decreases |s| - from
  {
    if from >= |s| then None
    else if s[from] == c then Some(from)
    else FirstIndex(s, c, from + 1)
  }

  /** The last index below `to` holding `c`. */
  function LastIndex(s: string, c: char, to: nat): (r: Option<nat>)
    requires to <= |s|
    ensures r.Some? ==> r.value < to && s[r.value] == c
    ensures forall k :: 0 <= k < to && (r.None? || r.value < k) ==> s[k] != c
  {
    if to == 0 then None
    else if s[to - 1] == c then Some(to - 1)
    else LastIndex(s, c, to - 1)
  }

  /** `planResponse.match(/\{[\s\S]*\}/)?.[0]`: from the first `{` to the last `}` after it. */
  function JsonSpan(s: string): Option<string> {
    match FirstIndex(s, '{', 0)
    case None => None
    case Some(i) =>
      match LastIndex(s, '}', |s|)
      case None => None
      case Some(j) => if i < j then Some(s[i..j + 1]) else None
  }

  /** The span exists exactly when some `{` comes before some `}`. */
  lemma JsonSpanExists(s: string)
    ensures JsonSpan(s).Some? <==> exists i, j :: 0 <= i < j < |s| && s[i] == '{' && s[j] == '}'
  {
    if i, j :| 0 <= i < j < |s| && s[i] == '{' && s[j] == '}' {
      var first := FirstIndex(s, '{', 0);
      var last := LastIndex(s, '}', |s|);
      assert first.Some? && first.value <= i;
      assert last.Some? && j <= last.value;
    }
  }

  /**
    * The span is greedy: it runs from the first `{` of the text to its last
    * `}`, taking in every other brace between them.
    */
  lemma JsonSpanGreedy(s: string)
    requires JsonSpan(s).Some?
    ensures exists i, j ::
              0 <= i < j < |s| && JsonSpan(s).value == s[i..j + 1] && s[i] == '{' && s[j] == '}'
              && (forall k :: 0 <= k < i ==> s[k] != '{') && (forall k :: j < k < |s| ==> s[k] != '}')
  {
    var i := FirstIndex(s, '{', 0).value;
    var j := LastIndex(s, '}', |s|).value;
    assert JsonSpan(s).value == s[i..j + 1];
  }

  // ------------------------------------------------------------------
  // The mission as a function of its inputs
  // ------------------------------------------------------------------

  /** The indentation the prompt's template literal carries. */
  const Indent: string := "                    "

  const PromptIntro: string := "\n" + Indent + "Implementation Goal: "
  const Verb: string := "Create/Update "
  const Satisfy: string := " to satisfy: \""
  const PromptTail: string :=
    "\".\n" + Indent + "Context: This is part of a larger feature.\n"
    + Indent + "Ensure the code is complete and production ready.\n" + "                "

  /** The prompt the agent gets for one file of the plan. */
  function FilePrompt(file: string, goal: string): string {
    PromptIntro + Verb + file + Satisfy + goal + PromptTail
  }

  /** `agentService.process` on the prompt for a file of the plan, in the project's directory. */
  function AgentTurn(agent: AgentCall, goal: string, path: string): Turn {
    (file, files) => agent(FilePrompt(file, goal), path, files)
  }

  /** The check made on a file after the agent's turn: content under ten UTF-16 code units needs correcting. */
  function Verdict(file: string, content: string): Event {
    if Utf16Length(content) < 10 then CorrectionNeeded else Verified(file)
  }

  /** The events of a stretch of the loop, the files after it, and the message of the error that stopped it. */
  datatype Steps = Steps(events: seq<Event>, files: map<string, string>, failure: Option<string>)

  /** Prefix a stretch of the loop with the events of the iterations before it. */
  function After(done: seq<Event>, st: Steps): Steps {
    Steps(done + st.events, st.files, st.failure)
  }

  /**
    * The `for` loop over the planned files: announce, let the agent write,
    * announce the check, read the file by its planned name (not joined with
    * the project path), and give the verdict; a failed read stops the loop.
    */
  function Implement(list: seq<string>, turn: Turn, read: Reader,
                     files: map<string, string>): Steps
    decreases |list|
  {
    if |list| == 0 then Steps([], files, None)
    else
      var file := list[0];
      var written := turn(file, files);
      match read(written, file)
      case Err(message) => Steps([Implementing(file), Verifying(file)], written, Some(message))
      case Ok(content) =>
        After([Implementing(file), Verifying(file), Verdict(file, content)],
              Implement(list[1..], turn, read, written))
  }

  /** The whole run: its events, and the files as the agent left them. */
  datatype Run = Run(events: seq<Event>, files: map<string, string>)

  /** The event that closes a loop that stopped with `failure`, or ran to the end. */
  function Closing(failure: Option<string>): Event {
    match failure
    case None => Complete
    case Some(message) => CriticalFailure(message)
  }

  function Mission(projectId: string, goal: string, projects: map<string, string>, planner: Planner,
                   parse: PlanParser, agent: AgentCall, read: Reader, files: map<string, string>): Run
  {
    if projectId !in projects then Run([Engaged(goal), CriticalFailure(ProjectNotFound)], files)
    else
      var path := projects[projectId];
      match JsonSpan(planner(goal, path))
      case None => Run([Engaged(goal), Planning, PlanFailed], files)
      case Some(json) =>
        match parse(json)
        case Err(message) => Run([Engaged(goal), Planning, CriticalFailure(message)], files)
        case Ok(list) =>
          var st := Implement(list, AgentTurn(agent, goal, path), read, files);
          Run([Engaged(goal), Planning, Approved(list)] + st.events + [Closing(st.failure)], st.files)
  }

  // ------------------------------------------------------------------
  // The service method
  // ------------------------------------------------------------------

  lemma StampSnoc(projectId: string, userId: string, render: Renderer, events: seq<Event>, e: Event)
    ensures Stamp(projectId, userId, render, events + [e])
         == Stamp(projectId, userId, render, events) + [Record(projectId, userId, render, e)]
  {
    var l := Stamp(projectId, userId, render, events + [e]);
    var r := Stamp(projectId, userId, render, events) + [Record(projectId, userId, render, e)];
    forall i | 0 <= i < |l|
      ensures l[i] == r[i]
    {
      if i < |events| {
        assert (events + [e])[i] == events[i];
      }
    }
  }

  /** `log` for one event, with the log's contents accounted as the stamp of the events so far. */
  method LogEvent(store: MessageStore, projectId: string, userId: string, render: Renderer,
                  ghost base: seq<Message>, ghost events: seq<Event>, e: Event)
    requires store.messages == base + Stamp(projectId, userId, render, events)
    modifies store
    ensures store.messages == base + Stamp(projectId, userId, render, events + [e])
  {
    store.Log(projectId, userId, render(e));
    StampSnoc(projectId, userId, render, events, e);
    ConcatAssoc(base, Stamp(projectId, userId, render, events), [Record(projectId, userId, render, e)]);
  }

  /** The error a failed read stops the loop with. */
  function FailureOf(content: Result<string>): Option<string> {
    if content.Err? then Some(content.message) else None
  }

  /** What the loop still has to do on the files `rest`, unless an error already stopped it. */
  function Remaining(rest: seq<string>, turn: Turn, read: Reader, files: map<string, string>,
                     failure: Option<string>): Steps
  {
    if failure.None? then Implement(rest, turn, read, files) else Steps([], files, failure)
  }

  /** One turn of the loop, on the plan from its `i`-th file. */
  lemma ImplementFrom(list: seq<string>, i: nat, turn: Turn, read: Reader, files: map<string, string>)
    requires i < |list|
    ensures var written := turn(list[i], files);
      var content := read(written, list[i]);
      Implement(list[i..], turn, read, files)
        == After(FileEvents(list[i], content), Remaining(list[i + 1..], turn, read, written, FailureOf(content)))
  {
    assert list[i..][0] == list[i] && list[i..][1..] == list[i + 1..];
  }

  /** The loop's account of what is done and what remains, carried over one turn. */
  lemma LoopStep(list: seq<string>, i: nat, turn: Turn, read: Reader, files: map<string, string>,
                 written: map<string, string>, content: Result<string>, done: seq<Event>)
    requires i < |list| && written == turn(list[i], files) && content == read(written, list[i])
    ensures After(done, Remaining(list[i..], turn, read, files, None))
         == After(done + FileEvents(list[i], content), Remaining(list[i + 1..], turn, read, written, FailureOf(content)))
  {
    ImplementFrom(list, i, turn, read, files);
    AfterAfter(done, FileEvents(list[i], content), Remaining(list[i + 1..], turn, read, written, FailureOf(content)));
  }

  lemma AfterAfter(done: seq<Event>, step: seq<Event>, st: Steps)
    ensures After(done, After(step, st)) == After(done + step, st)
  {
    ConcatAssoc(done, step, st.events);
  }

  /**
    * The `for` loop of `startMission`: the messages it appends are the
    * events `Implement` gives, and it ends with the files and the error
    * `Implement` gives.
    */
  method ImplementPlan(store: MessageStore, projectId: string, userId: string, render: Renderer,
                       ghost base: seq<Message>, ghost head: seq<Event>, list: seq<string>, turn: Turn, read: Reader,
                       files0: map<string, string>)
    returns (files: map<string, string>, failure: Option<string>)
    requires store.messages == base + Stamp(projectId, userId, render, head)
    modifies store
    ensures var st := Implement(list, turn, read, files0);
      store.messages == base + Stamp(projectId, userId, render, head + st.events) && files == st.files && failure == st.failure
  {
    ghost var done: seq<Event> := [];
    files := files0;
    failure := None;
    var i := 0;
    while i < |list| && failure.None?
      invariant 0 <= i <= |list|
      invariant store.messages == base + Stamp(projectId, userId, render, head + done)
      invariant Implement(list, turn, read, files0) == After(done, Remaining(list[i..], turn, read, files, failure))
      decreases |list| - i
    {
      var file := list[i];
      ghost var before := files;
      var content;
      files, content := HandleFile(store, projectId, userId, render, base, head + done, file, turn, read, files);
      failure := FailureOf(content);
      LoopStep(list, i, turn, read, before, files, content, done);
      ConcatAssoc(head, done, FileEvents(file, content));
      done := done + FileEvents(file, content);
      i := i + 1;
    }
    if failure.None? {
      assert list[i..] == [];
    }
  }

  /** The events one planned file produces, given what reading it back gave. */
  function FileEvents(file: string, content: Result<string>): seq<Event> {
    if content.Ok? then [Implementing(file), Verifying(file), Verdict(file, content.value)]
    else [Implementing(file), Verifying(file)]
  }

  /** One turn of the loop: announce, let the agent write, announce the check, read back, give the verdict. */
  method HandleFile(store: MessageStore, projectId: string, userId: string, render: Renderer,
                    ghost base: seq<Message>, ghost prefix: seq<Event>, file: string, turn: Turn, read: Reader,
                    files: map<string, string>)
    returns (written: map<string, string>, content: Result<string>)
    requires store.messages == base + Stamp(projectId, userId, render, prefix)
    modifies store
    ensures written == turn(file, files) && content == read(written, file)
    ensures store.messages == base + Stamp(projectId, userId, render, prefix + FileEvents(file, content))
  {
    LogEvent(store, projectId, userId, render, base, prefix, Implementing(file));
    written := turn(file, files);
    LogEvent(store, projectId, userId, render, base, prefix + [Implementing(file)], Verifying(file));
    content := read(written, file);
    if content.Err? {
      Append2(prefix, Implementing(file), Verifying(file));
    } else {
      var verdict := Verdict(file, content.value);
      LogEvent(store, projectId, userId, render, base, prefix + [Implementing(file)] + [Verifying(file)], verdict);
      Append3(prefix, Implementing(file), Verifying(file), verdict);
    }
  }

  lemma Append2<T>(a: seq<T>, x: T, y: T)
    ensures a + [x] + [y] == a + [x, y]
  {
  }

  lemma Append3<T>(a: seq<T>, x: T, y: T, z: T)
    ensures a + [x] + [y] + [z] == a + [x, y, z]
  {
  }

  /** The steps of `startMission`, with the rendering of events as a parameter. */
  method Conduct(store: MessageStore, projectId: string, userId: string, render: Renderer, goal: string,
                 projects: map<string, string>, planner: Planner, parse: PlanParser,
                 agent: AgentCall, read: Reader, files0: map<string, string>)
    returns (files: map<string, string>)
    modifies store
    ensures var run := Mission(projectId, goal, projects, planner, parse, agent, read, files0);
      store.messages == old(store.messages) + Stamp(projectId, userId, render, run.events) && files == run.files
  {
    ghost var base := store.messages;
    assert store.messages == base + Stamp(projectId, userId, render, []);
    files := files0;
    LogEvent(store, projectId, userId, render, base, [], Engaged(goal));
    if projectId !in projects {
      LogEvent(store, projectId, userId, render, base, [Engaged(goal)], CriticalFailure(ProjectNotFound));
      return;
    }
    var path := projects[projectId];
    LogEvent(store, projectId, userId, render, base, [Engaged(goal)], Planning);
    var planResponse := planner(goal, path);
    var jsonMatch := JsonSpan(planResponse);
    if jsonMatch.None? {
      LogEvent(store, projectId, userId, render, base, [Engaged(goal), Planning], PlanFailed);
      return;
    }
    var plan := parse(jsonMatch.value);
    if plan.Err? {
      LogEvent(store, projectId, userId, render, base, [Engaged(goal), Planning], CriticalFailure(plan.message));
      return;
    }
    var list := plan.value;
    ghost var head := [Engaged(goal), Planning, Approved(list)];
    LogEvent(store, projectId, userId, render, base, [Engaged(goal), Planning], Approved(list));
    var failure;
    files, failure := ImplementPlan(store, projectId, userId, render, base, head, list, AgentTurn(agent, goal, path), read, files0);
    ghost var st := Implement(list, AgentTurn(agent, goal, path), read, files0);
    LogEvent(store, projectId, userId, render, base, head + st.events, Closing(failure));
  }

  /** `startMission`: the messages it appends are those of `Mission`, and the files end as `Mission` says. */
  method StartMission(store: MessageStore, projectId: string, userId: string, goal: string,
                      projects: map<string, string>, planner: Planner, parse: PlanParser,
                      agent: AgentCall, read: Reader, files0: map<string, string>)
    returns (files: map<string, string>)
    modifies store
    ensures var run := Mission(projectId, goal, projects, planner, parse, agent, read, files0);
      store.messages == old(store.messages) + Stamp(projectId, userId, Describe, run.events) && files == run.files
  {
    files := Conduct(store, projectId, userId, Describe, goal, projects, planner, parse, agent, read, files0);
  }

  // ------------------------------------------------------------------
  // Properties of the event sequence
  // ------------------------------------------------------------------

  /**
    * Every run opens with the engagement event for its goal, before the
    * project is looked up, and ends with an event after which nothing more
    * is logged; nothing before the last event is final.
    */
  lemma MissionFrame(projectId: string, goal: string, projects: map<string, string>, planner: Planner,
                     parse: PlanParser, agent: AgentCall, read: Reader, files: map<string, string>)
    ensures var ev := Mission(projectId, goal, projects, planner, parse, agent, read, files).events;
      |ev| >= 2 && ev[0] == Engaged(goal) && ev[|ev| - 1].Final()
      && forall k :: 0 <= k < |ev| - 1 ==> !ev[k].Final()
  {
    if projectId in projects {
      var path := projects[projectId];
      var json := JsonSpan(planner(goal, path));
      if json.Some? && parse(json.value).Ok? {
        var list := parse(json.value).value;
        var st := Implement(list, AgentTurn(agent, goal, path), read, files);
        ImplementNotFinal(list, AgentTurn(agent, goal, path), read, files);
        var ev := [Engaged(goal), Planning, Approved(list)] + st.events + [Closing(st.failure)];
        forall k | 3 <= k < |ev| - 1
          ensures !ev[k].Final()
        {
          assert ev[k] == st.events[k - 3];
          assert !st.events[k - 3].Final();
        }
      }
    }
  }

  predicate NoneFinal(ev: seq<Event>) {
    forall k :: 0 <= k < |ev| ==> !ev[k].Final()
  }

  /** No event of the loop is final: the loop's own events never end the log. */
  lemma {:induction false} ImplementNotFinal(list: seq<string>, turn: Turn,
                                             read: Reader, files: map<string, string>)
    ensures NoneFinal(Implement(list, turn, read, files).events)
    decreases |list|
  {
    if |list| > 0 {
      var written := turn(list[0], files);
      if read(written, list[0]).Ok? {
        var ev := Implement(list, turn, read, files).events;
        var rest := Implement(list[1..], turn, read, written).events;
        ImplementNotFinal(list[1..], turn, read, written);
        forall k | 3 <= k < |ev|
          ensures !ev[k].Final()
        {
          assert ev[k] == rest[k - 3];
          assert !rest[k - 3].Final();
        }
      }
    }
  }

  /** Exactly two events, start and the not-found failure, when the project is unknown; the agent is never called. */
  lemma UnknownProject(projectId: string, goal: string, projects: map<string, string>, planner: Planner,
                       parse: PlanParser, agent: AgentCall, read: Reader, files: map<string, string>)
    ensures var run := Mission(projectId, goal, projects, planner, parse, agent, read, files);
      (|run.events| == 2 <==> projectId !in projects)
      && (projectId !in projects ==> run.events == [Engaged(goal), CriticalFailure(ProjectNotFound)] && run.files == files)
  {
  }

  /** A plan answer without a `{…}` span ends the mission after three events, with no agent call and no completion. */
  lemma PlanWithoutJson(projectId: string, goal: string, projects: map<string, string>, planner: Planner,
                        parse: PlanParser, agent: AgentCall, read: Reader, files: map<string, string>)
    requires projectId in projects && JsonSpan(planner(goal, projects[projectId])).None?
    ensures Mission(projectId, goal, projects, planner, parse, agent, read, files)
      == Run([Engaged(goal), Planning, PlanFailed], files)
  {
  }

  /** A span that does not parse to a file list ends the mission with the parser's error, before any file is handled. */
  lemma PlanRejected(projectId: string, goal: string, projects: map<string, string>, planner: Planner,
                     parse: PlanParser, agent: AgentCall, read: Reader, files: map<string, string>)
    requires projectId in projects && JsonSpan(planner(goal, projects[projectId])).Some?
    requires parse(JsonSpan(planner(goal, projects[projectId])).value).Err?
    ensures var run := Mission(projectId, goal, projects, planner, parse, agent, read, files);
      run.files == files
      && run.events == [Engaged(goal), Planning,
                        CriticalFailure(parse(JsonSpan(planner(goal, projects[projectId])).value).message)]
  {
  }

  /** The files after the agent has handled the first `k` planned files. */
  function Developed(list: seq<string>, turn: Turn,
                     files: map<string, string>, k: nat): map<string, string>
    requires k <= |list|
  {
    if k == 0 then files else turn(list[k - 1], Developed(list, turn, files, k - 1))
  }

  lemma {:induction false} DevelopedShift(list: seq<string>, turn: Turn,
                                          files: map<string, string>, k: nat)
    requires 0 < |list| && k < |list|
    ensures Developed(list[1..], turn, turn(list[0], files), k)
      == Developed(list, turn, files, k + 1)
  {
    if k > 0 {
      DevelopedShift(list, turn, files, k - 1);
      assert list[1..][k - 1] == list[k];
    }
  }

  /**
    * A loop that meets no failed read handles every file, three events
    * each, and leaves the files as the agent's turns on the whole plan left
    * them; a failed read stops it after `n` files and two events of the
    * next, with the files as the agent left them after that file, and the
    * error is the one that file's read gave.
    */
  lemma {:induction false} ImplementLength(list: seq<string>, turn: Turn,
                                           read: Reader, files: map<string, string>)
    ensures var st := Implement(list, turn, read, files);
      st.failure.None? ==> |st.events| == 3 * |list| && st.files == Developed(list, turn, files, |list|)
    ensures var st := Implement(list, turn, read, files);
      var n := |st.events| / 3;
      st.failure.Some? ==>
        |st.events| == 3 * n + 2 && n < |list| && st.files == Developed(list, turn, files, n + 1)
        && read(st.files, list[n]) == Err(st.failure.value)
    decreases |list|
  {
    if |list| > 0 {
      var written := turn(list[0], files);
      assert Developed(list, turn, files, 1) == written;
      if read(written, list[0]).Ok? {
        var rest := Implement(list[1..], turn, read, written);
        ImplementLength(list[1..], turn, read, written);
        if rest.failure.None? {
          DevelopedShift(list, turn, files, |list| - 1);
        } else {
          var m := |rest.events| / 3;
          assert |rest.events| + 3 == 3 * (m + 1) + 2;
          DevelopedShift(list, turn, files, m + 1);
          assert list[1..][m] == list[m + 1];
        }
      }
    }
  }

  /** The loop handles the files strictly in plan order, announcing and then checking each one; no file is sent twice. */
  lemma {:induction false} ImplementOrder(list: seq<string>, turn: Turn,
                                          read: Reader, files: map<string, string>)
    ensures var ev := Implement(list, turn, read, files).events;
      forall k :: 0 <= k < |list| && 3 * k + 1 < |ev| ==>
        ev[3 * k] == Implementing(list[k]) && ev[3 * k + 1] == Verifying(list[k])
    decreases |list|
  {
    if |list| > 0 {
      var written := turn(list[0], files);
      if read(written, list[0]).Ok? {
        var ev := Implement(list, turn, read, files).events;
        var rest := Implement(list[1..], turn, read, written).events;
        ImplementOrder(list[1..], turn, read, written);
        forall k | 1 <= k < |list| && 3 * k + 1 < |ev|
          ensures ev[3 * k] == Implementing(list[k]) && ev[3 * k + 1] == Verifying(list[k])
        {
          var j := k - 1;
          assert 3 * k == 3 * j + 3;
          assert ev[3 * k] == rest[3 * j] && ev[3 * k + 1] == rest[3 * j + 1];
          assert list[1..][j] == list[k];
        }
      }
    }
  }

  /**
    * Each handled file gets exactly one verdict, third of its events:
    * Correction Needed when the content read after the agent's turn is
    * under ten characters, Verified otherwise.
    */
  lemma {:induction false} ImplementVerdicts(list: seq<string>, turn: Turn,
                                             read: Reader, files: map<string, string>)
    ensures var ev := Implement(list, turn, read, files).events;
      forall k :: 0 <= k < |list| && 3 * k + 2 < |ev| ==>
        var content := read(Developed(list, turn, files, k + 1), list[k]);
        content.Ok? && ev[3 * k + 2] == Verdict(list[k], content.value)
    decreases |list|
  {
    if |list| > 0 {
      var written := turn(list[0], files);
      assert Developed(list, turn, files, 1) == written;
      if read(written, list[0]).Ok? {
        var ev := Implement(list, turn, read, files).events;
        var rest := Implement(list[1..], turn, read, written).events;
        ImplementVerdicts(list[1..], turn, read, written);
        forall k | 1 <= k < |list| && 3 * k + 2 < |ev|
          ensures var content := read(Developed(list, turn, files, k + 1), list[k]);
            content.Ok? && ev[3 * k + 2] == Verdict(list[k], content.value)
        {
          var j := k - 1;
          assert 3 * k == 3 * j + 3;
          assert ev[3 * k + 2] == rest[3 * j + 2];
          assert list[1..][j] == list[k];
          DevelopedShift(list, turn, files, k);
        }
      }
    }
  }

  /**
    * A plan of `n` files whose reads all succeed gives exactly `3n + 4`
    * events, the last of which is Mission Complete; a read that fails makes
    * the run end with a CRITICAL FAILURE carrying its error, and completion
    * is reported only when no read failed.
    */
  lemma MissionOutcome(projectId: string, goal: string, projects: map<string, string>, planner: Planner,
                       parse: PlanParser, agent: AgentCall, read: Reader, files: map<string, string>)
    requires projectId in projects && JsonSpan(planner(goal, projects[projectId])).Some?
    requires parse(JsonSpan(planner(goal, projects[projectId])).value).Ok?
    ensures var path := projects[projectId];
      var list := parse(JsonSpan(planner(goal, path)).value).value;
      var st := Implement(list, AgentTurn(agent, goal, path), read, files);
      var ev := Mission(projectId, goal, projects, planner, parse, agent, read, files).events;
      (st.failure.None? ==> |ev| == 3 * |list| + 4 && ev[|ev| - 1] == Complete)
      && (st.failure.Some? ==> ev[|ev| - 1] == CriticalFailure(st.failure.value) && |ev| < 3 * |list| + 4)
      && (ev[|ev| - 1] == Complete <==> st.failure.None?)
  {
    var path := projects[projectId];
    var list := parse(JsonSpan(planner(goal, path)).value).value;
    ImplementLength(list, AgentTurn(agent, goal, path), read, files);
  }

  /**
    * The agent sees every file prompt through the router: it goes to the
    * ARCHITECT or the DEVELOPER and to no other persona, and it goes to the
    * ARCHITECT, which writes no file, whenever the planned file name or the
    * goal mentions one of the ARCHITECT's keywords.
    */
  lemma FilePromptRouting(file: string, goal: string)
    ensures Classify(FilePrompt(file, goal)) in {Architect, Developer}
    ensures Mentions(file, Architect) || Mentions(goal, Architect) ==> Classify(FilePrompt(file, goal)) == Architect
  {
    var r := Rank(Classify(FilePrompt(file, goal)));
    assert r <= Rank(Classify(Verb)) && r <= Rank(Classify(file)) && r <= Rank(Classify(goal)) by {
      ClassifyOfParts(PromptIntro, Verb, file, Satisfy, goal, PromptTail);
    }
    assert Rank(Classify(Verb)) <= 1 by {
      VerbIsDeveloper();
    }
    if Mentions(file, Architect) {
      ClassifyIsFirstMentioned(file);
    }
    if Mentions(goal, Architect) {
      ClassifyIsFirstMentioned(goal);
    }
  }

  /** A text made of six pieces ranks no lower than its second, third or fifth piece. */
  lemma ClassifyOfParts(a: string, b: string, c: string, d: string, e: string, f: string)
    ensures var r := Rank(Classify(a + b + c + d + e + f));
      r <= Rank(Classify(b)) && r <= Rank(Classify(c)) && r <= Rank(Classify(e))
  {
    ClassifyMonotone(a, b);
    ClassifyMonotone(a + b, c);
    ClassifyMonotone(a + b + c, d);
    ClassifyMonotone(a + b + c + d, e);
    ClassifyMonotone(a + b + c + d + e, f);
  }

  /** "Create/Update" holds the DEVELOPER keyword "create". */
  lemma VerbIsDeveloper()
    ensures Classify(Verb) == Developer || Classify(Verb) == Architect
  {
    var lower := ToLower(Verb);
    assert lower == "create/update ";
    assert OccursAt(lower, "create", 0);
    ContainsAt(lower, "create", 0);
    assert MentionsAny(lower, DeveloperWords);
  }
}
