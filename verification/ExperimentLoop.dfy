/** The message loop between the server and an experiment script, and its bounded stderr. */
module ExperimentLoop {
  import opened Basics

  const MAX_ARTIFACTS: nat := 64

  datatype Message =
    | CallMessage(id: string, tool: string, decodes: bool)
    | ArtifactMessage(id: string, decodes: bool, metaOk: bool, payload: Option<nat>)   // decoded size, or bad base64
    | CompleteMessage(decodes: bool)
    | Unknown

  /** How the world answers while one message is handled. */
  datatype World = World(toolOk: bool, contextDone: bool, stored: bool, replyWritten: bool)

  datatype Event =
    | Line(message: Message, world: World)
    | EndOfOutput
    | LineTooLong
    | Exited
    | ContextEnded

  datatype Code =
    | ProtocolViolation | TooManyMessages | DuplicateId | TooManySteps | TooManyArtifacts
    | ArtifactTooLarge | StoreError | OutputLineTooLong | PythonExited | ContextOver

  datatype Status = Running | Completed | Failed(code: Code)

  /** maxId bounds message ids, maxOutput artifact payloads. */
  datatype Config = Config(maxSteps: nat, maxOutput: nat, maxId: nat)

  datatype State = State(
    status: Status, messages: nat, seen: set<string>, steps: seq<string>, artifacts: seq<string>, replies: seq<string>)

  const Init := State(Running, 0, {}, [], [], [])

  function MaxMessages(config: Config): nat {
    config.maxSteps + MAX_ARTIFACTS + 2
  }

  function Fatal(s: State, code: Code): State {
    s.(status := Failed(code))
  }

  predicate ValidId(id: string, config: Config) {
    id != "" && |id| <= config.maxId
  }

  /** The last part of a handled request: the reply, unless the script is gone. */
  function Reply(s: State, id: string, written: bool): State {
    if written then s.(replies := s.replies + [id]) else Fatal(s, PythonExited)
  }

  function OnCall(s: State, id: string, tool: string, decodes: bool, world: World, config: Config): State {
    if !decodes || !ValidId(id, config) || tool == "" then Fatal(s, ProtocolViolation)
    else if id in s.seen then Fatal(s, DuplicateId)
    else
      var marked := s.(seen := s.seen + {id});
      if |s.steps| >= config.maxSteps then Fatal(marked, TooManySteps)
      else
        var stepped := marked.(steps := s.steps + [id]);
        if !world.toolOk && world.contextDone then Fatal(stepped, ContextOver)
        else Reply(stepped, id, world.replyWritten)
  }

  function OnArtifact(
    s: State, id: string, decodes: bool, metaOk: bool, payload: Option<nat>, world: World, config: Config): State {
    if !decodes || !ValidId(id, config) || !metaOk then Fatal(s, ProtocolViolation)
    else if id in s.seen then Fatal(s, DuplicateId)
    else
      var marked := s.(seen := s.seen + {id});
      if |s.artifacts| >= MAX_ARTIFACTS then Fatal(marked, TooManyArtifacts)
      else if payload.None? then Fatal(marked, ProtocolViolation)
      else if payload.value > config.maxOutput then Fatal(marked, ArtifactTooLarge)
      else if !world.stored then Fatal(marked, StoreError)
      else Reply(marked.(artifacts := s.artifacts + [id]), id, world.replyWritten)
  }

  function OnMessage(s: State, message: Message, world: World, config: Config): State {
    if message.Unknown? then Fatal(s, ProtocolViolation)
    else
      var counted := s.(messages := s.messages + 1);
      if counted.messages > MaxMessages(config) then Fatal(counted, TooManyMessages)
      else
        match message
        case CallMessage(id, tool, decodes) => OnCall(counted, id, tool, decodes, world, config)
        case ArtifactMessage(id, decodes, metaOk, payload) => OnArtifact(counted, id, decodes, metaOk, payload, world, config)
        case CompleteMessage(decodes) => if decodes then counted.(status := Completed) else Fatal(counted, ProtocolViolation)
  }

  function Next(s: State, event: Event, config: Config): State {
    if !s.status.Running? then s
    else
      match event
      case Line(message, world) => OnMessage(s, message, world, config)
      case EndOfOutput => Fatal(s, PythonExited)
      case LineTooLong => Fatal(s, OutputLineTooLong)
      case Exited => Fatal(s, PythonExited)
      case ContextEnded => Fatal(s, ContextOver)
  }

  function Run(events: seq<Event>, config: Config): State {
    if events == [] then Init else Next(Run(events[..|events| - 1], config), events[|events| - 1], config)
  }

  // ----------------------------------------------------------------------- invariant

  ghost predicate Distinct(ids: seq<string>) {
    forall i, j :: 0 <= i < j < |ids| ==> ids[i] != ids[j]
  }

  /** Each request has been answered: one message, one new id, one step or artifact, one reply. */
  ghost predicate AtLoopHead(s: State, config: Config) {
    && s.messages == |s.seen| == |s.steps| + |s.artifacts| == |s.replies|
    && (forall id :: id in s.seen <==> id in s.replies)
    && Distinct(s.replies)
    && (forall id :: id in s.steps || id in s.artifacts ==> id in s.seen)
    && Distinct(s.steps) && Distinct(s.artifacts)
    && |s.steps| <= config.maxSteps && |s.artifacts| <= MAX_ARTIFACTS
  }

  /** What also holds once the run has ended. */
  ghost predicate Bounded(s: State, config: Config) {
    && s.messages <= config.maxSteps + MAX_ARTIFACTS + 1
    && Distinct(s.steps) && Distinct(s.artifacts) && Distinct(s.replies)
    && |s.steps| <= config.maxSteps && |s.artifacts| <= MAX_ARTIFACTS
    && s.status != Failed(TooManyMessages)
  }

  lemma {:induction false} OnCallKeeps(s: State, id: string, tool: string, decodes: bool, world: World, config: Config)
    requires s.status.Running? && AtLoopHead(s, config)
    ensures var t := OnCall(s.(messages := s.messages + 1), id, tool, decodes, world, config);
            Bounded(t, config) && (t.status.Running? ==> AtLoopHead(t, config))
  {
  }

  lemma {:induction false} OnArtifactKeeps(
    s: State, id: string, decodes: bool, metaOk: bool, payload: Option<nat>, world: World, config: Config)
    requires s.status.Running? && AtLoopHead(s, config)
    ensures var t := OnArtifact(s.(messages := s.messages + 1), id, decodes, metaOk, payload, world, config);
            Bounded(t, config) && (t.status.Running? ==> AtLoopHead(t, config))
  {
  }

  lemma {:induction false} OnMessageKeeps(s: State, message: Message, world: World, config: Config)
    requires s.status.Running? && AtLoopHead(s, config)
    ensures var t := OnMessage(s, message, world, config);
            Bounded(t, config) && (t.status.Running? ==> AtLoopHead(t, config))
  {
    match message
    case CallMessage(_, _, _) => CallMessageKeeps(s, message, world, config);
    case ArtifactMessage(_, _, _, _) => ArtifactMessageKeeps(s, message, world, config);
    case CompleteMessage(decodes) => OnCompleteKeeps(s, decodes, world, config);
    case Unknown =>
  }

  lemma {:induction false} CallMessageKeeps(s: State, message: Message, world: World, config: Config)
    requires s.status.Running? && AtLoopHead(s, config) && message.CallMessage?
    ensures var t := OnMessage(s, message, world, config);
            Bounded(t, config) && (t.status.Running? ==> AtLoopHead(t, config))
  {
    UnderMessageCap(s, config);
    OnCallKeeps(s, message.id, message.tool, message.decodes, world, config);
  }

  lemma {:induction false} ArtifactMessageKeeps(s: State, message: Message, world: World, config: Config)
    requires s.status.Running? && AtLoopHead(s, config) && message.ArtifactMessage?
    ensures var t := OnMessage(s, message, world, config);
            Bounded(t, config) && (t.status.Running? ==> AtLoopHead(t, config))
  {
    UnderMessageCap(s, config);
    OnArtifactKeeps(s, message.id, message.decodes, message.metaOk, message.payload, world, config);
  }

  /** One more message never exceeds the message cap. */
  lemma {:induction false} UnderMessageCap(s: State, config: Config)
    requires AtLoopHead(s, config)
    ensures s.messages + 1 <= MaxMessages(config)
  {
  }

  lemma {:induction false} OnCompleteKeeps(s: State, decodes: bool, world: World, config: Config)
    requires s.status.Running? && AtLoopHead(s, config)
    ensures var t := OnMessage(s, CompleteMessage(decodes), world, config);
            Bounded(t, config) && !t.status.Running?
  {
  }

  lemma {:induction false} RunKeeps(events: seq<Event>, config: Config)
    ensures var s := Run(events, config);
            Bounded(s, config) && (s.status.Running? ==> AtLoopHead(s, config))
  {
    if events != [] {
      var before, event := Run(events[..|events| - 1], config), events[|events| - 1];
      RunKeeps(events[..|events| - 1], config);
      if before.status.Running? && event.Line? {
        OnMessageKeeps(before, event.message, event.world, config);
      }
    }
  }

  /** Whatever the script sends: no id is executed or published twice, the caps hold, and the
      message cap is never what ends a run. */
  lemma {:induction false} CapsHold(events: seq<Event>, config: Config)
    ensures var s := Run(events, config);
            && Distinct(s.steps) && Distinct(s.artifacts)
            && |s.steps| <= config.maxSteps && |s.artifacts| <= MAX_ARTIFACTS
            && s.status != Failed(TooManyMessages)
            && s.messages <= config.maxSteps + MAX_ARTIFACTS + 1
  {
    RunKeeps(events, config);
  }

  lemma {:induction false} RepliesMatch(events: seq<Event>, config: Config)
    requires Run(events, config).status.Running?
    ensures var s := Run(events, config);
            && s.messages == |s.seen| == |s.steps| + |s.artifacts| == |s.replies|
            && forall id :: id in s.seen <==> id in s.replies
  {
    RunKeeps(events, config);
  }

  function Lines(events: seq<Event>): nat {
    if events == [] then 0 else Lines(events[..|events| - 1]) + if events[|events| - 1].Line? then 1 else 0
  }

  lemma {:induction false} LinesCounted(events: seq<Event>, config: Config)
    ensures var s := Run(events, config); s.status.Running? ==> s.messages == Lines(events) == |events|
  {
    if events != [] {
      LinesCounted(events[..|events| - 1], config);
    }
  }

  /** A run ends with the line after the last one its caps allow, at the latest. */
  lemma {:induction false} EndsInTime(events: seq<Event>, config: Config)
    requires |events| > config.maxSteps + MAX_ARTIFACTS
    ensures !Run(events, config).status.Running?
  {
    LinesCounted(events, config);
    RunKeeps(events, config);
  }

  /** The first ending decides: what comes later changes nothing. */
  lemma {:induction false} EndIsFinal(events: seq<Event>, more: seq<Event>, config: Config)
    requires !Run(events, config).status.Running?
    ensures Run(events + more, config) == Run(events, config)
  {
    if more == [] {
      assert events + more == events;
    } else {
      EndIsFinal(events, more[..|more| - 1], config);
      assert (events + more)[..|events + more| - 1] == events + more[..|more| - 1];
    }
  }

  /** The reply is written, or the run ends because the script is gone. */
  predicate Answered(s: State, id: string, written: bool, t: State) {
    if written then t.status.Running? && t.replies == s.replies + [id]
    else t.status == Failed(PythonExited) && t.replies == s.replies
  }

  predicate EndsWith(s: State, code: Code, t: State) {
    t.status == Failed(code) && t.replies == s.replies
  }

  /** What one more call does to a run that goes on. It is executed exactly when it is well-formed, its id
      was never answered, and a step is left; then it is answered, unless the tool failed with
      the context over. Otherwise the run ends, and the code says why. */
  lemma {:induction false} CallExactly(
    events: seq<Event>, id: string, tool: string, decodes: bool, world: World, config: Config)
    requires Run(events, config).status.Running?
    ensures var s, t := Run(events, config), Run(events + [Line(CallMessage(id, tool, decodes), world)], config);
            var wellFormed := decodes && 1 <= |id| <= config.maxId && tool != "";
            var executed := wellFormed && id !in s.replies && |s.steps| < config.maxSteps;
            && t.steps == s.steps + (if executed then [id] else []) && t.artifacts == s.artifacts
            && (if !wellFormed then EndsWith(s, ProtocolViolation, t)
                else if id in s.replies then EndsWith(s, DuplicateId, t)
                else if !executed then EndsWith(s, TooManySteps, t)
                else if !world.toolOk && world.contextDone then EndsWith(s, ContextOver, t)
                else Answered(s, id, world.replyWritten, t))
  {
    RunKeeps(events, config);
    OneMore(events, Line(CallMessage(id, tool, decodes), world), config);
    UnderMessageCap(Run(events, config), config);
  }

  lemma {:induction false} OneMore(events: seq<Event>, event: Event, config: Config)
    ensures Run(events + [event], config) == Next(Run(events, config), event, config)
  {
    assert (events + [event])[..|events|] == events;
  }

  /** And one more artifact: published exactly when it is well-formed, its id was never answered, there
      is room for it, its payload decodes within the limit, and it could be stored. */
  lemma {:induction false} ArtifactExactly(
    events: seq<Event>, id: string, decodes: bool, metaOk: bool, payload: Option<nat>, world: World, config: Config)
    requires Run(events, config).status.Running?
    ensures var s := Run(events, config);
            var t := Run(events + [Line(ArtifactMessage(id, decodes, metaOk, payload), world)], config);
            var wellFormed := decodes && 1 <= |id| <= config.maxId && metaOk;
            var published := wellFormed && id !in s.replies && |s.artifacts| < 64
                             && payload.Some? && payload.value <= config.maxOutput && world.stored;
            && t.artifacts == s.artifacts + (if published then [id] else []) && t.steps == s.steps
            && (if !wellFormed then EndsWith(s, ProtocolViolation, t)
                else if id in s.replies then EndsWith(s, DuplicateId, t)
                else if |s.artifacts| >= 64 then EndsWith(s, TooManyArtifacts, t)
                else if payload.None? then EndsWith(s, ProtocolViolation, t)
                else if payload.value > config.maxOutput then EndsWith(s, ArtifactTooLarge, t)
                else if !world.stored then EndsWith(s, StoreError, t)
                else Answered(s, id, world.replyWritten, t))
  {
    RunKeeps(events, config);
    OneMore(events, Line(ArtifactMessage(id, decodes, metaOk, payload), world), config);
    UnderMessageCap(Run(events, config), config);
  }

  /** Everything else ends a run that goes on: a complete message that decodes completes it, and any
      other ending fails with its own code. Nothing is executed, published or answered. */
  lemma {:induction false} EndingExactly(events: seq<Event>, event: Event, config: Config)
    requires Run(events, config).status.Running?
    requires event.Line? ==> event.message.CompleteMessage? || event.message.Unknown?
    ensures var s, t := Run(events, config), Run(events + [event], config);
            && t.steps == s.steps && t.artifacts == s.artifacts && t.replies == s.replies
            && t.status ==
                 match event
                 case Line(message, _) =>
                   if message == CompleteMessage(true) then Completed else Failed(ProtocolViolation)
                 case EndOfOutput => Failed(PythonExited)
                 case LineTooLong => Failed(OutputLineTooLong)
                 case Exited => Failed(PythonExited)
                 case ContextEnded => Failed(ContextOver)
  {
    RunKeeps(events, config);
    OneMore(events, event, config);
    UnderMessageCap(Run(events, config), config);
  }

  lemma {:induction false} CompletedThere(events: seq<Event>, k: nat, config: Config)
    requires k < |events| && Completes(events, k, config)
    ensures Run(events, config).status.Completed?
  {
    EndingExactly(events[..k], events[k], config);
    SplitAt(events, k);
    EndIsFinal(events[..k] + [events[k]], events[k + 1..], config);
  }

  lemma {:induction false} SplitAt(events: seq<Event>, k: nat)
    requires k < |events|
    ensures events == events[..k] + [events[k]] + events[k + 1..]
  {
  }

  /** A run completes exactly by a complete message that decodes, read while it goes on. */
  lemma {:induction false} CompletedExactly(events: seq<Event>, config: Config)
    ensures Run(events, config).status.Completed? <==> exists k :: 0 <= k < |events| && Completes(events, k, config)
  {
    if Run(events, config).status.Completed? { CompletedMeans(events, config); }
    if k :| 0 <= k < |events| && Completes(events, k, config) { CompletedThere(events, k, config); }
  }

  /** A run completes only by a complete message read while every earlier request was answered. */
  lemma {:induction false} CompletedMeans(events: seq<Event>, config: Config)
    requires Run(events, config).status.Completed?
    ensures exists k :: 0 <= k < |events| && Completes(events, k, config)
  {
    var n := |events| - 1;
    if Run(events[..n], config).status.Running? {
      RunKeeps(events[..n], config);
      CompletesNow(Run(events[..n], config), events[n], config);
      assert Completes(events, n, config);
    } else {
      CompletedMeans(events[..n], config);
      var k :| 0 <= k < n && Completes(events[..n], k, config);
      assert events[..n][..k] == events[..k];
      assert Completes(events, k, config);
    }
  }

  ghost predicate Completes(events: seq<Event>, k: nat, config: Config)
    requires k < |events|
  {
    && events[k].Line? && events[k].message == CompleteMessage(true)
    && Run(events[..k], config).status.Running? && AtLoopHead(Run(events[..k], config), config)
  }

  lemma {:induction false} CompletesNow(s: State, event: Event, config: Config)
    requires s.status.Running? && Next(s, event, config).status.Completed?
    ensures event.Line? && event.message == CompleteMessage(true)
  {
  }

  // ---------------------------------------------------------------------------- loop

  class Session {
    const config: Config
    var status: Status
    var messages: nat
    var seen: set<string>
    var steps: seq<string>
    var artifacts: seq<string>
    var replies: seq<string>

    ghost function View(): State
      reads this
    {
      State(status, messages, seen, steps, artifacts, replies)
    }

    constructor (limits: Config)
      ensures config == limits && View() == Init
    {
      config, status, messages, seen, steps, artifacts, replies := limits, Running, 0, {}, [], [], [];
    }

    method WriteReply(id: string, written: bool)
      modifies this
      ensures View() == Reply(old(View()), id, written)
    {
      if written {
        replies := replies + [id];
      } else {
        status := Failed(PythonExited);
      }
    }

    method HandleCall(id: string, tool: string, decodes: bool, world: World)
      modifies this
      ensures View() == OnCall(old(View()), id, tool, decodes, world, config)
    {
      if !decodes || !ValidId(id, config) || tool == "" {
        status := Failed(ProtocolViolation);
        return;
      }
      if id in seen {
        status := Failed(DuplicateId);
        return;
      }
      seen := seen + {id};
      if |steps| >= config.maxSteps {
        status := Failed(TooManySteps);
        return;
      }
      steps := steps + [id];
      if !world.toolOk && world.contextDone {
        status := Failed(ContextOver);
        return;
      }
      WriteReply(id, world.replyWritten);
    }

    method HandleArtifact(id: string, decodes: bool, metaOk: bool, payload: Option<nat>, world: World)
      modifies this
      ensures View() == OnArtifact(old(View()), id, decodes, metaOk, payload, world, config)
    {
      if !decodes || !ValidId(id, config) || !metaOk {
        status := Failed(ProtocolViolation);
        return;
      }
      if id in seen {
        status := Failed(DuplicateId);
        return;
      }
      seen := seen + {id};
      if |artifacts| >= MAX_ARTIFACTS {
        status := Failed(TooManyArtifacts);
      } else if payload.None? {
        status := Failed(ProtocolViolation);
      } else if payload.value > config.maxOutput {
        status := Failed(ArtifactTooLarge);
      } else if !world.stored {
        status := Failed(StoreError);
      } else {
        artifacts := artifacts + [id];
        WriteReply(id, world.replyWritten);
      }
    }

    method HandleLine(message: Message, world: World)
      modifies this
      ensures View() == OnMessage(old(View()), message, world, config)
    {
      if message.Unknown? {
        status := Failed(ProtocolViolation);
        return;
      }
      messages := messages + 1;
      if messages > config.maxSteps + MAX_ARTIFACTS + 2 {
        status := Failed(TooManyMessages);
        return;
      }
      match message
      case CallMessage(id, tool, decodes) => HandleCall(id, tool, decodes, world);
      case ArtifactMessage(id, decodes, metaOk, payload) => HandleArtifact(id, decodes, metaOk, payload, world);
      case CompleteMessage(decodes) => status := if decodes then Completed else Failed(ProtocolViolation);
    }

    /** The loop over whatever becomes ready, in the order it does. */
    method Loop(events: seq<Event>)
      requires View() == Init
      modifies this
      ensures View() == Run(events, config)
      ensures |events| > config.maxSteps + MAX_ARTIFACTS ==> !status.Running?
      ensures |steps| <= config.maxSteps && |artifacts| <= MAX_ARTIFACTS && status != Failed(TooManyMessages)
    {
      var k := 0;
      while k < |events| && status.Running?
        invariant 0 <= k <= |events|
        invariant View() == Run(events[..k], config)
        decreases |events| - k
      {
        assert events[..k + 1][..k] == events[..k];
        match events[k] {
          case Line(message, world) => HandleLine(message, world);
          case EndOfOutput => status := Failed(PythonExited);
          case LineTooLong => status := Failed(OutputLineTooLong);
          case Exited => status := Failed(PythonExited);
          case ContextEnded => status := Failed(ContextOver);
        }
        k := k + 1;
      }
      assert events[..k] + events[k..] == events;
      if status.Running? {
        assert events[..k] == events;
      } else {
        EndIsFinal(events[..k], events[k..], config);
      }
      CapsHold(events, config);
      if |events| > config.maxSteps + MAX_ARTIFACTS { EndsInTime(events, config); }
    }
  }

  // -------------------------------------------------------------------- bounded stderr

  class BoundedBuffer {
    const limit: nat
    var buffer: seq<octet>
    var truncated: bool
    ghost var written: seq<octet>

    /** The first limit bytes of everything written, and whether there was more. */
    ghost predicate Valid()
      reads this
    {
      && buffer == written[..if |written| <= limit then |written| else limit]
      && (truncated <==> |written| > limit)
    }

    constructor (bound: nat)
      ensures Valid() && limit == bound && written == []
    {
      limit, buffer, truncated, written := bound, [], false, [];
    }

    method Write(payload: seq<octet>) returns (count: nat)
      requires Valid()
      modifies this
      ensures Valid() && written == old(written) + payload && count == |payload|
    {
      var remaining := limit - |buffer|;
      if remaining > 0 {
        if |payload| > remaining {
          buffer := buffer + payload[..remaining];
          truncated := true;
        } else {
          buffer := buffer + payload;
        }
      } else if |payload| > 0 {
        truncated := true;
      }
      written := written + payload;
      count := |payload|;
    }
  }
}
