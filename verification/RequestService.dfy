/**
Admission and life of symbolication requests.  Requests are computed by concurrent tasks and
polled by concurrent clients; a step here is one atomic action on the counter of requests, on the
map of requests or on a response channel, and the steps of all tasks and clients interleave freely.
A task that panics drops what it still holds, in any order.
*/
module RequestService {
  import opened Common

  type Completed(==,!new)

  type RequestId(==,!new)
  type PollId(==,!new)

  datatype SymbolicationResponse =
    | CompletedResponse(response: Completed)
    | Failed(message: string)
    | Timeout
    | Pending(requestId: RequestId, retryAfter: nat)
    | InternalError

  /** How the computation of a request ends, unless it panics. */
  datatype ComputationResult = Finished(response: Completed) | FinishedWithError(message: string) | TimedOut

  function ResponseTo(result: ComputationResult): SymbolicationResponse {
    match result
    case Finished(response) => CompletedResponse(response)
    case FinishedWithError(message) => Failed(message)
    case TimedOut => Timeout
  }

  const RETRY_AFTER := 30

  /** The channel of a request: nothing sent yet, a response sent, or the sender is gone. */
  datatype Channel = Open | Sent(response: SymbolicationResponse) | Cancelled

  /** A task holds a slot of the counter and, once it is registered, a token whose drop removes the
      request from the map. */
  datatype Task = Task(registered: bool, panicked: bool, channel: Channel, holdsSlot: bool, holdsToken: bool)

  datatype Poll =
    | Waiting(id: RequestId, hasTimeout: bool)
    | Answered(id: RequestId, answer: Option<SymbolicationResponse>)

  datatype State = State(
    max: Option<nat>,
    current: nat,
    requests: set<RequestId>,
    tasks: map<RequestId, Task>,
    polls: map<PollId, Poll>)

  function Initial(max: Option<nat>): State {
    State(max, 0, {}, map[], map[])
  }

  datatype Event =
    | Submit(id: RequestId)
    | Register(id: RequestId)
    | Respond(id: RequestId, result: ComputationResult)
    | ReleaseSlot(id: RequestId)
    | Expire(id: RequestId)
    | Panic(id: RequestId)
    | UnwindSender(id: RequestId)
    | UnwindSlot(id: RequestId)
    | UnwindToken(id: RequestId)
    | StartPoll(poll: PollId, id: RequestId, hasTimeout: bool)
    | FinishPoll(poll: PollId)
    | ElapsePoll(poll: PollId)

  /** Whether the counter has reached its maximum. */
  predicate Full(s: State) {
    s.max.Some? && s.current >= s.max.value
  }

  predicate TaskCan(event: Event, task: Task)
    requires event.Register? || event.Respond? || event.ReleaseSlot? || event.Expire? || event.Panic?
      || event.UnwindSender? || event.UnwindSlot? || event.UnwindToken?
  {
    match event
    case Register(_) => !task.panicked && !task.registered
    case Respond(_, _) => !task.panicked && task.registered && task.channel.Open?
    case ReleaseSlot(_) => !task.panicked && task.channel.Sent? && task.holdsSlot
    case Expire(_) => !task.panicked && task.channel.Sent? && !task.holdsSlot && task.holdsToken
    case Panic(_) => !task.panicked && (task.holdsSlot || task.holdsToken)
    case UnwindSender(_) => task.panicked && task.channel.Open?
    case UnwindSlot(_) => task.panicked && task.holdsSlot
    case UnwindToken(_) => task.panicked && task.holdsToken
  }

  /** Request ids and poll ids are never used twice. */
  predicate Enabled(s: State, event: Event) {
    match event
    case Submit(id) => id !in s.tasks
    case StartPoll(poll, _, _) => poll !in s.polls
    case FinishPoll(poll) => poll in s.polls && s.polls[poll].Waiting? && !ChannelOf(s, s.polls[poll].id).Open?
    case ElapsePoll(poll) =>
      poll in s.polls && s.polls[poll].Waiting? && s.polls[poll].hasTimeout && ChannelOf(s, s.polls[poll].id).Open?
    case _ => event.id in s.tasks && TaskCan(event, s.tasks[event.id])
  }

  function ChannelOf(s: State, id: RequestId): Channel {
    if id in s.tasks then s.tasks[id].channel else Cancelled
  }

  function AnswerFrom(channel: Channel): SymbolicationResponse
    requires !channel.Open?
  {
    if channel.Sent? then channel.response else InternalError
  }

  function Next(s: State, event: Event): State
    requires Enabled(s, event)
  {
    match event
    case Submit(id) =>
      if Full(s) then s
      else s.(current := s.current + 1, tasks := s.tasks[id := Task(false, false, Open, true, false)])
    case Register(id) =>
      s.(requests := s.requests + {id}, tasks := s.tasks[id := s.tasks[id].(registered := true, holdsToken := true)])
    case Respond(id, result) =>
      s.(tasks := s.tasks[id := s.tasks[id].(channel := Sent(ResponseTo(result)))])
    case ReleaseSlot(id) => SlotDropped(s, id)
    case Expire(id) => TokenDropped(s, id)
    case Panic(id) => s.(tasks := s.tasks[id := s.tasks[id].(panicked := true)])
    case UnwindSender(id) => s.(tasks := s.tasks[id := s.tasks[id].(channel := Cancelled)])
    case UnwindSlot(id) => SlotDropped(s, id)
    case UnwindToken(id) => TokenDropped(s, id)
    case StartPoll(poll, id, hasTimeout) =>
      s.(polls := s.polls[poll := if id in s.requests then Waiting(id, hasTimeout) else Answered(id, None)])
    case FinishPoll(poll) =>
      var id := s.polls[poll].id;
      s.(polls := s.polls[poll := Answered(id, Some(AnswerFrom(ChannelOf(s, id))))])
    case ElapsePoll(poll) =>
      var id := s.polls[poll].id;
      s.(polls := s.polls[poll := Answered(id, Some(Pending(id, RETRY_AFTER)))])
  }

  /** The counter is a machine word; a decrement at zero would wrap around. */
  function SlotDropped(s: State, id: RequestId): State
    requires id in s.tasks
  {
    s.(current := if s.current == 0 then U64_LIMIT - 1 else s.current - 1,
       tasks := s.tasks[id := s.tasks[id].(holdsSlot := false)])
  }

  function TokenDropped(s: State, id: RequestId): State
    requires id in s.tasks
  {
    s.(requests := s.requests - {id}, tasks := s.tasks[id := s.tasks[id].(holdsToken := false)])
  }

  ghost predicate IsRun(s: State, events: seq<Event>)
    decreases |events|
  {
    events != [] ==> Enabled(s, events[0]) && IsRun(Next(s, events[0]), events[1..])
  }

  ghost function Run(s: State, events: seq<Event>): State
    requires IsRun(s, events)
    decreases |events|
  {
    if events == [] then s else Run(Next(s, events[0]), events[1..])
  }

  // ---------------------------------------------------------------------------------------------
  // Invariants

  function SlotHolders(s: State): set<RequestId> {
    set id | id in s.tasks && s.tasks[id].holdsSlot
  }

  predicate IsFinal(r: SymbolicationResponse) {
    !r.Pending? && !r.InternalError?
  }

  predicate TaskInv(task: Task) {
    && (task.holdsToken ==> task.registered)
    && (task.channel.Sent? ==> task.registered && IsFinal(task.channel.response))
    && (!task.panicked && task.channel.Open? ==> task.holdsSlot && (task.registered ==> task.holdsToken))
    && (!task.panicked ==> !task.channel.Cancelled? && (task.registered && task.holdsSlot ==> task.holdsToken))
  }

  predicate PollInv(s: State, poll: Poll) {
    match poll
    case Waiting(id, _) => id in s.tasks && s.tasks[id].registered
    case Answered(id, None) => true
    case Answered(id, Some(answer)) =>
      id in s.tasks && s.tasks[id].registered
      && match answer
         case Pending(of, _) => of == id
         case InternalError => s.tasks[id].channel == Cancelled
         case _ => s.tasks[id].channel == Sent(answer)
  }

  ghost predicate TasksInv(s: State) {
    && (forall id :: id in s.requests <==> id in s.tasks && s.tasks[id].holdsToken)
    && forall id :: id in s.tasks ==> TaskInv(s.tasks[id])
  }

  ghost predicate PollsInv(s: State) {
    forall poll :: poll in s.polls ==> PollInv(s, s.polls[poll])
  }

  /** Slots in use are counted exactly, within the maximum, and the map holds exactly the requests
      whose tasks are to remove them. */
  ghost predicate Inv(s: State) {
    && s.current == |SlotHolders(s)|
    && (s.max.Some? ==> s.current <= s.max.value)
    && TasksInv(s)
    && PollsInv(s)
  }

  lemma SlotTaken(s: State, t: State, id: RequestId)
    requires id !in s.tasks && id in t.tasks && t.tasks == s.tasks[id := t.tasks[id]] && t.tasks[id].holdsSlot
    ensures |SlotHolders(t)| == |SlotHolders(s)| + 1
  {
    assert SlotHolders(t) == SlotHolders(s) + {id};
  }

  lemma SlotReleased(s: State, id: RequestId)
    requires id in s.tasks && s.tasks[id].holdsSlot
    ensures |SlotHolders(s)| > 0 && |SlotHolders(SlotDropped(s, id))| == |SlotHolders(s)| - 1
  {
    assert id in SlotHolders(s);
    assert SlotHolders(SlotDropped(s, id)) == SlotHolders(s) - {id};
  }

  lemma StepKeepsCount(s: State, event: Event)
    requires Inv(s) && Enabled(s, event)
    ensures Next(s, event).current == |SlotHolders(Next(s, event))|
  {
    var t := Next(s, event);
    match event
    case Submit(id) =>
      if !Full(s) {
        SlotTaken(s, t, id);
      }
    case ReleaseSlot(id) =>
      SlotReleased(s, id);
    case UnwindSlot(id) =>
      SlotReleased(s, id);
    case _ =>
      assert SlotHolders(t) == SlotHolders(s);
  }

  lemma StepKeepsTasks(s: State, event: Event)
    requires TasksInv(s) && Enabled(s, event)
    ensures TasksInv(Next(s, event))
  {
  }

  lemma StepKeepsPolls(s: State, event: Event)
    requires TasksInv(s) && PollsInv(s) && Enabled(s, event)
    ensures PollsInv(Next(s, event))
  {
    var t := Next(s, event);
    forall poll | poll in t.polls ensures PollInv(t, t.polls[poll]) {
      if poll in s.polls {
        assert PollInv(s, s.polls[poll]);
        DecidedStep(s, event, s.polls[poll].id);
      }
    }
  }

  /** A channel that is decided stays decided, and an answered poll stays answered. */
  lemma DecidedStep(s: State, event: Event, id: RequestId)
    requires TasksInv(s) && Enabled(s, event)
    ensures id in s.tasks && !s.tasks[id].channel.Open? ==>
      id in Next(s, event).tasks && Next(s, event).tasks[id].channel == s.tasks[id].channel
    ensures id in s.tasks && s.tasks[id].registered ==>
      id in Next(s, event).tasks && Next(s, event).tasks[id].registered
    ensures forall poll :: poll in s.polls && s.polls[poll].Answered? ==>
      poll in Next(s, event).polls && Next(s, event).polls[poll] == s.polls[poll]
  {
  }

  lemma StepKeepsInv(s: State, event: Event)
    requires Inv(s) && Enabled(s, event)
    ensures Inv(Next(s, event)) && Next(s, event).max == s.max
  {
    StepKeepsTasks(s, event);
    StepKeepsPolls(s, event);
    StepKeepsCount(s, event);
    if event.ReleaseSlot? || event.UnwindSlot? {
      SlotReleased(s, event.id);
    }
  }

  lemma {:induction false} RunKeepsInv(s: State, events: seq<Event>)
    requires Inv(s) && IsRun(s, events)
    ensures Inv(Run(s, events)) && Run(s, events).max == s.max
    decreases |events|
  {
    if events != [] {
      StepKeepsInv(s, events[0]);
      RunKeepsInv(Next(s, events[0]), events[1..]);
    }
  }

  /** In every run from the start, exactly the tasks that hold a slot are counted, there are never
      more of them than the maximum, the map holds exactly the requests that are registered and
      not yet removed, and every answered poll got the response, an internal error because the
      task panicked without one, or word that the request is pending. */
  lemma RunsAreSafe(max: Option<nat>, events: seq<Event>)
    requires IsRun(Initial(max), events)
    ensures var s := Run(Initial(max), events);
      && s.current == |SlotHolders(s)| && (max.Some? ==> s.current <= max.value)
      && (forall id :: id in s.requests <==> id in s.tasks && s.tasks[id].holdsToken)
      && forall poll :: poll in s.polls ==> PollInv(s, s.polls[poll])
  {
    assert SlotHolders(Initial(max)) == {};
    RunKeepsInv(Initial(max), events);
  }

  // ---------------------------------------------------------------------------------------------
  // Rejection

  predicate Mentions(event: Event, id: RequestId) {
    event.Submit? && event.id == id
  }

  /** A request is rejected exactly if as many slots as allowed are held.  A rejected request does
      not enter the map, then or in whatever follows, unless its id is submitted again. */
  lemma RejectedNeverEnters(s: State, id: RequestId, events: seq<Event>)
    requires Inv(s) && Enabled(s, Submit(id)) && IsRun(Next(s, Submit(id)), events)
    requires forall i :: 0 <= i < |events| ==> !Mentions(events[i], id)
    ensures id !in Next(s, Submit(id)).tasks <==> s.max.Some? && |SlotHolders(s)| >= s.max.value
    ensures id !in Next(s, Submit(id)).tasks ==>
      Next(s, Submit(id)) == s && id !in Run(s, events).tasks && id !in Run(s, events).requests
  {
    if Full(s) {
      NeverSubmittedNeverEnters(s, id, events);
    }
  }

  lemma {:induction false} NeverSubmittedNeverEnters(s: State, id: RequestId, events: seq<Event>)
    requires Inv(s) && IsRun(s, events) && id !in s.tasks
    requires forall i :: 0 <= i < |events| ==> !Mentions(events[i], id)
    ensures id !in Run(s, events).tasks && id !in Run(s, events).requests
    decreases |events|
  {
    if events != [] {
      StepKeepsInv(s, events[0]);
      assert !Mentions(events[0], id);
      forall i | 0 <= i < |events[1..]| ensures !Mentions(events[1..][i], id) {
        assert events[1..][i] == events[i + 1];
      }
      NeverSubmittedNeverEnters(Next(s, events[0]), id, events[1..]);
    }
  }

  // ---------------------------------------------------------------------------------------------
  // Polling

  lemma {:induction false} DecidedStays(s: State, events: seq<Event>, id: RequestId)
    requires TasksInv(s) && IsRun(s, events) && id in s.tasks && !s.tasks[id].channel.Open?
    ensures id in Run(s, events).tasks && Run(s, events).tasks[id].channel == s.tasks[id].channel
    ensures forall poll :: poll in s.polls && s.polls[poll].Answered? ==>
      poll in Run(s, events).polls && Run(s, events).polls[poll] == s.polls[poll]
    decreases |events|
  {
    if events != [] {
      StepKeepsTasks(s, events[0]);
      DecidedStep(s, events[0], id);
      DecidedStays(Next(s, events[0]), events[1..], id);
    }
  }

  predicate IsAnswered(s: State, poll: PollId, id: RequestId) {
    poll in s.polls && s.polls[poll].id == id && s.polls[poll].Answered?
  }

  lemma AnswerAfterResponse(s: State, event: Event, id: RequestId, poll: PollId)
    requires TasksInv(s) && Enabled(s, event) && id in s.tasks && s.tasks[id].channel.Sent?
    requires poll in s.polls ==> s.polls[poll].Waiting?
    ensures poll in s.polls ==> poll in Next(s, event).polls && Next(s, event).polls[poll].id == s.polls[poll].id
    ensures IsAnswered(Next(s, event), poll, id) ==>
      var answer := Next(s, event).polls[poll].answer;
      answer == Some(s.tasks[id].channel.response) || (answer == None && poll !in s.polls)
    ensures poll !in s.polls && poll in Next(s, event).polls && Next(s, event).polls[poll].Waiting? ==>
      Next(s, event).polls[poll].id in s.requests
  {
  }

  /** Once a response is there, every poll of the request that is answered from then on gets this
      response, whether it began before or after, and with or without a timeout, unless it begins
      after the request was removed from the map. */
  lemma ResponseIsStable(s: State, events: seq<Event>, id: RequestId, poll: PollId)
    requires TasksInv(s) && IsRun(s, events) && id in s.tasks && s.tasks[id].channel.Sent?
    requires poll in s.polls ==> s.polls[poll].Waiting?
    requires IsAnswered(Run(s, events), poll, id)
    ensures var answer := Run(s, events).polls[poll].answer;
      answer == Some(s.tasks[id].channel.response) || (answer == None && poll !in s.polls)
    decreases |events|
  {
    if events != [] {
      var t := Next(s, events[0]);
      StepKeepsTasks(s, events[0]);
      DecidedStep(s, events[0], id);
      AnswerAfterResponse(s, events[0], id, poll);
      if poll in t.polls && t.polls[poll].Answered? {
        DecidedStays(t, events[1..], id);
      } else {
        ResponseIsStable(t, events[1..], id, poll);
      }
    }
  }

  /** A poll that begins while the request is in the map and its response is there is answered at
      once with this response. */
  lemma PollAfterResponse(s: State, poll: PollId, id: RequestId, hasTimeout: bool)
    requires Inv(s) && poll !in s.polls && id in s.requests && s.tasks[id].channel.Sent?
    ensures var started := Next(s, StartPoll(poll, id, hasTimeout));
      && Enabled(started, FinishPoll(poll)) && !Enabled(started, ElapsePoll(poll))
      && Next(started, FinishPoll(poll)).polls[poll] == Answered(id, Some(s.tasks[id].channel.response))
      && IsFinal(s.tasks[id].channel.response)
  {
  }

  /** What a client is told about a computation that has ended. */
  predicate IsResultOf(answer: SymbolicationResponse, result: ComputationResult) {
    && (answer.CompletedResponse? <==> result.Finished?)
    && (answer.Failed? <==> result.FinishedWithError?)
    && (answer.Timeout? <==> result.TimedOut?)
    && (result.Finished? ==> answer.response == result.response)
    && (result.FinishedWithError? ==> answer.message == result.message)
  }

  predicate IsResponse(event: Event, id: RequestId) {
    event.Respond? && event.id == id
  }

  /** Number `i` is the only event that responds to the request, and `answer` is what it gave. */
  ghost predicate StemsFrom(answer: SymbolicationResponse, events: seq<Event>, i: nat, id: RequestId) {
    && i < |events| && IsResponse(events[i], id) && IsResultOf(answer, events[i].result)
    && forall j :: 0 <= j < |events| && IsResponse(events[j], id) ==> j == i
  }

  lemma {:induction false} DecidedOnce(s: State, events: seq<Event>, id: RequestId)
    requires TasksInv(s) && IsRun(s, events) && id in s.tasks && !s.tasks[id].channel.Open?
    ensures forall j :: 0 <= j < |events| ==> !IsResponse(events[j], id)
    decreases |events|
  {
    if events != [] {
      StepKeepsTasks(s, events[0]);
      DecidedStep(s, events[0], id);
      DecidedOnce(Next(s, events[0]), events[1..], id);
      forall j | 0 <= j < |events| ensures !IsResponse(events[j], id) {
        assert j > 0 ==> events[j] == events[1..][j - 1];
      }
    }
  }

  lemma {:induction false} SentStemsFrom(s: State, events: seq<Event>, id: RequestId) returns (i: nat)
    requires TasksInv(s) && IsRun(s, events) && !ChannelOf(s, id).Sent?
    requires ChannelOf(Run(s, events), id).Sent?
    ensures StemsFrom(ChannelOf(Run(s, events), id).response, events, i, id)
    decreases |events|
  {
    var t := Next(s, events[0]);
    StepKeepsTasks(s, events[0]);
    if ChannelOf(t, id).Sent? {
      i := 0;
      DecidedStays(t, events[1..], id);
      DecidedOnce(t, events[1..], id);
      assert forall j :: 0 < j < |events| ==> events[j] == events[1..][j - 1];
    } else {
      var k := SentStemsFrom(t, events[1..], id);
      i := k + 1;
      assert forall j :: 0 < j < |events| ==> events[j] == events[1..][j - 1];
    }
  }

  /** Every poll of a run that is answered with an outcome got the outcome of the computation of its
      own request: a completed response, a failure or a timeout, just as the computation ended, and
      the computation ended only once. */
  lemma AnswersStemFromResults(max: Option<nat>, events: seq<Event>, poll: PollId) returns (i: nat)
    requires IsRun(Initial(max), events)
    requires var polls := Run(Initial(max), events).polls;
      poll in polls && polls[poll].Answered? && polls[poll].answer.Some? && IsFinal(polls[poll].answer.value)
    ensures var answered := Run(Initial(max), events).polls[poll];
      StemsFrom(answered.answer.value, events, i, answered.id)
  {
    RunsAreSafe(max, events);
    var s := Run(Initial(max), events);
    var id := s.polls[poll].id;
    assert PollInv(s, s.polls[poll]);
    i := SentStemsFrom(Initial(max), events, id);
  }

  /** Once a computation has ended, every poll of it that is answered from then on is told just how
      it ended, unless it begins after the request was removed from the map. */
  lemma PollsGetResult(s: State, id: RequestId, result: ComputationResult, events: seq<Event>, poll: PollId)
    requires TasksInv(s) && Enabled(s, Respond(id, result)) && IsRun(Next(s, Respond(id, result)), events)
    requires poll in s.polls ==> s.polls[poll].Waiting?
    requires IsAnswered(Run(Next(s, Respond(id, result)), events), poll, id)
    ensures match Run(Next(s, Respond(id, result)), events).polls[poll].answer
      case Some(answer) => IsResultOf(answer, result)
      case None => poll !in s.polls
  {
    StepKeepsTasks(s, Respond(id, result));
    ResponseIsStable(Next(s, Respond(id, result)), events, id, poll);
  }

  // ---------------------------------------------------------------------------------------------
  // No leaks

  /** The steps that a task still has to take. */
  function Remaining(task: Task): nat {
    (if task.panicked then 0 else 1) + (if task.registered then 0 else 2)
    + (if task.channel.Open? then 1 else 0) + (if task.holdsSlot then 1 else 0) + (if task.holdsToken then 1 else 0)
  }

  predicate IsTaskEvent(event: Event) {
    !event.Submit? && !event.StartPoll? && !event.FinishPoll? && !event.ElapsePoll?
  }

  /** Each step of a task brings it nearer to its end, and other steps do not touch it. */
  lemma TaskStepsAreBounded(s: State, event: Event, id: RequestId)
    requires Inv(s) && Enabled(s, event) && id in s.tasks
    ensures id in Next(s, event).tasks
    ensures if IsTaskEvent(event) && event.id == id then Remaining(Next(s, event).tasks[id]) < Remaining(s.tasks[id])
            else Next(s, event).tasks[id] == s.tasks[id]
  {
  }

  predicate IsDone(task: Task) {
    !task.holdsSlot && !task.holdsToken && !task.channel.Open?
  }

  /** A task that has not given everything back has a step to take; whether it has panicked makes
      no difference. */
  function NextStep(id: RequestId, task: Task, result: ComputationResult): Event
    requires TaskInv(task) && !IsDone(task)
  {
    if task.panicked then
      if task.channel.Open? then UnwindSender(id) else if task.holdsSlot then UnwindSlot(id) else UnwindToken(id)
    else if !task.registered then Register(id)
    else if task.channel.Open? then Respond(id, result)
    else if task.holdsSlot then ReleaseSlot(id)
    else Expire(id)
  }

  lemma UnfinishedTaskCanStep(s: State, id: RequestId, result: ComputationResult)
    requires Inv(s) && id in s.tasks && !IsDone(s.tasks[id])
    ensures IsTaskEvent(NextStep(id, s.tasks[id], result)) && NextStep(id, s.tasks[id], result).id == id
    ensures Enabled(s, NextStep(id, s.tasks[id], result))
  {
  }

  /** When no task can take a step, no slot is held, the map is empty, and every waiting poll can
      be answered. */
  lemma NothingLeaks(s: State)
    requires Inv(s) && forall event :: IsTaskEvent(event) ==> !Enabled(s, event)
    ensures s.current == 0 && s.requests == {}
    ensures forall poll :: poll in s.polls && s.polls[poll].Waiting? ==> Enabled(s, FinishPoll(poll))
  {
    forall id | id in s.tasks ensures IsDone(s.tasks[id]) {
      if !IsDone(s.tasks[id]) {
        UnfinishedTaskCanStep(s, id, TimedOut);
      }
    }
    assert SlotHolders(s) == {};
    forall poll | poll in s.polls && s.polls[poll].Waiting? ensures Enabled(s, FinishPoll(poll)) {
      assert PollInv(s, s.polls[poll]);
    }
  }

  /** The requests that are still being computed. */
  function Computing(s: State): set<RequestId> {
    set id | id in s.tasks && s.tasks[id].channel.Open? && !s.tasks[id].panicked
  }

  /** The tasks that hold a slot for no more than the next step. */
  function GivingBack(s: State): set<RequestId> {
    set id | id in s.tasks && (Enabled(s, ReleaseSlot(id)) || Enabled(s, UnwindSlot(id)))
  }

  /** The counter is the number of requests that are being computed and of tasks that only have to
      give back their slot; no other task holds one. */
  lemma CounterIsComputing(s: State)
    requires Inv(s)
    ensures s.current == |Computing(s)| + |GivingBack(s)| && Computing(s) !! GivingBack(s)
  {
    forall id | id in s.tasks
      ensures s.tasks[id].holdsSlot <==> id in Computing(s) || id in GivingBack(s)
      ensures !(id in Computing(s) && id in GivingBack(s))
    {
      assert TaskInv(s.tasks[id]);
    }
    assert SlotHolders(s) == Computing(s) + GivingBack(s);
  }

  // ---------------------------------------------------------------------------------------------
  // The service

  datatype MaxRequestsError = MaxRequestsError

  class Service {
    const max: Option<nat>
    var current: nat
    var requests: set<RequestId>
    var tasks: map<RequestId, Task>
    var polls: map<PollId, Poll>

    ghost function Abstract(): State
      reads this
    {
      State(max, current, requests, tasks, polls)
    }

    ghost predicate Valid()
      reads this
    {
      Inv(Abstract())
    }

    constructor (max: Option<nat>)
      ensures Valid() && Abstract() == Initial(max)
    {
      this.max := max;
      current, requests, tasks, polls := 0, {}, map[], map[];
      new;
      assert SlotHolders(Abstract()) == {};
    }

    /** Takes a slot, registers the request and leaves its task to run. */
    method CreateSymbolicationRequest(id: RequestId) returns (r: Result<RequestId, MaxRequestsError>)
      requires Valid() && id !in tasks
      modifies this
      ensures Valid()
      ensures r == if old(Full(Abstract())) then Err(MaxRequestsError) else Ok(id)
      ensures r.Err? ==> Abstract() == old(Abstract())
      ensures r.Ok? ==> Abstract() == Next(Next(old(Abstract()), Submit(id)), Register(id))
    {
      StepKeepsInv(Abstract(), Submit(id));
      if max.Some? && current >= max.value {
        return Err(MaxRequestsError);
      }
      current := current + 1;
      tasks := tasks[id := Task(false, false, Open, true, false)];
      StepKeepsInv(Abstract(), Register(id));
      requests := requests + {id};
      tasks := tasks[id := tasks[id].(registered := true, holdsToken := true)];
      r := Ok(id);
    }

    /** Dropping the slot's guard decrements the counter; it never is at zero then. */
    method DropSlot(id: RequestId)
      requires Valid() && (Enabled(Abstract(), ReleaseSlot(id)) || Enabled(Abstract(), UnwindSlot(id)))
      modifies this
      ensures Valid() && Abstract() == SlotDropped(old(Abstract()), id) && current == old(current) - 1
    {
      StepKeepsInv(Abstract(), if tasks[id].panicked then UnwindSlot(id) else ReleaseSlot(id));
      SlotReleased(Abstract(), id);
      current := current - 1;
      tasks := tasks[id := tasks[id].(holdsSlot := false)];
    }

    /** Dropping the token removes the request. */
    method DropToken(id: RequestId)
      requires Valid() && (Enabled(Abstract(), Expire(id)) || Enabled(Abstract(), UnwindToken(id)))
      modifies this
      ensures Valid() && Abstract() == TokenDropped(old(Abstract()), id) && id in old(requests)
    {
      StepKeepsInv(Abstract(), if tasks[id].panicked then UnwindToken(id) else Expire(id));
      requests := requests - {id};
      tasks := tasks[id := tasks[id].(holdsToken := false)];
    }

    /** The end of the computation: the response is sent, then the slot is given back.  The request
        stays in the map. */
    method Finish(id: RequestId, result: ComputationResult)
      requires Valid() && Enabled(Abstract(), Respond(id, result))
      modifies this
      ensures Valid() && id in requests && id !in SlotHolders(Abstract())
      ensures Abstract() == Next(Next(old(Abstract()), Respond(id, result)), ReleaseSlot(id))
    {
      StepKeepsInv(Abstract(), Respond(id, result));
      tasks := tasks[id := tasks[id].(channel := Sent(ResponseTo(result)))];
      DropSlot(id);
    }

    method DropSender(id: RequestId)
      requires Valid() && Enabled(Abstract(), Panic(id))
      modifies this`tasks
      ensures Valid()
      ensures tasks == old(tasks)[id := old(tasks)[id].(panicked := true,
        channel := if old(tasks)[id].channel.Open? then Cancelled else old(tasks)[id].channel)]
    {
      StepKeepsInv(Abstract(), Panic(id));
      tasks := tasks[id := tasks[id].(panicked := true)];
      if tasks[id].channel.Open? {
        StepKeepsInv(Abstract(), UnwindSender(id));
        tasks := tasks[id := tasks[id].(channel := Cancelled)];
      }
    }

    /** A panic drops the sender, the slot and the token, if they are still held. */
    method Unwind(id: RequestId)
      requires Valid() && Enabled(Abstract(), Panic(id)) && tasks[id].registered
      modifies this
      ensures Valid() && id in tasks && IsDone(tasks[id]) && requests == old(requests) - {id}
      ensures current == old(current) - if old(tasks)[id].holdsSlot then 1 else 0
      ensures tasks[id].channel == if old(tasks)[id].channel.Open? then Cancelled else old(tasks)[id].channel
      ensures tasks == old(tasks)[id := tasks[id]] && polls == old(polls)
    {
      DropSender(id);
      if tasks[id].holdsSlot {
        DropSlot(id);
      }
      if tasks[id].holdsToken {
        DropToken(id);
      }
    }

    /** A client asks for a request: an unknown one is answered at once, otherwise the channel is
        waited on. */
    method StartPolling(poll: PollId, id: RequestId, hasTimeout: bool)
      requires Valid() && poll !in polls
      modifies this`polls
      ensures Valid() && Abstract() == Next(old(Abstract()), StartPoll(poll, id, hasTimeout))
    {
      StepKeepsInv(Abstract(), StartPoll(poll, id, hasTimeout));
      if id in requests {
        polls := polls[poll := Waiting(id, hasTimeout)];
      } else {
        polls := polls[poll := Answered(id, None)];
      }
    }

    /** The wait ends, because the channel is decided or because the timeout has elapsed; if both
        have happened, the channel counts. */
    method WrapResponseChannel(poll: PollId, elapsed: bool) returns (r: SymbolicationResponse)
      requires Valid() && poll in polls && polls[poll].Waiting?
      requires ChannelOf(Abstract(), polls[poll].id).Open? ==> elapsed && polls[poll].hasTimeout
      modifies this`polls
      ensures Valid() && poll in polls && polls[poll] == Answered(old(polls)[poll].id, Some(r))
      ensures Abstract() == Next(old(Abstract()),
        if ChannelOf(old(Abstract()), old(polls)[poll].id).Open? then ElapsePoll(poll) else FinishPoll(poll))
    {
      var id := polls[poll].id;
      assert PollInv(Abstract(), polls[poll]);
      var channel := tasks[id].channel;
      StepKeepsInv(Abstract(), if channel.Open? then ElapsePoll(poll) else FinishPoll(poll));
      match channel {
        case Sent(response) =>
          r := response;
        case Cancelled =>
          r := InternalError;
        case Open =>
          r := Pending(id, RETRY_AFTER);
      }
      polls := polls[poll := Answered(id, Some(r))];
    }

    /** A poll from start to end while nothing else happens: if there is no response, its timeout
        elapses. */
    method GetResponse(id: RequestId) returns (r: Option<SymbolicationResponse>)
      requires Valid()
      ensures r == if id !in requests then None
                   else match tasks[id].channel
                        case Sent(response) => Some(response)
                        case Cancelled => Some(InternalError)
                        case Open => Some(Pending(id, RETRY_AFTER))
    {
      if id !in requests {
        return None;
      }
      var channel := tasks[id].channel;
      if channel.Open? {
        return Some(Pending(id, RETRY_AFTER));
      }
      r := Some(AnswerFrom(channel));
    }
  }
}
