/**
 The session keeper of `LithosClient`: one task owns the session, any number of callers queue
 reconnect requests stamped with the generation they saw, and a sentinel shuts it down.

 A transition system at the granularity of the code's suspension points: what runs between two
 awaits is one step. Opening and closing a session may fail or be cancelled at any time.
 */
module KeeperProtocol {
  import opened Options

  datatype Request = Request(expectedGen: nat, done: bool, failed: bool)

  datatype Entry = Ask(id: nat) | Shutdown

  // How much of the connection is open: the event stream, the session's context on it, and `_session` itself.
  datatype Depth = Nothing | Stream | Context | Ready

  // Where a teardown was cut short: it swallows errors, but not a cancellation.
  datatype Cut = Uncut | AtContext | AtStream

  predicate MayCut(open: Depth, cut: Cut) {
    match cut
    case Uncut => true
    case AtContext => open.Context? || open.Ready?
    case AtStream => !open.Nothing?
  }

  // What a teardown leaves open.
  function TornDown(open: Depth, cut: Cut): Depth {
    match cut
    case Uncut => Nothing
    case AtContext => open
    case AtStream => Stream
  }

  // How connecting ends: an error is cleaned up after, a cancellation is not.
  datatype Connect = Opened | Broke(reached: Depth, cleanup: Cut) | Cancelled(reached: Depth)

  predicate MayConnect(c: Connect) {
    match c
    case Opened => true
    case Broke(reached, cleanup) => !reached.Ready? && MayCut(reached, cleanup)
    case Cancelled(reached) => !reached.Ready?
  }

  function Connected(c: Connect): Depth {
    match c
    case Opened => Ready
    case Broke(reached, cleanup) => TornDown(reached, cleanup)
    case Cancelled(reached) => reached
  }

  // Where the keeper task is suspended.
  datatype Keeper = Starting | Idle | TearingDown(id: nat) | Establishing(id: nat) | Closing | Exited

  datatype State = State(
    gen: nat,
    open: Depth,
    keeper: Keeper,
    queue: seq<Entry>,
    requests: seq<Request>,     // every request ever queued, by id
    reconnects: seq<nat>,       // the requests answered by a fresh session, in order
    drainedAt: Option<nat>)     // how many requests existed when the queue was drained

  datatype Event =
    | StartUp(c: Connect)
    | Enqueue(expectedGen: nat) // `_request_reconnect` of some caller
    | SendShutdown              // `__aexit__`
    | Take                      // the keeper's `queue.get()` returns
    | Cancel                    // the keeper is cancelled in `queue.get()`
    | TearDown(cut: Cut)
    | Establish(c: Connect)
    | Close(cut: Cut)

  const INITIAL := State(0, Nothing, Starting, [], [], [], None)

  predicate Enabled(s: State, e: Event) {
    match e
    case StartUp(c) => s.keeper.Starting? && MayConnect(c)
    case Enqueue(g) => !s.keeper.Exited? && g <= s.gen
    case SendShutdown => !s.keeper.Exited?
    case Take => s.keeper.Idle? && s.queue != []
    case Cancel => s.keeper.Idle?
    case TearDown(cut) => s.keeper.TearingDown? && MayCut(s.open, cut)
    case Establish(c) => s.keeper.Establishing? && MayConnect(c)
    case Close(cut) => s.keeper.Closing? && MayCut(s.open, cut)
  }

  // `_drain_pending_reconnects`: every request still queued fails, the queue is empty.
  function Drained(queue: seq<Entry>, requests: seq<Request>): (rs: seq<Request>)
    ensures |rs| == |requests|
    decreases |queue|
  {
    if queue == [] then requests
    else Drained(queue[1..], if queue[0].Ask? then Answered(requests, queue[0].id, true) else requests)
  }

  function Answered(requests: seq<Request>, id: nat, failed: bool): (rs: seq<Request>)
    ensures |rs| == |requests|
  {
    if id < |requests| then requests[id := Request(requests[id].expectedGen, true, failed)] else requests
  }

  // The keeper leaves its loop: drain, then the final teardown awaits if there is anything to close.
  function LeaveLoop(s: State, queue: seq<Entry>): State {
    s.(keeper := if s.open.Nothing? then Exited else Closing,
       queue := [], requests := Drained(queue, s.requests), drainedAt := Some(|s.requests|))
  }

  function After(s: State, e: Event): State
    requires Enabled(s, e)
  {
    match e
    case StartUp(c) => s.(keeper := if c.Opened? then Idle else Exited, open := Connected(c))
    case Enqueue(g) => s.(queue := s.queue + [Ask(|s.requests|)], requests := s.requests + [Request(g, false, false)])
    case SendShutdown => s.(queue := s.queue + [Shutdown])
    case Take =>
      (match s.queue[0]
       case Shutdown => LeaveLoop(s, s.queue[1..])
       case Ask(id) =>
         if id < |s.requests| && s.requests[id].expectedGen != s.gen
         then s.(queue := s.queue[1..], requests := Answered(s.requests, id, false))
         else s.(queue := s.queue[1..], keeper := if s.open.Nothing? then Establishing(id) else TearingDown(id)))
    case Cancel => LeaveLoop(s, s.queue)
    case TearDown(cut) =>
      var open := TornDown(s.open, cut);
      if cut.Uncut? then s.(keeper := Establishing(s.keeper.id), open := open)
      else s.(keeper := Idle, open := open, requests := Answered(s.requests, s.keeper.id, true))
    case Establish(c) =>
      var next := s.(keeper := Idle, open := Connected(c), requests := Answered(s.requests, s.keeper.id, !c.Opened?));
      if c.Opened? then next.(gen := s.gen + 1, reconnects := s.reconnects + [s.keeper.id]) else next
    case Close(cut) => s.(keeper := Exited, open := TornDown(s.open, cut))
  }

  ghost predicate IsRun(s: State, run: seq<Event>, t: State)
    decreases |run|
  {
    if run == [] then t == s else Enabled(s, run[0]) && IsRun(After(s, run[0]), run[1..], t)
  }

  // ---- The invariant ----------------------------------------------------------------------------

  // The request the keeper is working on.
  function InHand(s: State): Option<nat> {
    if s.keeper.TearingDown? || s.keeper.Establishing? then Some(s.keeper.id) else None
  }

  // Queued requests are unanswered, and in the order they were made.
  ghost predicate QueueInOrder(s: State) {
    && (forall i :: 0 <= i < |s.queue| && s.queue[i].Ask? ==>
          s.queue[i].id < |s.requests| && !s.requests[s.queue[i].id].done)
    && (forall i, j :: 0 <= i < j < |s.queue| && s.queue[i].Ask? && s.queue[j].Ask? ==> s.queue[i].id < s.queue[j].id)
  }

  ghost predicate HandIsCurrent(s: State) {
    InHand(s).Some? ==>
      var id := InHand(s).value;
      && id < |s.requests| && !s.requests[id].done && s.requests[id].expectedGen == s.gen
      && forall i :: 0 <= i < |s.queue| && s.queue[i].Ask? ==> id < s.queue[i].id
  }

  // No request is lost: an unanswered one is queued, in hand, or came too late.
  ghost predicate NoneLost(s: State) {
    forall id :: 0 <= id < |s.requests| && !s.requests[id].done ==>
      Ask(id) in s.queue || InHand(s) == Some(id) || (s.drainedAt.Some? && s.drainedAt.value <= id)
  }

  ghost predicate AnswersAreHonest(s: State) {
    forall id :: 0 <= id < |s.requests| ==>
      && s.requests[id].expectedGen <= s.gen
      && (s.requests[id].done && !s.requests[id].failed ==> s.requests[id].expectedGen < s.gen)
  }

  // The i-th fresh session was opened for a request stamped i, and made generation i + 1.
  ghost predicate OnePerGeneration(s: State) {
    && |s.reconnects| == s.gen
    && forall i :: 0 <= i < |s.reconnects| ==>
         s.reconnects[i] < |s.requests| && s.requests[s.reconnects[i]].expectedGen == i
  }

  ghost predicate DrainIsFinal(s: State) {
    && (s.drainedAt.Some? ==> (s.keeper.Closing? || s.keeper.Exited?) && s.drainedAt.value <= |s.requests|)
    && (s.keeper.Closing? ==> s.drainedAt.Some?)
    && (s.drainedAt.Some? ==>
          && (forall id :: 0 <= id < s.drainedAt.value ==> s.requests[id].done)
          && (forall id :: s.drainedAt.value <= id < |s.requests| ==> !s.requests[id].done))
    && (s.keeper.Starting? || (s.keeper.Exited? && s.drainedAt.None?) ==>
          forall id :: 0 <= id < |s.requests| ==> !s.requests[id].done)
  }

  // Connecting starts from nothing, and there is no teardown of nothing.
  ghost predicate SessionIsOwned(s: State) {
    && (s.keeper.Starting? || s.keeper.Establishing? ==> s.open.Nothing?)
    && (s.keeper.TearingDown? || s.keeper.Closing? ==> !s.open.Nothing?)
  }

  ghost predicate Inv(s: State) {
    && QueueInOrder(s) && HandIsCurrent(s) && NoneLost(s) && AnswersAreHonest(s)
    && OnePerGeneration(s) && DrainIsFinal(s) && SessionIsOwned(s)
  }

  lemma {:induction false} DrainedAnswersTheQueue(queue: seq<Entry>, requests: seq<Request>, id: nat)
    requires id < |requests|
    ensures var r := Drained(queue, requests)[id];
            r == if Ask(id) in queue then Request(requests[id].expectedGen, true, true) else requests[id]
    decreases |queue|
  {
    if queue != [] {
      var rest := if queue[0].Ask? then Answered(requests, queue[0].id, true) else requests;
      DrainedAnswersTheQueue(queue[1..], rest, id);
      assert Ask(id) in queue <==> queue[0] == Ask(id) || Ask(id) in queue[1..];
    }
  }

  // Leaving the loop answers everything there is.
  lemma LeaveLoopKeepsInv(s: State, queue: seq<Entry>)
    requires Inv(s) && s.keeper.Idle?
    requires queue == s.queue || (s.queue != [] && s.queue[0].Shutdown? && queue == s.queue[1..])
    ensures Inv(LeaveLoop(s, queue))
  {
    var t := LeaveLoop(s, queue);
    forall id | 0 <= id < |s.requests|
      ensures t.requests[id].done && t.requests[id].expectedGen == s.requests[id].expectedGen
      ensures !s.requests[id].done ==> t.requests[id].failed
      ensures s.requests[id].done ==> t.requests[id] == s.requests[id]
    {
      DrainedAnswersTheQueue(queue, s.requests, id);
      assert s.queue != [] ==> (Ask(id) in s.queue <==> s.queue[0] == Ask(id) || Ask(id) in s.queue[1..]);
      if Ask(id) in queue { var k :| 0 <= k < |s.queue| && s.queue[k] == Ask(id); }
    }
  }

  // A step that only appends to the queue loses no request.
  lemma AppendLosesNone(s: State, t: State)
    requires NoneLost(s) && s.queue <= t.queue && s.requests <= t.requests
    requires InHand(t) == InHand(s) && t.drainedAt == s.drainedAt
    requires forall id :: |s.requests| <= id < |t.requests| ==> Ask(id) in t.queue
    ensures NoneLost(t)
  {
    forall id | 0 <= id < |t.requests| && !t.requests[id].done
      ensures Ask(id) in t.queue || InHand(t) == Some(id) || (t.drainedAt.Some? && t.drainedAt.value <= id)
    {
      if id < |s.requests| {
        assert s.requests[id] == t.requests[id];
        if k :| 0 <= k < |s.queue| && s.queue[k] == Ask(id) { assert t.queue[k] == Ask(id); }
      }
    }
  }

  lemma EnqueueKeepsQueue(s: State, g: nat)
    requires QueueInOrder(s) && HandIsCurrent(s) && Enabled(s, Enqueue(g))
    ensures QueueInOrder(After(s, Enqueue(g))) && HandIsCurrent(After(s, Enqueue(g)))
  {}

  lemma EnqueueKeepsInv(s: State, g: nat)
    requires Inv(s) && Enabled(s, Enqueue(g))
    ensures Inv(After(s, Enqueue(g)))
  {
    var t := After(s, Enqueue(g));
    assert t.queue[|s.queue|] == Ask(|s.requests|);
    AppendLosesNone(s, t);
    EnqueueKeepsQueue(s, g);
  }

  lemma SendShutdownKeepsInv(s: State)
    requires Inv(s) && Enabled(s, SendShutdown)
    ensures Inv(After(s, SendShutdown))
  {
    AppendLosesNone(s, After(s, SendShutdown));
  }

  // The head of the queue leaves it: into the keeper's hand, or answered on the spot.
  lemma TakeLosesNone(s: State)
    requires NoneLost(s) && s.keeper.Idle? && s.queue != [] && s.queue[0].Ask?
    ensures NoneLost(After(s, Take))
  {
    var t := After(s, Take);
    forall id | 0 <= id < |t.requests| && !t.requests[id].done
      ensures Ask(id) in t.queue || InHand(t) == Some(id) || (t.drainedAt.Some? && t.drainedAt.value <= id)
    {
      assert Ask(id) in s.queue <==> s.queue[0] == Ask(id) || Ask(id) in s.queue[1..];
    }
  }

  lemma TakeKeepsQueue(s: State)
    requires QueueInOrder(s) && s.keeper.Idle? && s.queue != [] && s.queue[0].Ask?
    requires AnswersAreHonest(s)
    ensures QueueInOrder(After(s, Take)) && HandIsCurrent(After(s, Take)) && AnswersAreHonest(After(s, Take))
  {}

  lemma TakeKeepsInv(s: State)
    requires Inv(s) && Enabled(s, Take)
    ensures Inv(After(s, Take))
  {
    if s.queue[0].Shutdown? {
      LeaveLoopKeepsInv(s, s.queue[1..]);
    } else {
      TakeLosesNone(s);
      TakeKeepsQueue(s);
    }
  }

  // The keeper answers the request in hand and goes back to its queue.
  lemma AnswerLosesNone(s: State, t: State, failed: bool)
    requires NoneLost(s) && InHand(s).Some?
    requires t.requests == Answered(s.requests, InHand(s).value, failed) && t.queue == s.queue
             && t.drainedAt == s.drainedAt
    ensures NoneLost(t)
  {}

  lemma TearDownKeepsInv(s: State, e: Event)
    requires Inv(s) && Enabled(s, e) && e.TearDown?
    ensures Inv(After(s, e))
  {
    if !e.cut.Uncut? { AnswerLosesNone(s, After(s, e), true); }
  }

  lemma EstablishKeepsInv(s: State, e: Event)
    requires Inv(s) && Enabled(s, e) && e.Establish?
    ensures Inv(After(s, e))
  {
    AnswerLosesNone(s, After(s, e), !e.c.Opened?);
  }

  lemma StepKeepsInv(s: State, e: Event)
    requires Inv(s) && Enabled(s, e)
    ensures Inv(After(s, e)) && s.gen <= After(s, e).gen
  {
    match e
    case Enqueue(g) => EnqueueKeepsInv(s, g);
    case SendShutdown => SendShutdownKeepsInv(s);
    case Take => TakeKeepsInv(s);
    case Cancel => LeaveLoopKeepsInv(s, s.queue);
    case TearDown(_) => TearDownKeepsInv(s, e);
    case Establish(_) => EstablishKeepsInv(s, e);
    case _ =>
  }

  lemma {:induction false} RunKeepsInv(s: State, run: seq<Event>, t: State)
    requires Inv(s) && IsRun(s, run, t)
    ensures Inv(t) && s.gen <= t.gen && s.reconnects <= t.reconnects
    decreases |run|
  {
    if run != [] {
      StepKeepsInv(s, run[0]);
      RunKeepsInv(After(s, run[0]), run[1..], t);
    }
  }

  // ---- What callers may rely on, over every interleaving ------------------------------------------

  /** However many callers saw generation g fail, at most one fresh session is opened for them. */
  lemma OneReconnectPerGeneration(run: seq<Event>, t: State, i: nat, j: nat)
    requires IsRun(INITIAL, run, t) && i < |t.reconnects| && j < |t.reconnects|
    requires t.reconnects[i] < |t.requests| && t.reconnects[j] < |t.requests|
    requires t.requests[t.reconnects[i]].expectedGen == t.requests[t.reconnects[j]].expectedGen
    ensures i == j && t.gen == |t.reconnects|
  {
    RunKeepsInv(INITIAL, run, t);
  }

  /** Generations never go back, and each fresh session numbers one more than the last. */
  lemma GenerationsAdvance(s: State, run: seq<Event>, t: State)
    requires Inv(s) && IsRun(s, run, t)
    ensures s.gen <= t.gen && t.gen - s.gen == |t.reconnects| - |s.reconnects|
  {
    RunKeepsInv(s, run, t);
  }

  /** When the keeper has exited, a request is unanswered exactly if it was queued after the drain,
      or if the client never started; every other caller got an error or a newer generation. */
  lemma StrandedExactlyWhenTooLate(run: seq<Event>, t: State, id: nat)
    requires IsRun(INITIAL, run, t) && t.keeper.Exited? && id < |t.requests|
    ensures !t.requests[id].done <==> t.drainedAt.None? || t.drainedAt.value <= id
    ensures t.requests[id].done ==> t.requests[id].failed || t.requests[id].expectedGen < t.gen
  {
    RunKeepsInv(INITIAL, run, t);
  }

  // ---- What an answer says --------------------------------------------------------------------------

  // The step takes the keeper out of its loop.
  predicate Leaves(s: State, e: Event) { e.Cancel? || (e.Take? && s.queue != [] && s.queue[0].Shutdown?) }

  // The keeper's own attempt for this request comes to nothing in this step.
  predicate Fails(s: State, e: Event, id: nat) {
    InHand(s) == Some(id) &&
    (match e
     case TearDown(cut) => !cut.Uncut?
     case Establish(c) => !c.Opened?
     case _ => false)
  }

  /** A request is answered in one step only, and its answer stands. It fails exactly if the keeper leaves its loop in
      that step, or the generation is still the one the caller saw fail. */
  lemma AnswersAreExact(s: State, e: Event, id: nat)
    requires Inv(s) && Enabled(s, e) && id < |s.requests|
    ensures var t := After(s, e);
            && |t.requests| >= |s.requests| && t.requests[id].expectedGen == s.requests[id].expectedGen
            && (s.requests[id].done ==> t.requests[id] == s.requests[id])
            && (!s.requests[id].done && t.requests[id].done ==>
                  (t.requests[id].failed <==> Leaves(s, e) || t.gen == t.requests[id].expectedGen))
  {
    if Leaves(s, e) { DrainedAnswersTheQueue(if e.Cancel? then s.queue else s.queue[1..], s.requests, id); }
  }

  // The same by what happened: the request fails with the keeper's attempt for it, or is drained.
  lemma FailedByItsStep(s: State, e: Event, id: nat)
    requires Inv(s) && Enabled(s, e) && id < |s.requests| && !s.requests[id].done && After(s, e).requests[id].done
    ensures After(s, e).requests[id].failed <==> Fails(s, e, id) || Leaves(s, e)
  {
    AnswersAreExact(s, e, id);
  }

  // The request is failed by a step of the run.
  ghost predicate FailedIn(s: State, run: seq<Event>, id: nat)
    decreases |run|
  {
    run != [] && Enabled(s, run[0]) &&
    (Fails(s, run[0], id) || (Leaves(s, run[0]) && id < |s.requests| && !s.requests[id].done) ||
     FailedIn(After(s, run[0]), run[1..], id))
  }

  lemma {:induction false} DoneStays(s: State, run: seq<Event>, t: State, id: nat)
    requires Inv(s) && IsRun(s, run, t) && id < |s.requests| && s.requests[id].done
    ensures id < |t.requests| && t.requests[id] == s.requests[id] && !FailedIn(s, run, id)
    decreases |run|
  {
    if run != [] {
      AnswersAreExact(s, run[0], id);
      StepKeepsInv(s, run[0]);
      DoneStays(After(s, run[0]), run[1..], t, id);
    }
  }

  lemma {:induction false} FailsExactly(s: State, run: seq<Event>, t: State, id: nat)
    requires Inv(s) && IsRun(s, run, t) && id < |t.requests| && t.requests[id].done
    requires id < |s.requests| ==> !s.requests[id].done
    ensures t.requests[id].failed <==> FailedIn(s, run, id)
    decreases |run|
  {
    var u := After(s, run[0]);
    StepKeepsInv(s, run[0]);
    if id < |s.requests| && u.requests[id].done {
      FailedByItsStep(s, run[0], id);
      DoneStays(u, run[1..], t, id);
    } else {
      FailsExactly(u, run[1..], t, id);
      if id < |s.requests| { NotFailedYet(s, run[0], id); }
    }
  }

  // A step that fails a request, or drains it, answers it.
  lemma NotFailedYet(s: State, e: Event, id: nat)
    requires Inv(s) && Enabled(s, e) && id < |s.requests| && !s.requests[id].done && !After(s, e).requests[id].done
    ensures !Fails(s, e, id) && !Leaves(s, e)
  {
    if Leaves(s, e) { LeaveLoopKeepsInv(s, if e.Cancel? then s.queue else s.queue[1..]); }
  }

  /** Over every run: an answer is an error exactly if the keeper's own teardown or connection for that request came to
      nothing, or the request was drained; any other answer means that the generation has moved past the caller's. */
  lemma AnErrorMeansAFailure(run: seq<Event>, t: State, id: nat)
    requires IsRun(INITIAL, run, t) && id < |t.requests| && t.requests[id].done
    ensures t.requests[id].failed <==> FailedIn(INITIAL, run, id)
    ensures !t.requests[id].failed ==> t.requests[id].expectedGen < t.gen
  {
    FailsExactly(INITIAL, run, t, id);
    RunKeepsInv(INITIAL, run, t);
  }

  /** A new generation is a session that was just opened; a session goes only in a teardown, and an idle keeper that
      reports success has one. */
  lemma GenerationsAreSessions(s: State, e: Event)
    requires Inv(s) && Enabled(s, e)
    ensures var t := After(s, e);
            && (t.gen != s.gen <==> e == Establish(Opened))
            && (e == Establish(Opened) || e == StartUp(Opened) ==> t.open.Ready? && t.keeper.Idle?)
            && (t.open != s.open ==> e.StartUp? || e.TearDown? || e.Establish? || e.Close?)
            && (e.TearDown? ==>
                  t.open == match e.cut case Uncut => Nothing case AtContext => s.open case AtStream => Stream)
            && (e.TearDown? && e.cut.Uncut? ==> InHand(t) == InHand(s))
            && (e.Establish? && !e.c.Opened? ==> !t.open.Ready? && t.keeper.Idle?)
  {}

  /** A caller whose session was replaced meanwhile costs nothing: no session is opened for it, and it is told to go on
      unless it is drained. */
  lemma StaleRequestsAreWavedThrough(s: State, g: nat, run: seq<Event>, t: State)
    requires Inv(s) && Enabled(s, Enqueue(g)) && g < s.gen && IsRun(After(s, Enqueue(g)), run, t)
    ensures var id := |s.requests|;
            && id < |t.requests| && t.requests[id].expectedGen == g && id !in t.reconnects
            && (t.requests[id].done && t.requests[id].failed ==> t.drainedAt.Some? && id < t.drainedAt.value)
  {
    var u, id := After(s, Enqueue(g)), |s.requests|;
    StepKeepsInv(s, Enqueue(g));
    RunKeepsInv(u, run, t);
    StampsStay(u, run, t, id);
    assert t.reconnects[g] == s.reconnects[g] < id;
    StaleIsNeverInHand(u, run, t, id);
  }

  lemma {:induction false} StampsStay(s: State, run: seq<Event>, t: State, id: nat)
    requires Inv(s) && IsRun(s, run, t) && id < |s.requests|
    ensures id < |t.requests| && t.requests[id].expectedGen == s.requests[id].expectedGen
    decreases |run|
  {
    if run != [] {
      AnswersAreExact(s, run[0], id);
      StepKeepsInv(s, run[0]);
      StampsStay(After(s, run[0]), run[1..], t, id);
    }
  }

  lemma {:induction false} StaleIsNeverInHand(s: State, run: seq<Event>, t: State, id: nat)
    requires Inv(s) && IsRun(s, run, t) && id < |s.requests| && s.requests[id].expectedGen < s.gen
    requires s.requests[id].done && s.requests[id].failed ==> s.drainedAt.Some? && id < s.drainedAt.value
    ensures id < |t.requests|
    ensures t.requests[id].done && t.requests[id].failed ==> t.drainedAt.Some? && id < t.drainedAt.value
    decreases |run|
  {
    if run != [] {
      AnswersAreExact(s, run[0], id);
      StepKeepsInv(s, run[0]);
      StaleIsNeverInHand(After(s, run[0]), run[1..], t, id);
    }
  }

  // The final teardown was cut short while a session was set.
  predicate SessionCut(s: State, run: seq<Event>)
    decreases |run|
  {
    run != [] && Enabled(s, run[0]) &&
    ((run[0] == Close(AtContext) && s.open.Ready?) || SessionCut(After(s, run[0]), run[1..]))
  }

  // The final teardown, or the first connection, was cut short while anything was open.
  predicate CutShort(s: State, run: seq<Event>)
    decreases |run|
  {
    run != [] && Enabled(s, run[0]) &&
    (match run[0]
     case Close(cut) => !cut.Uncut?
     case StartUp(Broke(_, cleanup)) => !cleanup.Uncut?
     case StartUp(Cancelled(reached)) => !reached.Nothing?
     case _ => CutShort(After(s, run[0]), run[1..]))
  }

  lemma {:induction false} WhatIsLeft(s: State, run: seq<Event>, t: State)
    requires Inv(s) && !s.keeper.Exited? && IsRun(s, run, t) && t.keeper.Exited?
    ensures t.open.Ready? <==> SessionCut(s, run)
    ensures !t.open.Nothing? <==> CutShort(s, run)
    decreases |run|
  {
    var u := After(s, run[0]);
    StepKeepsInv(s, run[0]);
    if u.keeper.Exited? {
      assert run[1..] == [];
    } else {
      WhatIsLeft(u, run[1..], t);
    }
  }

  /** When the keeper has exited, the session is still set exactly if the final teardown was cut short while it was;
      and anything is still open exactly if that teardown, or the first connection, was cut short. */
  lemma SessionSurvivesExactly(run: seq<Event>, t: State)
    requires IsRun(INITIAL, run, t) && t.keeper.Exited?
    ensures t.open.Ready? <==> SessionCut(INITIAL, run)
    ensures !t.open.Nothing? <==> CutShort(INITIAL, run)
  {
    WhatIsLeft(INITIAL, run, t);
  }

  // ---- Runs that show it -------------------------------------------------------------------------------

  lemma {:induction false} RunGoesOn(s: State, run: seq<Event>, t: State, e: Event)
    requires IsRun(s, run, t) && Enabled(t, e)
    ensures IsRun(s, run + [e], After(t, e))
    decreases |run|
  {
    if run != [] {
      RunGoesOn(After(s, run[0]), run[1..], t, e);
      assert (run + [e])[1..] == run[1..] + [e];
    } else {
      assert [e][1..] == [];
      assert IsRun(After(t, e), [], After(t, e));
    }
  }

  // One more event of a run from the start.
  lemma Going(run: seq<Event>, t: State, e: Event) returns (longer: seq<Event>, u: State)
    requires IsRun(INITIAL, run, t) && Enabled(t, e)
    ensures IsRun(INITIAL, longer, u) && u == After(t, e)
  {
    RunGoesOn(INITIAL, run, t, e);
    longer, u := run + [e], After(t, e);
  }

  // Started, then told to shut down: the keeper is closing an open session.
  lemma ClosingASession() returns (run: seq<Event>, t: State)
    ensures IsRun(INITIAL, run, t) && t == State(0, Ready, Closing, [], [], [], Some(0))
  {
    run, t := [], INITIAL;
    run, t := Going(run, t, StartUp(Opened));
    run, t := Going(run, t, SendShutdown);
    run, t := Going(run, t, Take);
  }

  /** The window is real: a request queued while the final teardown awaits is never answered. */
  lemma TheWindowIsReal()
    ensures exists run, t :: IsRun(INITIAL, run, t) && t.keeper.Exited? && t.drainedAt.Some?
                             && |t.requests| == 1 && !t.requests[0].done
  {
    var run, t := ClosingASession();
    run, t := Going(run, t, Enqueue(0));
    run, t := Going(run, t, Close(Uncut));
  }

  /** So is the other way to be stranded: a request made while the first connection is failing. */
  lemma AFailedStartStrands()
    ensures exists run, t :: IsRun(INITIAL, run, t) && t.keeper.Exited? && t.drainedAt.None?
                             && |t.requests| == 1 && !t.requests[0].done
  {
    var run, t := [], INITIAL;
    run, t := Going(run, t, Enqueue(0));
    run, t := Going(run, t, StartUp(Broke(Stream, Uncut)));
  }

  /** Cancelling the final teardown leaves the session set. */
  lemma ACutTeardownLeavesTheSession()
    ensures exists run, t :: IsRun(INITIAL, run, t) && t.keeper.Exited? && t.open.Ready?
  {
    var run, t := ClosingASession();
    run, t := Going(run, t, Close(AtContext));
  }

  /** Cancelling the first connection leaves the event stream open. */
  lemma ACancelledStartLeavesTheStream()
    ensures exists run, t :: IsRun(INITIAL, run, t) && t.keeper.Exited? && t.open.Stream?
  {
    var run, t := Going([], INITIAL, StartUp(Cancelled(Stream)));
  }

  // ---- Shutdown terminates ---------------------------------------------------------------------------

  predicate IsKeeperStep(e: Event) { !e.Enqueue? && !e.SendShutdown? }

  // How many entries stand before the first sentinel.
  function BeforeShutdown(queue: seq<Entry>): nat {
    if queue == [] || queue[0].Shutdown? then 0 else 1 + BeforeShutdown(queue[1..])
  }

  // How many steps of its own the keeper may still take once a sentinel is queued.
  function StepsLeft(s: State): nat {
    match s.keeper
    case Exited => 0
    case Closing => 1
    case Idle => 3 * BeforeShutdown(s.queue) + 2
    case Establishing(_) => 3 * BeforeShutdown(s.queue) + 3
    case TearingDown(_) => 3 * BeforeShutdown(s.queue) + 4
    case Starting => 3 * BeforeShutdown(s.queue) + 3
  }

  ghost predicate ShuttingDown(s: State) {
    s.keeper.Closing? || s.keeper.Exited? || Shutdown in s.queue
  }

  lemma {:induction false} AppendingBehindShutdown(queue: seq<Entry>, e: Entry)
    requires Shutdown in queue
    ensures BeforeShutdown(queue + [e]) == BeforeShutdown(queue)
  {
    if !queue[0].Shutdown? {
      AppendingBehindShutdown(queue[1..], e);
      assert (queue + [e])[1..] == queue[1..] + [e];
    }
  }

  /** Once a sentinel is queued the keeper is never stuck, each step of its own brings the exit
      nearer, and no caller can push it away. */
  lemma ShutdownMakesProgress(s: State, e: Event)
    requires ShuttingDown(s) && Enabled(s, e)
    ensures ShuttingDown(After(s, e))
    ensures IsKeeperStep(e) ==> StepsLeft(After(s, e)) < StepsLeft(s)
    ensures !IsKeeperStep(e) ==> StepsLeft(After(s, e)) == StepsLeft(s)
  {
    if !IsKeeperStep(e) {
      if Shutdown in s.queue {
        var added := if e.Enqueue? then Ask(|s.requests|) else Shutdown;
        AppendingBehindShutdown(s.queue, added);
        assert Shutdown in s.queue + [added];
      }
    } else if e.Take? && s.queue[0].Ask? {
      assert Shutdown in s.queue[1..];
    }
  }

  lemma KeeperIsNeverStuck(s: State)
    requires ShuttingDown(s) && !s.keeper.Exited?
    ensures exists e :: IsKeeperStep(e) && Enabled(s, e)
  {
    var e := match s.keeper
      case Starting => StartUp(Opened)
      case Idle => Take
      case TearingDown(_) => TearDown(Uncut)
      case Establishing(_) => Establish(Opened)
      case Closing => Close(Uncut)
      case Exited => Close(Uncut);
    assert IsKeeperStep(e) && Enabled(s, e);
  }

  function KeeperSteps(run: seq<Event>): nat {
    if run == [] then 0 else (if IsKeeperStep(run[0]) then 1 else 0) + KeeperSteps(run[1..])
  }

  /** From the sentinel on, no run holds more keeper steps than were left: shutdown always ends. */
  lemma {:induction false} ShutdownIsBounded(s: State, run: seq<Event>, t: State)
    requires ShuttingDown(s) && IsRun(s, run, t)
    ensures KeeperSteps(run) + StepsLeft(t) <= StepsLeft(s) && ShuttingDown(t)
    decreases |run|
  {
    if run != [] {
      ShutdownMakesProgress(s, run[0]);
      ShutdownIsBounded(After(s, run[0]), run[1..], t);
    }
  }

  // ---- The drain as the loop the code runs --------------------------------------------------------------

  class ReconnectQueue {
    var entries: seq<Entry>
    var requests: seq<Request>

    /** `_drain_pending_reconnects`. */
    method DrainPendingReconnects()
      modifies this
      ensures entries == []
      ensures requests == Drained(old(entries), old(requests))
    {
      while entries != []
        invariant Drained(entries, requests) == Drained(old(entries), old(requests))
        decreases |entries|
      {
        var entry := entries[0];
        entries := entries[1..];
        if entry.Ask? {
          requests := Answered(requests, entry.id, true);
        }
      }
    }
  }
}
