/**
 Claiming one aspect of one task through `LithosClient.task_claim`: any number of processes, a
 server, and a transport that may fail before or after the server acts, or long after the caller
 gave up on the call.

 Each process runs `_invoke` (three attempts, a reconnect between them) for the claim and, when a
 retried claim is reported as failed, again for the status read. Reconnects succeed or fail at
 will, which covers everything the keeper can do.
 */
module ClaimProtocol {
  import opened Options

  const MAX_ATTEMPTS := 3

  datatype Tool = Claim | Status

  // What the server answers: granted (with or without an expiry), the `claim_failed` code, the
  // claims on the task, or anything else (no such task, another error code).
  datatype Answer = Granted(expires: bool) | ClaimFailed | Claims(holder: Option<nat>) | OtherError

  // One `call_tool`: served at most once, at some position of the server's log.
  datatype Call = Call(caller: nat, tool: Tool, sentAt: nat, answer: Option<Answer>, servedAt: nat)

  datatype Phase =
    | NotStarted
    | Ready(tool: Tool)                        // at the top of the retry loop
    | InCall(tool: Tool, call: nat)
    | Reconnecting(tool: Tool, failed: bool)   // after a failed call, or because there was no session
    | Returned(servedAt: nat, recovered: bool)
    | Raised

  // `retried` is the per-call flag; `failures` counts failed calls of the claim `_invoke`.
  datatype Process = Process(agent: nat, phase: Phase, attempt: nat, retried: bool, startedAt: nat, failures: nat)

  datatype Entry =
    | Served(call: nat, caller: nat, granted: Option<nat>)   // granted to this agent, if at all
    | Freed                                                  // a release or an expiry

  datatype State = State(strict: bool, processes: seq<Process>, calls: seq<Call>, log: seq<Entry>)

  datatype Event =
    | Begin(p: nat)
    | Send(p: nat)
    | FindNoSession(p: nat)
    | FailCall(p: nat)
    | Reconnect(p: nat, ok: bool)
    | GiveUp(p: nat)
    | Deliver(p: nat)
    | Serve(call: nat, answer: Answer)
    | Free

  // ---- The server --------------------------------------------------------------------------------

  // Who holds the aspect after the first n entries of the log.
  function HolderAfter(log: seq<Entry>, n: nat): Option<nat>
    requires n <= |log|
  {
    if n == 0 then None
    else
      match log[n - 1]
      case Freed => None
      case Served(_, _, granted) => if granted.Some? then granted else HolderAfter(log, n - 1)
  }

  function Holder(s: State): Option<nat> { HolderAfter(s.log, |s.log|) }

  // A claim is granted only on a free aspect, or again to its holder unless the server is strict
  // about that; `claim_failed` may come for other reasons too (the task is not open).
  predicate MayAnswer(s: State, tool: Tool, agent: nat, answer: Answer) {
    match answer
    case Granted(_) => tool.Claim? && (Holder(s).None? || (!s.strict && Holder(s) == Some(agent)))
    case ClaimFailed => tool.Claim?
    case Claims(h) => tool.Status? && h == Holder(s)
    case OtherError => true
  }

  // ---- The steps ----------------------------------------------------------------------------------

  predicate Enabled(s: State, e: Event) {
    match e
    case Begin(p) => p < |s.processes| && s.processes[p].phase.NotStarted?
    case Send(p) => p < |s.processes| && s.processes[p].phase.Ready? && s.processes[p].attempt < MAX_ATTEMPTS
    case FindNoSession(p) => p < |s.processes| && s.processes[p].phase.Ready? && s.processes[p].attempt < MAX_ATTEMPTS
    case FailCall(p) => p < |s.processes| && s.processes[p].phase.InCall?
    case Reconnect(p, _) => p < |s.processes| && s.processes[p].phase.Reconnecting?
    case GiveUp(p) => p < |s.processes| && s.processes[p].phase.Ready? && s.processes[p].attempt >= MAX_ATTEMPTS
    case Deliver(p) =>
      && p < |s.processes| && s.processes[p].phase.InCall? && s.processes[p].phase.call < |s.calls|
      && s.calls[s.processes[p].phase.call].answer.Some?
    case Serve(c, answer) =>
      && c < |s.calls| && s.calls[c].answer.None? && s.calls[c].caller < |s.processes|
      && MayAnswer(s, s.calls[c].tool, s.processes[s.calls[c].caller].agent, answer)
    case Free => true
  }

  // What `task_claim` does with the response to its current call.
  function OnResponse(q: Process, call: Call): Process
    requires q.phase.InCall? && call.answer.Some?
  {
    match (q.phase.tool, call.answer.value)
    case (Claim, Granted(expires)) =>
      q.(phase := if expires then Returned(call.servedAt, false) else Raised)
    case (Claim, ClaimFailed) =>
      if q.retried then q.(phase := Ready(Status), attempt := 0, retried := false) else q.(phase := Raised)
    case (Status, Claims(holder)) =>
      q.(phase := if holder == Some(q.agent) then Returned(call.servedAt, true) else Raised)
    case _ => q.(phase := Raised)
  }

  function ProcessAfter(s: State, e: Event, q: Process): Process
    requires Enabled(s, e)
  {
    match e
    case Begin(_) => q.(phase := Ready(Claim), attempt := 0, retried := false, startedAt := |s.log|, failures := 0)
    case Send(_) => if q.phase.Ready? then q.(phase := InCall(q.phase.tool, |s.calls|)) else q
    case FindNoSession(_) => if q.phase.Ready? then q.(phase := Reconnecting(q.phase.tool, false)) else q
    case FailCall(_) =>
      if !q.phase.InCall? then q
      else
        var failures := if q.phase.tool.Claim? then q.failures + 1 else q.failures;
        if q.attempt == MAX_ATTEMPTS - 1 then q.(phase := Raised, failures := failures)
        else q.(phase := Reconnecting(q.phase.tool, true), failures := failures)
    case Reconnect(_, ok) =>
      if !q.phase.Reconnecting? then q
      else if ok then q.(phase := Ready(q.phase.tool), attempt := q.attempt + 1, retried := q.retried || q.phase.failed)
      else q.(phase := Raised)
    case GiveUp(_) => q.(phase := Raised)
    case Deliver(p) =>
      if q.phase.InCall? && q.phase.call < |s.calls| && s.calls[q.phase.call].answer.Some?
      then OnResponse(q, s.calls[q.phase.call]) else q
    case _ => q
  }

  function After(s: State, e: Event): State
    requires Enabled(s, e)
  {
    match e
    case Free => s.(log := s.log + [Freed])
    case Serve(c, answer) =>
      var call := s.calls[c];
      var granted := if answer.Granted? then Some(s.processes[call.caller].agent) else None;
      s.(calls := s.calls[c := call.(answer := Some(answer), servedAt := |s.log|)],
         log := s.log + [Served(c, call.caller, granted)])
    case Send(p) =>
      var q := s.processes[p];
      s.(processes := s.processes[p := ProcessAfter(s, e, q)],
         calls := s.calls + [Call(p, q.phase.tool, |s.log|, None, 0)])
    case _ => s.(processes := s.processes[e.p := ProcessAfter(s, e, s.processes[e.p])])
  }

  ghost predicate IsRun(s: State, run: seq<Event>, t: State)
    decreases |run|
  {
    if run == [] then t == s else Enabled(s, run[0]) && IsRun(After(s, run[0]), run[1..], t)
  }

  ghost predicate Fresh(s: State) {
    && s.calls == [] && s.log == []
    && forall p :: 0 <= p < |s.processes| ==>
          s.processes[p] == Process(s.processes[p].agent, NotStarted, 0, false, 0, 0)
  }

  // ---- The invariant --------------------------------------------------------------------------------

  // The log only grants what the server may grant.
  ghost predicate LogIsSound(strict: bool, log: seq<Entry>) {
    forall k :: 0 <= k < |log| && log[k].Served? && log[k].granted.Some? ==>
      HolderAfter(log, k).None? || (!strict && HolderAfter(log, k) == log[k].granted)
  }

  // The server answers the tool that was called.
  predicate AnswersTool(tool: Tool, answer: Answer) {
    ((answer.Granted? || answer.ClaimFailed?) ==> tool.Claim?) && (answer.Claims? ==> tool.Status?)
  }

  // A served call says what the log says at the position it was served.
  ghost predicate CallIsSound(processes: seq<Process>, log: seq<Entry>, c: nat, call: Call) {
    && call.caller < |processes| && call.sentAt <= |log|
    && (call.answer.Some? ==>
          && call.sentAt <= call.servedAt < |log|
          && AnswersTool(call.tool, call.answer.value)
          && (var agent := processes[call.caller].agent;
              && log[call.servedAt] == Served(c, call.caller, if call.answer.value.Granted? then Some(agent) else None)
              && (call.answer.value.Granted? ==> call.tool.Claim? && HolderAfter(log, call.servedAt + 1) == Some(agent))
              && (call.answer.value.Claims? ==> HolderAfter(log, call.servedAt + 1) == call.answer.value.holder)))
  }

  // What a process may conclude in its phase.
  ghost predicate ProcessIsSound(calls: seq<Call>, log: seq<Entry>, p: nat, q: Process) {
    && q.startedAt <= |log|
    && (q.phase.InCall? ==>
          && q.phase.call < |calls| && calls[q.phase.call].caller == p
          && calls[q.phase.call].tool == q.phase.tool && q.startedAt <= calls[q.phase.call].sentAt)
    && ((q.phase.Ready? || q.phase.InCall? || q.phase.Reconnecting?) ==>
          (q.retried && q.phase.tool.Claim?) || q.phase.tool.Status? ==> q.failures > 0)
    && (q.phase.Reconnecting? && q.phase.failed && q.phase.tool.Claim? ==> q.failures > 0)
    && (q.phase.Returned? ==>
          && q.startedAt <= q.phase.servedAt < |log|
          && HolderAfter(log, q.phase.servedAt + 1) == Some(q.agent)
          && log[q.phase.servedAt].Served? && log[q.phase.servedAt].caller == p
          && (if q.phase.recovered then q.failures > 0 && log[q.phase.servedAt].granted.None?
              else log[q.phase.servedAt].granted == Some(q.agent)))
  }

  ghost predicate Inv(s: State) {
    && LogIsSound(s.strict, s.log)
    && (forall c :: 0 <= c < |s.calls| ==> CallIsSound(s.processes, s.log, c, s.calls[c]))
    && (forall p :: 0 <= p < |s.processes| ==> ProcessIsSound(s.calls, s.log, p, s.processes[p]))
  }

  lemma {:induction false} PrefixHolder(log: seq<Entry>, more: seq<Entry>, n: nat)
    requires n <= |log|
    ensures HolderAfter(log + more, n) == HolderAfter(log, n)
  {
    if n > 0 { PrefixHolder(log, more, n - 1); }
  }

  lemma LogGrowsSound(strict: bool, log: seq<Entry>, entry: Entry)
    requires LogIsSound(strict, log)
    requires entry.Served? && entry.granted.Some? ==>
               HolderAfter(log, |log|).None? || (!strict && HolderAfter(log, |log|) == entry.granted)
    ensures LogIsSound(strict, log + [entry])
  {
    var more := log + [entry];
    forall k | 0 <= k < |more| && more[k].Served? && more[k].granted.Some?
      ensures HolderAfter(more, k).None? || (!strict && HolderAfter(more, k) == more[k].granted)
    {
      PrefixHolder(log, [entry], k);
    }
  }

  lemma CallSurvivesLog(processes: seq<Process>, log: seq<Entry>, entry: Entry, c: nat, call: Call)
    requires CallIsSound(processes, log, c, call)
    ensures CallIsSound(processes, log + [entry], c, call)
  {
    if call.answer.Some? { PrefixHolder(log, [entry], call.servedAt + 1); }
  }

  lemma ProcessSurvivesLog(calls: seq<Call>, log: seq<Entry>, entry: Entry, p: nat, q: Process)
    requires ProcessIsSound(calls, log, p, q)
    ensures ProcessIsSound(calls, log + [entry], p, q)
  {
    if q.phase.Returned? { PrefixHolder(log, [entry], q.phase.servedAt + 1); }
  }

  lemma FreeKeepsInv(s: State)
    requires Inv(s)
    ensures Inv(After(s, Free))
  {
    LogGrowsSound(s.strict, s.log, Freed);
    forall c | 0 <= c < |s.calls| ensures CallIsSound(s.processes, s.log + [Freed], c, s.calls[c]) {
      CallSurvivesLog(s.processes, s.log, Freed, c, s.calls[c]);
    }
    forall p | 0 <= p < |s.processes| ensures ProcessIsSound(s.calls, s.log + [Freed], p, s.processes[p]) {
      ProcessSurvivesLog(s.calls, s.log, Freed, p, s.processes[p]);
    }
  }

  lemma ServeKeepsInv(s: State, c: nat, answer: Answer)
    requires Inv(s) && Enabled(s, Serve(c, answer))
    ensures Inv(After(s, Serve(c, answer)))
  {
    var t := After(s, Serve(c, answer));
    var entry := t.log[|s.log|];
    assert t.log == s.log + [entry];
    LogGrowsSound(s.strict, s.log, entry);
    PrefixHolder(s.log, [entry], |s.log|);
    forall d | 0 <= d < |t.calls| ensures CallIsSound(t.processes, t.log, d, t.calls[d]) {
      if d != c { CallSurvivesLog(s.processes, s.log, entry, d, s.calls[d]); }
    }
    forall p | 0 <= p < |t.processes| ensures ProcessIsSound(t.calls, t.log, p, t.processes[p]) {
      ProcessSurvivesLog(s.calls, s.log, entry, p, s.processes[p]);
    }
  }

  // A process step: only process p changes, and only its phase bookkeeping.
  lemma ProcessStepKeepsInv(s: State, e: Event)
    requires Inv(s) && Enabled(s, e) && !e.Free? && !e.Serve? && !e.Send?
    ensures Inv(After(s, e))
  {
    var t := After(s, e);
    forall c | 0 <= c < |t.calls| ensures CallIsSound(t.processes, t.log, c, t.calls[c]) {
      assert CallIsSound(s.processes, s.log, c, s.calls[c]);
    }
    forall p | 0 <= p < |t.processes| ensures ProcessIsSound(t.calls, t.log, p, t.processes[p]) {
      assert ProcessIsSound(s.calls, s.log, p, s.processes[p]);
      if p == e.p { OwnStepIsSound(s, e); }
    }
  }

  lemma OwnStepIsSound(s: State, e: Event)
    requires Inv(s) && Enabled(s, e) && !e.Free? && !e.Serve? && !e.Send?
    ensures ProcessIsSound(s.calls, s.log, e.p, ProcessAfter(s, e, s.processes[e.p]))
  {
    var q := s.processes[e.p];
    assert ProcessIsSound(s.calls, s.log, e.p, q);
    if e.Deliver? {
      assert CallIsSound(s.processes, s.log, q.phase.call, s.calls[q.phase.call]);
    }
  }

  lemma SendKeepsInv(s: State, p: nat)
    requires Inv(s) && Enabled(s, Send(p))
    ensures Inv(After(s, Send(p)))
  {
    var t := After(s, Send(p));
    forall c | 0 <= c < |t.calls| ensures CallIsSound(t.processes, t.log, c, t.calls[c]) {
      if c < |s.calls| { assert CallIsSound(s.processes, s.log, c, s.calls[c]); }
    }
    forall o | 0 <= o < |t.processes| ensures ProcessIsSound(t.calls, t.log, o, t.processes[o]) {
      assert ProcessIsSound(s.calls, s.log, o, s.processes[o]);
    }
  }

  lemma {:induction false} RunKeepsInv(s: State, run: seq<Event>, t: State)
    requires Inv(s) && IsRun(s, run, t)
    ensures Inv(t) && t.strict == s.strict && |t.processes| == |s.processes|
    decreases |run|
  {
    if run != [] {
      match run[0] {
        case Free => FreeKeepsInv(s);
        case Serve(c, answer) => ServeKeepsInv(s, c, answer);
        case Send(p) => SendKeepsInv(s, p);
        case _ => ProcessStepKeepsInv(s, run[0]);
      }
      RunKeepsInv(After(s, run[0]), run[1..], t);
    }
  }

  // ---- What `task_claim` promises -----------------------------------------------------------------------

  /** Whenever it returns, the server's holder was the caller's agent at the deciding response or
      status read, and that moment lies inside the call. */
  lemma ReturnMeansHeld(s: State, run: seq<Event>, t: State, p: nat)
    requires Fresh(s) && IsRun(s, run, t) && p < |t.processes| && t.processes[p].phase.Returned?
    ensures var q := t.processes[p];
            && q.startedAt <= q.phase.servedAt < |t.log|
            && HolderAfter(t.log, q.phase.servedAt + 1) == Some(q.agent)
  {
    RunKeepsInv(s, run, t);
  }

  /** A `claim_failed` that was turned into success had an earlier failed call in the same `_invoke`. */
  lemma RecoveryFollowsAFailure(s: State, run: seq<Event>, t: State, p: nat)
    requires Fresh(s) && IsRun(s, run, t) && p < |t.processes|
    requires t.processes[p].phase.Returned? && t.processes[p].phase.recovered
    ensures t.processes[p].failures > 0
  {
    RunKeepsInv(s, run, t);
  }

  // Once held, an aspect changes hands only through a release or an expiry.
  lemma {:induction false} HoldersChangeThroughFree(strict: bool, log: seq<Entry>, i: nat, j: nat, agent: nat)
    requires LogIsSound(strict, log) && i <= j <= |log| && HolderAfter(log, i) == Some(agent)
    requires forall k :: i <= k < j ==> !log[k].Freed?
    ensures HolderAfter(log, j) == Some(agent)
    ensures strict ==> forall k :: i <= k < j && log[k].Served? ==> log[k].granted.None?
  {
    if i < j { HoldersChangeThroughFree(strict, log, i, j - 1, agent); }
  }

  /** The holder after n entries is the agent of a grant with no release or expiry, and no other grant, since. */
  lemma {:induction false} HolderExactly(log: seq<Entry>, n: nat, agent: nat)
    requires n <= |log|
    ensures HolderAfter(log, n) == Some(agent) <==>
            exists k :: 0 <= k < n && log[k].Served? && log[k].granted == Some(agent) &&
                        forall j :: k < j < n ==> log[j].Served? && log[j].granted.None?
  {
    if n > 0 { HolderExactly(log, n - 1, agent); }
  }

  /** Two processes with different agents both return only if the claim was freed in between. */
  lemma AgentsExcludeEachOther(s: State, run: seq<Event>, t: State, p: nat, q: nat)
    requires Fresh(s) && IsRun(s, run, t) && p < |t.processes| && q < |t.processes|
    requires t.processes[p].phase.Returned? && t.processes[q].phase.Returned?
    requires t.processes[p].agent != t.processes[q].agent
    requires t.processes[p].phase.servedAt <= t.processes[q].phase.servedAt
    ensures exists k ::
              t.processes[p].phase.servedAt < k < t.processes[q].phase.servedAt && k < |t.log| && t.log[k].Freed?
  {
    RunKeepsInv(s, run, t);
    var i, j := t.processes[p].phase.servedAt, t.processes[q].phase.servedAt;
    if forall k :: i < k < j ==> !t.log[k].Freed? {
      HoldersChangeThroughFree(t.strict, t.log, i + 1, j + 1, t.processes[p].agent);
    }
  }

  // Two processes of one agent have both returned, p first, and nothing was freed in between.
  ghost predicate BothReturned(t: State, p: nat, q: nat) {
    && p != q && p < |t.processes| && q < |t.processes| && t.processes[p].agent == t.processes[q].agent
    && t.processes[p].phase.Returned? && t.processes[q].phase.Returned?
    && t.processes[p].phase.servedAt <= t.processes[q].phase.servedAt
    && forall k :: t.processes[p].phase.servedAt < k < t.processes[q].phase.servedAt && k < |t.log| ==>
         !t.log[k].Freed?
  }

  /** Against a server that refuses a second claim by the holder's own agent, two processes sharing an
      agent both return, with no release between, only if the later one recovered after a failed call:
      a first-attempt `claim_failed` is never taken for success. */
  lemma SharedAgentNeedsAFailure(s: State, run: seq<Event>, t: State, p: nat, q: nat)
    requires Fresh(s) && s.strict && IsRun(s, run, t) && BothReturned(t, p, q)
    ensures t.processes[q].phase.recovered && t.processes[q].failures > 0
  {
    RunKeepsInv(s, run, t);
    var i, j := t.processes[p].phase.servedAt, t.processes[q].phase.servedAt;
    assert ProcessIsSound(t.calls, t.log, p, t.processes[p]) && ProcessIsSound(t.calls, t.log, q, t.processes[q]);
    assert i < j;
    HoldersChangeThroughFree(t.strict, t.log, i + 1, j + 1, t.processes[p].agent);
  }

  lemma {:induction false} RunGoesOn(s: State, run: seq<Event>, t: State, e: Event)
    requires IsRun(s, run, t) && Enabled(t, e)
    ensures IsRun(s, run + [e], After(t, e))
    decreases |run|
  {
    if run != [] {
      RunGoesOn(After(s, run[0]), run[1..], t, e);
      assert (run + [e])[1..] == run[1..] + [e];
    } else {
      assert [e][1..] == [];
      assert IsRun(After(t, e), [], After(t, e));
    }
  }

  // One more event of a run that starts at s.
  lemma Going(s: State, run: seq<Event>, t: State, e: Event) returns (longer: seq<Event>, u: State)
    requires IsRun(s, run, t) && Enabled(t, e)
    ensures IsRun(s, longer, u) && u == After(t, e)
  {
    RunGoesOn(s, run, t, e);
    longer, u := run + [e], After(t, e);
  }

  // Two processes of one agent, before either calls.
  function Twins(strict: bool): State {
    State(strict, [Process(0, NotStarted, 0, false, 0, 0), Process(0, NotStarted, 0, false, 0, 0)], [], [])
  }

  const GRANTED_CALL := Call(0, Claim, 0, Some(Granted(true)), 0)

  // The first process claims.
  lemma FirstTwinReturns(strict: bool) returns (run: seq<Event>, t: State)
    ensures IsRun(Twins(strict), run, t)
    ensures t == State(strict, [Process(0, Returned(0, false), 0, false, 0, 0), Process(0, NotStarted, 0, false, 0, 0)],
                       [GRANTED_CALL], [Served(0, 0, Some(0))])
  {
    run, t := [], Twins(strict);
    run, t := Going(Twins(strict), run, t, Begin(0));
    run, t := Going(Twins(strict), run, t, Send(0));
    run, t := Going(Twins(strict), run, t, Serve(0, Granted(true)));
    run, t := Going(Twins(strict), run, t, Deliver(0));
  }

  // The second begins, and its first call is lost on the way to the server.
  lemma SecondTwinRetries(strict: bool) returns (run: seq<Event>, t: State)
    ensures IsRun(Twins(strict), run, t)
    ensures t == State(strict,
                       [Process(0, Returned(0, false), 0, false, 0, 0), Process(0, Ready(Claim), 1, true, 1, 1)],
                       [GRANTED_CALL, Call(1, Claim, 1, None, 0)], [Served(0, 0, Some(0))])
  {
    run, t := FirstTwinReturns(strict);
    run, t := Going(Twins(strict), run, t, Begin(1));
    run, t := Going(Twins(strict), run, t, Send(1));
    run, t := Going(Twins(strict), run, t, FailCall(1));
    run, t := Going(Twins(strict), run, t, Reconnect(1, true));
  }

  // Its second call is refused, since the first process holds the aspect.
  lemma SecondTwinIsRefused(strict: bool) returns (run: seq<Event>, t: State)
    ensures IsRun(Twins(strict), run, t)
    ensures t.processes == [Process(0, Returned(0, false), 0, false, 0, 0), Process(0, Ready(Status), 0, false, 1, 1)]
    ensures |t.calls| == 3 && t.log == [Served(0, 0, Some(0)), Served(2, 1, None)]
  {
    run, t := SecondTwinRetries(strict);
    run, t := Going(Twins(strict), run, t, Send(1));
    run, t := Going(Twins(strict), run, t, Serve(2, ClaimFailed));
    run, t := Going(Twins(strict), run, t, Deliver(1));
  }

  /** The retry flag only narrows the hazard: a process whose first call never reached the server still takes a
      twin's claim for its own, and both run. */
  lemma TwinsCanBothReturn(strict: bool) returns (run: seq<Event>, t: State)
    ensures IsRun(Twins(strict), run, t) && BothReturned(t, 0, 1) && t.processes[1].failures > 0
  {
    run, t := SecondTwinIsRefused(strict);
    run, t := Going(Twins(strict), run, t, Send(1));
    assert HolderAfter(t.log, 1) == Some(0) && HolderAfter(t.log, 2) == Some(0);
    run, t := Going(Twins(strict), run, t, Serve(3, Claims(Some(0))));
    run, t := Going(Twins(strict), run, t, Deliver(1));
  }

  /** A server that grants the aspect again to its holder's own agent lets both return without a failed call. */
  lemma TwinsAreBothGranted() returns (run: seq<Event>, t: State)
    ensures IsRun(Twins(false), run, t) && BothReturned(t, 0, 1) && t.processes[1].failures == 0
  {
    run, t := FirstTwinReturns(false);
    run, t := Going(Twins(false), run, t, Begin(1));
    run, t := Going(Twins(false), run, t, Send(1));
    assert HolderAfter(t.log, 1) == Some(0);
    run, t := Going(Twins(false), run, t, Serve(1, Granted(true)));
    run, t := Going(Twins(false), run, t, Deliver(1));
  }

  // No run against such a server ends so with failed calls of the later process, or with none.
  ghost predicate TwinsExclude(strict: bool, failed: bool) {
    forall s, run, t, p: nat, q: nat ::
      Fresh(s) && s.strict == strict && IsRun(s, run, t) && BothReturned(t, p, q) ==>
        (t.processes[q].failures > 0) != failed
  }

  /** Processes sharing an agent exclude each other exactly if the server refuses the holder's own agent and the later
      one had no failed call. */
  lemma TwinsExcludeExactly(strict: bool, failed: bool)
    ensures TwinsExclude(strict, failed) <==> strict && !failed
  {
    if failed {
      var run, t := TwinsCanBothReturn(strict);
      assert Fresh(Twins(strict)) && BothReturned(t, 0, 1);
    } else if !strict {
      var run, t := TwinsAreBothGranted();
      assert Fresh(Twins(false)) && BothReturned(t, 0, 1);
    } else {
      forall s, run, t, p: nat, q: nat | Fresh(s) && s.strict && IsRun(s, run, t) && BothReturned(t, p, q)
        ensures t.processes[q].failures > 0
      {
        SharedAgentNeedsAFailure(s, run, t, p, q);
      }
    }
  }

  // ---- When `task_claim` returns -------------------------------------------------------------------------

  // What p has been through in its current `_invoke`, read off the events of a run alone: how many tries came to
  // nothing, whether a call failed, and whether a reconnect followed one that did.
  datatype Story = Story(attempts: nat, failed: bool, reconnected: bool)

  const NO_STORY := Story(0, false, false)

  function Told(story: Story, e: Event, p: nat): Story {
    match e
    case FailCall(q) => if q == p then Story(story.attempts + 1, true, story.reconnected) else story
    case FindNoSession(q) => if q == p then story.(attempts := story.attempts + 1) else story
    case Reconnect(q, ok) => if q == p && ok && story.failed then story.(reconnected := true) else story
    case Deliver(q) => if q == p then NO_STORY else story
    case _ => story
  }

  function StoryOf(story: Story, run: seq<Event>, p: nat): Story
    decreases |run|
  {
    if run == [] then story else StoryOf(Told(story, run[0], p), run[1..], p)
  }

  // The process is where its story says.
  predicate Follows(q: Process, story: Story) {
    match q.phase
    case NotStarted => story == NO_STORY
    case Ready(_) => story.attempts == q.attempt <= MAX_ATTEMPTS && q.retried == story.failed == story.reconnected
    case InCall(_, _) => story.attempts == q.attempt < MAX_ATTEMPTS && q.retried == story.failed == story.reconnected
    case Reconnecting(_, failed) =>
      && story.attempts == q.attempt + 1 <= MAX_ATTEMPTS
      && q.retried == story.reconnected && story.failed == (failed || story.reconnected)
    case _ => true
  }

  lemma FollowsAStep(s: State, e: Event, p: nat, story: Story)
    requires Enabled(s, e) && p < |s.processes| && Follows(s.processes[p], story)
    ensures |After(s, e).processes| == |s.processes| && Follows(After(s, e).processes[p], Told(story, e, p))
  {}

  lemma {:induction false} FollowsARun(s: State, run: seq<Event>, t: State, p: nat, story: Story)
    requires IsRun(s, run, t) && p < |s.processes| && Follows(s.processes[p], story)
    ensures |t.processes| == |s.processes| && Follows(t.processes[p], StoryOf(story, run, p))
    decreases |run|
  {
    if run != [] {
      FollowsAStep(s, run[0], p, story);
      FollowsARun(After(s, run[0]), run[1..], t, p, Told(story, run[0], p));
    }
  }

  // The step is one of this process.
  predicate IsStepOf(e: Event, p: nat) { !e.Serve? && !e.Free? && e.p == p }

  // The response that p is about to receive.
  function Response(s: State, p: nat): Answer
    requires Enabled(s, Deliver(p))
  {
    s.calls[s.processes[p].phase.call].answer.value
  }

  /** What a response does: a grant with an expiry returns, and a status read that names the caller; a `claim_failed`
      is looked up exactly if a call of the same `_invoke` failed before it and was followed by a reconnect, in
      whichever attempt; anything else raises. */
  lemma ResponsesDecide(s: State, run: seq<Event>, u: State, p: nat)
    requires Fresh(s) && IsRun(s, run, u) && Enabled(u, Deliver(p))
    ensures var before, after := u.processes[p], After(u, Deliver(p)).processes[p];
            var answer := Response(u, p);
            && (after.phase.Returned? <==> answer == Granted(true) || answer == Claims(Some(before.agent)))
            && (after.phase.Returned? ==>
                  && after.phase.servedAt == u.calls[before.phase.call].servedAt
                  && after.phase.recovered == answer.Claims?)
            && (after.phase == Ready(Status) <==> answer.ClaimFailed? && StoryOf(NO_STORY, run, p).reconnected)
            && (after.phase.Returned? || after.phase == Ready(Status) || after.phase.Raised?)
  {
    RunKeepsInv(s, run, u);
    FollowsARun(s, run, u, p, NO_STORY);
    var q := u.processes[p];
    assert ProcessIsSound(u.calls, u.log, p, q) && CallIsSound(u.processes, u.log, q.phase.call, u.calls[q.phase.call]);
  }

  /** A call is made exactly while fewer than three tries of the `_invoke` came to nothing, and it is given up exactly
      after three. */
  lemma TriesDecide(s: State, run: seq<Event>, u: State, p: nat)
    requires Fresh(s) && IsRun(s, run, u) && p < |s.processes|
    ensures p < |u.processes|
    ensures var ready, tries := u.processes[p].phase.Ready?, StoryOf(NO_STORY, run, p).attempts;
            && (Enabled(u, GiveUp(p)) <==> ready && tries == 3)
            && (Enabled(u, Send(p)) <==> ready && tries < 3)
            && (Enabled(u, FindNoSession(p)) <==> ready && tries < 3)
  {
    assert s.processes[p].phase.NotStarted?;
    FollowsARun(s, run, u, p, NO_STORY);
  }

  /** A failed call is followed by a reconnect unless it is the third try, and a reconnect by the next try. */
  lemma LostTriesGoOn(s: State, run: seq<Event>, u: State, e: Event, p: nat)
    requires Fresh(s) && IsRun(s, run, u) && p < |s.processes|
    requires Enabled(u, e) && e in {FailCall(p), FindNoSession(p), Reconnect(p, true), Reconnect(p, false)}
    ensures var q := u.processes[p];
            After(u, e).processes[p].phase ==
            if e == Reconnect(p, false) || (e.FailCall? && StoryOf(NO_STORY, run, p).attempts == 2)
            then Raised
            else if e.Reconnect? then Ready(q.phase.tool)
            else Reconnecting(q.phase.tool, e.FailCall?)
  {
    assert s.processes[p].phase.NotStarted?;
    FollowsARun(s, run, u, p, NO_STORY);
  }

  /** Only its own steps move a process, and it is the caller's agent and call from its beginning on. */
  lemma OthersDoNotMoveIt(s: State, e: Event, p: nat)
    requires Enabled(s, e) && p < |s.processes|
    ensures var q, after := s.processes[p], After(s, e).processes[p];
            && (!IsStepOf(e, p) ==> after == q)
            && after.agent == q.agent && after.startedAt == (if e == Begin(p) then |s.log| else q.startedAt)
            && (e == Begin(p) ==> after.phase == Ready(Claim))
            && after.failures == (if e == Begin(p) then 0 else q.failures)
                                 + (if e == FailCall(p) && q.phase.tool.Claim? then 1 else 0)
  {}

  // How a step ends the call of p, if it does: by returning or by raising.
  function EndedBy(s: State, e: Event, p: nat, story: Story): Option<bool>
    requires Enabled(s, e)
  {
    if !IsStepOf(e, p) then None
    else
      match e
      case FailCall(_) => if story.attempts == MAX_ATTEMPTS - 1 then Some(false) else None
      case Reconnect(_, ok) => if ok then None else Some(false)
      case GiveUp(_) => Some(false)
      case Deliver(_) =>
        (match Response(s, p)
         case Granted(expires) => Some(expires)
         case ClaimFailed => if story.reconnected then None else Some(false)
         case Claims(holder) => Some(holder == Some(s.processes[p].agent))
         case OtherError => Some(false))
      case _ => None
  }

  function EndOf(s: State, run: seq<Event>, p: nat, story: Story): Option<bool>
    decreases |run|
  {
    if run == [] || !Enabled(s, run[0]) then None
    else if EndedBy(s, run[0], p, story).Some? then EndedBy(s, run[0], p, story)
    else EndOf(After(s, run[0]), run[1..], p, Told(story, run[0], p))
  }

  lemma StepEndsIt(s: State, e: Event, p: nat, story: Story)
    requires Inv(s) && Enabled(s, e) && p < |s.processes| && Follows(s.processes[p], story)
    requires !s.processes[p].phase.Returned? && !s.processes[p].phase.Raised?
    ensures var phase := After(s, e).processes[p].phase;
            && (phase.Returned? <==> EndedBy(s, e, p, story) == Some(true))
            && (phase.Raised? <==> EndedBy(s, e, p, story) == Some(false))
  {
    var q := s.processes[p];
    assert ProcessIsSound(s.calls, s.log, p, q);
    if e == Deliver(p) { assert CallIsSound(s.processes, s.log, q.phase.call, s.calls[q.phase.call]); }
  }

  lemma {:induction false} EndStays(s: State, run: seq<Event>, t: State, p: nat)
    requires IsRun(s, run, t) && p < |s.processes|
    requires s.processes[p].phase.Returned? || s.processes[p].phase.Raised?
    ensures p < |t.processes| && t.processes[p] == s.processes[p]
    decreases |run|
  {
    if run != [] { EndStays(After(s, run[0]), run[1..], t, p); }
  }

  lemma {:induction false} EndsByItsSteps(s: State, run: seq<Event>, t: State, p: nat, story: Story)
    requires Inv(s) && IsRun(s, run, t) && p < |s.processes| && Follows(s.processes[p], story)
    requires !s.processes[p].phase.Returned? && !s.processes[p].phase.Raised?
    ensures p < |t.processes|
    ensures t.processes[p].phase.Returned? <==> EndOf(s, run, p, story) == Some(true)
    ensures t.processes[p].phase.Raised? <==> EndOf(s, run, p, story) == Some(false)
    decreases |run|
  {
    if run != [] {
      var u := After(s, run[0]);
      assert IsRun(u, [], u);
      assert [run[0]][1..] == [];
      RunKeepsInv(s, [run[0]], u);
      StepEndsIt(s, run[0], p, story);
      FollowsAStep(s, run[0], p, story);
      if EndedBy(s, run[0], p, story).Some? {
        EndStays(u, run[1..], t, p);
      } else {
        EndsByItsSteps(u, run[1..], t, p, Told(story, run[0], p));
      }
    }
  }

  /** Over every run: `task_claim` has returned, or raised, exactly if the first step to end it did. */
  lemma ReturnsExactly(s: State, run: seq<Event>, t: State, p: nat)
    requires Fresh(s) && IsRun(s, run, t) && p < |s.processes|
    ensures p < |t.processes|
    ensures t.processes[p].phase.Returned? <==> EndOf(s, run, p, NO_STORY) == Some(true)
    ensures t.processes[p].phase.Raised? <==> EndOf(s, run, p, NO_STORY) == Some(false)
  {
    assert s.processes[p].phase.NotStarted?;
    EndsByItsSteps(s, run, t, p, NO_STORY);
  }

  /** No process makes more than three calls for a claim, nor more than three for the status read. */
  lemma AttemptsAreBounded(s: State, run: seq<Event>, t: State, p: nat)
    requires Fresh(s) && IsRun(s, run, t) && p < |t.processes|
    ensures SendsOf(s, run, p, Claim) <= 3
    ensures SendsOf(s, run, p, Status) <= 3
  {
    RunKeepsInv(s, run, t);
    SpendingIsBounded(s, run, t, p, Claim);
    SpendingIsBounded(s, run, t, p, Status);
  }

  // The calls of one tool that a process sends in a run.
  function SendsOf(s: State, run: seq<Event>, p: nat, tool: Tool): nat
    decreases |run|
  {
    if run == [] || !Enabled(s, run[0]) then 0
    else
      var sent := if run[0] == Send(p) && s.processes[p].phase.tool == tool then 1 else 0;
      sent + SendsOf(After(s, run[0]), run[1..], p, tool)
  }

  // How many calls of one tool a process may still send.
  function Budget(q: Process, tool: Tool): nat {
    match q.phase
    case NotStarted => MAX_ATTEMPTS
    case Ready(now) => Share(now, tool, q.attempt)
    case InCall(now, _) => Share(now, tool, q.attempt + 1)
    case Reconnecting(now, _) => Share(now, tool, q.attempt + 1)
    case _ => 0
  }

  // While one tool is being called: what is left of its attempts, and all of the status read's before it.
  function Share(now: Tool, tool: Tool, attempt: nat): nat {
    if now == tool then (if attempt < MAX_ATTEMPTS then MAX_ATTEMPTS - attempt else 0)
    else if now.Claim? then MAX_ATTEMPTS
    else 0
  }

  lemma BudgetIsSpent(s: State, e: Event, p: nat, tool: Tool)
    requires Enabled(s, e) && p < |s.processes|
    ensures |After(s, e).processes| == |s.processes|
    ensures var sent := if e == Send(p) && s.processes[p].phase.tool == tool then 1 else 0;
            sent + Budget(After(s, e).processes[p], tool) <= Budget(s.processes[p], tool)
  {}

  lemma {:induction false} SpendingIsBounded(s: State, run: seq<Event>, t: State, p: nat, tool: Tool)
    requires IsRun(s, run, t) && p < |s.processes|
    ensures |t.processes| == |s.processes|
    ensures SendsOf(s, run, p, tool) + Budget(t.processes[p], tool) <= Budget(s.processes[p], tool)
    decreases |run|
  {
    if run != [] {
      BudgetIsSpent(s, run[0], p, tool);
      SpendingIsBounded(After(s, run[0]), run[1..], t, p, tool);
    }
  }
}
