/**
 The repository half of a hand delivery (`_deliver_repo.py`): an append-only push whose
 response may be lost, and the pull request opened or adopted behind it.

 Commits are a datatype, so the history of a commit is a finite tree and no commit is its
 own ancestor. Other actors append to the branch at any moment; nobody rewrites it.
 */
module DeliverRepo {
  import opened Options

  datatype Commit = Commit(tree: nat, parents: seq<Commit>)

  // c is in the history of tip (`git merge-base --is-ancestor c tip`).
  predicate Contains(tip: Commit, c: Commit) {
    tip == c || exists p | p in tip.parents :: Contains(p, c)
  }

  function Size(c: Commit): nat { 1 + Sizes(c.parents) }

  function Sizes(cs: seq<Commit>): nat {
    if cs == [] then 0 else Size(cs[0]) + Sizes(cs[1..])
  }

  lemma {:induction false} MemberIsSmaller(cs: seq<Commit>, c: Commit)
    requires c in cs
    ensures Size(c) <= Sizes(cs)
  {
    if c != cs[0] { MemberIsSmaller(cs[1..], c); }
  }

  lemma {:induction false} AncestorsAreSmaller(tip: Commit, c: Commit)
    requires Contains(tip, c) && tip != c
    ensures Size(c) < Size(tip)
  {
    var p :| p in tip.parents && Contains(p, c);
    MemberIsSmaller(tip.parents, p);
    if p != c { AncestorsAreSmaller(p, c); }
  }

  lemma {:induction false} ContainsIsTransitive(a: Commit, b: Commit, c: Commit)
    requires Contains(a, b) && Contains(b, c)
    ensures Contains(a, c)
  {
    if a != b {
      var p :| p in a.parents && Contains(p, b);
      ContainsIsTransitive(p, b, c);
    }
  }

  // ---- The branch on origin ---------------------------------------------------------------

  // The tip of origin's branch, None while the ref does not exist.
  type Tip = Option<Commit>

  predicate Holds(tip: Tip, c: Commit) { tip.Some? && Contains(tip.value, c) }

  // Nothing that was on the branch is gone.
  predicate Grows(before: Tip, after: Tip) {
    before.Some? ==> Holds(after, before.value)
  }

  lemma GrowsIsTransitive(a: Tip, b: Tip, c: Tip)
    requires Grows(a, b) && Grows(b, c)
    ensures Grows(a, c)
  {
    if a.Some? { ContainsIsTransitive(c.value, b.value, a.value); }
  }

  lemma HeldStaysHeld(a: Tip, b: Tip, c: Commit)
    requires Grows(a, b) && Holds(a, c)
    ensures Holds(b, c)
  {
    ContainsIsTransitive(b.value, a.value, c);
  }

  /** Growing is exactly keeping every commit: no step drops one. */
  lemma GrowsKeepsEveryCommit(a: Tip, b: Tip)
    ensures Grows(a, b) <==> forall c :: Holds(a, c) ==> Holds(b, c)
  {
    if Grows(a, b) {
      forall c | Holds(a, c) ensures Holds(b, c) { HeldStaysHeld(a, b, c); }
    }
    if a.Some? { assert Holds(a, a.value); }
  }

  // ---- Classification (step 1, before anything is written) ---------------------------------

  datatype Action = PushCreate | PushUpToDate | PushFastForward | PushDiverged

  datatype RemoteState = RemoteState(action: Action, local: Commit, remote: Tip)

  function Classify(local: Commit, remote: Tip, ancestorAnswer: bool): RemoteState {
    if remote.None? then RemoteState(PushCreate, local, None)
    else if remote == Some(local) then RemoteState(PushUpToDate, local, remote)
    else RemoteState(if ancestorAnswer then PushFastForward else PushDiverged, local, remote)
  }

  // git answers "yes" to the ancestry question only when it is so; any failure reads as "no".
  ghost predicate Classified(s: RemoteState) {
    exists answer :: s == Classify(s.local, s.remote, answer)
                     && (answer && s.remote.Some? ==> Contains(s.local, s.remote.value))
  }

  // ---- One push, everything that can happen to it --------------------------------------------

  datatype PushResult = Pushed | Failed | Raised

  // When origin applied the push, as the reconciling read sees it.
  datatype Landing = Never | BeforeTheRead | AfterTheRead

  // What the environment does during one `push_branch`.
  datatype Scenario = Scenario(
    state: RemoteState,
    before: Tip,                // origin when the push is applied, if it is
    lands: Landing,
    result: PushResult,         // what the subprocess reports
    reread: Option<Tip>,        // the reconciling ls-remote, None when it failed
    contained: Option<bool>,    // the containment probe, None when it could not answer
    after: Tip)                 // origin when the call ends

  // The branch is one the command pushes.
  predicate Sends(state: RemoteState) { state.action.PushCreate? || state.action.PushFastForward? }

  predicate Applied(s: Scenario) { !s.lands.Never? }

  // The premise under which an unmoved remote proves anything: no push is applied after the read.
  predicate Settled(s: Scenario) { !s.lands.AfterTheRead? }

  // Origin before the reconciling read.
  function Middle(s: Scenario): Tip {
    if s.lands.BeforeTheRead? then Some(s.state.local) else s.before
  }

  // origin refuses a non-fast-forward, reports success only for a push it applied, and grows.
  ghost predicate Possible(s: Scenario) {
    && Classified(s.state)
    && Grows(s.state.remote, s.before)
    && (Applied(s) ==> Sends(s.state) && Grows(s.before, Some(s.state.local)))
    && (s.result.Pushed? && Sends(s.state) ==> s.lands.BeforeTheRead?)
    && (s.lands.AfterTheRead? ==> Grows(Some(s.state.local), s.after))
    && (s.lands.AfterTheRead? && s.reread.Some? ==> Grows(s.reread.value, Some(s.state.local)))
    && (s.reread.Some? ==> Grows(Middle(s), s.reread.value) && Grows(s.reread.value, s.after))
    && (s.contained.Some? ==> s.reread.Some? && s.contained.value == Holds(s.reread.value, s.state.local))
    && Grows(Middle(s), s.after)
  }

  datatype Outcome = Landed | Refused | Uncertain | Propagated

  // The three answers of `push_branch`, and the subprocess error it does not catch.
  function Decide(s: Scenario): Outcome {
    match s.state.action
    case PushDiverged => Refused
    case PushUpToDate => Landed
    case _ =>
      match s.result
      case Pushed => Landed
      case Raised => Propagated
      case Failed =>
        if s.reread.None? then Uncertain
        else if s.reread.value == Some(s.state.local) then Landed
        else if s.reread.value == s.state.remote then Refused
        else if s.contained == Some(true) then Landed
        else Uncertain
  }

  /** What each answer takes, for a branch whose ancestry question was answered so: an up-to-date branch is always let
      through; a refusal needs a diverged branch, or a failed push after which the remote is as it was; a normal return
      otherwise needs the push reported as done, or origin seen to hold the commit. */
  lemma OutcomesExactly(s: Scenario, answer: bool)
    requires Possible(s) && s.state == Classify(s.state.local, s.state.remote, answer)
    ensures var local, remote := s.state.local, s.state.remote;
            var diverged := remote.Some? && remote != Some(local) && !answer;
            var sent := remote.None? || (remote != Some(local) && answer);
            && (Decide(s).Refused? <==> diverged || (sent && s.result.Failed? && s.reread == Some(remote)))
            && (Decide(s).Landed? <==>
                  || remote == Some(local)
                  || (sent && s.result.Pushed?)
                  || (sent && s.result.Failed? && s.reread.Some? &&
                      (s.reread.value == Some(local) || s.contained == Some(true))))
            && (Decide(s).Propagated? <==> sent && s.result.Raised?)
  {
    if s.reread.Some? && s.reread.value == s.state.remote && s.contained == Some(true) && Sends(s.state) {
      assert Classified(s.state);
      var local, remote := s.state.local, s.state.remote;
      assert Contains(remote.value, local) && Contains(local, remote.value);
      AncestorsAreSmaller(remote.value, local);
      AncestorsAreSmaller(local, remote.value);
    }
  }

  /** The action follows from the tip that was read and the ancestry answer. */
  lemma ActionsExactly(local: Commit, remote: Tip, answer: bool)
    ensures var action := Classify(local, remote, answer).action;
            && (action.PushCreate? <==> remote.None?)
            && (action.PushUpToDate? <==> remote == Some(local))
            && (action.PushFastForward? <==> remote.Some? && remote.value != local && answer)
            && (Sends(Classify(local, remote, answer)) <==> remote.None? || (remote.value != local && answer))
  {}

  /** A normal return means origin holds the delivered commit. */
  lemma LandedIsHeld(s: Scenario)
    requires Possible(s) && Decide(s).Landed?
    ensures Holds(s.after, s.state.local)
  {
    if s.state.action.PushUpToDate? {
      GrowsIsTransitive(s.state.remote, s.before, s.after);
    } else if s.result.Pushed? {
      HeldStaysHeld(Middle(s), s.after, s.state.local);
    } else {
      HeldStaysHeld(s.reread.value, s.after, s.state.local);
    }
  }

  /** A refusal means this call never put the commit there, unless it lands after the read. */
  lemma RefusedWroteNothing(s: Scenario)
    requires Possible(s) && Settled(s) && Decide(s).Refused?
    ensures !Applied(s)
  {
    if Applied(s) {
      var local, remote := s.state.local, s.state.remote;
      HeldStaysHeld(Some(local), s.reread.value, local);
      assert Contains(remote.value, local) && Contains(local, remote.value);
      AncestorsAreSmaller(remote.value, local);
      AncestorsAreSmaller(local, remote.value);
    }
  }

  /** Whatever happens, origin keeps every commit it had. */
  lemma NoStepDropsACommit(s: Scenario)
    requires Possible(s)
    ensures Grows(s.before, s.after) && Grows(s.state.remote, s.after)
  {
    GrowsIsTransitive(s.before, Middle(s), s.after);
    GrowsIsTransitive(s.state.remote, s.before, s.after);
  }

  /** Uncertainty is only ever reported about a push that failed on an unread or moved remote. */
  lemma UncertainOnlyWhenUnsettled(s: Scenario)
    requires Possible(s) && Decide(s).Uncertain?
    ensures s.reread.Some? ==>
              && s.reread.value != s.state.remote && s.reread.value.Some?
              && (s.contained.None? || (!s.lands.BeforeTheRead? && !Holds(s.reread.value, s.state.local)))
  {
    if s.reread.Some? {
      GrowsIsTransitive(s.state.remote, s.before, Middle(s));
      GrowsIsTransitive(s.state.remote, Middle(s), s.reread.value);
      if s.lands.BeforeTheRead? { HeldStaysHeld(Middle(s), s.reread.value, s.state.local); }
    }
  }

  // The caller turns a refusal and a subprocess error alike into exit 1, "nothing was written".
  predicate ExitsRefused(o: Outcome) { o.Refused? || o.Propagated? }

  // Whether exit 1 tells the truth in every scenario that starts and is reported like this.
  ghost predicate ExitIsHonest(state: RemoteState, result: PushResult, settled: bool) {
    forall s ::
      Possible(s) && s.state == state && s.result == result && (settled ==> Settled(s)) && ExitsRefused(Decide(s)) ==>
        !Applied(s)
  }

  // The push is applied, and the remote read, if at all, before that.
  function LandsUnseen(state: RemoteState, result: PushResult): Scenario {
    Scenario(state, state.remote, if result.Raised? then BeforeTheRead else AfterTheRead, result,
             if result.Raised? then None else Some(state.remote), None, Some(state.local))
  }

  lemma LandsUnseenIsPossible(state: RemoteState, result: PushResult)
    requires Classified(state) && Sends(state) && !result.Pushed?
    ensures var s := LandsUnseen(state, result);
            Possible(s) && ExitsRefused(Decide(s)) && Applied(s) && (result.Raised? ==> Settled(s))
  {
    assert Grows(state.remote, Some(state.local));
  }

  /** Where no push lands after the read, exit 1 is honest exactly unless the subprocess raised (a timeout, say) on a
      branch that is pushed. */
  lemma ExitRefusedIsHonestExactly(state: RemoteState, result: PushResult)
    requires Classified(state)
    ensures ExitIsHonest(state, result, true) <==> !(result.Raised? && Sends(state))
  {
    if result.Raised? && Sends(state) {
      LandsUnseenIsPossible(state, result);
    } else {
      forall s | Possible(s) && s.state == state && s.result == result && Settled(s) && ExitsRefused(Decide(s))
        ensures !Applied(s)
      {
        if Decide(s).Refused? { RefusedWroteNothing(s); }
      }
    }
  }

  /** Where one may, it is honest exactly when nothing was sent or the push was reported as done. */
  lemma ExitRefusedIsHonestAtAllExactly(state: RemoteState, result: PushResult)
    requires Classified(state)
    ensures ExitIsHonest(state, result, false) <==> !(!result.Pushed? && Sends(state))
  {
    if !result.Pushed? && Sends(state) { LandsUnseenIsPossible(state, result); }
  }

  /** Both happen to a first push: it times out, or fails, and is on origin all the same. */
  lemma UnseenPushesAreReportedAsRefused(local: Commit, result: PushResult)
    requires !result.Pushed?
    ensures var s := LandsUnseen(RemoteState(PushCreate, local, None), result);
            Possible(s) && ExitsRefused(Decide(s)) && Holds(s.after, local)
  {
    var state := RemoteState(PushCreate, local, None);
    assert state == Classify(local, None, false);
    LandsUnseenIsPossible(state, result);
  }

  // ---- The same, step by step against a moving origin ------------------------------------------

  // A push in flight was applied at this tip, as a fast-forward.
  ghost predicate AppliedAt(c: Commit, before: Tip, at: Tip, after: Tip) {
    Grows(before, at) && Grows(at, Some(c)) && Grows(Some(c), after)
  }

  class Origin {
    var tip: Tip
    var flight: Option<Commit>   // a push that was sent, and neither applied nor rejected yet
    ghost var pushed: bool       // whether this process's push was ever applied
    ghost var faults: nat        // reads that failed, and pushes not reported as done

    // Any number of appends by other actors.
    method Append()
      modifies this`tip
      ensures Grows(old(tip), tip)
    {
      var c: Commit := *;
      if tip.None? {
        if * { tip := Some(c); }
      } else if Contains(c, tip.value) {
        tip := Some(c);
      }
    }

    // Others append, and a push in flight may arrive among them; it is applied only as a fast-forward.
    method Others() returns (ghost applied: Option<Tip>)
      modifies this`tip, this`flight, this`pushed
      ensures applied.None? ==> Grows(old(tip), tip) && flight == old(flight) && pushed == old(pushed)
      ensures applied.Some? ==> old(flight).Some? && flight.None? && pushed
      ensures applied.Some? ==> AppliedAt(old(flight).value, old(tip), applied.value, tip)
    {
      applied := None;
      Append();
      var arrives: bool := *;
      if arrives && flight.Some? && Grows(tip, flight) {
        applied := Some(tip);
        tip, flight, pushed := flight, None, true;
        Append();
      }
    }

    method LsRemote() returns (answer: Option<Tip>, ghost applied: Option<Tip>)
      modifies this
      ensures applied.None? ==> Grows(old(tip), tip) && flight == old(flight) && pushed == old(pushed)
      ensures applied.Some? ==> old(flight).Some? && flight.None? && pushed
      ensures applied.Some? ==> AppliedAt(old(flight).value, old(tip), applied.value, tip)
      ensures answer.Some? ==> answer.value == tip
      ensures faults == old(faults) + if answer.Some? then 0 else 1
    {
      applied := Others();
      answer := None;
      if * { answer := Some(tip); } else { faults := faults + 1; }
    }

    // A plain push: the report may be lost, and the push still be on its way when it is.
    method Push(c: Commit) returns (result: PushResult, ghost applied: Option<Tip>)
      requires flight.None?
      modifies this
      ensures flight.Some? ==> flight == Some(c)
      ensures applied.None? ==> Grows(old(tip), tip) && pushed == old(pushed)
      ensures applied.Some? ==> AppliedAt(c, old(tip), applied.value, tip) && flight.None? && pushed
      ensures result.Pushed? ==> applied.Some?
      ensures faults == old(faults) + if result.Pushed? then 0 else 1
    {
      flight := Some(c);
      applied := Others();
      var answers: bool, raises: bool, rejected: bool := *, *, *;
      result := if raises then Raised else Failed;
      if flight.None? && answers { result := Pushed; }
      if rejected { flight := None; }
      if !result.Pushed? { faults := faults + 1; }
    }

    // Fetch, check that the observed object is here, ask the ancestry question about it.
    method RemoteContains(c: Commit, observed: Tip) returns (answer: Option<bool>, ghost applied: Option<Tip>)
      modifies this
      ensures applied.None? ==> Grows(old(tip), tip) && flight == old(flight) && pushed == old(pushed)
      ensures applied.Some? ==> old(flight).Some? && flight.None? && pushed
      ensures applied.Some? ==> AppliedAt(old(flight).value, old(tip), applied.value, tip)
      ensures answer.Some? ==> answer.value == Holds(observed, c)
      ensures faults == old(faults) + if answer.Some? then 0 else 1
    {
      applied := Others();
      var fetched: bool, here: bool, asked: bool := *, *, *;
      answer := None;
      if fetched && here && asked && observed.Some? { answer := Some(Contains(observed.value, c)); }
      if answer.None? { faults := faults + 1; }
    }
  }

  method ClassifyRemote(origin: Origin, local: Commit) returns (state: Option<RemoteState>)
    requires origin.flight.None?
    modifies origin
    ensures Grows(old(origin.tip), origin.tip) && origin.flight.None? && origin.pushed == old(origin.pushed)
    ensures state.Some? ==>
              Classified(state.value) && state.value.local == local && Grows(state.value.remote, origin.tip)
    // the remote is read unless that fails, and the answer is yes whenever it is asked and so
    ensures origin.faults == old(origin.faults) ==>
              state.Some? &&
              (state.value.action.PushDiverged? ==> !Contains(local, state.value.remote.value))
  {
    var remote;
    ghost var applied;
    remote, applied := origin.LsRemote();
    if remote.None? { return None; }
    var asked: bool := *;
    if !asked { origin.faults := origin.faults + 1; }
    var answer := asked && remote.value.Some? && Contains(local, remote.value.value);
    state := Some(Classify(local, remote.value, answer));
    assert state.value == Classify(local, state.value.remote, answer);
  }

  // The scenario once the push subprocess has ended.
  lemma AfterThePush(state: RemoteState, tip: Tip, applied: Option<Tip>, result: PushResult, now: Tip)
    returns (s: Scenario)
    requires Classified(state) && Sends(state) && Grows(state.remote, tip)
    requires if applied.Some? then AppliedAt(state.local, tip, applied.value, now) else Grows(tip, now)
    requires result.Pushed? ==> applied.Some?
    ensures Possible(s) && s.state == state && s.result == result && s.reread.None? && s.contained.None?
            && s.after == now
    ensures s.lands == if applied.Some? then BeforeTheRead else Never
    ensures Grows(tip, now)
  {
    if applied.Some? {
      GrowsIsTransitive(state.remote, tip, applied.value);
      GrowsIsTransitive(tip, applied.value, Some(state.local));
      GrowsIsTransitive(tip, Some(state.local), now);
      s := Scenario(state, applied.value, BeforeTheRead, result, None, None, now);
    } else {
      s := Scenario(state, tip, Never, result, None, None, now);
    }
  }

  // And once the remote was read, or could not be.
  lemma AfterTheReread(s: Scenario, applied: Option<Tip>, landed: Option<Tip>, now: Tip) returns (s': Scenario)
    requires Possible(s) && Sends(s.state) && s.reread.None? && s.contained.None? && Settled(s)
    requires applied.Some? ==> !Applied(s) && !s.result.Pushed? && AppliedAt(s.state.local, s.after, applied.value, now)
    requires applied.None? ==> Grows(s.after, now)
    requires landed.Some? ==> landed.value == now
    ensures Possible(s') && s'.state == s.state && s'.result == s.result && s'.reread == landed && s'.contained.None?
    ensures s'.after == now && s'.lands == if applied.Some? then BeforeTheRead else s.lands
    ensures Grows(s.after, now)
  {
    if applied.Some? {
      GrowsIsTransitive(s.before, Middle(s), s.after);
      GrowsIsTransitive(s.state.remote, s.before, s.after);
      GrowsIsTransitive(s.state.remote, s.after, applied.value);
      GrowsIsTransitive(s.after, applied.value, Some(s.state.local));
      GrowsIsTransitive(s.after, Some(s.state.local), now);
      s' := Scenario(s.state, applied.value, BeforeTheRead, s.result, landed, None, now);
    } else {
      GrowsIsTransitive(Middle(s), s.after, now);
      s' := s.(reread := landed, after := now);
    }
    GrowsReflexive(now);
  }

  lemma GrowsReflexive(t: Tip)
    ensures Grows(t, t)
  {}

  // And once it was asked what the observed tip contains.
  lemma AfterTheProbe(s: Scenario, applied: Option<Tip>, contained: Option<bool>, now: Tip) returns (s': Scenario)
    requires Possible(s) && Sends(s.state) && s.reread == Some(s.after) && s.contained.None? && Settled(s)
    requires applied.Some? ==> !Applied(s) && !s.result.Pushed? && AppliedAt(s.state.local, s.after, applied.value, now)
    requires applied.None? ==> Grows(s.after, now)
    requires contained.Some? ==> contained.value == Holds(s.after, s.state.local)
    ensures Possible(s') && s'.state == s.state && s'.result == s.result && s'.reread == s.reread
            && s'.contained == contained
    ensures s'.after == now && s'.lands == if applied.Some? then AfterTheRead else s.lands
    ensures Grows(s.after, now)
  {
    s' := s.(contained := contained, after := now);
    if applied.Some? {
      GrowsIsTransitive(s.after, applied.value, Some(s.state.local));
      GrowsIsTransitive(s.after, Some(s.state.local), now);
      GrowsIsTransitive(s.before, s.after, Some(s.state.local));
      s' := s'.(lands := AfterTheRead);
    }
    GrowsIsTransitive(Middle(s), s.after, now);
  }

  /** `push_branch`, with the scenario it went through. A push that is still in flight when it ends is the one way
      for a refusal to become untrue. */
  method PushBranch(origin: Origin, state: RemoteState) returns (outcome: Outcome, ghost s: Scenario)
    requires Classified(state) && Grows(state.remote, origin.tip) && origin.flight.None?
    modifies origin
    ensures Possible(s) && s.state == state && s.after == origin.tip
    ensures outcome == Decide(s)
    ensures origin.pushed == (old(origin.pushed) || Applied(s))
    ensures outcome.Landed? ==> Holds(origin.tip, state.local)
    ensures origin.faults == old(origin.faults) ==> outcome == if state.action.PushDiverged? then Refused else Landed
    ensures origin.faults >= old(origin.faults) && (outcome.Uncertain? ==> origin.faults > old(origin.faults))
    ensures outcome.Uncertain? && (s.reread.None? || s.contained.None?) ==> origin.faults > old(origin.faults) + 1
    ensures outcome.Refused? && Settled(s) ==> origin.pushed == old(origin.pushed)
    ensures Grows(old(origin.tip), origin.tip)
  {
    s := Scenario(state, origin.tip, Never, Failed, None, None, origin.tip);
    if state.action.PushDiverged? { return Refused, s; }
    if state.action.PushUpToDate? { LandedIsHeld(s); return Landed, s; }
    var result;
    ghost var applied;
    result, applied := origin.Push(state.local);
    s := AfterThePush(state, old(origin.tip), applied, result, origin.tip);
    outcome := if result.Raised? then Propagated else Landed;
    if result.Failed? {
      outcome, s := SettlePush(origin, state, old(origin.tip), s);
    }
    if outcome.Landed? { LandedIsHeld(s); }
    if outcome.Refused? && Settled(s) { RefusedWroteNothing(s); }
  }

  // What a failed push is taken for: the reconciling read, and the probe when it shows a third tip.
  method SettlePush(origin: Origin, state: RemoteState, ghost start: Tip, ghost sent: Scenario)
    returns (outcome: Outcome, ghost s: Scenario)
    requires Possible(sent) && sent.state == state && sent.result.Failed? && Sends(state) && Settled(sent)
    requires sent.reread.None? && sent.contained.None? && sent.after == origin.tip && Grows(start, origin.tip)
    requires origin.flight.Some? ==> origin.flight == Some(state.local) && !Applied(sent)
    modifies origin
    ensures Possible(s) && s.state == state && s.result.Failed? && s.after == origin.tip && outcome == Decide(s)
    ensures origin.pushed == (old(origin.pushed) || (Applied(s) && !Applied(sent))) && (Applied(sent) ==> Applied(s))
    ensures Grows(start, origin.tip)
    ensures origin.faults >= old(origin.faults)
    ensures outcome.Uncertain? && (s.reread.None? || s.contained.None?) ==> origin.faults > old(origin.faults)
  {
    var landed;
    ghost var applied;
    landed, applied := origin.LsRemote();
    s := AfterTheReread(sent, applied, landed, origin.tip);
    GrowsIsTransitive(start, sent.after, origin.tip);
    if landed.None? { return Uncertain, s; }
    if landed.value == Some(state.local) { return Landed, s; }
    if landed.value == state.remote { return Refused, s; }
    var contained;
    ghost var read := s;
    contained, applied := origin.RemoteContains(state.local, landed.value);
    s := AfterTheProbe(read, applied, contained, origin.tip);
    GrowsIsTransitive(start, read.after, origin.tip);
    outcome := if contained == Some(true) then Landed else Uncertain;
  }
}
