/**
 The process supervisor (`supervisor.py`): it spawns the enabled children, waits for a shutdown, a
 crash or the end of a drain, and reaps the children on the way out.

 Child exits and signals arrive between any two rounds of the wait; a round sees some of them. Every
 await may be cancelled.
 */
module Supervising {
  import opened Options

  const SIGTERM_EXIT := -15

  datatype Child = Child(name: string, exit: Option<int>)

  // An exit stays as it is; a running child may exit with any code.
  predicate Proceeds(a: seq<Child>, b: seq<Child>) {
    |a| == |b| && forall i :: 0 <= i < |a| ==> ProceedsTo(a[i], b[i])
  }

  predicate ProceedsTo(a: Child, b: Child) { b.name == a.name && (a.exit.Some? ==> b.exit == a.exit) }

  lemma ProceedsOn(a: seq<Child>, b: seq<Child>, c: seq<Child>)
    requires Proceeds(a, b) && Proceeds(b, c)
    ensures Proceeds(a, c)
  {
    forall i | 0 <= i < |a| ensures ProceedsTo(a[i], c[i]) { assert ProceedsTo(a[i], b[i]) && ProceedsTo(b[i], c[i]); }
  }

  lemma LessToWaitFor(waits: set<nat>, left: set<nat>)
    requires left <= waits
    ensures |left| <= |waits| && (left < waits ==> |left| < |waits|)
  {
    assert waits == left + (waits - left);
  }

  function Undrained(draining: bool): nat { if draining then 0 else 1 }

  function Indices(n: nat): (r: set<nat>)
    ensures forall i: nat :: i in r <==> i < n
  {
    if n == 0 then {} else Indices(n - 1) + {n - 1}
  }

  predicate Reaped(children: seq<Child>) { forall i :: 0 <= i < |children| ==> children[i].exit.Some? }

  predicate CleanExit(child: Child) { child.exit == Some(0) || child.exit == Some(SIGTERM_EXIT) }

  // What one round of the wait returned, unless it was cancelled.
  datatype Round = Interrupted | Round(shutdown: bool, exits: set<nat>, drain: bool)

  // ---- Reaping ------------------------------------------------------------------------------------

  // Where reaping was cancelled: waiting out the grace period, or waiting for the killed.
  datatype Cut = Uncut | InGrace | AfterKill

  // The exits seen by the end of the grace period, those seen of the killed, and the cancellation.
  datatype Reaping = Reaping(grace: seq<Option<int>>, killed: seq<Option<int>>, cut: Cut)

  // The running children with these exits seen of them.
  function Settled(children: seq<Child>, exits: seq<Option<int>>): (after: seq<Child>)
    requires |exits| == |children|
    ensures |after| == |children|
  {
    seq(|children|, i requires 0 <= i < |children| =>
      if children[i].exit.Some? then children[i] else children[i].(exit := exits[i]))
  }

  ghost predicate AllSeen(exits: seq<Option<int>>) { forall i :: 0 <= i < |exits| ==> exits[i].Some? }

  // There is nothing to cancel when no child runs, and a wait for the killed that is not cancelled sees them all.
  ghost predicate Fits(children: seq<Child>, r: Reaping) {
    && |r.grace| == |children| && |r.killed| == |children|
    && (r.cut.Uncut? ==> AllSeen(r.killed)) && (!r.cut.Uncut? ==> !Reaped(children))
  }

  function AfterReaping(children: seq<Child>, r: Reaping): (after: seq<Child>)
    requires |r.grace| == |children| && |r.killed| == |children|
  {
    var waited := Settled(children, r.grace);
    if r.cut.InGrace? then waited else Settled(waited, r.killed)
  }

  ghost predicate AlwaysReaps(children: seq<Child>, cut: Cut) {
    forall r :: Fits(children, r) && r.cut == cut ==> Reaped(AfterReaping(children, r))
  }

  /** Reaping sees every child exit exactly if it is not cancelled, or none was running. */
  lemma ReapsAllExactly(children: seq<Child>, cut: Cut)
    ensures AlwaysReaps(children, cut) <==> cut.Uncut? || Reaped(children)
  {
    if !cut.Uncut? && !Reaped(children) {
      var none := seq(|children|, i => None);
      var r := Reaping(none, none, cut);
      assert AfterReaping(children, r) == children;
      assert Fits(children, r);
    }
  }

  /** At an input: a cancellation in the grace period leaves a child that neither was killed nor waited for. */
  lemma ACancelledReapingLosesAChild()
    ensures var children := [Child("route-runner", None)];
            var r := Reaping([None], [None], InGrace);
            Fits(children, r) && !Reaped(AfterReaping(children, r))
  {
    var children := [Child("route-runner", None)];
    assert children[0].exit.None?;
    assert AfterReaping(children, Reaping([None], [None], InGrace))[0].exit.None?;
  }

  lemma ReapingProceeds(children: seq<Child>, r: Reaping)
    requires Fits(children, r)
    ensures Proceeds(children, AfterReaping(children, r))
  {}

  class Supervisor {
    var children: seq<Child>
    var crashes: seq<string>
    var draining: bool
    var shutdownSet: bool
    var drainSet: bool
    ghost var faults: nat                 // spawns that failed, and awaits that were cancelled
    ghost var round: nat                  // of the wait
    ghost var relayedIn: Option<nat>      // the round that relayed the drain first
    ghost var accepted: map<nat, nat>     // child -> the round that took its exit as the end of its drain

    ghost predicate Valid()
      reads this
    {
      && (draining <==> relayedIn.Some?)
      && (relayedIn.Some? ==> relayedIn.value <= round)
      && (forall i :: i in accepted ==> Accepted(i))
    }

    // Accepted with exit 0, in a round after the one that relayed the drain.
    ghost predicate Accepted(i: nat)
      requires i in accepted
      reads this
    {
      i < |children| && children[i].exit == Some(0) && relayedIn.Some? && relayedIn.value < accepted[i]
    }

    constructor ()
      ensures Valid() && children == [] && crashes == [] && !shutdownSet
    {
      children, crashes, draining, shutdownSet, drainSet := [], [], false, false, false;
      faults, round, relayedIn, accepted := 0, 0, None, map[];
    }

    // Children exit, signals arrive.
    method Tick()
      requires Valid()
      modifies this`children, this`shutdownSet, this`drainSet
      ensures Valid() && Proceeds(old(children), children) && (old(shutdownSet) ==> shutdownSet)
    {
      var next: seq<Child> := *;
      if Proceeds(children, next) { children := next; }
      if * { shutdownSet := true; }
      if * { drainSet := true; }
    }

    // Blocks until something is done; an exit may be seen in a later round than the one it happened in.
    method Await(waits: set<nat>) returns (r: Round)
      requires Valid() && forall i :: i in waits ==> i < |children|
      modifies this`children, this`shutdownSet, this`drainSet, this`faults
      ensures Valid() && Proceeds(old(children), children) && (old(shutdownSet) ==> shutdownSet)
      ensures faults == old(faults) + if r.Interrupted? then 1 else 0
      ensures r.Round? && r.shutdown ==> shutdownSet
      ensures r.Round? ==> r.exits <= waits && forall i :: i in r.exits ==> children[i].exit.Some?
      ensures r.Round? && r.drain ==> drainSet && !draining
      ensures r.Round? ==> r.shutdown || r.exits != {} || r.drain
    {
      Tick();
      var cancels: bool := *;
      if cancels {
        faults := faults + 1;
        return Interrupted;
      }
      var seen: set<nat> := *;
      var stops: bool, drains: bool := *, *;
      var exits := set i | i in waits && i in seen && children[i].exit.Some?;
      r := Round(stops && shutdownSet, exits, drains && drainSet && !draining);
      if !r.shutdown && exits == {} && !r.drain {
        shutdownSet := true;
        r := Round(true, {}, false);
      }
    }

    // Every child no longer waited for had its exit accepted.
    ghost predicate Covered(waits: set<nat>)
      reads this
    {
      forall i: nat :: i < |children| ==> i in waits || i in accepted
    }

    // Takes one exit as the end of a drain.
    ghost method Accept(i: nat)
      requires Valid() && i < |children| && children[i].exit == Some(0) && relayedIn.Some? && relayedIn.value < round
      modifies this`accepted
      ensures Valid() && accepted == old(accepted)[i := round]
    {
      accepted := accepted[i := round];
    }

    // Judges the exits of a round, in any order, under the drain flag as it was when they happened.
    method Judge(exits: set<nat>, waits: set<nat>) returns (left: set<nat>, who: Option<nat>)
      requires Valid() && exits <= waits && crashes == [] && Covered(waits)
      requires forall i :: i in exits ==> i < |children| && children[i].exit.Some?
      requires relayedIn.Some? ==> relayedIn.value < round
      modifies this`crashes, this`accepted
      ensures Valid() && left <= waits
      ensures who.None? ==> crashes == [] && left == waits - exits && Covered(left) && (exits != {} ==> draining)
      ensures who.Some? ==> who.value in exits && crashes == [children[who.value].name]
      ensures who.Some? ==> !(draining && children[who.value].exit == Some(0))
    {
      left, who := waits, None;
      var todo := exits;
      while todo != {}
        invariant Valid() && todo <= exits && left == waits - (exits - todo) && crashes == [] && Covered(left)
        invariant todo < exits ==> draining
        decreases |todo|
      {
        var i :| i in todo;
        todo, left := todo - {i}, left - {i};
        if !draining || children[i].exit != Some(0) {
          crashes := [children[i].name];
          return left, Some(i);
        }
        Accept(i);
      }
    }

    // `_relay_drain`, the first time the drain event is seen.
    method RelayDrain()
      requires Valid() && !draining && accepted == map[]
      modifies this`draining, this`relayedIn
      ensures Valid() && draining && relayedIn == Some(round)
    {
      draining, relayedIn := true, Some(round);
    }

    // One round of the wait. It ends the wait, takes a live wait away, or starts the drain.
    method TakeRound(waits: set<nat>) returns (left: set<nat>, stops: bool, cancelled: bool, ghost who: Option<nat>)
      requires Valid() && crashes == [] && Covered(waits) && forall i :: i in waits ==> i < |children|
      modifies this
      ensures Valid() && Proceeds(old(children), children) && left <= waits
      ensures cancelled ==> stops && who.None?
      ensures faults == old(faults) + if cancelled then 1 else 0
      ensures who.Some? ==> stops && CrashOf(who.value)
      ensures who.None? ==> crashes == [] && (stops ==> cancelled || shutdownSet)
      ensures !stops ==> who.None? && Covered(left)
      ensures !stops ==> left < waits || (draining && !old(draining))
      ensures old(draining) ==> draining
    {
      round := round + 1;
      var r := Await(waits);
      left, stops, cancelled, who := waits, true, r.Interrupted?, None;
      if r.Interrupted? || r.shutdown { return; }
      var crashed;
      left, crashed := Judge(r.exits, waits);
      if crashed.Some? { return left, true, false, crashed; }
      stops := false;
      if r.drain { RelayDrain(); }
    }

    // The crash on record: an exit that was not the end of a drain.
    ghost predicate CrashOf(i: nat)
      reads this
    {
      && i < |children| && crashes == [children[i].name]
      && children[i].exit.Some? && !(draining && children[i].exit == Some(0))
    }

    /** `_wait_for_shutdown_or_crash`. */
    method WaitForShutdownOrCrash() returns (cancelled: bool, ghost who: Option<nat>)
      requires Valid() && crashes == [] && accepted == map[] && !draining
      modifies this
      ensures Valid() && Proceeds(old(children), children)
      ensures who.None? ==> crashes == [] && (cancelled || shutdownSet || Covered({}))
      ensures faults == old(faults) + if cancelled then 1 else 0
      ensures who.Some? ==> CrashOf(who.value)
    {
      var waits: set<nat> := Indices(|children|);
      cancelled, who := false, None;
      while waits != {}
        invariant !cancelled && faults == old(faults) && crashes == []
        invariant Valid() && Proceeds(old(children), children) && Covered(waits)
        invariant who.None? && forall i :: i in waits ==> i < |children|
        decreases |waits| + Undrained(draining)
      {
        ghost var before, live := children, waits;
        var stops;
        waits, stops, cancelled, who := TakeRound(waits);
        ProceedsOn(old(children), before, children);
        LessToWaitFor(live, waits);
        if stops { return; }
      }
    }

    // The exits that were seen while waiting.
    method Settle(exits: seq<Option<int>>)
      requires Valid() && |exits| == |children|
      modifies this`children
      ensures Valid() && children == Settled(old(children), exits)
    {
      var i := 0;
      while i < |children|
        invariant i <= |children| == |old(children)|
        invariant forall j :: 0 <= j < i ==> children[j] == Settled(old(children), exits)[j]
        invariant forall j :: i <= j < |children| ==> children[j] == old(children)[j]
      {
        if children[i].exit.None? { children := children[i := children[i].(exit := exits[i])]; }
        i := i + 1;
      }
      assert children == Settled(old(children), exits);
    }

    // What a wait may come to see of each child; `all` is for a wait that runs to its end.
    method Exits(all: bool) returns (exits: seq<Option<int>>)
      ensures |exits| == |children| && (all ==> AllSeen(exits))
    {
      exits := [];
      for i := 0 to |children|
        invariant |exits| == i && (all ==> AllSeen(exits))
      {
        var code: int, seen: bool := *, *;
        exits := exits + [if all || seen then Some(code) else None];
      }
    }

    /** `_terminate_remaining`: SIGTERM, a grace period, then SIGKILL. What it leaves is what `AfterReaping` says. */
    method TerminateRemaining() returns (ghost r: Reaping, cancelled: bool)
      requires Valid()
      modifies this`children, this`faults
      ensures Valid() && Fits(old(children), r) && children == AfterReaping(old(children), r)
      ensures cancelled == !r.cut.Uncut? && faults == old(faults) + if cancelled then 1 else 0
      ensures !cancelled ==> Reaped(children)
    {
      if forall i :: 0 <= i < |children| ==> children[i].exit.Some? {
        ghost var idle := seq(|children|, i => Some(0));
        r, cancelled := Reaping(idle, idle, Uncut), false;
        assert children == AfterReaping(children, r);
        return;
      }
      var grace := Exits(false);
      Settle(grace);
      var first: bool, second: bool := *, *;
      if first {
        faults := faults + 1;
        r, cancelled := Reaping(grace, grace, InGrace), true;
        return;
      }
      var killed := Exits(!second);
      Settle(killed);
      if second { faults := faults + 1; }
      r, cancelled := Reaping(grace, killed, if second then AfterKill else Uncut), second;
    }

    predicate Failed()
      reads this
    {
      crashes != [] || exists i :: 0 <= i < |children| && !CleanExit(children[i])
    }
  }

  // How `run` ends: with an exit status, with an error of a spawn, or cancelled.
  datatype End = Status(code: nat) | Raised | Cancelled

  /** `run`. Wherever a spawn fails or a cancellation falls, the children spawned so far are reaped, `running` being
      what they were when that began; only a cancellation of the reaping itself leaves one behind. */
  method Run(s: Supervisor, enabled: seq<string>) returns (end: End, ghost running: seq<Child>, ghost r: Reaping)
    requires s.Valid() && s.children == [] && s.crashes == [] && !s.shutdownSet && !s.draining && s.accepted == map[]
    modifies s
    ensures s.Valid() && Fits(running, r) && s.children == AfterReaping(running, r)
    ensures r.cut.Uncut? ==> Reaped(s.children)
    ensures !r.cut.Uncut? ==> end.Cancelled?
    ensures end == Status(0) ==>
              || enabled == []
              || s.shutdownSet
              || (|s.children| == |enabled| && s.Covered({}))
    ensures end.Status? ==>
              (end.code == 0 <==>
                s.crashes == [] && forall i :: 0 <= i < |s.children| ==> s.children[i].exit in {Some(0), Some(-15)})
    // it is cut short only by a spawn that fails or a cancellation
    ensures s.faults == old(s.faults) ==> end.Status? && r.cut.Uncut?
  {
    if enabled == [] { return Status(0), [], Reaping([], [], Uncut); }
    var spawned := SpawnAll(s, enabled);
    end := Cancelled;
    if spawned {
      var interrupted;
      ghost var who;
      interrupted, who := s.WaitForShutdownOrCrash();
      end := if interrupted then Cancelled else Status(0);
    } else if * {
      end := Raised;
    }
    running := s.children;
    var cancelled;
    r, cancelled := s.TerminateRemaining();
    ReapingProceeds(running, r);
    if cancelled {
      end := Cancelled;
    } else if end.Status? {
      end := Status(if s.Failed() then 1 else 0);
    }
  }

  // Spawning may fail, or be cancelled, at any child.
  method SpawnAll(s: Supervisor, enabled: seq<string>) returns (all: bool)
    requires s.Valid() && s.children == [] && s.crashes == [] && !s.draining && s.accepted == map[]
    modifies s
    ensures s.Valid() && s.crashes == [] && !s.draining && s.accepted == map[]
    ensures all ==> |s.children| == |enabled| && s.faults == old(s.faults)
    ensures !all ==> s.faults > old(s.faults)
    ensures |s.children| <= |enabled| && forall i :: 0 <= i < |s.children| ==> s.children[i].name == enabled[i]
  {
    var i := 0;
    while i < |enabled|
      invariant i <= |enabled| && s.Valid() && |s.children| == i && s.faults == old(s.faults)
      invariant forall j :: 0 <= j < i ==> s.children[j].name == enabled[j]
      invariant s.crashes == [] && s.accepted == map[] && !s.draining
    {
      if * {
        s.faults := s.faults + 1;
        return false;
      }
      s.Tick();
      s.children := s.children + [Child(enabled[i], None)];
      i := i + 1;
    }
    all := true;
  }
}
