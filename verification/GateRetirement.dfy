/**
 Which open human gates a hand delivery retires (`StoryState.retirement` in `_deliver_lithos.py`):
 the rule over dispatch routes, run ids and lineage, and what it does over re-runs.
 */
module GateRetirement {
  import opened Options

  // An open human gate holding the story; an empty run id means it names no run.
  datatype HumanGate = HumanGate(id: nat, route: Option<string>, reason: string, runId: string)

  datatype Why = BriefReview | NotADispatchRoute | AnotherRun | Unattributed

  datatype Retirement = Retirement(
    superseded: seq<HumanGate>,
    retained: seq<(HumanGate, Why)>,
    routes: set<string>,            // whose failed-attempt markers may be cleared
    clearsPointer: bool)            // whether `needs_human_gate_id` may be cleared

  const BRIEF_REVIEW := "brief_review"

  // What one delivery knows: the configured routes, its run and the runs it continues.
  datatype Scope = Scope(allowed: set<string>, runId: string, ancestors: seq<string>)
  {
    // Empty ids never match a gate that names no run.
    predicate IsOurs(id: string) { id != "" && (id == runId || id in ancestors) }
  }

  predicate IsCandidate(sc: Scope, g: HumanGate) {
    g.reason != BRIEF_REVIEW && g.route.Some? && g.route.value in sc.allowed
  }

  function Candidates(sc: Scope, gates: seq<HumanGate>): seq<HumanGate> {
    if gates == [] then []
    else (if IsCandidate(sc, gates[0]) then [gates[0]] else []) + Candidates(sc, gates[1..])
  }

  function OursOf(sc: Scope, gates: seq<HumanGate>): seq<HumanGate> {
    if gates == [] then []
    else (if sc.IsOurs(gates[0].runId) then [gates[0]] else []) + OursOf(sc, gates[1..])
  }

  predicate AnyNamed(gates: seq<HumanGate>) { exists g | g in gates :: g.runId != "" }

  // The gates this delivery completes, among the candidates.
  function Choose(sc: Scope, candidates: seq<HumanGate>): seq<HumanGate> {
    if OursOf(sc, candidates) != [] then OursOf(sc, candidates)
    else if AnyNamed(candidates) then []
    else if |candidates| == 1 then candidates
    else []
  }

  function Superseded(sc: Scope, gates: seq<HumanGate>): seq<HumanGate> {
    Choose(sc, Candidates(sc, gates))
  }

  // Kept before the candidates are looked at, with the reason.
  function KeptFirst(sc: Scope, gates: seq<HumanGate>): seq<(HumanGate, Why)> {
    if gates == [] then []
    else
      (if gates[0].reason == BRIEF_REVIEW then [(gates[0], BriefReview)]
       else if IsCandidate(sc, gates[0]) then []
       else [(gates[0], NotADispatchRoute)]) + KeptFirst(sc, gates[1..])
  }

  // Candidates that were not chosen.
  function KeptLater(candidates: seq<HumanGate>, chosen: set<nat>): seq<(HumanGate, Why)> {
    if candidates == [] then []
    else
      (if candidates[0].id in chosen then []
       else [(candidates[0], if candidates[0].runId != "" then AnotherRun else Unattributed)])
      + KeptLater(candidates[1..], chosen)
  }

  function Ids(gates: seq<HumanGate>): set<nat> { set g | g in gates :: g.id }

  function RoutesOf(gates: seq<HumanGate>): set<string> { set g | g in gates && g.route.Some? :: g.route.value }

  function RetirementOf(sc: Scope, gates: seq<HumanGate>, attempts: set<string>, pointer: Option<nat>): Retirement {
    var candidates := Candidates(sc, gates);
    var superseded := Superseded(sc, gates);
    Retirement(
      superseded,
      KeptFirst(sc, gates) + KeptLater(candidates, Ids(superseded)),
      if superseded != [] then RoutesOf(superseded) * attempts else if candidates == [] then attempts else {},
      pointer.None? || pointer.value !in Ids(gates) - Ids(superseded))
  }

  // ---- The loops of the code ---------------------------------------------------------------------

  lemma {:induction false} CandidatesSnoc(sc: Scope, gates: seq<HumanGate>, g: HumanGate)
    ensures Candidates(sc, gates + [g]) ==
            if IsCandidate(sc, g) then Candidates(sc, gates) + [g] else Candidates(sc, gates)
  {
    if gates != [] {
      assert (gates + [g])[1..] == gates[1..] + [g];
      CandidatesSnoc(sc, gates[1..], g);
    }
  }

  lemma {:induction false} KeptFirstSnoc(sc: Scope, gates: seq<HumanGate>, g: HumanGate)
    ensures KeptFirst(sc, gates + [g]) ==
            if g.reason == BRIEF_REVIEW then KeptFirst(sc, gates) + [(g, BriefReview)]
            else if IsCandidate(sc, g) then KeptFirst(sc, gates)
            else KeptFirst(sc, gates) + [(g, NotADispatchRoute)]
  {
    if gates != [] {
      assert (gates + [g])[1..] == gates[1..] + [g];
      KeptFirstSnoc(sc, gates[1..], g);
    }
  }

  lemma {:induction false} KeptLaterSnoc(gates: seq<HumanGate>, g: HumanGate, chosen: set<nat>)
    ensures KeptLater(gates + [g], chosen) ==
            if g.id in chosen then KeptLater(gates, chosen)
            else KeptLater(gates, chosen) + [(g, if g.runId != "" then AnotherRun else Unattributed)]
  {
    if gates != [] {
      assert (gates + [g])[1..] == gates[1..] + [g];
      KeptLaterSnoc(gates[1..], g, chosen);
    }
  }

  method SplitCandidates(sc: Scope, gates: seq<HumanGate>)
    returns (candidates: seq<HumanGate>, retained: seq<(HumanGate, Why)>)
    ensures candidates == Candidates(sc, gates) && retained == KeptFirst(sc, gates)
  {
    candidates, retained := [], [];
    for i := 0 to |gates|
      invariant candidates == Candidates(sc, gates[..i])
      invariant retained == KeptFirst(sc, gates[..i])
    {
      var gate := gates[i];
      assert gates[..i + 1] == gates[..i] + [gate];
      CandidatesSnoc(sc, gates[..i], gate);
      KeptFirstSnoc(sc, gates[..i], gate);
      if gate.reason == BRIEF_REVIEW {
        retained := retained + [(gate, BriefReview)];
      } else if gate.route.Some? && gate.route.value in sc.allowed {
        candidates := candidates + [gate];
      } else {
        retained := retained + [(gate, NotADispatchRoute)];
      }
    }
    assert gates[..|gates|] == gates;
  }

  method KeepUnchosen(candidates: seq<HumanGate>, chosen: set<nat>) returns (retained: seq<(HumanGate, Why)>)
    ensures retained == KeptLater(candidates, chosen)
  {
    retained := [];
    for i := 0 to |candidates|
      invariant retained == KeptLater(candidates[..i], chosen)
    {
      assert candidates[..i + 1] == candidates[..i] + [candidates[i]];
      KeptLaterSnoc(candidates[..i], candidates[i], chosen);
      if candidates[i].id !in chosen {
        retained := retained + [(candidates[i], if candidates[i].runId != "" then AnotherRun else Unattributed)];
      }
    }
    assert candidates[..|candidates|] == candidates;
  }

  /** `StoryState.retirement`. */
  method Retire(sc: Scope, gates: seq<HumanGate>, attempts: set<string>, pointer: Option<nat>) returns (r: Retirement)
    ensures r == RetirementOf(sc, gates, attempts, pointer)
  {
    var candidates, first := SplitCandidates(sc, gates);
    var superseded := [];
    if OursOf(sc, candidates) != [] {
      superseded := OursOf(sc, candidates);
    } else if !AnyNamed(candidates) && |candidates| == 1 {
      superseded := candidates;
    }
    var later := KeepUnchosen(candidates, Ids(superseded));
    var routes :=
      if superseded != [] then RoutesOf(superseded) * attempts
      else if candidates == [] then attempts
      else {};
    r := Retirement(superseded, first + later, routes, pointer.None? || pointer.value !in Ids(gates) - Ids(superseded));
  }

  // ---- What is never retired ------------------------------------------------------------------------

  // Gates no delivery in this scope may complete.
  predicate Protected(sc: Scope, g: HumanGate) {
    || g.reason == BRIEF_REVIEW
    || g.route.None? || g.route.value !in sc.allowed
    || (g.runId != "" && !sc.IsOurs(g.runId))
  }

  lemma {:induction false} CandidatesAreCandidates(sc: Scope, gates: seq<HumanGate>, g: HumanGate)
    ensures g in Candidates(sc, gates) <==> g in gates && IsCandidate(sc, g)
  {
    if gates != [] { CandidatesAreCandidates(sc, gates[1..], g); }
  }

  lemma {:induction false} OursAreOurs(sc: Scope, gates: seq<HumanGate>, g: HumanGate)
    ensures g in OursOf(sc, gates) <==> g in gates && sc.IsOurs(g.runId)
  {
    if gates != [] { OursAreOurs(sc, gates[1..], g); }
  }

  /** A gate is retired exactly when it is an unprotected candidate that names our lineage, or names no
      run and is the only candidate there is. */
  lemma SupersededExactly(sc: Scope, gates: seq<HumanGate>, g: HumanGate)
    ensures g in Superseded(sc, gates) <==>
            && g in gates && !Protected(sc, g)
            && (g.runId != "" || Candidates(sc, gates) == [g])
  {
    var cs := Candidates(sc, gates);
    CandidatesAreCandidates(sc, gates, g);
    OursAreOurs(sc, cs, g);
    if OursOf(sc, cs) != [] {
      var o := OursOf(sc, cs)[0];
      OursAreOurs(sc, cs, o);
      assert o in cs;
    } else if g in cs && g.runId != "" {
      assert AnyNamed(cs);
    } else if AnyNamed(cs) {
      var n :| n in cs && n.runId != "";
      assert cs == [g] ==> n == g;
    }
  }

  /** A route's failed-attempt marker is cleared exactly if it has one and a gate retired here is on that route, or no
      open gate waits on a configured route at all (a brief review does not count). */
  lemma RoutesClearedExactly(sc: Scope, gates: seq<HumanGate>, attempts: set<string>, pointer: Option<nat>, r: string)
    ensures r in RetirementOf(sc, gates, attempts, pointer).routes <==>
            && r in attempts
            && ((exists g :: g in Superseded(sc, gates) && g.route == Some(r)) ||
                forall g :: g in gates ==> g.reason == BRIEF_REVIEW || g.route.None? || g.route.value !in sc.allowed)
  {
    var candidates, superseded := Candidates(sc, gates), Superseded(sc, gates);
    forall g ensures g in candidates <==> g in gates && IsCandidate(sc, g) { CandidatesAreCandidates(sc, gates, g); }
    forall g ensures g in superseded ==> g in candidates { SupersededExactly(sc, gates, g); }
    assert candidates != [] ==> candidates[0] in candidates;
    assert superseded != [] ==> superseded[0] in superseded;
  }

  /** At an input: of two stopped runs on two routes, only the delivered one's marker goes. */
  lemma TheOtherRoutesMarkerStays()
    ensures var sc := Scope({"A", "B"}, "run-1", []);
            var gates := [HumanGate(1, Some("A"), "", "run-1"), HumanGate(2, Some("B"), "", "run-2")];
            RetirementOf(sc, gates, {"A", "B"}, None).routes == {"A"}
  {
    var sc := Scope({"A", "B"}, "run-1", []);
    var first, other := HumanGate(1, Some("A"), "", "run-1"), HumanGate(2, Some("B"), "", "run-2");
    var gates := [first, other];
    assert "A"[0] != "B"[0] && "run-1"[4] != "run-2"[4];
    assert first in gates && IsCandidate(sc, first) && sc.IsOurs(first.runId) && !sc.IsOurs(other.runId);
    forall g ensures g in Superseded(sc, gates) <==> g == first {
      SupersededExactly(sc, gates, g);
      assert g in gates <==> g == first || g == other;
    }
    forall r ensures r in RetirementOf(sc, gates, {"A", "B"}, None).routes <==> r == "A" {
      RoutesClearedExactly(sc, gates, {"A", "B"}, None, r);
    }
  }

  // ---- Partition -------------------------------------------------------------------------------------

  ghost predicate DistinctIds(gates: seq<HumanGate>) {
    forall i, j :: 0 <= i < j < |gates| ==> gates[i].id != gates[j].id
  }

  function KeptGates(kept: seq<(HumanGate, Why)>): seq<HumanGate> {
    if kept == [] then [] else [kept[0].0] + KeptGates(kept[1..])
  }

  lemma {:induction false} KeptGatesAppend(a: seq<(HumanGate, Why)>, b: seq<(HumanGate, Why)>)
    ensures KeptGates(a + b) == KeptGates(a) + KeptGates(b)
  {
    if a == [] {
      assert a + b == b;
    } else {
      assert (a + b)[1..] == a[1..] + b;
      KeptGatesAppend(a[1..], b);
    }
  }

  lemma {:induction false} CandidatesOrKept(sc: Scope, gates: seq<HumanGate>)
    ensures multiset(gates) == multiset(Candidates(sc, gates)) + multiset(KeptGates(KeptFirst(sc, gates)))
  {
    if gates != [] {
      CandidatesOrKept(sc, gates[1..]);
      assert gates == [gates[0]] + gates[1..];
      var first := if gates[0].reason == BRIEF_REVIEW then [(gates[0], BriefReview)]
                   else if IsCandidate(sc, gates[0]) then [] else [(gates[0], NotADispatchRoute)];
      KeptGatesAppend(first, KeptFirst(sc, gates[1..]));
    }
  }

  // The candidates in a set of ids, and those left.
  function WithIds(gates: seq<HumanGate>, ids: set<nat>): seq<HumanGate> {
    if gates == [] then []
    else (if gates[0].id in ids then [gates[0]] else []) + WithIds(gates[1..], ids)
  }

  lemma CountOneMore(g: HumanGate, all: seq<HumanGate>, a: seq<HumanGate>, b: seq<HumanGate>)
    requires multiset(all) == multiset(a) + multiset(b)
    ensures multiset([g] + all) == multiset([g] + a) + multiset(b)
    ensures multiset([g] + all) == multiset(a) + multiset([g] + b)
  {}

  lemma ChosenCons(g: HumanGate, rest: seq<HumanGate>, ids: set<nat>)
    ensures WithIds([g] + rest, ids) == if g.id in ids then [g] + WithIds(rest, ids) else WithIds(rest, ids)
  {
    assert ([g] + rest)[1..] == rest;
  }

  lemma KeptCons(g: HumanGate, rest: seq<HumanGate>, ids: set<nat>)
    ensures KeptGates(KeptLater([g] + rest, ids)) ==
            if g.id in ids then KeptGates(KeptLater(rest, ids)) else [g] + KeptGates(KeptLater(rest, ids))
  {
    var kept := (g, if g.runId != "" then AnotherRun else Unattributed);
    assert ([g] + rest)[1..] == rest;
    if g.id in ids {
      assert KeptLater([g] + rest, ids) == KeptLater(rest, ids);
    } else {
      assert KeptLater([g] + rest, ids) == [kept] + KeptLater(rest, ids);
      assert ([kept] + KeptLater(rest, ids))[1..] == KeptLater(rest, ids);
    }
  }

  lemma {:induction false} ChosenOrKept(candidates: seq<HumanGate>, ids: set<nat>)
    ensures multiset(candidates) == multiset(WithIds(candidates, ids)) + multiset(KeptGates(KeptLater(candidates, ids)))
  {
    if candidates != [] {
      var g, rest := candidates[0], candidates[1..];
      ChosenOrKept(rest, ids);
      CountOneMore(g, rest, WithIds(rest, ids), KeptGates(KeptLater(rest, ids)));
      assert candidates == [g] + rest;
      ChosenCons(g, rest, ids);
      KeptCons(g, rest, ids);
    }
  }

  lemma {:induction false} OursByIds(sc: Scope, gates: seq<HumanGate>, ids: set<nat>)
    requires forall g :: g in gates ==> (g.id in ids <==> sc.IsOurs(g.runId))
    ensures WithIds(gates, ids) == OursOf(sc, gates)
  {
    if gates != [] { OursByIds(sc, gates[1..], ids); }
  }

  lemma {:induction false} AllByIds(gates: seq<HumanGate>, ids: set<nat>)
    requires forall g :: g in gates ==> g.id in ids
    ensures WithIds(gates, ids) == gates
  {
    if gates != [] { AllByIds(gates[1..], ids); }
  }

  lemma {:induction false} NoneByIds(gates: seq<HumanGate>)
    ensures WithIds(gates, {}) == []
  {
    if gates != [] { NoneByIds(gates[1..]); }
  }

  lemma SameIdSameGate(gates: seq<HumanGate>, g: HumanGate, h: HumanGate)
    requires DistinctIds(gates) && g in gates && h in gates && g.id == h.id
    ensures g == h
  {}

  // When some candidate is ours, the chosen are told by their ids.
  lemma ChosenIsOurs(sc: Scope, gates: seq<HumanGate>)
    requires DistinctIds(gates) && OursOf(sc, Candidates(sc, gates)) != []
    ensures forall g :: g in Candidates(sc, gates) ==> (g.id in Ids(Superseded(sc, gates)) <==> sc.IsOurs(g.runId))
  {
    var cs, chosen := Candidates(sc, gates), Superseded(sc, gates);
    forall g | g in cs ensures g.id in Ids(chosen) <==> sc.IsOurs(g.runId) {
      OursAreOurs(sc, cs, g);
      if h :| h in chosen && h.id == g.id {
        OursAreOurs(sc, cs, h);
        CandidatesAreCandidates(sc, gates, g);
        CandidatesAreCandidates(sc, gates, h);
        SameIdSameGate(gates, g, h);
      }
    }
  }

  lemma ChosenByIds(sc: Scope, gates: seq<HumanGate>)
    requires DistinctIds(gates)
    ensures WithIds(Candidates(sc, gates), Ids(Superseded(sc, gates))) == Superseded(sc, gates)
  {
    var cs, chosen := Candidates(sc, gates), Superseded(sc, gates);
    if OursOf(sc, cs) != [] {
      ChosenIsOurs(sc, gates);
      OursByIds(sc, cs, Ids(chosen));
    } else if chosen == [] {
      assert Ids(chosen) == {};
      NoneByIds(cs);
    } else {
      AllByIds(cs, Ids(chosen));
    }
  }

  /** In each pass the retired and the retained gates are exactly the open ones, each once. */
  lemma RetirementPartitionsTheGates(sc: Scope, gates: seq<HumanGate>, attempts: set<string>, pointer: Option<nat>)
    requires DistinctIds(gates)
    ensures var r := RetirementOf(sc, gates, attempts, pointer);
            multiset(gates) == multiset(r.superseded) + multiset(KeptGates(r.retained))
  {
    var cs, chosen := Candidates(sc, gates), Superseded(sc, gates);
    CandidatesOrKept(sc, gates);
    ChosenOrKept(cs, Ids(chosen));
    ChosenByIds(sc, gates);
    KeptGatesAppend(KeptFirst(sc, gates), KeptLater(cs, Ids(chosen)));
  }

  /** Every retained gate is retained for the reason reported with it. */
  lemma RetainedForItsReason(sc: Scope, gates: seq<HumanGate>, attempts: set<string>, pointer: Option<nat>,
      kept: (HumanGate, Why))
    requires kept in RetirementOf(sc, gates, attempts, pointer).retained
    ensures kept.0 in gates && kept.0 !in Superseded(sc, gates)
    ensures match kept.1
            case BriefReview => kept.0.reason == BRIEF_REVIEW
            case NotADispatchRoute => kept.0.reason != BRIEF_REVIEW && !IsCandidate(sc, kept.0)
            case AnotherRun => IsCandidate(sc, kept.0) && kept.0.runId != "" && !sc.IsOurs(kept.0.runId)
            case Unattributed => IsCandidate(sc, kept.0) && kept.0.runId == "" && Candidates(sc, gates) != [kept.0]
  {
    var ids := Ids(Superseded(sc, gates));
    SupersededExactly(sc, gates, kept.0);
    if kept in KeptFirst(sc, gates) {
      KeptFirstReasons(sc, gates, kept);
    } else {
      KeptLaterReasons(Candidates(sc, gates), ids, kept);
      CandidatesAreCandidates(sc, gates, kept.0);
    }
  }

  lemma {:induction false} KeptFirstReasons(sc: Scope, gates: seq<HumanGate>, kept: (HumanGate, Why))
    requires kept in KeptFirst(sc, gates)
    ensures kept.0 in gates && !IsCandidate(sc, kept.0)
    ensures kept.1 == if kept.0.reason == BRIEF_REVIEW then BriefReview else NotADispatchRoute
  {
    if kept in KeptFirst(sc, gates[1..]) { KeptFirstReasons(sc, gates[1..], kept); }
  }

  lemma {:induction false} KeptLaterReasons(gates: seq<HumanGate>, chosen: set<nat>, kept: (HumanGate, Why))
    requires kept in KeptLater(gates, chosen)
    ensures kept.0 in gates && kept.0.id !in chosen
    ensures kept.1 == if kept.0.runId != "" then AnotherRun else Unattributed
  {
    if kept in KeptLater(gates[1..], chosen) { KeptLaterReasons(gates[1..], chosen, kept); }
  }

  // ---- Re-runs -----------------------------------------------------------------------------------------

  // The gates a pass leaves open when every retirement succeeded.
  function Remaining(sc: Scope, gates: seq<HumanGate>): seq<HumanGate> {
    Without(gates, Ids(Superseded(sc, gates)))
  }

  function Without(gates: seq<HumanGate>, ids: set<nat>): seq<HumanGate> {
    if gates == [] then []
    else (if gates[0].id in ids then [] else [gates[0]]) + Without(gates[1..], ids)
  }

  lemma WithoutCons(g: HumanGate, rest: seq<HumanGate>, ids: set<nat>)
    ensures Without([g] + rest, ids) == (if g.id in ids then [] else [g]) + Without(rest, ids)
  {
    assert ([g] + rest)[1..] == rest;
  }

  lemma CandidatesCons(sc: Scope, g: HumanGate, rest: seq<HumanGate>)
    ensures Candidates(sc, [g] + rest) == (if IsCandidate(sc, g) then [g] else []) + Candidates(sc, rest)
  {
    assert ([g] + rest)[1..] == rest;
  }

  lemma {:induction false} CandidatesWithout(sc: Scope, gates: seq<HumanGate>, ids: set<nat>)
    ensures Candidates(sc, Without(gates, ids)) == Without(Candidates(sc, gates), ids)
  {
    if gates != [] {
      CandidatesWithout(sc, gates[1..], ids);
      assert gates == [gates[0]] + gates[1..];
      CandidatesCons(sc, gates[0], Without(gates[1..], ids));
      WithoutCons(gates[0], Candidates(sc, gates[1..]), ids);
      assert [] + Candidates(sc, gates[1..]) == Candidates(sc, gates[1..]);
      assert [] + Without(gates[1..], ids) == Without(gates[1..], ids);
    }
  }

  lemma {:induction false} WithoutKeeps(gates: seq<HumanGate>, ids: set<nat>, g: HumanGate)
    ensures g in Without(gates, ids) <==> g in gates && g.id !in ids
  {
    if gates != [] {
      WithoutKeeps(gates[1..], ids, g);
      assert g in gates <==> g == gates[0] || g in gates[1..];
    }
  }

  lemma {:induction false} WithoutNothing(gates: seq<HumanGate>)
    ensures Without(gates, {}) == gates
  {
    if gates != [] { WithoutNothing(gates[1..]); }
  }

  lemma {:induction false} WithoutDistinct(gates: seq<HumanGate>, ids: set<nat>)
    requires DistinctIds(gates)
    ensures DistinctIds(Without(gates, ids))
  {
    if gates != [] {
      var rest := Without(gates[1..], ids);
      WithoutDistinct(gates[1..], ids);
      forall j | 0 <= j < |rest| ensures gates[0].id != rest[j].id {
        WithoutKeeps(gates[1..], ids, rest[j]);
        var k :| 0 <= k < |gates[1..]| && gates[1..][k] == rest[j];
        assert gates[k + 1] == rest[j];
      }
    }
  }

  // After a full pass no candidate of our lineage is left.
  lemma NoneOfOursRemains(sc: Scope, gates: seq<HumanGate>)
    ensures OursOf(sc, Candidates(sc, Remaining(sc, gates))) == []
  {
    var cs, ids := Candidates(sc, gates), Ids(Superseded(sc, gates));
    CandidatesWithout(sc, gates, ids);
    var left := OursOf(sc, Without(cs, ids));
    assert left != [] ==> left[0] in left;
    forall g ensures g !in left {
      OursAreOurs(sc, Without(cs, ids), g);
      WithoutKeeps(cs, ids, g);
      OursAreOurs(sc, cs, g);
      assert g in Superseded(sc, gates) ==> g.id in ids;
    }
  }

  function NotOurs(sc: Scope, gates: seq<HumanGate>): seq<HumanGate> {
    if gates == [] then []
    else (if sc.IsOurs(gates[0].runId) then [] else [gates[0]]) + NotOurs(sc, gates[1..])
  }

  // Retiring by id those of our lineage leaves the others.
  lemma {:induction false} WithoutOurs(sc: Scope, gates: seq<HumanGate>, ids: set<nat>)
    requires forall g :: g in gates ==> (g.id in ids <==> sc.IsOurs(g.runId))
    ensures Without(gates, ids) == NotOurs(sc, gates)
  {
    if gates != [] { WithoutOurs(sc, gates[1..], ids); }
  }

  lemma OurIdsAreOurs(sc: Scope, gates: seq<HumanGate>)
    requires DistinctIds(gates) && OursOf(sc, Candidates(sc, gates)) != []
    ensures Candidates(sc, Remaining(sc, gates)) == NotOurs(sc, Candidates(sc, gates))
  {
    var cs, chosen := Candidates(sc, gates), Superseded(sc, gates);
    ChosenIsOurs(sc, gates);
    WithoutOurs(sc, cs, Ids(chosen));
    CandidatesWithout(sc, gates, Ids(chosen));
  }

  // A second pass needs a first that retired one of ours.
  lemma SecondPassNeedsOurs(sc: Scope, gates: seq<HumanGate>)
    requires OursOf(sc, Candidates(sc, gates)) == []
    ensures Superseded(sc, Remaining(sc, gates)) == []
  {
    var cs, chosen := Candidates(sc, gates), Superseded(sc, gates);
    if chosen == [] {
      assert Ids(chosen) == {};
      WithoutNothing(gates);
    } else {
      CandidatesWithout(sc, gates, Ids(chosen));
      assert cs == [cs[0]] + [];
      WithoutCons(cs[0], [], Ids(chosen));
    }
  }

  /** Retiring is not idempotent. After a full pass, a second pass over what is left retires something
      exactly when the candidates had one of our lineage, and exactly one other, which names no run. */
  lemma SecondPassRetiresExactly(sc: Scope, gates: seq<HumanGate>)
    requires DistinctIds(gates)
    ensures var cs := Candidates(sc, gates);
            Superseded(sc, Remaining(sc, gates)) != [] <==>
            OursOf(sc, cs) != [] && |NotOurs(sc, cs)| == 1 && NotOurs(sc, cs)[0].runId == ""
  {
    if OursOf(sc, Candidates(sc, gates)) == [] {
      SecondPassNeedsOurs(sc, gates);
    } else {
      NoneOfOursRemains(sc, gates);
      OurIdsAreOurs(sc, gates);
      LoneCandidate(sc, Remaining(sc, gates));
    }
  }

  // With none of ours among them, candidates are retired exactly when there is one and it names no run.
  lemma LoneCandidate(sc: Scope, gates: seq<HumanGate>)
    requires OursOf(sc, Candidates(sc, gates)) == []
    ensures var cs := Candidates(sc, gates);
            Superseded(sc, gates) != [] <==> |cs| == 1 && cs[0].runId == ""
  {
    var cs := Candidates(sc, gates);
    if |cs| == 1 { assert AnyNamed(cs) <==> cs[0].runId != ""; }
  }

  lemma OursCons(sc: Scope, g: HumanGate, rest: seq<HumanGate>)
    ensures OursOf(sc, [g] + rest) == (if sc.IsOurs(g.runId) then [g] else []) + OursOf(sc, rest)
  {
    assert ([g] + rest)[1..] == rest;
  }

  /** At an input: of two gates of one route, the one that names no run is kept first and retired next. */
  lemma TheSecondPassRetiresOne(route: string, runId: string)
    requires runId != ""
    ensures var sc := Scope({route}, runId, []);
            var ours, loner := HumanGate(1, Some(route), "", runId), HumanGate(2, Some(route), "", "");
            && Superseded(sc, [ours, loner]) == [ours] && Remaining(sc, [ours, loner]) == [loner]
            && Superseded(sc, [loner]) == [loner]
  {
    var sc := Scope({route}, runId, []);
    var ours, loner := HumanGate(1, Some(route), "", runId), HumanGate(2, Some(route), "", "");
    assert [ours] + [loner] == [ours, loner] && [loner] + [] == [loner];
    assert IsCandidate(sc, ours) && IsCandidate(sc, loner) && sc.IsOurs(ours.runId) && !sc.IsOurs(loner.runId);
    CandidatesCons(sc, loner, []);
    CandidatesCons(sc, ours, [loner]);
    OursCons(sc, loner, []);
    OursCons(sc, ours, [loner]);
    assert Ids([ours]) == {1};
    WithoutCons(loner, [], {1});
    WithoutCons(ours, [loner], {1});
    assert !AnyNamed([loner]);
  }

  /** Two full passes settle it: a third retires nothing. */
  lemma ThirdPassRetiresNothing(sc: Scope, gates: seq<HumanGate>)
    ensures Superseded(sc, Remaining(sc, Remaining(sc, gates))) == []
  {
    NoneOfOursRemains(sc, gates);
    SecondPassNeedsOurs(sc, Remaining(sc, gates));
  }

  // One re-run: other actors raise gates, the pass completes some of those it may.
  datatype Pass = Pass(raised: seq<HumanGate>, completed: set<nat>)

  ghost predicate MayPass(sc: Scope, gates: seq<HumanGate>, pass: Pass) {
    && DistinctIds(gates + pass.raised)
    && pass.completed <= Ids(Superseded(sc, gates + pass.raised))
  }

  function OpenAfter(gates: seq<HumanGate>, passes: seq<Pass>): seq<HumanGate>
    decreases |passes|
  {
    if passes == [] then gates
    else OpenAfter(Without(gates + passes[0].raised, passes[0].completed), passes[1..])
  }

  ghost predicate MayPasses(sc: Scope, gates: seq<HumanGate>, passes: seq<Pass>)
    decreases |passes|
  {
    passes == [] ||
    (MayPass(sc, gates, passes[0]) &&
     MayPasses(sc, Without(gates + passes[0].raised, passes[0].completed), passes[1..]))
  }

  /** Over any sequence of re-runs, whatever fails and whatever others raise, a protected gate stays open. */
  lemma {:induction false} ProtectedGatesStayOpen(sc: Scope, gates: seq<HumanGate>, passes: seq<Pass>, g: HumanGate)
    requires MayPasses(sc, gates, passes) && g in gates && Protected(sc, g)
    ensures g in OpenAfter(gates, passes)
    decreases |passes|
  {
    if passes != [] {
      var all := gates + passes[0].raised;
      if g.id in passes[0].completed {
        var h :| h in Superseded(sc, all) && h.id == g.id;
        SupersededExactly(sc, all, h);
        SameIdSameGate(all, g, h);
      }
      WithoutKeeps(all, passes[0].completed, g);
      ProtectedGatesStayOpen(sc, Without(all, passes[0].completed), passes[1..], g);
    }
  }

  /** The provenance pointer is kept exactly while it names a gate this delivery keeps open. */
  lemma PointerNamesAKeptGate(sc: Scope, gates: seq<HumanGate>, attempts: set<string>, id: nat)
    requires DistinctIds(gates)
    ensures !RetirementOf(sc, gates, attempts, Some(id)).clearsPointer <==>
            exists g :: g in Remaining(sc, gates) && g.id == id
  {
    var ids := Ids(Superseded(sc, gates));
    if id in Ids(gates) - ids {
      var g :| g in gates && g.id == id;
      WithoutKeeps(gates, ids, g);
    }
    if g :| g in Remaining(sc, gates) && g.id == id { WithoutKeeps(gates, ids, g); }
  }
}
