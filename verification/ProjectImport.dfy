/**
 The creation loop of the bulk import (`_project_import_bulk.py`): plans become tasks in
 document order, line numbers resolve to freshly minted ids, and any call may fail.

 Every client call is at-least-once: a create whose response was lost is sent again, so a
 plan may leave spare copies on the server, and a create reported as failed may have committed,
 or may do so at any later moment.
 */
module ProjectImport {
  import opened Options
  import opened Sequences
  import opened TaskGraph
  import opened TaskLineParser

  datatype Created = Created(
    id: nat, lineNumber: nat, title: string, taskType: TaskType, parent: Option<nat>, dependsOn: seq<nat>)
  {
    predicate RefersTo(ref: nat) { parent == Some(ref) || ref in dependsOn }
  }

  // A task with one of these payloads, whatever id it got.
  ghost predicate IsCopy(c: Created, sent: set<Created>) { exists p :: p in sent && c == p.(id := c.id) }

  ghost predicate AreCopies(extra: seq<Created>, sent: set<Created>) {
    forall k :: 0 <= k < |extra| ==> IsCopy(extra[k], sent)
  }

  ghost predicate Distinct(tasks: seq<Created>) {
    forall j, k :: 0 <= j < k < |tasks| ==> tasks[j].id < tasks[k].id
  }

  class Server {
    var tasks: seq<Created>
    var minted: nat
    var findings: seq<nat>
    ghost var faults: nat      // sends that failed or went unanswered
    ghost var posts: seq<nat>  // the tasks a finding was posted for, or tried to

    ghost predicate Valid()
      reads this
    {
      Distinct(tasks) && forall k :: 0 <= k < |tasks| ==> tasks[k].id < minted
    }

    constructor ()
      ensures Valid() && tasks == []
    {
      tasks, minted, findings, faults, posts := [], 0, [], 0, [];
    }

    method Commit(payload: Created) returns (c: Created)
      requires Valid()
      modifies this
      ensures Valid() && findings == old(findings) && posts == old(posts) && faults == old(faults)
      ensures tasks == old(tasks) + [c] && c == payload.(id := c.id)
    {
      c := payload.(id := minted);
      tasks := tasks + [c];
      minted := minted + 1;
    }

    // Sends that were given up for lost arrive after all.
    method Land(lost: set<Created>) returns (ghost extra: seq<Created>)
      requires Valid()
      modifies this
      ensures Valid() && findings == old(findings) && posts == old(posts) && faults == old(faults)
      ensures tasks == old(tasks) + extra && AreCopies(extra, lost) && (lost == {} ==> extra == [])
    {
      extra := [];
      var n: nat := *;
      while n > 0 && lost != {}
        invariant Valid() && findings == old(findings) && posts == old(posts) && faults == old(faults)
        invariant tasks == old(tasks) + extra && AreCopies(extra, lost) && (lost == {} ==> extra == [])
      {
        var payload :| payload in lost;
        var c := Commit(payload);
        extra := extra + [c];
        n := n - 1;
      }
    }

    // One send: it is applied now, or is lost and may still be, and the response may not arrive.
    method SendOnce(payload: Created, lost: set<Created>)
      returns (id: Option<nat>, lost': set<Created>, ghost extra: seq<Created>)
      requires Valid()
      modifies this
      ensures Valid() && findings == old(findings) && posts == old(posts) && lost <= lost' <= lost + {payload}
      ensures tasks == old(tasks) + extra && AreCopies(extra, lost + {payload})
      ensures id.Some? ==> extra != [] && extra[|extra| - 1] == payload.(id := id.value) && faults == old(faults)
      ensures faults == old(faults) + if id.Some? then 0 else 1
      ensures id.Some? ==> lost' == lost && (lost == {} ==> |extra| == 1)
    {
      id, lost' := None, lost;
      extra := Land(lost);
      var commits: bool, answers: bool := *, *;
      if commits {
        var c := Commit(payload);
        assert payload in lost + {payload};
        extra := extra + [c];
        if answers { id := Some(c.id); }
      } else {
        lost' := lost + {payload};
      }
      if id.None? { faults := faults + 1; }
    }

    // Up to three sends, of which the answered one is the last thing to land.
    method TaskCreate(payload: Created, lost: set<Created>)
      returns (id: Option<nat>, lost': set<Created>, ghost extra: seq<Created>)
      requires Valid()
      modifies this
      ensures Valid() && findings == old(findings) && posts == old(posts) && lost <= lost' <= lost + {payload}
      ensures tasks == old(tasks) + extra && AreCopies(extra, lost + {payload})
      ensures id.Some? ==> extra != [] && extra[|extra| - 1] == payload.(id := id.value)
      ensures faults >= old(faults) && (id.None? ==> faults == old(faults) + 3)
      ensures lost' != lost ==> faults > old(faults)
      ensures faults == old(faults) && lost == {} ==> |extra| == 1
    {
      id, lost', extra := None, lost, [];
      var attempt := 0;
      while attempt < 3 && id.None?
        invariant Valid() && findings == old(findings) && posts == old(posts) && lost <= lost' <= lost + {payload}
        invariant tasks == old(tasks) + extra && AreCopies(extra, lost + {payload})
        invariant id.Some? ==> extra != [] && extra[|extra| - 1] == payload.(id := id.value)
        invariant attempt <= 3 && faults >= old(faults) && (id.None? ==> faults == old(faults) + attempt)
        invariant lost' != lost ==> faults > old(faults)
        invariant faults == old(faults) && lost == {} ==> |extra| == if id.Some? then 1 else 0
      {
        ghost var before, more := extra, [];
        id, lost', more := SendOnce(payload, lost');
        assert lost' + {payload} == lost + {payload};
        extra := before + more;
        attempt := attempt + 1;
      }
    }

    method FindingPost(task: nat)
      modifies this`findings, this`faults, this`posts
      ensures posts == old(posts) + [task]
      ensures findings == old(findings) || findings == old(findings) + [task]
      ensures faults == old(faults) ==> findings == old(findings) + [task]
      ensures faults >= old(faults)
    {
      posts := posts + [task];
      var commits: bool, answers: bool := *, *;
      if commits { findings := findings + [task]; }
      if !commits || !answers { faults := faults + 1; }
    }
  }

  // ---- What an import leaves behind --------------------------------------------------------

  // The line numbers a plan refers to.
  function References(plan: Plan): set<nat> {
    (if plan.parent.Some? then {plan.parent.value} else {}) + Elements(plan.dependsOn)
  }

  function NumbersBefore(plans: seq<Plan>, n: nat): set<nat>
    requires n <= |plans|
  {
    if n == 0 then {} else NumbersBefore(plans, n - 1) + {plans[n - 1].line.lineNumber}
  }

  // What the loop needs of the plans: one per source line, references only to earlier ones.
  ghost predicate CreationOrder(plans: seq<Plan>, n: nat)
    requires n <= |plans|
  {
    n == 0 || (CreationOrder(plans, n - 1) && FollowsInOrder(plans, n - 1))
  }

  ghost predicate FollowsInOrder(plans: seq<Plan>, i: nat)
    requires i < |plans|
  {
    References(plans[i]) <= NumbersBefore(plans, i) && plans[i].line.lineNumber !in NumbersBefore(plans, i)
  }

  lemma {:induction false} OrderAt(plans: seq<Plan>, n: nat, i: nat)
    requires i < n <= |plans| && CreationOrder(plans, n)
    ensures FollowsInOrder(plans, i)
  {
    if i < n - 1 { OrderAt(plans, n - 1, i); }
  }

  lemma {:induction false} NumbersBeforeArePlans(plans: seq<Plan>, n: nat, l: nat) returns (j: nat)
    requires n <= |plans| && l in NumbersBefore(plans, n)
    ensures j < n && plans[j].line.lineNumber == l
  {
    if l == plans[n - 1].line.lineNumber { j := n - 1; } else { j := NumbersBeforeArePlans(plans, n - 1, l); }
  }

  lemma {:induction false} PlansAreNumbersBefore(plans: seq<Plan>, n: nat, j: nat)
    requires j < n <= |plans|
    ensures plans[j].line.lineNumber in NumbersBefore(plans, n)
  {
    if j < n - 1 { PlansAreNumbersBefore(plans, n - 1, j); }
  }

  lemma {:induction false} OrderFromEach(plans: seq<Plan>, n: nat)
    requires n <= |plans| && forall i :: 0 <= i < n ==> FollowsInOrder(plans, i)
    ensures CreationOrder(plans, n)
  {
    if n > 0 { OrderFromEach(plans, n - 1); }
  }

  lemma PlansAreInCreationOrder(lines: seq<TaskLine>)
    requires Increasing(lines)
    ensures CreationOrder(PlansOf(lines, |lines|), |lines|)
  {
    var plans := PlansOf(lines, |lines|);
    forall i | 0 <= i < |plans| ensures FollowsInOrder(plans, i) { PlanFollowsInOrder(lines, i); }
    OrderFromEach(plans, |plans|);
  }

  lemma PlanFollowsInOrder(lines: seq<TaskLine>, i: nat)
    requires Increasing(lines) && i < |lines|
    ensures FollowsInOrder(PlansOf(lines, |lines|), i)
  {
    var plans := PlansOf(lines, |lines|);
    var l := plans[i].line.lineNumber;
    forall m | m in References(plans[i]) ensures m in NumbersBefore(plans, i) {
      ReferencesPointBackwards(lines, i);
      var j :| 0 <= j < i && lines[j].lineNumber == m;
      PlansAreNumbersBefore(plans, i, j);
    }
    if l in NumbersBefore(plans, i) {
      var j := NumbersBeforeArePlans(plans, i, l);
    }
  }

  function Resolve(lineToId: map<nat, nat>, numbers: seq<nat>): (ids: seq<nat>)
    requires Elements(numbers) <= lineToId.Keys
    ensures |ids| == |numbers| && forall k :: 0 <= k < |ids| ==>
            numbers[k] in lineToId && ids[k] == lineToId[numbers[k]]
  {
    seq(|numbers|, k requires 0 <= k < |numbers| =>
      assert numbers[k] in Elements(numbers);
      lineToId[numbers[k]])
  }

  function ResolveParent(lineToId: map<nat, nat>, parent: Option<nat>): Option<nat>
    requires parent.Some? ==> parent.value in lineToId
  {
    if parent.None? then None else Some(lineToId[parent.value])
  }

  function Title(line: TaskLine): string { if line.description == "" then "(no description)" else line.description }

  // The server task c is what the plan asks for, its references resolved.
  ghost predicate Realises(c: Created, plan: Plan, lineToId: map<nat, nat>) {
    && References(plan) <= lineToId.Keys
    && c == Created(c.id, plan.line.lineNumber, Title(plan.line), plan.taskType,
                    ResolveParent(lineToId, plan.parent), Resolve(lineToId, plan.dependsOn))
  }

  // The task realises one of the first `bound` plans.
  ghost predicate FromSome(c: Created, plans: seq<Plan>, lineToId: map<nat, nat>, bound: nat) {
    exists o: nat :: o < bound <= |plans| && Realises(c, plans[o], lineToId)
  }

  // Every created task does.
  ghost predicate Faithful(plans: seq<Plan>, created: seq<Created>, lineToId: map<nat, nat>, bound: nat) {
    && bound <= |plans|
    && forall k {:trigger FromSome(created[k], plans, lineToId, bound)} :: 0 <= k < |created| ==>
         FromSome(created[k], plans, lineToId, bound)
  }

  // The id recorded for each of the first n lines belongs to a task that realises its plan, in document order;
  // `home` says where the recorded tasks are.
  ghost predicate Recorded(plans: seq<Plan>, created: seq<Created>, lineToId: map<nat, nat>, home: seq<nat>, n: nat) {
    && n <= |plans| && |home| == n && lineToId.Keys == NumbersBefore(plans, n)
    && (forall j {:trigger home[j]} :: 0 <= j < n ==>
          && home[j] < |created| && Realises(created[home[j]], plans[j], lineToId)
          && plans[j].line.lineNumber in lineToId
          && lineToId[plans[j].line.lineNumber] == created[home[j]].id)
    && (forall j, k :: 0 <= j < k < n ==> home[j] < home[k])
  }

  // Tasks refer only to tasks created before them.
  ghost predicate RefersBackwards(created: seq<Created>) {
    forall k, ref: nat :: 0 <= k < |created| && created[k].RefersTo(ref) ==> ExistsBefore(created, ref, k)
  }

  ghost predicate ExistsBefore(created: seq<Created>, ref: nat, k: nat)
    requires k <= |created|
  {
    exists m :: 0 <= m < k && created[m].id == ref
  }

  // What was sent and may still land realises a plan, and refers to tasks that exist.
  ghost predicate InFlight(plans: seq<Plan>, created: seq<Created>, lineToId: map<nat, nat>, lost: set<Created>,
      bound: nat) {
    forall p :: p in lost ==> FromSome(p, plans, lineToId, bound) && RefersToCreated(p, created)
  }

  ghost predicate RefersToCreated(c: Created, created: seq<Created>) {
    forall ref: nat :: c.RefersTo(ref) ==> ExistsBefore(created, ref, |created|)
  }

  // Everything the import promises once n plans were answered and `bound` were attempted.
  ghost predicate Imported(plans: seq<Plan>, created: seq<Created>, lineToId: map<nat, nat>, home: seq<nat>,
      lost: set<Created>, n: nat, bound: nat) {
    && Recorded(plans, created, lineToId, home, n)
    && Faithful(plans, created, lineToId, bound)
    && InFlight(plans, created, lineToId, lost, bound)
    && RefersBackwards(created)
  }

  // ---- One round of the loop ------------------------------------------------------------------

  // A resolved reference is the id of a task already created.
  lemma ResolvedReferencesExist(plans: seq<Plan>, created: seq<Created>, lineToId: map<nat, nat>, home: seq<nat>,
      i: nat, c: Created)
    requires i < |plans| && FollowsInOrder(plans, i) && Recorded(plans, created, lineToId, home, i)
    requires Realises(c, plans[i], lineToId)
    ensures RefersToCreated(c, created)
  {
    forall ref: nat | c.RefersTo(ref) ensures ExistsBefore(created, ref, |created|) {
      var n;
      if c.parent == Some(ref) {
        n := plans[i].parent.value;
      } else {
        var k :| 0 <= k < |c.dependsOn| && c.dependsOn[k] == ref;
        n := plans[i].dependsOn[k];
      }
      assert n in References(plans[i]) && lineToId[n] == ref;
      var j := NumbersBeforeArePlans(plans, i, n);
      assert created[home[j]].id == ref;
    }
  }

  lemma ExistsLater(created: seq<Created>, extra: seq<Created>, ref: nat, k: nat)
    requires k <= |created| && ExistsBefore(created, ref, k)
    ensures forall l :: k <= l <= |created + extra| ==> ExistsBefore(created + extra, ref, l)
  {
    var m :| 0 <= m < k && created[m].id == ref;
    assert (created + extra)[m].id == ref;
  }

  lemma CopyIsLikeIt(c: Created, p: Created, plans: seq<Plan>, created: seq<Created>, lineToId: map<nat, nat>,
      bound: nat)
    requires c == p.(id := c.id) && FromSome(p, plans, lineToId, bound) && RefersToCreated(p, created)
    ensures FromSome(c, plans, lineToId, bound) && RefersToCreated(c, created)
  {
    var o: nat :| o < bound <= |plans| && Realises(p, plans[o], lineToId);
    assert Realises(c, plans[o], lineToId);
    forall ref: nat | c.RefersTo(ref) ensures ExistsBefore(created, ref, |created|) { assert p.RefersTo(ref); }
  }

  lemma CopiesReferBackwards(created: seq<Created>, extra: seq<Created>)
    requires RefersBackwards(created) && forall k :: 0 <= k < |extra| ==> RefersToCreated(extra[k], created)
    ensures RefersBackwards(created + extra)
  {
    var all := created + extra;
    forall k, ref: nat | 0 <= k < |all| && all[k].RefersTo(ref) ensures ExistsBefore(all, ref, k) {
      if k < |created| {
        assert created[k].RefersTo(ref);
        ExistsLater(created, extra, ref, k);
      } else {
        assert extra[k - |created|].RefersTo(ref);
        ExistsLater(created, extra, ref, |created|);
      }
    }
  }

  /** Whatever lands of what was sent, at any moment, keeps all of it. */
  lemma LandingKeepsImported(plans: seq<Plan>, created: seq<Created>, extra: seq<Created>, lineToId: map<nat, nat>,
      home: seq<nat>, lost: set<Created>, n: nat, bound: nat)
    requires Imported(plans, created, lineToId, home, lost, n, bound) && AreCopies(extra, lost)
    ensures Imported(plans, created + extra, lineToId, home, lost, n, bound)
  {
    var all := created + extra;
    forall k | 0 <= k < |extra|
      ensures FromSome(extra[k], plans, lineToId, bound) && RefersToCreated(extra[k], created)
    {
      assert IsCopy(extra[k], lost);
      var p :| p in lost && extra[k] == p.(id := extra[k].id);
      CopyIsLikeIt(extra[k], p, plans, created, lineToId, bound);
    }
    CopiesReferBackwards(created, extra);
    forall k | 0 <= k < |all| ensures FromSome(all[k], plans, lineToId, bound) {
      if k < |created| {
        assert FromSome(created[k], plans, lineToId, bound);
      } else {
        assert FromSome(extra[k - |created|], plans, lineToId, bound);
      }
    }
    forall p | p in lost ensures RefersToCreated(p, all) {
      forall ref: nat | p.RefersTo(ref) ensures ExistsBefore(all, ref, |all|) {
        ExistsLater(created, extra, ref, |created|);
      }
    }
  }

  // The next plan is about to be sent.
  lemma NextIsSendable(plans: seq<Plan>, created: seq<Created>, lineToId: map<nat, nat>, home: seq<nat>,
      lost: set<Created>, i: nat, c: Created)
    requires i < |plans| && FollowsInOrder(plans, i) && Imported(plans, created, lineToId, home, lost, i, i)
    requires Realises(c, plans[i], lineToId)
    ensures Imported(plans, created, lineToId, home, lost + {c}, i, i + 1)
  {
    ResolvedReferencesExist(plans, created, lineToId, home, i, c);
    assert FromSome(c, plans, lineToId, i + 1);
    forall t | FromSome(t, plans, lineToId, i) ensures FromSome(t, plans, lineToId, i + 1) {
      var o: nat :| o < i && Realises(t, plans[o], lineToId);
    }
    forall k | 0 <= k < |created| ensures FromSome(created[k], plans, lineToId, i + 1) {
      assert FromSome(created[k], plans, lineToId, i);
    }
  }

  /** A round that is not answered: the plan was sent, some copies and some late ones of earlier plans landed. */
  lemma FailedRound(plans: seq<Plan>, created: seq<Created>, extra: seq<Created>, lineToId: map<nat, nat>,
      home: seq<nat>, lost: set<Created>, i: nat, c: Created)
    requires i < |plans| && FollowsInOrder(plans, i) && Imported(plans, created, lineToId, home, lost, i, i)
    requires Realises(c, plans[i], lineToId) && AreCopies(extra, lost + {c})
    ensures Imported(plans, created + extra, lineToId, home, lost + {c}, i, i + 1)
  {
    NextIsSendable(plans, created, lineToId, home, lost, i, c);
    LandingKeepsImported(plans, created, extra, lineToId, home, lost + {c}, i, i + 1);
  }

  lemma RealisesGrows(c: Created, plan: Plan, lineToId: map<nat, nat>, l: nat, id: nat)
    requires Realises(c, plan, lineToId) && l !in lineToId
    ensures Realises(c, plan, lineToId[l := id])
  {
    var after := lineToId[l := id];
    assert lineToId.Keys <= after.Keys;
    assert Resolve(after, plan.dependsOn) == Resolve(lineToId, plan.dependsOn);
  }

  lemma FromSomeGrows(c: Created, plans: seq<Plan>, lineToId: map<nat, nat>, bound: nat, l: nat, id: nat)
    requires FromSome(c, plans, lineToId, bound) && l !in lineToId
    ensures FromSome(c, plans, lineToId[l := id], bound)
  {
    var o: nat :| o < bound <= |plans| && Realises(c, plans[o], lineToId);
    RealisesGrows(c, plans[o], lineToId, l, id);
  }

  /** The same round, answered: the id of the last task to land is recorded. */
  lemma AnsweredRound(plans: seq<Plan>, created: seq<Created>, lineToId: map<nat, nat>, home: seq<nat>,
      lost: set<Created>, i: nat)
    requires i < |plans| && FollowsInOrder(plans, i) && Imported(plans, created, lineToId, home, lost, i, i + 1)
    requires created != [] && Realises(created[|created| - 1], plans[i], lineToId)
    requires forall j :: 0 <= j < i ==> home[j] < |created| - 1
    ensures var l, id := plans[i].line.lineNumber, created[|created| - 1].id;
            && l !in lineToId
            && Imported(plans, created, lineToId[l := id], home + [|created| - 1], lost, i + 1, i + 1)
  {
    var l, id := plans[i].line.lineNumber, created[|created| - 1].id;
    assert l !in lineToId;
    RecordNext(plans, created, lineToId, home, i);
    forall k | 0 <= k < |created| ensures FromSome(created[k], plans, lineToId[l := id], i + 1) {
      FromSomeGrows(created[k], plans, lineToId, i + 1, l, id);
    }
    forall p | p in lost ensures FromSome(p, plans, lineToId[l := id], i + 1) {
      FromSomeGrows(p, plans, lineToId, i + 1, l, id);
    }
  }

  lemma RecordNext(plans: seq<Plan>, created: seq<Created>, lineToId: map<nat, nat>, home: seq<nat>, i: nat)
    requires i < |plans| && FollowsInOrder(plans, i) && Recorded(plans, created, lineToId, home, i)
    requires created != [] && Realises(created[|created| - 1], plans[i], lineToId)
    requires forall j :: 0 <= j < i ==> home[j] < |created| - 1
    requires plans[i].line.lineNumber !in lineToId
    ensures var l, id := plans[i].line.lineNumber, created[|created| - 1].id;
            Recorded(plans, created, lineToId[l := id], home + [|created| - 1], i + 1)
  {
    var l, id := plans[i].line.lineNumber, created[|created| - 1].id;
    var next := home + [|created| - 1];
    forall j | 0 <= j < i + 1 ensures Realises(created[next[j]], plans[j], lineToId[l := id]) {
      RealisesGrows(created[next[j]], plans[j], lineToId, l, id);
    }
  }

  // One answered or failed create, with the bookkeeping that follows it.
  lemma Round(plans: seq<Plan>, created: seq<Created>, extra: seq<Created>, ids: map<nat, nat>, home: seq<nat>,
              lost: set<Created>, i: nat, c: Created, id: Option<nat>)
    returns (home': seq<nat>)
    requires i < |plans| && FollowsInOrder(plans, i) && Imported(plans, created, ids, home, lost, i, i)
    requires Realises(c, plans[i], ids) && AreCopies(extra, lost + {c})
    requires id.Some? ==> extra != [] && extra[|extra| - 1] == c.(id := id.value)
    ensures id.None? ==> Imported(plans, created + extra, ids, home', lost + {c}, i, i + 1)
    ensures id.Some? ==> plans[i].line.lineNumber !in ids
    ensures id.Some? ==>
            Imported(plans, created + extra, ids[plans[i].line.lineNumber := id.value], home', lost + {c}, i + 1, i + 1)
  {
    var all := created + extra;
    FailedRound(plans, created, extra, ids, home, lost, i, c);
    home' := home;
    if id.Some? {
      assert all[|all| - 1] == extra[|extra| - 1];
      AnsweredRound(plans, all, ids, home, lost + {c}, i);
      home' := home + [|all| - 1];
    }
  }

  lemma FewerInFlight(plans: seq<Plan>, created: seq<Created>, lineToId: map<nat, nat>, home: seq<nat>,
      lost: set<Created>, fewer: set<Created>, n: nat, bound: nat)
    requires Imported(plans, created, lineToId, home, lost, n, bound) && fewer <= lost
    ensures Imported(plans, created, lineToId, home, fewer, n, bound)
  {}

  function Payload(plan: Plan, lineToId: map<nat, nat>): (payload: Created)
    requires References(plan) <= lineToId.Keys
    ensures Realises(payload, plan, lineToId)
  {
    Created(0, plan.line.lineNumber, Title(plan.line), plan.taskType,
            ResolveParent(lineToId, plan.parent), Resolve(lineToId, plan.dependsOn))
  }

  method Send(server: Server, payload: Created, lost: set<Created>, ghost before: seq<Created>,
              ghost created: seq<Created>)
    returns (id: Option<nat>, lost': set<Created>, ghost extra: seq<Created>, ghost created': seq<Created>)
    requires server.Valid() && server.tasks == before + created
    modifies server
    ensures server.Valid() && server.findings == old(server.findings) && server.posts == old(server.posts)
    ensures lost' <= lost + {payload}
    ensures created' == created + extra && server.tasks == before + created'
    ensures AreCopies(extra, lost + {payload})
    ensures id.Some? ==> extra != [] && extra[|extra| - 1] == payload.(id := id.value)
    ensures server.faults >= old(server.faults) && (id.None? ==> server.faults >= old(server.faults) + 3)
    ensures server.faults == old(server.faults) && lost == {} ==> lost' == {} && |created'| == |created| + 1
  {
    id, lost', extra := server.TaskCreate(payload, lost);
    created' := created + extra;
  }

  // One turn of the loop: the next plan is sent, and recorded if it was answered.
  method CreateNext(plans: seq<Plan>, server: Server, i: nat, lineToId: map<nat, nat>, lost: set<Created>,
                    ghost before: seq<Created>, ghost created: seq<Created>, ghost home: seq<nat>)
    returns (id: Option<nat>, next: map<nat, nat>, lost': set<Created>,
             ghost created': seq<Created>, ghost home': seq<nat>)
    requires server.Valid() && server.tasks == before + created
    requires i < |plans| && FollowsInOrder(plans, i) && Imported(plans, created, lineToId, home, lost, i, i)
    modifies server
    ensures server.Valid() && server.findings == old(server.findings) && server.posts == old(server.posts)
    ensures server.tasks == before + created'
    ensures server.faults >= old(server.faults) && (id.None? ==> server.faults >= old(server.faults) + 3)
    ensures server.faults == old(server.faults) && lost == {} ==> lost' == {} && |created'| == |created| + 1
    ensures id.None? ==> Imported(plans, created', next, home', lost', i, i + 1)
    ensures id.Some? ==> Imported(plans, created', next, home', lost', i + 1, i + 1)
  {
    var payload := Payload(plans[i], lineToId);
    ghost var extra;
    id, lost', extra, created' := Send(server, payload, lost, before, created);
    home' := Round(plans, created, extra, lineToId, home, lost, i, payload, id);
    next := if id.None? then lineToId else lineToId[plans[i].line.lineNumber := id.value];
    FewerInFlight(plans, created', next, home', lost + {payload}, lost', if id.None? then i else i + 1, i + 1);
  }

  // One id for each of the first n plans.
  lemma {:induction false} NumbersBeforeCount(plans: seq<Plan>, n: nat)
    requires n <= |plans| && CreationOrder(plans, n)
    ensures |NumbersBefore(plans, n)| == n
  {
    if n > 0 { NumbersBeforeCount(plans, n - 1); }
  }

  lemma RecordedCount(plans: seq<Plan>, created: seq<Created>, lineToId: map<nat, nat>, home: seq<nat>,
      lost: set<Created>, n: nat, bound: nat)
    requires Imported(plans, created, lineToId, home, lost, n, bound) && CreationOrder(plans, n)
    ensures |lineToId| == n
  {
    NumbersBeforeCount(plans, n);
    assert |lineToId| == |lineToId.Keys|;
  }

  lemma {:induction false} OrderOfPrefix(plans: seq<Plan>, n: nat, i: nat)
    requires i <= n <= |plans| && CreationOrder(plans, n)
    ensures CreationOrder(plans, i)
  {
    if i < n { OrderOfPrefix(plans, n - 1, i); }
  }

  // Sends the plans in order until one is not answered; n of them were.
  method SendAll(plans: seq<Plan>, server: Server)
    returns (n: nat, lineToId: map<nat, nat>, lost: set<Created>,
             ghost created: seq<Created>, ghost home: seq<nat>)
    requires CreationOrder(plans, |plans|) && server.Valid()
    modifies server
    ensures server.Valid() && server.findings == old(server.findings) && server.posts == old(server.posts)
    ensures server.tasks == old(server.tasks) + created && n <= |plans|
    ensures server.faults >= old(server.faults) && (n < |plans| ==> server.faults >= old(server.faults) + 3)
    ensures server.faults == old(server.faults) ==> lost == {} && |created| == |plans|
    ensures Imported(plans, created, lineToId, home, lost, n, if n < |plans| then n + 1 else n)
  {
    n, lineToId, lost, created, home := 0, map[], {}, [], [];
    while n < |plans|
      invariant n <= |plans| && server.Valid()
      invariant server.findings == old(server.findings) && server.posts == old(server.posts)
      invariant server.faults >= old(server.faults)
      invariant server.tasks == old(server.tasks) + created
      invariant server.faults == old(server.faults) ==> lost == {} && |created| == n
      invariant Imported(plans, created, lineToId, home, lost, n, n)
    {
      OrderAt(plans, |plans|, n);
      var id;
      id, lineToId, lost, created, home :=
        CreateNext(plans, server, n, lineToId, lost, old(server.tasks), created, home);
      if id.None? { return; }
      n := n + 1;
    }
  }

  // More of what was sent lands, before the caller sees the server again.
  method LandMore(plans: seq<Plan>, server: Server, lineToId: map<nat, nat>, lost: set<Created>,
                  ghost before: seq<Created>, ghost created: seq<Created>, ghost home: seq<nat>, ghost n: nat,
                  ghost bound: nat)
    returns (ghost created': seq<Created>)
    requires server.Valid() && server.tasks == before + created
    requires Imported(plans, created, lineToId, home, lost, n, bound)
    modifies server
    ensures server.Valid() && server.findings == old(server.findings) && server.posts == old(server.posts)
    ensures server.faults == old(server.faults)
    ensures server.tasks == before + created' && (lost == {} ==> created' == created)
    ensures Imported(plans, created', lineToId, home, lost, n, bound)
  {
    ghost var late := server.Land(lost);
    LandingKeepsImported(plans, created, late, lineToId, home, lost, n, bound);
    created' := created + late;
  }

  method CreateAll(plans: seq<Plan>, server: Server)
    returns (lineToId: map<nat, nat>, failed: bool, lost: set<Created>,
             ghost created: seq<Created>, ghost home: seq<nat>)
    requires CreationOrder(plans, |plans|) && server.Valid()
    modifies server
    ensures server.Valid() && server.findings == old(server.findings) && server.posts == old(server.posts)
    ensures server.tasks == old(server.tasks) + created
    ensures |lineToId| <= |plans| && (failed <==> |lineToId| < |plans|)
    ensures server.faults >= old(server.faults) && (failed ==> server.faults >= old(server.faults) + 3)
    ensures server.faults == old(server.faults) ==> lost == {} && |created| == |plans|
    ensures Imported(plans, created, lineToId, home, lost, |lineToId|, if failed then |lineToId| + 1 else |lineToId|)
  {
    var n;
    n, lineToId, lost, created, home := SendAll(plans, server);
    failed := n < |plans|;
    created := LandMore(plans, server, lineToId, lost, old(server.tasks), created, home, n,
                        if failed then n + 1 else n);
    OrderOfPrefix(plans, |plans|, n);
    RecordedCount(plans, created, lineToId, home, lost, n, if failed then n + 1 else n);
  }

  /** `create_tasks`: stops at the first plan whose create fails, and attaches the failure report to
      the first created task if there is one. */
  method CreateTasks(plans: seq<Plan>, server: Server)
    returns (lineToId: map<nat, nat>, failed: bool, lost: set<Created>,
             ghost created: seq<Created>, ghost home: seq<nat>)
    requires CreationOrder(plans, |plans|) && server.Valid()
    modifies server
    ensures server.Valid() && server.tasks == old(server.tasks) + created
    ensures |lineToId| <= |plans| && (failed <==> |lineToId| < |plans|)
    ensures server.faults >= old(server.faults) && (failed ==> server.faults >= old(server.faults) + 3)
    ensures server.faults == old(server.faults) ==> lost == {} && |created| == |plans|
    ensures Imported(plans, created, lineToId, home, lost, |lineToId|, if failed then |lineToId| + 1 else |lineToId|)
    ensures server.findings == old(server.findings) ||
            (failed && |lineToId| > 0 && server.findings == old(server.findings) + [created[home[0]].id])
    // the recovery command goes to the first created task, if there is one
    ensures server.posts ==
            old(server.posts) + if failed && |lineToId| > 0 then [created[home[0]].id] else []
  {
    lineToId, failed, lost, created, home := CreateAll(plans, server);
    if failed && |lineToId| > 0 {
      assert home[0] < |created|;
      server.FindingPost(lineToId[plans[0].line.lineNumber]);
    }
  }

  // ---- Consequences -----------------------------------------------------------------------------

  lemma {:induction false} StaysBelow(home: seq<nat>, j: nat)
    requires j < |home| && forall i, k :: 0 <= i < k < |home| ==> home[i] < home[k]
    requires home[|home| - 1] < |home|
    ensures home[j] <= j
    decreases |home| - j
  {
    if j < |home| - 1 { StaysBelow(home, j + 1); }
  }

  lemma {:induction false} StaysAbove(home: seq<nat>, j: nat)
    requires j < |home| && forall i, k :: 0 <= i < k < |home| ==> home[i] < home[k]
    ensures home[j] >= j
  {
    if j > 0 { StaysAbove(home, j - 1); }
  }

  /** Where nothing was sent twice, the server holds the plans one by one in document order. */
  lemma CreatedInDocumentOrder(plans: seq<Plan>, created: seq<Created>, lineToId: map<nat, nat>, home: seq<nat>, j: nat)
    requires Recorded(plans, created, lineToId, home, |created|) && j < |created|
    ensures Realises(created[j], plans[j], lineToId)
  {
    assert home[|home| - 1] < |created|;
    StaysBelow(home, j);
    StaysAbove(home, j);
  }

  // Each step of the path goes from a task to one it refers to.
  ghost predicate IsPath(created: seq<Created>, path: seq<nat>) {
    && (forall i :: 0 <= i < |path| ==> path[i] < |created|)
    && (forall i :: 0 <= i < |path| - 1 ==> created[path[i]].RefersTo(created[path[i + 1]].id))
  }

  /** No run, however it failed, leaves a cycle of parent and dependency edges. */
  lemma {:induction false} ImportsAreAcyclic(created: seq<Created>, path: seq<nat>)
    requires RefersBackwards(created) && Distinct(created) && IsPath(created, path) && |path| >= 2
    ensures path[|path| - 1] < path[0]
    ensures created[path[|path| - 1]].id != created[path[0]].id
  {
    var n := |path| - 1;
    var k, ref := path[n - 1], created[path[n]].id;
    assert created[k].RefersTo(ref) by { assert path[(n - 1) + 1] == path[n]; }
    assert ExistsBefore(created, ref, k);
    var m :| 0 <= m < k && created[m].id == ref;
    assert m == path[n];
    if n > 1 {
      ImportsAreAcyclic(created, path[..n]);
    }
  }

  lemma RealisesItsPlan(c: Created, plan: Plan, lineToId: map<nat, nat>)
    requires Realises(c, plan, lineToId)
    ensures c.lineNumber == plan.line.lineNumber && c.taskType == plan.taskType
    ensures c.title == if plan.line.description == "" then "(no description)" else plan.line.description
    ensures c.parent.Some? <==> plan.parent.Some?
    ensures c.parent.Some? ==> plan.parent.value in lineToId && c.parent.value == lineToId[plan.parent.value]
    ensures |c.dependsOn| == |plan.dependsOn|
    ensures forall k :: 0 <= k < |c.dependsOn| ==>
              plan.dependsOn[k] in lineToId && c.dependsOn[k] == lineToId[plan.dependsOn[k]]
  {}

  // Different lines are recorded with different tasks.
  lemma RecordedApart(plans: seq<Plan>, created: seq<Created>, lineToId: map<nat, nat>, home: seq<nat>, n: nat,
      i: nat, j: nat)
    requires Recorded(plans, created, lineToId, home, n) && Distinct(created) && i < n && j < n
    ensures home[i] < |created| && home[j] < |created|
    ensures lineToId[plans[i].line.lineNumber] == created[home[i]].id
    ensures created[home[i]].id == created[home[j]].id <==> i == j
  {
    if i < j { assert home[i] < home[j]; }
    if j < i { assert home[j] < home[i]; }
  }

  // The plan and the task recorded for a line of the document.
  lemma RecordedPlan(lines: seq<TaskLine>, created: seq<Created>, lineToId: map<nat, nat>, home: seq<nat>, n: nat,
      i: nat)
    requires n <= |lines| && Recorded(PlansOf(lines, |lines|), created, lineToId, home, n) && i < n
    ensures home[i] < |created| && Realises(created[home[i]], PlanOf(lines, i), lineToId)
    ensures lines[i].lineNumber in lineToId && lineToId[lines[i].lineNumber] == created[home[i]].id
  {
    assert home[i] < |created|;
  }

  /** What was imported mirrors the document: each recorded task has its line's title, is an epic exactly if its line
      has a child, and has the task of another line as its parent exactly if that line is its parent. */
  lemma ImportMirrorsTheForest(lines: seq<TaskLine>, created: seq<Created>, lineToId: map<nat, nat>, home: seq<nat>,
      n: nat, i: nat, p: nat)
    requires Increasing(lines) && n <= |lines| && Distinct(created) && i < n && p < n
    requires Recorded(PlansOf(lines, |lines|), created, lineToId, home, n)
    ensures home[i] < |created| && home[p] < |created|
    ensures created[home[i]].lineNumber == lines[i].lineNumber
    ensures created[home[i]].title == if lines[i].description == "" then "(no description)" else lines[i].description
    ensures created[home[i]].taskType.Epic? <==> exists k :: IsParent(lines, i, k)
    ensures created[home[i]].parent == Some(created[home[p]].id) <==> IsParent(lines, p, i)
    ensures created[home[i]].parent.None? <==> forall q :: !IsParent(lines, q, i)
  {
    RecordedPlan(lines, created, lineToId, home, n, i);
    RecordedPlan(lines, created, lineToId, home, n, p);
    RealisesItsPlan(created[home[i]], PlanOf(lines, i), lineToId);
    EpicsAreTheParents(lines, i);
    PlansHaveTheirParents(lines, i, p);
    if Parent(lines, i).Some? {
      var q := Parent(lines, i).value;
      ParentIsParent(lines, q, i);
      PlansHaveTheirParents(lines, i, q);
      RecordedPlan(lines, created, lineToId, home, n, q);
      RecordedApart(PlansOf(lines, |lines|), created, lineToId, home, n, p, q);
    }
  }

  /** And it waits for the task of another line exactly if that is the previous child of their sequential parent. */
  lemma ImportMirrorsTheChains(lines: seq<TaskLine>, created: seq<Created>, lineToId: map<nat, nat>, home: seq<nat>,
      n: nat, i: nat, j: nat)
    requires Increasing(lines) && n <= |lines| && Distinct(created) && i < n && j < n
    requires Recorded(PlansOf(lines, |lines|), created, lineToId, home, n)
    ensures home[i] < |created| && home[j] < |created| && |created[home[i]].dependsOn| <= 1
    ensures created[home[j]].id in created[home[i]].dependsOn <==>
            exists p :: IsPreviousChild(lines, p, j, i) && lines[p].sequentialParent
  {
    RecordedPlan(lines, created, lineToId, home, n, i);
    RecordedPlan(lines, created, lineToId, home, n, j);
    RealisesItsPlan(created[home[i]], PlanOf(lines, i), lineToId);
    DependsOnPreviousSibling(lines, i, j);
    if PlanOf(lines, i).dependsOn != [] {
      var p, k := DependencyIsPreviousChild(lines, i);
      RecordedPlan(lines, created, lineToId, home, n, k);
      RecordedApart(PlansOf(lines, |lines|), created, lineToId, home, n, j, k);
      assert created[home[i]].dependsOn[0] == created[home[k]].id;
      NumberIsOwned(lines, k);
    }
  }

  /** The whole pipeline: parse, plan, refuse on a tag of another project or an empty parent, create. */
  method ImportDocument(text: TaskText, doc: string, server: Server)
    returns (refused: bool, failed: bool, ghost lines: seq<TaskLine>, lineToId: map<nat, nat>,
             lost: set<Created>,
             ghost created: seq<Created>, ghost home: seq<nat>)
    requires server.Valid()
    modifies server
    ensures var source := SplitLines(doc); lines == Tasks(text, source, |source|)
    ensures server.Valid() && server.tasks == old(server.tasks) + created
    ensures var source := SplitLines(doc);
            refused <==> ForeignTags(text, source, |source|) != [] || EmptyParents(lines, |lines|) != []
    ensures refused ==> created == [] && server.findings == old(server.findings) && server.posts == old(server.posts)
    ensures !refused ==> |lineToId| <= |lines| && (failed <==> |lineToId| < |lines|)
    ensures failed ==> server.faults > old(server.faults)
    ensures !refused && server.faults == old(server.faults) ==> |created| == |lines|
    ensures !refused ==> Imported(PlansOf(lines, |lines|), created, lineToId, home, lost, |lineToId|,
                                  if failed then |lineToId| + 1 else |lineToId|)
  {
    var parsed, foreign, stripped := ParseDoc(text, doc);
    lines := parsed;
    NumbersIncrease(text, SplitLines(doc), |SplitLines(doc)|);
    var plans, errors := BuildPlan(parsed);
    refused, failed, lineToId, lost := foreign + errors != [], false, map[], {};
    created, home := [], [];
    if !refused {
      PlansAreInCreationOrder(parsed);
      lineToId, failed, lost, created, home := CreateTasks(plans, server);
    }
  }
}
