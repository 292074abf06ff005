/**
 The gate swap of a hand delivery (`gate_delivery` in `_deliver_lithos.py` over `gates.py`):
 the `pr` gate must hold the story before any human gate is completed, although any client
 call may fail, may have committed when it fails, and other actors act between any two calls.

 Every step on the server is logged, so the claims are about every intermediate state.
 */
module GateSwap {
  import opened Options
  import opened GateRetirement
  import opened Sequences

  datatype Kind = PrGate(url: string) | LoomHuman(route: Option<string>, reason: string, runId: string) | OtherTask

  datatype Gate = Gate(kind: Kind, open: bool)

  datatype Marker = Marker(prUrl: string, runId: string, gated: bool, swapped: bool)

  // The story's metadata, as far as a delivery reads or writes it.
  datatype Record = Record(prGate: Option<nat>, humanGate: Option<nat>, attempts: set<string>, marker: Option<Marker>)

  // `waits` are the gates with a `waits_on_gate` edge to the story.
  datatype World = World(storyOpen: bool, claimed: bool, record: Record, gates: map<nat, Gate>, waits: set<nat>)

  predicate WellFormed(w: World) { w.waits <= w.gates.Keys }

  // An open `pr` gate watching the url.
  predicate Live(w: World, id: nat, url: string) { id in w.gates && w.gates[id] == Gate(PrGate(url), true) }

  predicate Holds(w: World, id: nat, url: string) { Live(w, id, url) && id in w.waits }

  predicate IsHuman(w: World, g: HumanGate) {
    g.id in w.gates && w.gates[g.id].kind == LoomHuman(g.route, g.reason, g.runId) && g.id in w.waits
  }

  predicate Withheld(w: World) { exists id :: id in w.gates && id in w.waits && w.gates[id].open }

  predicate AgesTo(a: Gate, b: Gate) { a.kind == b.kind && (b.open ==> a.open) }

  // No gate vanishes, changes what it is, reopens or loses its edge.
  predicate Ages(w: World, x: World) {
    && w.gates.Keys <= x.gates.Keys && w.waits <= x.waits && WellFormed(x)
    && (forall id :: id in w.gates ==> AgesTo(w.gates[id], x.gates[id]))
  }

  // What is relied on of others: they close no `pr` gate of this delivery.
  predicate Evolves(url: string, w: World, x: World) {
    Ages(w, x) && forall id :: id in w.gates && Live(w, id, url) ==> Live(x, id, url)
  }

  function Closing(w: World, id: nat): World
    requires id in w.gates
  {
    w.(gates := w.gates[id := w.gates[id].(open := false)])
  }

  // ---- The log ------------------------------------------------------------------------------------

  datatype Op =
    | Others
    | Create(id: nat)
    | Link(id: nat)
    | Cancel(id: nat)
    | Complete(id: nat, holder: nat)
    | Note(gate: nat, routes: set<string>, clears: bool)

  datatype Log = Start(w: World) | Then(prev: Log, op: Op, w: World)

  function Origin(h: Log): World { if h.Start? then h.w else Origin(h.prev) }

  // Whether this delivery took a step of some kind.
  predicate Wrote(h: Log) { h.Then? && (!h.op.Others? || Wrote(h.prev)) }

  predicate Created(h: Log) { h.Then? && (h.op.Create? || Created(h.prev)) }

  // The gates this delivery completed, and the story writes it made.
  datatype Deeds = Deeds(closed: set<nat>, notes: set<(set<string>, bool)>)

  function DeedsOf(h: Log): Deeds {
    if h.Start? then Deeds({}, {})
    else
      match h.op
      case Complete(id, _) => DeedsOf(h.prev).(closed := DeedsOf(h.prev).closed + {id})
      case Note(_, routes, clears) => DeedsOf(h.prev).(notes := DeedsOf(h.prev).notes + {(routes, clears)})
      case _ => DeedsOf(h.prev)
  }

  // No more than these were done in between.
  predicate Adds(a: Deeds, b: Deeds, closed: set<nat>, notes: set<(set<string>, bool)>) {
    a.closed <= b.closed <= a.closed + closed && a.notes <= b.notes <= a.notes + notes
  }

  predicate Completed(h: Log) { DeedsOf(h).closed != {} }

  predicate Did(h: Log, op: Op) { h.Then? && (h.op == op || Did(h.prev, op)) }

  predicate EverOpen(h: Log) { h.w.storyOpen || (h.Then? && EverOpen(h.prev)) }

  // The story ever read so.
  predicate EverSaid(h: Log, s: Status) {
    s == Status(h.w.storyOpen, h.w.claimed, h.w.record) || (h.Then? && EverSaid(h.prev, s))
  }

  predicate EverUnclaimed(h: Log) { !h.w.claimed || (h.Then? && EverUnclaimed(h.prev)) }

  // An escalation this delivery may answer.
  predicate Answerable(sc: Scope, w: World, id: nat) {
    && id in w.gates && w.gates[id].kind.LoomHuman?
    && !Protected(sc, HumanGate(id, w.gates[id].kind.route, w.gates[id].kind.reason, w.gates[id].kind.runId))
  }

  function Noted(r: Record, gate: nat, routes: set<string>, clears: bool): Record {
    Record(Some(gate), if clears then None else r.humanGate, r.attempts - routes, r.marker)
  }

  ghost predicate StepOk(sc: Scope, url: string, h: Log)
    requires h.Then?
  {
    var w, x := h.prev.w, h.w;
    match h.op
    case Others => Evolves(url, w, x)
    case Create(id) => id !in w.gates && x == w.(gates := w.gates[id := Gate(PrGate(url), true)])
    case Link(id) => Did(h.prev, Create(id)) && Live(w, id, url) && x == w.(waits := w.waits + {id})
    case Cancel(id) => Did(h.prev, Create(id)) && !Completed(h.prev) && id in w.gates && x == Closing(w, id)
    case Complete(id, holder) => Holds(w, holder, url) && Answerable(sc, w, id) && x == Closing(w, id)
    case Note(gate, routes, clears) => Holds(w, gate, url) && x == w.(record := Noted(w.record, gate, routes, clears))
  }

  ghost predicate Safe(sc: Scope, url: string, h: Log) {
    h.Start? || (Safe(sc, url, h.prev) && StepOk(sc, url, h))
  }

  // What any number of further steps keep.
  ghost predicate Continues(h: Log, k: Log) {
    && Origin(k) == Origin(h)
    && (Wrote(h) ==> Wrote(k)) && (Created(h) ==> Created(k)) && (Completed(h) ==> Completed(k))
    && (EverOpen(h) ==> EverOpen(k)) && (EverUnclaimed(h) ==> EverUnclaimed(k))
    && (forall op :: Did(h, op) ==> Did(k, op)) && (forall s :: EverSaid(h, s) ==> EverSaid(k, s))
  }

  // Reads leave nothing in the log but other actors' steps.
  ghost predicate Reads(h: Log, k: Log) {
    Continues(h, k) && Wrote(k) == Wrote(h) && Created(k) == Created(h) && DeedsOf(k) == DeedsOf(h)
  }

  // ---- The client -----------------------------------------------------------------------------------

  datatype Status = Status(open: bool, claimed: bool, record: Record)

  const SENDS := 3

  class Lithos {
    var w: World
    ghost var h: Log
    ghost var faults: nat      // sends that failed or went unanswered
    ghost var known: set<nat>  // the gates whose creation was answered
    ghost var raws: nat        // calls that failed with an error that is not caught

    ghost predicate Valid(sc: Scope, url: string)
      reads this
    {
      WellFormed(w) && h.w == w && Safe(sc, url, h)
    }

    ghost method Begin(sc: Scope, url: string)
      requires WellFormed(w)
      modifies this`h, this`known
      ensures Valid(sc, url) && h == Start(w) && known == {}
    {
      h, known := Start(w), {};
    }

    // Other actors, between any two steps of this one.
    method Interfere(sc: Scope, url: string)
      requires Valid(sc, url)
      modifies this
      ensures Valid(sc, url) && Evolves(url, old(w), w)
      ensures h == Then(old(h), Others, w) && faults == old(faults) && known == old(known) && raws == old(raws)
      ensures Continues(old(h), h)
    {
      var next: World := *;
      if Evolves(url, w, next) { w := next; }
      h := Then(h, Others, w);
    }

    method TaskStatus(sc: Scope, url: string) returns (r: Option<Status>)
      requires Valid(sc, url)
      modifies this
      ensures Valid(sc, url) && Evolves(url, old(w), w) && Reads(old(h), h)
      ensures r.Some? ==> (r.value.open ==> EverOpen(h)) && (!r.value.claimed ==> EverUnclaimed(h))
      ensures r.Some? ==> r.value == Status(w.storyOpen, w.claimed, w.record) && EverSaid(h, r.value)
      ensures faults == old(faults) + (if r.Some? then 0 else 1) && known == old(known) && raws == old(raws)
    {
      Interfere(sc, url);
      r := None;
      if * { r := Some(Status(w.storyOpen, w.claimed, w.record)); } else { faults := faults + 1; }
    }

    // The edges come in whatever order the server lists them.
    method EdgeList(sc: Scope, url: string) returns (r: Option<seq<nat>>)
      requires Valid(sc, url)
      modifies this
      ensures Valid(sc, url) && Evolves(url, old(w), w) && Reads(old(h), h)
      ensures r.Some? ==> forall id :: id in r.value <==> id in w.waits
      ensures faults == old(faults) + (if r.Some? then 0 else 1) && known == old(known) && raws == old(raws)
    {
      Interfere(sc, url);
      r := None;
      var ids: seq<nat>, left := [], w.waits;
      while left != {}
        invariant faults == old(faults) && known == old(known) && raws == old(raws)
        invariant left <= w.waits && forall id :: id in ids <==> id in w.waits - left
      {
        var id :| id in left;
        ids, left := ids + [id], left - {id};
      }
      if * { r := Some(ids); } else { faults := faults + 1; }
    }

    // None: the call failed; Some(None): no such task.
    method TaskGet(sc: Scope, url: string, id: nat) returns (r: Option<Option<Gate>>)
      requires Valid(sc, url)
      modifies this
      ensures Valid(sc, url) && Evolves(url, old(w), w) && Reads(old(h), h)
      ensures r.Some? ==> r.value == if id in w.gates then Some(w.gates[id]) else None
      ensures faults == old(faults) + (if r.Some? then 0 else 1) && known == old(known) && raws == old(raws)
    {
      Interfere(sc, url);
      r := None;
      if * { r := Some(if id in w.gates then Some(w.gates[id]) else None); } else { faults := faults + 1; }
    }

    // A write that reached the server.
    method Commit(sc: Scope, url: string, ghost op: Op, x: World)
      requires Valid(sc, url) && WellFormed(x) && StepOk(sc, url, Then(h, op, x))
      modifies this
      ensures Valid(sc, url) && w == x && h == Then(old(h), op, x) && faults == old(faults) && known == old(known)
      ensures raws == old(raws)
      ensures Continues(old(h), h)
    {
      w := x;
      h := Then(h, op, x);
    }

    // One send of each write: it may commit whether or not its response arrives.
    method SendCreate(sc: Scope, url: string) returns (r: Option<nat>)
      requires Valid(sc, url)
      modifies this
      ensures Valid(sc, url) && Evolves(url, old(w), w) && Continues(old(h), h)
      ensures DeedsOf(h) == old(DeedsOf(h))
      ensures r.Some? ==> Did(h, Create(r.value)) && Live(w, r.value, url)
      ensures faults == old(faults) + if r.Some? then 0 else 1
      ensures known == old(known) + (if r.Some? then {r.value} else {}) && raws == old(raws)
    {
      Interfere(sc, url);
      r := None;
      var id: nat, reached: bool := *, *;
      if reached && id !in w.gates {
        Commit(sc, url, Create(id), w.(gates := w.gates[id := Gate(PrGate(url), true)]));
        if * { r, known := Some(id), known + {id}; }
      }
      if r.None? { faults := faults + 1; }
    }

    method SendEdge(sc: Scope, url: string, id: nat) returns (ok: bool)
      requires Valid(sc, url) && Did(h, Create(id)) && Live(w, id, url)
      modifies this
      ensures Valid(sc, url) && Evolves(url, old(w), w) && Continues(old(h), h)
      ensures DeedsOf(h) == old(DeedsOf(h))
      ensures ok ==> Holds(w, id, url) && Did(h, Link(id))
      ensures faults == old(faults) + (if ok then 0 else 1) && known == old(known) && raws == old(raws)
    {
      Interfere(sc, url);
      ok := false;
      if * {
        Commit(sc, url, Link(id), w.(waits := w.waits + {id}));
        ok := *;
      }
      if !ok { faults := faults + 1; }
    }

    method SendCancel(sc: Scope, url: string, id: nat) returns (ok: bool)
      requires Valid(sc, url) && Did(h, Create(id)) && id in w.gates && !Completed(h)
      modifies this
      ensures Valid(sc, url) && Ages(old(w), w) && Continues(old(h), h) && DeedsOf(h) == old(DeedsOf(h))
      ensures ok ==> Did(h, Cancel(id))
      ensures faults == old(faults) + (if ok then 0 else 1) && known == old(known) && raws == old(raws)
    {
      Interfere(sc, url);
      ok := false;
      if * {
        Commit(sc, url, Cancel(id), Closing(w, id));
        ok := *;
      }
      if !ok { faults := faults + 1; }
    }

    method SendComplete(sc: Scope, url: string, id: nat, ghost holder: nat) returns (ok: bool)
      requires Valid(sc, url) && Holds(w, holder, url) && Answerable(sc, w, id)
      modifies this
      ensures Valid(sc, url) && Evolves(url, old(w), w) && Continues(old(h), h)
      ensures Created(h) == old(Created(h)) && Adds(old(DeedsOf(h)), DeedsOf(h), {id}, {})
      ensures ok ==> !w.gates[id].open && Did(h, Complete(id, holder))
      ensures faults == old(faults) + (if ok then 0 else 1) && known == old(known) && raws == old(raws)
    {
      Interfere(sc, url);
      ok := false;
      if * {
        Commit(sc, url, Complete(id, holder), Closing(w, id));
        ok := *;
      }
      if !ok { faults := faults + 1; }
    }

    method SendNote(sc: Scope, url: string, gate: nat, routes: set<string>, clears: bool) returns (ok: bool)
      requires Valid(sc, url) && Holds(w, gate, url)
      modifies this
      ensures Valid(sc, url) && Evolves(url, old(w), w) && Continues(old(h), h)
      ensures Adds(old(DeedsOf(h)), DeedsOf(h), {}, {(routes, clears)}) && Created(h) == old(Created(h))
      ensures ok ==> Did(h, Note(gate, routes, clears))
      ensures faults == old(faults) + (if ok then 0 else 1) && known == old(known) && raws == old(raws)
    {
      Interfere(sc, url);
      ok := false;
      if * {
        Commit(sc, url, Note(gate, routes, clears), w.(record := Noted(w.record, gate, routes, clears)));
        ok := *;
      }
      if !ok { faults := faults + 1; }
    }

    // The calls: up to three sends.
    method TaskCreate(sc: Scope, url: string) returns (r: Option<nat>, raw: bool)
      requires Valid(sc, url)
      modifies this
      ensures Valid(sc, url) && Evolves(url, old(w), w) && Continues(old(h), h)
      ensures DeedsOf(h) == old(DeedsOf(h))
      ensures r.Some? ==> Did(h, Create(r.value)) && Live(w, r.value, url)
      ensures faults >= old(faults) && (r.None? ==> faults == old(faults) + SENDS)
      ensures known == old(known) + (if r.Some? then {r.value} else {})
      ensures (raw ==> !(r.Some?)) && raws == old(raws) + if raw then 1 else 0
    {
      raw := false;
      r := None;
      var sends := 0;
      while sends < SENDS && r.None?
        invariant Valid(sc, url) && Evolves(url, old(w), w) && Continues(old(h), h)
        invariant DeedsOf(h) == old(DeedsOf(h))
        invariant r.Some? ==> Did(h, Create(r.value)) && Live(w, r.value, url)
        invariant sends <= SENDS && faults >= old(faults) && (r.None? ==> faults == old(faults) + sends)
        invariant known == old(known) + (if r.Some? then {r.value} else {}) && raws == old(raws)
      {
        r := SendCreate(sc, url);
        sends := sends + 1;
      }
      raw := *;
      raw := raw && !(r.Some?);
      if raw { raws := raws + 1; }
    }

    method EdgeUpsert(sc: Scope, url: string, id: nat) returns (ok: bool, raw: bool)
      requires Valid(sc, url) && Did(h, Create(id)) && Live(w, id, url)
      modifies this
      ensures Valid(sc, url) && Evolves(url, old(w), w) && Continues(old(h), h)
      ensures DeedsOf(h) == old(DeedsOf(h))
      ensures ok ==> Holds(w, id, url) && Did(h, Link(id))
      ensures faults >= old(faults) && (!ok ==> faults == old(faults) + SENDS) && known == old(known)
      ensures (raw ==> !(ok)) && raws == old(raws) + if raw then 1 else 0
    {
      raw := false;
      ok := false;
      var sends := 0;
      while sends < SENDS && !ok
        invariant Valid(sc, url) && Evolves(url, old(w), w) && Continues(old(h), h)
        invariant DeedsOf(h) == old(DeedsOf(h))
        invariant ok ==> Holds(w, id, url) && Did(h, Link(id))
        invariant sends <= SENDS && faults >= old(faults) && (!ok ==> faults == old(faults) + sends)
        invariant known == old(known) && raws == old(raws)
      {
        ok := SendEdge(sc, url, id);
        sends := sends + 1;
      }
      raw := *;
      raw := raw && !(ok);
      if raw { raws := raws + 1; }
    }

    method TaskCancel(sc: Scope, url: string, id: nat) returns (done: bool, raw: bool)
      requires Valid(sc, url) && Did(h, Create(id)) && id in w.gates && !Completed(h)
      modifies this
      ensures Valid(sc, url) && Ages(old(w), w) && Continues(old(h), h) && DeedsOf(h) == old(DeedsOf(h))
      ensures done ==> Did(h, Cancel(id))
      ensures faults >= old(faults) && (!done ==> faults == old(faults) + SENDS) && known == old(known)
      ensures (raw ==> !(done)) && raws == old(raws) + if raw then 1 else 0
    {
      raw := false;
      done := false;
      var sends := 0;
      while sends < SENDS && !done
        invariant Valid(sc, url) && Ages(old(w), w) && Continues(old(h), h) && DeedsOf(h) == old(DeedsOf(h))
        invariant done ==> Did(h, Cancel(id))
        invariant sends <= SENDS && faults >= old(faults) && (!done ==> faults == old(faults) + sends)
        invariant known == old(known) && raws == old(raws)
      {
        done := SendCancel(sc, url, id);
        sends := sends + 1;
      }
      raw := *;
      raw := raw && !(done);
      if raw { raws := raws + 1; }
    }

    method TaskComplete(sc: Scope, url: string, id: nat, ghost holder: nat) returns (ok: bool, raw: bool)
      requires Valid(sc, url) && Holds(w, holder, url) && Answerable(sc, w, id)
      modifies this
      ensures Valid(sc, url) && Evolves(url, old(w), w) && Continues(old(h), h)
      ensures Created(h) == old(Created(h)) && Adds(old(DeedsOf(h)), DeedsOf(h), {id}, {})
      ensures ok ==> !w.gates[id].open && Did(h, Complete(id, holder))
      ensures faults >= old(faults) && (!ok ==> faults == old(faults) + SENDS) && known == old(known)
      ensures (raw ==> !(ok)) && raws == old(raws) + if raw then 1 else 0
    {
      raw := false;
      ok := false;
      var sends := 0;
      while sends < SENDS && !ok
        invariant Valid(sc, url) && Evolves(url, old(w), w) && Continues(old(h), h)
        invariant Created(h) == old(Created(h)) && Adds(old(DeedsOf(h)), DeedsOf(h), {id}, {})
        invariant ok ==> !w.gates[id].open && Did(h, Complete(id, holder))
        invariant sends <= SENDS && faults >= old(faults) && (!ok ==> faults == old(faults) + sends)
        invariant known == old(known) && raws == old(raws)
      {
        ok := SendComplete(sc, url, id, holder);
        sends := sends + 1;
      }
      raw := *;
      raw := raw && !(ok);
      if raw { raws := raws + 1; }
    }

    // `record_delivery_on_story`: the one story write of a delivery.
    method TaskUpdate(sc: Scope, url: string, gate: nat, routes: set<string>, clears: bool) returns (ok: bool)
      requires Valid(sc, url) && Holds(w, gate, url)
      modifies this
      ensures Valid(sc, url) && Evolves(url, old(w), w) && Continues(old(h), h)
      ensures Adds(old(DeedsOf(h)), DeedsOf(h), {}, {(routes, clears)}) && Created(h) == old(Created(h))
      ensures ok ==> Did(h, Note(gate, routes, clears))
      ensures faults >= old(faults) && (!ok ==> faults == old(faults) + SENDS) && known == old(known)
      ensures raws == old(raws)
    {
      ok := false;
      var sends := 0;
      while sends < SENDS && !ok
        invariant Valid(sc, url) && Evolves(url, old(w), w) && Continues(old(h), h)
        invariant Adds(old(DeedsOf(h)), DeedsOf(h), {}, {(routes, clears)}) && Created(h) == old(Created(h))
        invariant ok ==> Did(h, Note(gate, routes, clears))
        invariant sends <= SENDS && faults >= old(faults) && (!ok ==> faults == old(faults) + sends)
        invariant known == old(known) && raws == old(raws)
      {
        ok := SendNote(sc, url, gate, routes, clears);
        sends := sends + 1;
      }
    }
  }

  // ---- Reading the story ------------------------------------------------------------------------------

  datatype PrRef = PrRef(id: nat, url: string)

  datatype Story = Story(open: bool, claimed: bool, record: Record, humans: seq<HumanGate>, prs: seq<PrRef>)

  // What was read is still so, but for human gates and foreign `pr` gates that closed meanwhile.
  predicate HumansStand(w: World, humans: seq<HumanGate>) { forall g :: g in humans ==> IsHuman(w, g) }

  predicate PrsStand(w: World, url: string, prs: seq<PrRef>) {
    forall p :: p in prs && p.url == url ==> Holds(w, p.id, url)
  }

  // A gate of this kind is in what was read.
  predicate Noticed(id: nat, kind: Kind, humans: seq<HumanGate>, prs: seq<PrRef>) {
    match kind
    case PrGate(u) => PrRef(id, u) in prs
    case LoomHuman(route, reason, runId) => HumanGate(id, route, reason, runId) in humans
    case OtherTask => true
  }

  // Every listed gate that is open now was noticed.
  predicate NoneMissed(w: World, listed: set<nat>, humans: seq<HumanGate>, prs: seq<PrRef>) {
    forall id :: id in listed && id in w.gates && w.gates[id].open ==> Noticed(id, w.gates[id].kind, humans, prs)
  }

  lemma ReadingStands(url: string, w: World, x: World, listed: set<nat>, humans: seq<HumanGate>, prs: seq<PrRef>)
    requires Evolves(url, w, x) && listed <= w.gates.Keys
    requires HumansStand(w, humans) && PrsStand(w, url, prs) && NoneMissed(w, listed, humans, prs)
    ensures HumansStand(x, humans) && PrsStand(x, url, prs) && NoneMissed(x, listed, humans, prs)
  {
    AgedStands(w, x, listed, humans, prs);
    forall p | p in prs && p.url == url ensures Holds(x, p.id, url) {
      assert Holds(w, p.id, url);
    }
  }

  /** `read_story`. None: a read failed, and the delivery with it. */
  method ReadStory(client: Lithos, sc: Scope, url: string) returns (r: Option<Story>)
    requires client.Valid(sc, url)
    modifies client
    ensures client.Valid(sc, url) && Evolves(url, old(client.w), client.w) && Reads(old(client.h), client.h)
    ensures r.Some? ==> (r.value.open ==> EverOpen(client.h)) && (!r.value.claimed ==> EverUnclaimed(client.h))
    ensures r.Some? ==> HumansStand(client.w, r.value.humans) && PrsStand(client.w, url, r.value.prs)
    ensures r.Some? ==> NoneMissed(client.w, old(client.w.waits), r.value.humans, r.value.prs)
    ensures r.Some? ==> EverSaid(client.h, Status(r.value.open, r.value.claimed, r.value.record))
    ensures client.faults >= old(client.faults) && (r.None? ==> client.faults > old(client.faults))
    ensures client.known == old(client.known) && client.raws == old(client.raws)
  {
    var status := client.TaskStatus(sc, url);
    if status.None? { return None; }
    var edges := client.EdgeList(sc, url);
    if edges.None? { return None; }
    var humans, prs := ReadGates(client, sc, url, edges.value);
    if humans.None? { return None; }
    r := Some(Story(status.value.open, status.value.claimed, status.value.record, humans.value, prs));
  }

  // Reads one gate of the list; adds it to what was found if it is open and one that counts.
  method ReadGate(client: Lithos, sc: Scope, url: string, id: nat, ghost listed: set<nat>, humans: seq<HumanGate>,
      prs: seq<PrRef>)
    returns (found: Option<seq<HumanGate>>, foundPrs: seq<PrRef>)
    requires client.Valid(sc, url) && id in client.w.waits && listed <= client.w.waits
    requires HumansStand(client.w, humans) && PrsStand(client.w, url, prs) && NoneMissed(client.w, listed, humans, prs)
    modifies client
    ensures client.Valid(sc, url) && Evolves(url, old(client.w), client.w) && Reads(old(client.h), client.h)
    ensures found.Some? ==> HumansStand(client.w, found.value) && PrsStand(client.w, url, foundPrs)
    ensures found.Some? ==> NoneMissed(client.w, listed + {id}, found.value, foundPrs)
    ensures client.faults >= old(client.faults) && (found.None? ==> client.faults > old(client.faults))
    ensures client.known == old(client.known) && client.raws == old(client.raws)
  {
    var gate := client.TaskGet(sc, url, id);
    if gate.None? { return None, prs; }
    ReadingStands(url, old(client.w), client.w, listed, humans, prs);
    found, foundPrs := Some(humans), prs;
    if gate.value.Some? && gate.value.value.open {
      match gate.value.value.kind
      case LoomHuman(route, reason, runId) => found := Some(humans + [HumanGate(id, route, reason, runId)]);
      case PrGate(u) => foundPrs := prs + [PrRef(id, u)];
      case OtherTask =>
    }
  }

  method ReadGates(client: Lithos, sc: Scope, url: string, edges: seq<nat>)
    returns (humans: Option<seq<HumanGate>>, prs: seq<PrRef>)
    requires client.Valid(sc, url) && Elements(edges) <= client.w.waits
    modifies client
    ensures client.Valid(sc, url) && Evolves(url, old(client.w), client.w) && Reads(old(client.h), client.h)
    ensures humans.Some? ==> HumansStand(client.w, humans.value) && PrsStand(client.w, url, prs)
    ensures humans.Some? ==> NoneMissed(client.w, Elements(edges), humans.value, prs)
    ensures client.faults >= old(client.faults) && (humans.None? ==> client.faults > old(client.faults))
    ensures client.known == old(client.known) && client.raws == old(client.raws)
  {
    humans, prs := Some([]), [];
    for i := 0 to |edges|
      invariant client.Valid(sc, url) && Evolves(url, old(client.w), client.w) && Reads(old(client.h), client.h)
      invariant humans.Some? && HumansStand(client.w, humans.value) && PrsStand(client.w, url, prs)
      invariant NoneMissed(client.w, Elements(edges[..i]), humans.value, prs)
      invariant client.faults >= old(client.faults) && client.known == old(client.known)
      invariant client.raws == old(client.raws)
    {
      assert Elements(edges[..i]) <= Elements(edges);
      assert edges[i] in Elements(edges);
      humans, prs := ReadGate(client, sc, url, edges[i], Elements(edges[..i]), humans.value, prs);
      if humans.None? { return; }
      assert Elements(edges[..i + 1]) == Elements(edges[..i]) + {edges[i]};
    }
    assert edges[..|edges|] == edges;
  }

  // ---- The delivery -----------------------------------------------------------------------------------

  datatype Problem =
    | StoryNotOpen | ForeignGate | SeveralGates | NoGate | NotNoted | RouteClaimed
    | NotCompleted(id: nat)

  datatype Outcome = Outcome(
    prGate: Option<nat>,
    created: bool,
    recorded: bool,
    marked: bool,
    swapped: bool,
    completed: seq<nat>,
    retained: seq<(HumanGate, Why)>,
    problems: seq<Problem>)

  // How the delivery ends: an error it does not catch may leave it at any call.
  datatype Ending = Unread | Escaped | Gated(outcome: Outcome)

  // `create_pr_gate_best_effort`: the gate and its edge, or neither as far as the caller can see. A failure it does
  // not catch leaves at once, and the orphan stays.
  method CreatePrGate(client: Lithos, sc: Scope, url: string, parses: bool) returns (gate: Option<nat>, escapes: bool)
    requires client.Valid(sc, url) && !Completed(client.h)
    modifies client
    ensures client.Valid(sc, url) && Ages(old(client.w), client.w)
    ensures Continues(old(client.h), client.h) && DeedsOf(client.h) == old(DeedsOf(client.h))
    ensures gate.Some? ==> Evolves(url, old(client.w), client.w) && Holds(client.w, gate.value, url)
    ensures gate.Some? ==> Did(client.h, Create(gate.value)) && Did(client.h, Link(gate.value))
    ensures client.faults >= old(client.faults)
    ensures gate.None? && parses ==> client.faults >= old(client.faults) + SENDS
    ensures escapes ==> gate.None? && client.faults > old(client.faults)
    ensures client.raws == old(client.raws) + if escapes then 1 else 0
    // a gate that was made and could not be linked is cancelled, unless that fails too
    ensures forall id :: id in client.known && id !in old(client.known) ==>
              || gate == Some(id) || Did(client.h, Cancel(id)) || escapes
              || client.faults >= old(client.faults) + 2 * SENDS
  {
    if !parses { return None, false; }
    gate, escapes := client.TaskCreate(sc, url);
    if gate.None? { return; }
    var linked;
    linked, escapes := client.EdgeUpsert(sc, url, gate.value);
    if !linked {
      if !escapes {
        var cancelled;
        cancelled, escapes := client.TaskCancel(sc, url, gate.value);
      }
      gate := None;
    }
  }

  // Completes each gate in turn; a failure is reported and the next one tried, unless it is one that is not caught.
  method CompleteGates(client: Lithos, sc: Scope, url: string, holder: nat, gates: seq<HumanGate>)
    returns (completed: seq<nat>, problems: seq<Problem>, escapes: bool)
    requires client.Valid(sc, url) && Holds(client.w, holder, url) && HumansStand(client.w, gates)
    requires forall g :: g in gates ==> !Protected(sc, g)
    modifies client
    ensures client.Valid(sc, url) && Evolves(url, old(client.w), client.w) && Continues(old(client.h), client.h)
    ensures Created(client.h) == old(Created(client.h)) && client.known == old(client.known)
    ensures client.raws == old(client.raws) + if escapes then 1 else 0
    ensures Adds(old(DeedsOf(client.h)), DeedsOf(client.h), Ids(gates), {})
    ensures forall id :: id in completed ==> Retired(client.w, client.h, id, holder)
    // each was completed or is reported, and each report took three sends that failed
    ensures AllOf(Ids(gates), problems) && (!escapes ==> Accounted(gates, |gates|, completed, problems))
    ensures client.faults >= old(client.faults) + 3 * |problems|
    ensures |completed| + |problems| <= |gates|
    ensures escapes ==> client.faults > old(client.faults)
  {
    completed, problems, escapes := [], [], false;
    for i := 0 to |gates|
      invariant client.Valid(sc, url) && Evolves(url, old(client.w), client.w) && Continues(old(client.h), client.h)
      invariant !escapes && client.raws == old(client.raws)
      invariant Created(client.h) == old(Created(client.h)) && client.known == old(client.known)
      invariant |completed| + |problems| == i
      invariant Adds(old(DeedsOf(client.h)), DeedsOf(client.h), Ids(gates), {})
      invariant forall id :: id in completed ==> Retired(client.w, client.h, id, holder)
      invariant AllOf(Ids(gates), problems) && Accounted(gates, i, completed, problems)
      invariant client.faults >= old(client.faults) + SENDS * |problems|
    {
      assert IsHuman(old(client.w), gates[i]) && gates[i].id in Ids(gates);
      var ok;
      ok, escapes := CompleteOne(client, sc, url, holder, gates[i].id, completed);
      if ok {
        AccountFor(gates, i, completed, problems, completed + [gates[i].id], problems);
        completed := completed + [gates[i].id];
      } else {
        if escapes { return; }
        AccountFor(gates, i, completed, problems, completed, problems + [NotCompleted(gates[i].id)]);
        problems := problems + [NotCompleted(gates[i].id)];
      }
    }
  }

  // Completes one more; those completed before stay so.
  method CompleteOne(client: Lithos, sc: Scope, url: string, holder: nat, id: nat, ghost completed: seq<nat>)
    returns (ok: bool, escapes: bool)
    requires client.Valid(sc, url) && Holds(client.w, holder, url) && Answerable(sc, client.w, id)
    requires forall c :: c in completed ==> Retired(client.w, client.h, c, holder)
    modifies client
    ensures client.Valid(sc, url) && Evolves(url, old(client.w), client.w) && Continues(old(client.h), client.h)
    ensures Created(client.h) == old(Created(client.h)) && client.known == old(client.known)
    ensures Adds(old(DeedsOf(client.h)), DeedsOf(client.h), {id}, {})
    ensures forall c :: c in completed ==> Retired(client.w, client.h, c, holder)
    ensures (escapes ==> !ok) && client.raws == old(client.raws) + if escapes then 1 else 0
    ensures ok ==> Retired(client.w, client.h, id, holder)
    ensures client.faults >= old(client.faults) && (!ok ==> client.faults >= old(client.faults) + SENDS)
  {
    ghost var w, h := client.w, client.h;
    ok, escapes := client.TaskComplete(sc, url, id, holder);
    RetiredStays(url, w, h, client.w, client.h, completed, holder);
  }

  // Each of the first gates was completed, or is reported.
  predicate Accounted(gates: seq<HumanGate>, n: nat, completed: seq<nat>, problems: seq<Problem>)
    requires n <= |gates|
  {
    forall k :: 0 <= k < n ==> gates[k].id in completed || NotCompleted(gates[k].id) in problems
  }

  // Reports of gates among these only.
  predicate AllOf(ids: set<nat>, problems: seq<Problem>) {
    forall q :: q in problems ==> q.NotCompleted? && q.id in ids
  }

  lemma AccountFor(gates: seq<HumanGate>, n: nat, completed: seq<nat>, problems: seq<Problem>, completed': seq<nat>,
      problems': seq<Problem>)
    requires n < |gates| && Accounted(gates, n, completed, problems) && AllOf(Ids(gates), problems)
    requires || (completed' == completed + [gates[n].id] && problems' == problems)
             || (completed' == completed && problems' == problems + [NotCompleted(gates[n].id)])
    ensures Accounted(gates, n + 1, completed', problems') && AllOf(Ids(gates), problems')
  {
    assert gates[n] in gates;
    assert gates[n].id in completed' || NotCompleted(gates[n].id) in problems';
  }

  // Closed, and by this delivery, under the hold of its `pr` gate.
  ghost predicate Retired(w: World, h: Log, id: nat, holder: nat) {
    id in w.gates && !w.gates[id].open && Did(h, Complete(id, holder))
  }

  lemma RetiredStays(url: string, w: World, h: Log, x: World, k: Log, ids: seq<nat>, holder: nat)
    requires Evolves(url, w, x) && Continues(h, k)
    requires forall id :: id in ids ==> Retired(w, h, id, holder)
    ensures forall id :: id in ids ==> Retired(x, k, id, holder)
  {
    forall id | id in ids ensures Retired(x, k, id, holder) {
      assert Retired(w, h, id, holder) && AgesTo(w.gates[id], x.gates[id]);
    }
  }

  // `StoryState.delivery_recorded`.
  predicate DeliveryRecorded(r: Record, gate: nat, retirement: Retirement) {
    r.prGate == Some(gate) && (retirement.clearsPointer ==> r.humanGate.None?) && retirement.routes == {}
  }

  // `StoryState.delivery_marked`: what the marker says are floors, not equalities.
  predicate DeliveryMarked(marker: Option<Marker>, url: string, runId: string, gated: bool, swapped: bool) {
    && marker.Some? && marker.value.prUrl == url && marker.value.runId == runId
    && (marker.value.gated || !gated) && (marker.value.swapped || !swapped)
  }

  // Gates that could still be this run's escalation (`unretired_run_gates`).
  predicate CouldBeOurs(sc: Scope, runId: string) { runId == "" || sc.IsOurs(runId) }

  // The `pr` gate: one already watching the url, or a new one.
  method AdoptOrCreate(client: Lithos, sc: Scope, url: string, parses: bool, prs: seq<PrRef>)
    returns (gate: Option<nat>, escapes: bool)
    requires client.Valid(sc, url) && !Wrote(client.h) && !Completed(client.h) && !Created(client.h)
    requires PrsStand(client.w, url, prs) && forall p :: p in prs ==> p.url == url
    modifies client
    ensures client.Valid(sc, url) && Ages(old(client.w), client.w)
    ensures Continues(old(client.h), client.h) && DeedsOf(client.h) == old(DeedsOf(client.h))
    ensures gate.Some? ==> Evolves(url, old(client.w), client.w) && Holds(client.w, gate.value, url)
    ensures prs != [] ==> !Created(client.h) && gate == Some(prs[0].id) && client.known == old(client.known)
    ensures prs == [] && gate.Some? ==> Did(client.h, Create(gate.value)) && Did(client.h, Link(gate.value))
    ensures client.faults >= old(client.faults)
    ensures gate.None? && parses ==> client.faults >= old(client.faults) + SENDS
    ensures escapes ==> gate.None? && client.faults > old(client.faults)
    ensures client.raws == old(client.raws) + if escapes then 1 else 0
    ensures forall id :: id in client.known && id !in old(client.known) ==>
              || gate == Some(id) || Did(client.h, Cancel(id)) || escapes
              || client.faults >= old(client.faults) + 2 * SENDS
  {
    if prs != [] {
      assert prs[0] in prs;
      gate, escapes := Some(prs[0].id), false;
    } else {
      gate, escapes := CreatePrGate(client, sc, url, parses);
    }
  }

  // The one story write, unless the story already says it.
  method NoteDelivery(client: Lithos, sc: Scope, url: string, gate: nat, record: Record, retirement: Retirement)
    returns (recorded: bool, problems: seq<Problem>)
    requires client.Valid(sc, url) && Holds(client.w, gate, url)
    modifies client
    ensures client.Valid(sc, url) && Evolves(url, old(client.w), client.w) && Continues(old(client.h), client.h)
    ensures Adds(old(DeedsOf(client.h)), DeedsOf(client.h), {}, {(retirement.routes, retirement.clearsPointer)})
    ensures Created(client.h) == old(Created(client.h)) && client.known == old(client.known)
    ensures client.raws == old(client.raws)
    ensures recorded ==> Did(client.h, Note(gate, retirement.routes, retirement.clearsPointer))
    ensures recorded ==> !DeliveryRecorded(record, gate, retirement)
    ensures problems == if recorded || DeliveryRecorded(record, gate, retirement) then [] else [NotNoted]
    ensures DeliveryRecorded(record, gate, retirement) ==> client.h == old(client.h)
    ensures client.faults >= old(client.faults) && (problems != [] ==> client.faults >= old(client.faults) + SENDS)
  {
    recorded, problems := false, [];
    if !DeliveryRecorded(record, gate, retirement) {
      recorded := client.TaskUpdate(sc, url, gate, retirement.routes, retirement.clearsPointer);
      if !recorded { problems := [NotNoted]; }
    }
  }

  // An open gate of another PR.
  predicate BehindAnother(w: World, id: nat, url: string) {
    id in w.gates && w.gates[id].open && w.gates[id].kind.PrGate? && w.gates[id].kind.url != url
  }

  predicate PossibleEscalation(sc: Scope, w: World, id: nat) {
    id in w.gates && w.gates[id].kind.LoomHuman? && CouldBeOurs(sc, w.gates[id].kind.runId)
  }

  // Nothing that was read stands in the way of the swap.
  predicate CanSwap(url: string, parses: bool, story: Story) {
    story.open && !story.claimed && (forall p :: p in story.prs ==> p.url == url) && (parses || story.prs != [])
  }

  // The gate holds, the story says so, and all that may be retired was.
  predicate Swapped(sc: Scope, story: Story, o: Outcome) {
    var r := RetirementOf(sc, story.humans, story.record.attempts, story.record.humanGate);
    && o.prGate.Some? && (o.created <==> story.prs == [])
    && (o.recorded <==> !DeliveryRecorded(story.record, o.prGate.value, r))
    && forall g :: g in r.superseded ==> g.id in o.completed
  }

  // What an outcome reports, and when.
  ghost predicate ReportsExactly(sc: Scope, url: string, story: Story, o: Outcome) {
    var r := RetirementOf(sc, story.humans, story.record.attempts, story.record.humanGate);
    var foreign := exists p :: p in story.prs && p.url != url;
    && (StoryNotOpen in o.problems <==> !story.open)
    && (ForeignGate in o.problems <==> story.open && foreign)
    && (NoGate in o.problems <==> story.open && !foreign && o.prGate.None?)
    && (SeveralGates in o.problems <==> o.prGate.Some? && |story.prs| > 1)
    && (RouteClaimed in o.problems <==> o.prGate.Some? && story.claimed)
    && (NotNoted in o.problems <==>
          o.prGate.Some? && !o.recorded && !DeliveryRecorded(story.record, o.prGate.value, r))
    && (o.prGate.Some? && !story.claimed ==> Accounted(r.superseded, |r.superseded|, o.completed, o.problems))
  }

  // What an outcome says, of the server and of the log.
  ghost predicate Delivered(w: World, h: Log, sc: Scope, url: string, story: Story, o: Outcome) {
    var r := RetirementOf(sc, story.humans, story.record.attempts, story.record.humanGate);
    && (o.prGate.Some? ==> Holds(w, o.prGate.value, url))
    && (o.prGate.None? ==> !Completed(h) && !o.swapped && o.completed == [] && o.problems != [])
    && (o.created ==> o.prGate.Some? && Did(h, Create(o.prGate.value)) && Did(h, Link(o.prGate.value)))
    && (o.prGate.Some? && !o.created ==> !Created(h))
    && (o.recorded ==> o.prGate.Some? && Did(h, Note(o.prGate.value, r.routes, r.clearsPointer)))
    && (forall id :: id in o.completed ==> o.prGate.Some? && Retired(w, h, id, o.prGate.value))
    && (story.open ==> o.retained == r.retained)
    && (o.swapped <==> o.prGate.Some? && forall g :: g in story.humans && CouldBeOurs(sc, g.runId) ==>
          g.id in o.completed)
    && (o.marked <==> o.prGate.Some? && DeliveryMarked(story.record.marker, url, sc.runId, true, o.swapped))
    && (o.problems == [] ==> forall g :: g in r.superseded ==> g.id in o.completed)
  }

  // What is reported once the `pr` gate holds the story: a write that failed, a route's claim, and every gate that was
  // to be completed and was not.
  ghost predicate Reported(story: Story, gate: nat, retirement: Retirement, recorded: bool, completed: seq<nat>,
      problems: seq<Problem>, escapes: bool) {
    && (NotNoted in problems <==> !recorded && !DeliveryRecorded(story.record, gate, retirement))
    && (RouteClaimed in problems <==> story.claimed)
    && (!story.claimed && !escapes ==>
          Accounted(retirement.superseded, |retirement.superseded|, completed, problems))
    && (forall q :: q in problems ==>
          || q.NotNoted? || q.RouteClaimed?
          || (!story.claimed && q.NotCompleted? && q.id in Ids(retirement.superseded)))
  }

    // After the `pr` gate holds the story: the story write, then the human gates.
  method RetireUnderHold(client: Lithos, sc: Scope, url: string, story: Story, gate: nat, retirement: Retirement)
    returns (recorded: bool, completed: seq<nat>, problems: seq<Problem>, escapes: bool)
    requires client.Valid(sc, url) && Holds(client.w, gate, url) && !Completed(client.h)
    requires HumansStand(client.w, retirement.superseded)
    requires forall g :: g in retirement.superseded ==> !Protected(sc, g)
    modifies client
    ensures client.Valid(sc, url) && Evolves(url, old(client.w), client.w) && Continues(old(client.h), client.h)
    ensures Created(client.h) == old(Created(client.h)) && client.known == old(client.known)
    ensures client.raws == old(client.raws) + if escapes then 1 else 0
    ensures |completed| <= |retirement.superseded|
    ensures Adds(old(DeedsOf(client.h)), DeedsOf(client.h), Ids(retirement.superseded),
                 {(retirement.routes, retirement.clearsPointer)})
    ensures recorded ==> Did(client.h, Note(gate, retirement.routes, retirement.clearsPointer))
    ensures story.claimed ==> !Completed(client.h) && completed == [] && !escapes
    ensures recorded ==> !DeliveryRecorded(story.record, gate, retirement)
    ensures Reported(story, gate, retirement, recorded, completed, problems, escapes)
    ensures forall id :: id in completed ==> Retired(client.w, client.h, id, gate)
    ensures client.faults >= old(client.faults)
            && (problems != [] || escapes ==> story.claimed || client.faults > old(client.faults))
  {
    var unnoted: seq<Problem>;
    recorded, unnoted := NoteDelivery(client, sc, url, gate, story.record, retirement);
    if story.claimed {
      completed, problems, escapes := [], unnoted + [RouteClaimed], false;
    } else {
      var left;
      completed, left, escapes := CompleteGates(client, sc, url, gate, retirement.superseded);
      problems := unnoted + left;
    }
  }

  // The outcome, from what became of the rest.
  function OutcomeUnder(sc: Scope, url: string, story: Story, gate: nat, retirement: Retirement, recorded: bool,
      completed: seq<nat>, problems: seq<Problem>): Outcome {
    var several := if |story.prs| > 1 then [SeveralGates] else [];
    var swapped := forall g :: g in story.humans && CouldBeOurs(sc, g.runId) ==> g.id in completed;
    Outcome(Some(gate), story.prs == [], recorded, DeliveryMarked(story.record.marker, url, sc.runId, true, swapped),
            swapped, completed, retirement.retained, several + problems)
  }

  lemma OutcomeReports(sc: Scope, url: string, story: Story, gate: nat, retirement: Retirement, recorded: bool,
      completed: seq<nat>, problems: seq<Problem>)
    requires story.open && forall q :: q in story.prs ==> q.url == url
    requires retirement == RetirementOf(sc, story.humans, story.record.attempts, story.record.humanGate)
    requires Reported(story, gate, retirement, recorded, completed, problems, false)
    ensures var o := OutcomeUnder(sc, url, story, gate, retirement, recorded, completed, problems);
            ReportsExactly(sc, url, story, o)
  {
    var o := OutcomeUnder(sc, url, story, gate, retirement, recorded, completed, problems);
    var several := if |story.prs| > 1 then [SeveralGates] else [];
    InBoth(several, problems);
    forall k | 0 <= k < |retirement.superseded| && !story.claimed
      ensures retirement.superseded[k].id in completed || NotCompleted(retirement.superseded[k].id) in o.problems
    {
      assert retirement.superseded[k].id in completed || NotCompleted(retirement.superseded[k].id) in problems;
    }
  }

  lemma InBoth(a: seq<Problem>, b: seq<Problem>)
    ensures forall q :: q in a + b <==> q in a || q in b
  {}

  // The rest of it, once the `pr` gate holds the story.
  method SwapUnderHold(client: Lithos, sc: Scope, url: string, story: Story, gate: nat, retirement: Retirement)
    returns (o: Option<Outcome>)
    requires client.Valid(sc, url) && Holds(client.w, gate, url) && !Completed(client.h) && story.open
    requires retirement == RetirementOf(sc, story.humans, story.record.attempts, story.record.humanGate)
    requires HumansStand(client.w, retirement.superseded)
    requires forall g :: g in retirement.superseded ==> !Protected(sc, g)
    requires if story.prs == [] then Did(client.h, Create(gate)) && Did(client.h, Link(gate)) else !Created(client.h)
    modifies client
    ensures client.Valid(sc, url) && Evolves(url, old(client.w), client.w) && Continues(old(client.h), client.h)
    ensures Created(client.h) == old(Created(client.h)) && (story.claimed ==> !Completed(client.h))
    ensures client.known == old(client.known) && client.raws == old(client.raws) + if o.None? then 1 else 0
    ensures o.Some? ==> |o.value.completed| <= |retirement.superseded|
    ensures Adds(old(DeedsOf(client.h)), DeedsOf(client.h), Ids(retirement.superseded),
                 {(retirement.routes, retirement.clearsPointer)})
    ensures Holds(client.w, gate, url)
    ensures o.Some? ==> o.value.prGate == Some(gate) && Delivered(client.w, client.h, sc, url, story, o.value)
    ensures o.Some? && (forall p :: p in story.prs ==> p.url == url) ==> ReportsExactly(sc, url, story, o.value)
    ensures client.faults >= old(client.faults)
    ensures client.faults == old(client.faults) ==> o.Some? && (!story.claimed ==> Swapped(sc, story, o.value))
  {
    var recorded, completed, problems, escapes := RetireUnderHold(client, sc, url, story, gate, retirement);
    if escapes { return None; }
    o := Some(OutcomeUnder(sc, url, story, gate, retirement, recorded, completed, problems));
    if forall q :: q in story.prs ==> q.url == url {
      OutcomeReports(sc, url, story, gate, retirement, recorded, completed, problems);
    }
  }

  // Nothing was gated, and why.
  function Refusal(retained: seq<(HumanGate, Why)>, problem: Problem): Outcome {
    Outcome(None, false, false, false, false, [], retained, [problem])
  }

  lemma RefusalIsDelivered(w: World, h: Log, sc: Scope, url: string, story: Story, problem: Problem)
    requires !Completed(h)
    requires var foreign := exists p :: p in story.prs && p.url != url;
             problem == if !story.open then StoryNotOpen else if foreign then ForeignGate else NoGate
    ensures var r := RetirementOf(sc, story.humans, story.record.attempts, story.record.humanGate);
            var o := Refusal(if story.open then r.retained else [], problem);
            Delivered(w, h, sc, url, story, o) && ReportsExactly(sc, url, story, o)
  {
    assert [problem][0] == problem && forall q :: q in [problem] <==> q == problem;
  }

  // A story that is open, and behind no other PR's gate: the `pr` gate first, then the rest under its hold.
  method GateAndSwap(client: Lithos, sc: Scope, url: string, parses: bool, story: Story, retirement: Retirement)
    returns (o: Option<Outcome>)
    requires client.Valid(sc, url) && !Wrote(client.h) && !Created(client.h) && !Completed(client.h)
    requires HumansStand(client.w, story.humans) && PrsStand(client.w, url, story.prs)
    requires story.open && forall p :: p in story.prs ==> p.url == url
    requires retirement == RetirementOf(sc, story.humans, story.record.attempts, story.record.humanGate)
    modifies client
    ensures client.Valid(sc, url) && Ages(old(client.w), client.w) && Continues(old(client.h), client.h)
    ensures (story.prs != [] ==> !Created(client.h)) && (story.claimed ==> !Completed(client.h))
    ensures o.Some? ==> Delivered(client.w, client.h, sc, url, story, o.value)
    ensures o.Some? ==> ReportsExactly(sc, url, story, o.value)
    ensures client.raws == old(client.raws) + if o.None? then 1 else 0
    ensures Adds(old(DeedsOf(client.h)), DeedsOf(client.h), Ids(retirement.superseded),
                 {(retirement.routes, retirement.clearsPointer)})
    ensures forall id :: id in client.known && id !in old(client.known) ==>
              || o.None? || o.value.prGate == Some(id) || Did(client.h, Cancel(id))
              || client.faults >= old(client.faults) + 2 * SENDS
    ensures o.None? && Completed(client.h) ==> exists p :: Holds(client.w, p, url)
    ensures client.faults >= old(client.faults)
    ensures client.faults == old(client.faults) ==>
            o.Some? && (CanSwap(url, parses, story) ==> Swapped(sc, story, o.value))
  {
    var gate, escapes := AdoptOrCreate(client, sc, url, parses, story.prs);
    if escapes { return None; }
    if gate.None? {
      RefusalIsDelivered(client.w, client.h, sc, url, story, NoGate);
      return Some(Refusal(retirement.retained, NoGate));
    }
    SupersededStand(sc, old(client.w), client.w, story.humans);
    o := SwapUnderHold(client, sc, url, story, gate.value, retirement);
    assert Holds(client.w, gate.value, url);
  }

  // `gate_delivery` from the fresh read on; None when an error escapes it.
  method SwapGates(client: Lithos, sc: Scope, url: string, parses: bool, story: Story) returns (o: Option<Outcome>)
    requires client.Valid(sc, url) && !Wrote(client.h) && !Created(client.h) && !Completed(client.h)
    requires HumansStand(client.w, story.humans) && PrsStand(client.w, url, story.prs)
    modifies client
    ensures client.Valid(sc, url) && Ages(old(client.w), client.w) && Continues(old(client.h), client.h)
    ensures !story.open || (exists p :: p in story.prs && p.url != url) ==> !Wrote(client.h)
    ensures (exists p :: p in story.prs && p.url == url) ==> !Created(client.h)
    ensures story.claimed ==> !Completed(client.h)
    ensures o.Some? ==> Delivered(client.w, client.h, sc, url, story, o.value)
    ensures o.Some? ==> ReportsExactly(sc, url, story, o.value)
    ensures client.raws == old(client.raws) + if o.None? then 1 else 0
    ensures var r := RetirementOf(sc, story.humans, story.record.attempts, story.record.humanGate);
            Adds(old(DeedsOf(client.h)), DeedsOf(client.h), Ids(r.superseded), {(r.routes, r.clearsPointer)})
    ensures forall id :: id in client.known && id !in old(client.known) ==>
              || o.None? || o.value.prGate == Some(id) || Did(client.h, Cancel(id))
              || client.faults >= old(client.faults) + 2 * SENDS
    ensures o.None? && Completed(client.h) ==> exists p :: Holds(client.w, p, url)
    ensures client.faults >= old(client.faults)
    ensures client.faults == old(client.faults) ==>
            o.Some? && (CanSwap(url, parses, story) ==> Swapped(sc, story, o.value))
  {
    if !story.open {
      RefusalIsDelivered(client.w, client.h, sc, url, story, StoryNotOpen);
      return Some(Refusal([], StoryNotOpen));
    }
    var retirement := Retire(sc, story.humans, story.record.attempts, story.record.humanGate);
    if exists p :: p in story.prs && p.url != url {
      RefusalIsDelivered(client.w, client.h, sc, url, story, ForeignGate);
      return Some(Refusal(retirement.retained, ForeignGate));
    }
    o := GateAndSwap(client, sc, url, parses, story, retirement);
  }

  lemma AgedStands(w: World, x: World, listed: set<nat>, humans: seq<HumanGate>, prs: seq<PrRef>)
    requires Ages(w, x) && listed <= w.gates.Keys
    requires HumansStand(w, humans) && NoneMissed(w, listed, humans, prs)
    ensures HumansStand(x, humans) && NoneMissed(x, listed, humans, prs)
  {
    forall id | id in listed && id in x.gates && x.gates[id].open ensures Noticed(id, x.gates[id].kind, humans, prs) {
      assert AgesTo(w.gates[id], x.gates[id]);
    }
    forall g | g in humans ensures IsHuman(x, g) {
      assert IsHuman(w, g) && AgesTo(w.gates[g.id], x.gates[g.id]);
    }
  }

  lemma SupersededStand(sc: Scope, w: World, x: World, humans: seq<HumanGate>)
    requires Ages(w, x) && HumansStand(w, humans)
    ensures HumansStand(x, Superseded(sc, humans))
    ensures forall g :: g in Superseded(sc, humans) ==> !Protected(sc, g)
  {
    forall g | g in Superseded(sc, humans) ensures IsHuman(x, g) && !Protected(sc, g) {
      SupersededExactly(sc, humans, g);
      assert IsHuman(w, g) && AgesTo(w.gates[g.id], x.gates[g.id]);
    }
  }

  // What was read of the story, as of a start at v.
  ghost predicate IsReadOf(story: Story, v: World, w: World, h: Log, url: string) {
    && (story.open ==> EverOpen(h)) && (!story.claimed ==> EverUnclaimed(h))
    && EverSaid(h, Status(story.open, story.claimed, story.record))
    && HumansStand(w, story.humans) && PrsStand(w, url, story.prs) && NoneMissed(w, v.waits, story.humans, story.prs)
  }

  // `gate_delivery` behind its read, told from where it started.
  method SwapAsRead(client: Lithos, sc: Scope, url: string, parses: bool, story: Story, ghost v: World)
    returns (end: Ending)
    requires client.Valid(sc, url) && WellFormed(v) && Origin(client.h) == v && Evolves(url, v, client.w)
    requires !Wrote(client.h) && !Created(client.h) && DeedsOf(client.h) == Deeds({}, {}) && client.known == {}
    requires IsReadOf(story, v, client.w, client.h, url)
    modifies client
    ensures client.Valid(sc, url) && Origin(client.h) == v && Continues(old(client.h), client.h) && !end.Unread?
    ensures HumansStand(client.w, story.humans) && NoneMissed(client.w, v.waits, story.humans, story.prs)
    ensures !story.open || (exists id :: id in v.waits && BehindAnother(client.w, id, url)) ==> !Wrote(client.h)
    ensures (exists id :: id in v.waits && Live(v, id, url)) ==> !Created(client.h)
    ensures story.claimed ==> !Completed(client.h)
    ensures end.Escaped? && Completed(client.h) ==> exists p :: Holds(client.w, p, url)
    ensures end.Gated? ==> Delivered(client.w, client.h, sc, url, story, end.outcome)
    ensures end.Gated? ==> ReportsExactly(sc, url, story, end.outcome)
    ensures end.Gated? && end.outcome.swapped ==>
            forall id :: id in v.waits && PossibleEscalation(sc, client.w, id) ==> !client.w.gates[id].open
    ensures var r := RetirementOf(sc, story.humans, story.record.attempts, story.record.humanGate);
            Adds(Deeds({}, {}), DeedsOf(client.h), Ids(r.superseded), {(r.routes, r.clearsPointer)})
    ensures end.Gated? ==> forall id :: id in client.known ==>
              || end.outcome.prGate == Some(id) || Did(client.h, Cancel(id))
              || client.faults >= old(client.faults) + 2 * SENDS
    ensures client.raws == old(client.raws) + if end.Escaped? then 1 else 0
    ensures client.faults >= old(client.faults)
    ensures client.faults == old(client.faults) ==>
            end.Gated? && (CanSwap(url, parses, story) ==> Swapped(sc, story, end.outcome))
  {
    ghost var w := client.w;
    var o := SwapGates(client, sc, url, parses, story);
    end := if o.Some? then Gated(o.value) else Escaped;
    StoryTells(url, v, w, client.w, story);
    if end.Gated? && end.outcome.swapped { NoneIsLeft(v, client.w, client.h, sc, url, story, end.outcome); }
  }

  /** `gate_delivery`, on a log that starts here. */
  method GateDelivery(client: Lithos, sc: Scope, url: string, parses: bool) returns (end: Ending, ghost story: Story)
    requires WellFormed(client.w)
    modifies client
    // every step is safe, and the log is of this delivery
    ensures client.Valid(sc, url) && Origin(client.h) == old(client.w)
    // a story that is terminal throughout, or behind another PR's gate, is not written to
    ensures !EverOpen(client.h) ==> !Wrote(client.h)
    ensures forall id :: id in old(client.w.waits) && BehindAnother(client.w, id, url) ==> !Wrote(client.h)
    // a gate already holding the story for this PR is adopted, not doubled
    ensures forall id :: id in old(client.w.waits) && Live(old(client.w), id, url) ==> !Created(client.h)
    // nothing is completed under a route's claim
    ensures !EverUnclaimed(client.h) ==> !Completed(client.h)
    ensures end.Unread? ==> !Wrote(client.h)
    // it ends so exactly on an error that is not caught, which leaves the story held if anything was completed
    ensures client.raws == old(client.raws) + if end.Escaped? then 1 else 0
    ensures end.Escaped? && Completed(client.h) ==> exists p :: Holds(client.w, p, url)
    // the gates it decided on are the gates the story had
    ensures !end.Unread? ==> HumansStand(client.w, story.humans)
    ensures !end.Unread? ==> NoneMissed(client.w, old(client.w.waits), story.humans, story.prs)
    ensures end.Gated? ==> Delivered(client.w, client.h, sc, url, story, end.outcome)
    ensures end.Gated? ==> ReportsExactly(sc, url, story, end.outcome)
    // the story was as it was read, at some moment
    ensures !end.Unread? ==> EverSaid(client.h, Status(story.open, story.claimed, story.record))
    // it closes no escalation but those it retires, and clears no marker but theirs
    ensures !end.Unread? ==>
              var r := RetirementOf(sc, story.humans, story.record.attempts, story.record.humanGate);
              Adds(Deeds({}, {}), DeedsOf(client.h), Ids(r.superseded), {(r.routes, r.clearsPointer)})
    // a gate it made does not stay behind unlinked, unless two calls fail or an error escapes
    ensures end.Gated? ==> forall id :: id in client.known ==>
              || end.outcome.prGate == Some(id) || Did(client.h, Cancel(id))
              || client.faults >= old(client.faults) + 2 * SENDS
    // a finished swap leaves no gate open that could be this run's
    ensures end.Gated? && end.outcome.swapped ==>
            forall id :: id in old(client.w.waits) && PossibleEscalation(sc, client.w, id) ==> !client.w.gates[id].open
    // and when no call fails, the swap is carried out
    ensures client.faults == old(client.faults) ==>
            end.Gated? && (CanSwap(url, parses, story) ==> Swapped(sc, story, end.outcome))
  {
    client.Begin(sc, url);
    story := Story(false, false, client.w.record, [], []);
    var read := ReadStory(client, sc, url);
    if read.None? { return Unread, story; }
    story := read.value;
    end := SwapAsRead(client, sc, url, parses, read.value, old(client.w));
  }

  // What the gates at the start, and those at the end, say of what was read in between.
  lemma StoryTells(url: string, v: World, w: World, x: World, story: Story)
    requires WellFormed(v) && Evolves(url, v, w) && Ages(w, x)
    requires HumansStand(w, story.humans) && NoneMissed(w, v.waits, story.humans, story.prs)
    ensures HumansStand(x, story.humans) && NoneMissed(x, v.waits, story.humans, story.prs)
    ensures forall id :: id in v.waits && BehindAnother(x, id, url) ==> exists p :: p in story.prs && p.url != url
    ensures forall id :: id in v.waits && Live(v, id, url) ==> exists p :: p in story.prs && p.url == url
  {
    AgedStands(w, x, v.waits, story.humans, story.prs);
    forall id | id in v.waits && BehindAnother(x, id, url) ensures exists p :: p in story.prs && p.url != url {
      assert Noticed(id, x.gates[id].kind, story.humans, story.prs);
    }
    forall id | id in v.waits && Live(v, id, url) ensures exists p :: p in story.prs && p.url == url {
      assert Live(w, id, url) && Noticed(id, w.gates[id].kind, story.humans, story.prs);
    }
  }

  lemma NoneIsLeft(v: World, x: World, h: Log, sc: Scope, url: string, story: Story, o: Outcome)
    requires Delivered(x, h, sc, url, story, o) && o.swapped && NoneMissed(x, v.waits, story.humans, story.prs)
    ensures forall id :: id in v.waits && PossibleEscalation(sc, x, id) ==> !x.gates[id].open
  {
    forall id | id in v.waits && PossibleEscalation(sc, x, id) ensures !x.gates[id].open {
      assert x.gates[id].open ==> Noticed(id, x.gates[id].kind, story.humans, story.prs);
    }
  }

  // ---- What a safe log keeps ----------------------------------------------------------------------------

  // No other actor closes this gate.
  ghost predicate OthersSpare(h: Log, id: nat) {
    h.Start? ||
    (OthersSpare(h.prev, id) &&
     (h.op.Others? && id in h.prev.w.gates && h.prev.w.gates[id].open ==> id in h.w.gates && h.w.gates[id].open))
  }

  lemma {:induction false} LogsAge(sc: Scope, url: string, h: Log)
    requires Safe(sc, url, h) && WellFormed(Origin(h))
    ensures Ages(Origin(h), h.w)
  {
    if h.Then? { LogsAge(sc, url, h.prev); }
  }

  // What this delivery minted was not there before.
  lemma {:induction false} MintedIsNew(sc: Scope, url: string, h: Log, id: nat)
    requires Safe(sc, url, h) && WellFormed(Origin(h)) && Did(h, Create(id))
    ensures id !in Origin(h).gates
  {
    if h.op == Create(id) { LogsAge(sc, url, h.prev); } else { MintedIsNew(sc, url, h.prev, id); }
  }

  /** While nothing is completed, every gate the story had stays; once something is, a `pr` gate for the
      url holds the story. */
  lemma {:induction false} HeldThroughout(sc: Scope, url: string, h: Log, g: nat)
    requires Safe(sc, url, h) && WellFormed(Origin(h))
    requires g in Origin(h).waits && Origin(h).gates[g].open && OthersSpare(h, g)
    ensures !Completed(h) ==> g in h.w.gates && g in h.w.waits && h.w.gates[g].open
    ensures Completed(h) ==> exists p :: Holds(h.w, p, url)
  {
    if h.Then? {
      HeldThroughout(sc, url, h.prev, g);
      match h.op
      case Cancel(id) => MintedIsNew(sc, url, h.prev, id);
      case Complete(id, holder) => assert Holds(h.w, holder, url);
      case Others =>
        if Completed(h.prev) {
          var p :| Holds(h.prev.w, p, url);
          assert Holds(h.w, p, url);
        }
      case Create(id) => if Completed(h.prev) { var p :| Holds(h.prev.w, p, url); assert Holds(h.w, p, url); }
      case Link(id) => if Completed(h.prev) { var p :| Holds(h.prev.w, p, url); assert Holds(h.w, p, url); }
      case Note(_, _, _) => if Completed(h.prev) { var p :| Holds(h.prev.w, p, url); assert Holds(h.w, p, url); }
    }
  }

  /** A story withheld when the delivery starts is withheld at every later moment, although its human gates
      are completed on the way: no one is ever given it in between. */
  lemma NeverReleased(sc: Scope, url: string, h: Log, g: nat)
    requires Safe(sc, url, h) && WellFormed(Origin(h))
    requires g in Origin(h).waits && Origin(h).gates[g].open && OthersSpare(h, g)
    ensures Withheld(h.w)
  {
    HeldThroughout(sc, url, h, g);
    if Completed(h) {
      var p :| Holds(h.w, p, url);
      assert p in h.w.gates && p in h.w.waits && h.w.gates[p].open;
    }
  }

  /** A delivery closes only gates it minted itself and escalations it may answer: every other gate that is
      closed at the end was closed by someone else. */
  lemma {:induction false} ClosesOnlyItsOwn(sc: Scope, url: string, h: Log, g: nat)
    requires Safe(sc, url, h) && WellFormed(Origin(h))
    requires g in Origin(h).gates && Origin(h).gates[g].open && OthersSpare(h, g)
    requires !Answerable(sc, Origin(h), g)
    ensures g in h.w.gates && h.w.gates[g].open && h.w.gates[g].kind == Origin(h).gates[g].kind
  {
    if h.Then? {
      ClosesOnlyItsOwn(sc, url, h.prev, g);
      LogsAge(sc, url, h);
      assert AgesTo(Origin(h).gates[g], h.w.gates[g]);
      if h.op.Cancel? { MintedIsNew(sc, url, h.prev, h.op.id); }
    }
  }

  // ---- What the story says -------------------------------------------------------------------------------

  /** A safe story write names a gate that holds the story, forgets the human gate exactly if told to, clears just the
      markers it names, and leaves the delivery marker alone. */
  lemma WritesChangeOnly(sc: Scope, url: string, h: Log)
    requires Safe(sc, url, h) && h.Then? && h.op.Note?
    ensures Holds(h.prev.w, h.op.gate, url) && h.w.record.prGate == Some(h.op.gate)
    ensures h.w.record.humanGate == if h.op.clears then None else h.prev.w.record.humanGate
    ensures forall r :: r in h.w.record.attempts <==> r in h.prev.w.record.attempts && r !in h.op.routes
    ensures h.w.record.marker == h.prev.w.record.marker
    ensures h.w.gates == h.prev.w.gates && h.w.waits == h.prev.w.waits && h.w.storyOpen == h.prev.w.storyOpen
  {}

  /** The story already says a delivery exactly if writing it would change nothing. */
  lemma RecordedExactly(sc: Scope, story: Story, gate: nat)
    ensures var r := RetirementOf(sc, story.humans, story.record.attempts, story.record.humanGate);
            DeliveryRecorded(story.record, gate, r) <==>
            story.record == Record(Some(gate), if r.clearsPointer then None else story.record.humanGate,
                                   story.record.attempts - r.routes, story.record.marker)
  {
    var attempts := story.record.attempts;
    var routes := RetirementOf(sc, story.humans, attempts, story.record.humanGate).routes;
    assert routes <= attempts;
    if r :| r in routes { assert r !in attempts - routes && r in attempts; }
  }

  /** A gate could be this run's escalation exactly if this run would retire it, alone, on a host that configures its
      route; so a finished swap leaves nothing to any host. */
  lemma CouldBeOursExactly(sc: Scope, g: HumanGate)
    requires g.route.Some? && g.reason != BRIEF_REVIEW
    ensures CouldBeOurs(sc, g.runId) <==>
            Superseded(Scope({g.route.value}, sc.runId, sc.ancestors), [g]) == [g]
    ensures CouldBeOurs(sc, g.runId) <==> g.runId == "" || g.runId == sc.runId || g.runId in sc.ancestors
  {
    var host := Scope({g.route.value}, sc.runId, sc.ancestors);
    assert [g] == [g] + [];
    CandidatesCons(host, g, []);
    OursCons(host, g, []);
    assert AnyNamed([g]) <==> g.runId != "";
  }

  /** A marker covers a delivery exactly if it says at least as much of the same pull request and run. */
  lemma MarkersAreFloors(m: Marker, url: string, runId: string, gated: bool, swapped: bool)
    ensures DeliveryMarked(Some(m), url, runId, gated, swapped) <==>
            m == Marker(url, runId, gated || m.gated, swapped || m.swapped)
    ensures !DeliveryMarked(None, url, runId, gated, swapped)
  {}
}
