/**
 The in-process event bus (`bus.py`): structural filters over JSON trees, and fan-out into bounded
 queues that drop what does not fit.
 */
module EventBus {
  import opened Options
  import opened Sequences

  // A JSON value; objects are association lists with distinct keys.
  datatype Json = Object(fields: Fields) | List(items: seq<Json>) | Scalar(value: string)

  datatype Fields = Nil | Field(key: string, value: Json, rest: Fields)

  function Lookup(fs: Fields, key: string): Option<Json> {
    match fs
    case Nil => None
    case Field(k, v, rest) => if k == key then Some(v) else Lookup(rest, key)
  }

  ghost predicate WellFormed(j: Json) {
    match j
    case Object(fs) => WellFormedFields(fs)
    case List(items) => forall i :: 0 <= i < |items| ==> WellFormed(items[i])
    case Scalar(_) => true
  }

  ghost predicate WellFormedFields(fs: Fields) {
    fs.Field? ==> WellFormed(fs.value) && WellFormedFields(fs.rest) && Lookup(fs.rest, fs.key).None?
  }

  // `_matches_struct`, field by field of the filter.
  predicate Matches(filter: Fields, payload: Fields) {
    filter.Field? ==>
      && Lookup(payload, filter.key).Some?
      && MatchesValue(filter.value, Lookup(payload, filter.key).value)
      && Matches(filter.rest, payload)
  }

  predicate MatchesValue(expected: Json, actual: Json) {
    match expected
    case Object(fs) => actual.Object? && Matches(fs, actual.fields)
    case List(items) => actual.List? && forall i :: i in items ==> i in actual.items
    case Scalar(_) => actual == expected
  }

  // What is at a path of keys.
  function At(fs: Fields, path: seq<string>): Option<Json>
    decreases |path|
  {
    if path == [] then None
    else
      var here := Lookup(fs, path[0]);
      if |path| == 1 || here.None? then here
      else if here.value.Object? then At(here.value.fields, path[1..])
      else None
  }

  // Here the payload has what the filter asks for: the same scalar, a list with every item, an object.
  predicate AgreesAt(filter: Fields, payload: Fields, path: seq<string>) {
    At(filter, path).Some? ==>
      && At(payload, path).Some?
      && (var expected, actual := At(filter, path).value, At(payload, path).value;
          match expected
          case Object(_) => actual.Object?
          case List(items) => actual.List? && forall i :: i in items ==> i in actual.items
          case Scalar(_) => actual == expected)
  }

  lemma {:induction false} MatchAgrees(filter: Fields, payload: Fields, path: seq<string>)
    requires Matches(filter, payload)
    ensures AgreesAt(filter, payload, path)
    decreases |path|
  {
    if path != [] && Lookup(filter, path[0]).Some? {
      MatchesAt(filter, payload, path[0]);
      var expected := Lookup(filter, path[0]).value;
      if |path| > 1 && expected.Object? {
        MatchAgrees(expected.fields, Lookup(payload, path[0]).value.fields, path[1..]);
      }
    }
  }

  lemma {:induction false} AgreementMatches(filter: Fields, part: Fields, payload: Fields)
    requires WellFormedFields(part) && Within(part, filter)
    requires forall path :: AgreesAt(filter, payload, path)
    ensures Matches(part, payload)
    decreases part
  {
    if part.Field? {
      var key := part.key;
      assert At(filter, [key]) == Some(part.value) && AgreesAt(filter, payload, [key]);
      if part.value.Object? {
        var inner, actual := part.value.fields, Lookup(payload, key).value.fields;
        forall path ensures AgreesAt(inner, actual, path) {
          if path != [] {
            assert ([key] + path)[1..] == path;
            assert AgreesAt(filter, payload, [key] + path);
          }
        }
        WithinItself(inner);
        AgreementMatches(inner, inner, actual);
      }
      AgreementMatches(filter, part.rest, payload);
    }
  }

  /** A filter matches exactly if at every path it has, the payload has what it asks for. */
  lemma MatchesByPath(filter: Fields, payload: Fields)
    requires WellFormedFields(filter)
    ensures Matches(filter, payload) <==> forall path :: AgreesAt(filter, payload, path)
  {
    if Matches(filter, payload) {
      forall path ensures AgreesAt(filter, payload, path) { MatchAgrees(filter, payload, path); }
    } else if forall path :: AgreesAt(filter, payload, path) {
      WithinItself(filter);
      AgreementMatches(filter, filter, payload);
    }
  }

  // What matching says of one key.
  lemma {:induction false} MatchesAt(filter: Fields, payload: Fields, key: string)
    requires Matches(filter, payload) && Lookup(filter, key).Some?
    ensures Lookup(payload, key).Some? && MatchesValue(Lookup(filter, key).value, Lookup(payload, key).value)
  {
    if filter.key != key { MatchesAt(filter.rest, payload, key); }
  }

  lemma {:induction false} MatchesIsTransitive(a: Fields, b: Fields, c: Fields)
    requires Matches(a, b) && Matches(b, c)
    ensures Matches(a, c)
    decreases a
  {
    if a.Field? {
      MatchesAt(b, c, a.key);
      ValueIsTransitive(a.value, Lookup(b, a.key).value, Lookup(c, a.key).value);
      MatchesIsTransitive(a.rest, b, c);
    }
  }

  lemma {:induction false} ValueIsTransitive(a: Json, b: Json, c: Json)
    requires MatchesValue(a, b) && MatchesValue(b, c)
    ensures MatchesValue(a, c)
    decreases a
  {
    if a.Object? { MatchesIsTransitive(a.fields, b.fields, c.fields); }
  }

  // Every field of part is a field of whole.
  ghost predicate Within(part: Fields, whole: Fields) {
    part.Field? ==> Lookup(whole, part.key) == Some(part.value) && Within(part.rest, whole)
  }

  lemma {:induction false} WithinGrows(part: Fields, key: string, value: Json, whole: Fields)
    requires Within(part, whole) && Lookup(part, key).None?
    ensures Within(part, Field(key, value, whole))
  {
    if part.Field? { WithinGrows(part.rest, key, value, whole); }
  }

  lemma {:induction false} WithinItself(fs: Fields)
    requires WellFormedFields(fs)
    ensures Within(fs, fs)
  {
    if fs.Field? {
      WithinItself(fs.rest);
      WithinGrows(fs.rest, fs.key, fs.value, fs.rest);
    }
  }

  lemma {:induction false} PartMatches(part: Fields, whole: Fields)
    requires Within(part, whole) && WellFormedFields(part)
    ensures Matches(part, whole)
    decreases part
  {
    if part.Field? {
      ValueMatchesItself(part.value);
      PartMatches(part.rest, whole);
    }
  }

  lemma {:induction false} ValueMatchesItself(j: Json)
    requires WellFormed(j)
    ensures MatchesValue(j, j)
    decreases j
  {
    if j.Object? {
      WithinItself(j.fields);
      PartMatches(j.fields, j.fields);
    }
  }

  /** One filter accepts everything another does exactly when it matches the other as a payload. */
  lemma AcceptsMoreExactly(weak: Fields, strong: Fields)
    requires WellFormedFields(strong)
    ensures (forall p: Fields :: Matches(strong, p) ==> Matches(weak, p)) <==> Matches(weak, strong)
  {
    WithinItself(strong);
    PartMatches(strong, strong);
    if Matches(weak, strong) {
      forall p: Fields | Matches(strong, p) ensures Matches(weak, p) { MatchesIsTransitive(weak, strong, p); }
    }
  }

  // ---- Fan-out ------------------------------------------------------------------------------------------

  datatype Event = Event(kind: string, payload: Fields, number: nat)

  // What the optional predicate does with an event; raising counts as no match.
  datatype Verdict = Yes | No | Raises

  datatype Rule = Rule(kinds: set<string>, filter: Option<Fields>, where_: Option<Event -> Verdict>)

  predicate Wants(r: Rule, e: Event) {
    e.kind in r.kinds && (r.filter.Some? ==> Matches(r.filter.value, e.payload))
        && (r.where_.Some? ==> r.where_.value(e) == Yes)
  }

  /** A rule wants an event exactly if the kind is listed, the filter, if any, matches, and the predicate, if any, says
      yes: one that raises is as good as one that says no. */
  lemma WantsExactly(r: Rule, e: Event)
    ensures Wants(r, e) <==>
            && e.kind in r.kinds
            && !(r.filter.Some? && !Matches(r.filter.value, e.payload))
            && !(r.where_.Some? && r.where_.value(e) in {No, Raises})
  {}

  // The events a rule wants, in order.
  function Wanted(r: Rule, events: seq<Event>): seq<Event> {
    if events == [] then []
    else
      var n := |events| - 1;
      Wanted(r, events[..n]) + (if Wants(r, events[n]) then [events[n]] else [])
  }

  lemma WantedNext(r: Rule, events: seq<Event>, e: Event)
    ensures Wanted(r, events + [e]) == if Wants(r, e) then Wanted(r, events) + [e] else Wanted(r, events)
  {
    assert (events + [e])[..|events|] == events;
  }

  class Subscription {
    const rule: Rule
    const size: nat
    ghost const since: nat           // how many events had been published before it subscribed
    var queue: seq<Event>
    var dropCount: nat
    ghost var wanted: seq<Event>     // every published event it matched
    ghost var taken: seq<Event>      // what its consumer got

    // Matching publishes are dequeued, queued or counted as dropped; what was kept is in order.
    ghost predicate Valid()
      reads this
    {
      && |queue| <= size
      && |wanted| == |taken| + |queue| + dropCount
      && IsSubsequence(taken + queue, wanted)
    }

    constructor (rule: Rule, size: nat, ghost since: nat)
      requires size >= 1
      ensures Valid() && this.rule == rule && this.size == size && this.since == since
      ensures queue == [] && dropCount == 0 && wanted == [] && taken == []
    {
      this.rule, this.size, this.since, queue, dropCount, wanted, taken := rule, size, since, [], 0, [], [];
    }

    // `put_nowait`, or the count of drops.
    method Offer(e: Event)
      requires Valid()
      modifies this
      ensures Valid() && wanted == old(wanted) + [e] && taken == old(taken)
      ensures if |old(queue)| < size then queue == old(queue) + [e] && dropCount == old(dropCount)
              else queue == old(queue) && dropCount == old(dropCount) + 1
    {
      if |queue| < size {
        SubsequenceTakes(taken + queue, wanted, e);
        assert taken + (queue + [e]) == (taken + queue) + [e];
        queue := queue + [e];
      } else {
        SubsequenceSkips(taken + queue, wanted, e);
        dropCount := dropCount + 1;
      }
      wanted := wanted + [e];
    }

    // The consumer's `get_nowait`.
    method Take() returns (e: Option<Event>)
      requires Valid()
      modifies this
      ensures Valid() && wanted == old(wanted) && dropCount == old(dropCount)
      ensures if old(queue) == [] then e.None? && taken == old(taken) && queue == []
              else e == Some(old(queue)[0]) && taken == old(taken) + [old(queue)[0]] && queue == old(queue)[1..]
    {
      if queue == [] { return None; }
      e := Some(queue[0]);
      assert (taken + [queue[0]]) + queue[1..] == taken + queue;
      taken := taken + [queue[0]];
      queue := queue[1..];
    }
  }

  class Bus {
    var subscriptions: seq<Subscription>
    ghost var history: seq<Event>    // every event ever published

    ghost predicate Apart()
      reads this, subscriptions
    {
      && (forall i, j :: 0 <= i < j < |subscriptions| ==> subscriptions[i] != subscriptions[j])
      && (forall s :: s in subscriptions ==> s.Valid())
    }

    // What a subscription matched is what its rule wants of the events since it subscribed.
    ghost predicate UpToDate(s: Subscription)
      reads this, s
    {
      s.since <= |history| && s.wanted == Wanted(s.rule, history[s.since..])
    }

    ghost predicate Valid()
      reads this, subscriptions
    {
      Apart() && forall s :: s in subscriptions ==> UpToDate(s)
    }

    constructor ()
      ensures Valid() && subscriptions == [] && history == []
    {
      subscriptions, history := [], [];
    }

    // None: an unbounded queue is refused.
    method Subscribe(rule: Rule, size: nat) returns (sub: Option<Subscription>)
      requires Valid()
      modifies this`subscriptions
      ensures Valid() && (sub.Some? <==> size >= 1)
      ensures sub.None? ==> subscriptions == old(subscriptions)
      ensures sub.Some? ==> fresh(sub.value) && subscriptions == old(subscriptions) + [sub.value]
      ensures sub.Some? ==> sub.value.rule == rule && sub.value.size == size && sub.value.since == |history|
      ensures sub.Some? ==> sub.value.queue == [] && sub.value.wanted == []
    {
      if size < 1 { return None; }
      var s := new Subscription(rule, size, |history|);
      assert history[|history|..] == [];
      subscriptions := subscriptions + [s];
      sub := Some(s);
    }

    /** `publish`: each matching subscription gets the event or counts a drop, whatever its siblings do. */
    method Publish(e: Event)
      requires Valid()
      modifies this`history, subscriptions
      ensures Valid() && history == old(history) + [e]
      ensures forall s :: s in subscriptions && !Wants(s.rule, e) ==> unchanged(s)
      ensures forall s :: s in subscriptions && Wants(s.rule, e) ==> Offered(s, e)
    {
      FanOut(e);
      history := history + [e];
      forall s | s in subscriptions ensures UpToDate(s) {
        assert old(UpToDate(s));
        assert history[s.since..] == old(history)[s.since..] + [e];
        WantedNext(s.rule, old(history)[s.since..], e);
      }
    }

    method FanOut(e: Event)
      requires Apart()
      modifies subscriptions
      ensures Apart()
      ensures forall s :: s in subscriptions && !Wants(s.rule, e) ==> unchanged(s)
      ensures forall s :: s in subscriptions && Wants(s.rule, e) ==> Offered(s, e)
    {
      for i := 0 to |subscriptions|
        invariant Apart()
        invariant forall j :: 0 <= j < i && !Wants(subscriptions[j].rule, e) ==> unchanged(subscriptions[j])
        invariant forall j :: 0 <= j < i && Wants(subscriptions[j].rule, e) ==> Offered(subscriptions[j], e)
        invariant forall j :: i <= j < |subscriptions| ==> unchanged(subscriptions[j])
      {
        if Wants(subscriptions[i].rule, e) { subscriptions[i].Offer(e); }
      }
    }

    // A consumer's turn disturbs no one else, nor what was matched.
    method Consume(s: Subscription) returns (e: Option<Event>)
      requires Valid() && s in subscriptions
      modifies s
      ensures Valid() && s.taken == old(s.taken) + (if e.Some? then [e.value] else [])
    {
      e := s.Take();
    }

    /** Over any run: what a subscription's consumer got and what still waits is, in order, part of what its rule
        wants of the events since it subscribed, and the rest is exactly its drop count. */
    lemma NothingIsUnaccounted(s: Subscription)
      requires Valid() && s in subscriptions
      ensures s.since <= |history| && IsSubsequence(s.taken + s.queue, Wanted(s.rule, history[s.since..]))
      ensures |Wanted(s.rule, history[s.since..])| == |s.taken| + |s.queue| + s.dropCount
    {
      assert s.Valid() && UpToDate(s);
    }
  }

  twostate predicate Offered(s: Subscription, e: Event)
    reads s
  {
    && s.wanted == old(s.wanted) + [e] && s.taken == old(s.taken)
    && if |old(s.queue)| < s.size then s.queue == old(s.queue) + [e] && s.dropCount == old(s.dropCount)
       else s.queue == old(s.queue) && s.dropCount == old(s.dropCount) + 1
  }
}
