/**
 What is done with each row of review activity on a pull request (`github_review_streams.py`): rows
 proven handled by a trusted author's landed-fix reply are suppressed, approvals are set apart,
 the rest is acted on.
 */
module ReviewDispositions {
  import opened Options
  import opened Sequences
  import opened Text

  datatype Stream = Review | Inline | Conversation

  type Key = (Stream, nat)

  datatype Row = Row(
    stream: Stream, id: nat, author: string, body: string, state: string, owner: Option<nat>, replyTo: Option<nat>)
  {
    function Key(): Key { (stream, id) }
    predicate IsReply() { replyTo.Some? }
    // An inline root, of the summary review that owns it.
    predicate IsRootOf(review: nat) { owner == Some(review) && !IsReply() }
  }

  // How bodies read: as approval, as one of loom's own replies or comments, as "Fixed in <sha>".
  datatype Reading = Reading(approval: string -> bool, automated: string -> bool, loom: string -> bool,
      landedFix: string -> bool)

  const BLOCKING := "CHANGES_REQUESTED"
  const DISMISSED := "DISMISSED"
  const APPROVED := "APPROVED"

  // The suppression scopes of a batch.
  datatype Scopes = Scopes(handled: set<Key>, handledReviews: set<nat>, owning: set<nat>)

  predicate IsActionable(v: Reading, a: Row, s: Scopes) {
    match a.stream
    case Review => a.state == BLOCKING || (a.state != DISMISSED && !IsBlank(a.body) && a.id !in s.handledReviews)
    case Inline => !a.IsReply() && a.Key() !in s.handled && !v.automated(a.body)
    case Conversation => a.Key() !in s.handled && !IsBlank(a.body) && !v.loom(a.body)
  }

  predicate IsApproval(v: Reading, a: Row, s: Scopes) {
    match a.stream
    case Review =>
      && a.state != DISMISSED && a.state != BLOCKING
      && if IsBlank(a.body) then a.state == APPROVED && a.id !in s.owning else v.approval(a.body)
    case _ => IsActionable(v, a, s) && v.approval(a.body)
  }

  datatype Disposition = Act | Report | Ignore

  function DispositionOf(v: Reading, a: Row, s: Scopes): Disposition {
    if IsApproval(v, a, s) then Report else if IsActionable(v, a, s) then Act else Ignore
  }

  function Rows(v: Reading, rows: seq<Row>, s: Scopes, d: Disposition): seq<Row> {
    if rows == [] then []
    else
      var n := |rows| - 1;
      Rows(v, rows[..n], s, d) + (if DispositionOf(v, rows[n], s) == d then [rows[n]] else [])
  }

  /** What becomes of a row, stream by stream. A review that requests changes is always acted on, and a dismissed one
      never; a wordless one is an approval exactly if it approves and owns no comment. Replies, what loom wrote, and
      what is handled are dropped. Of the rest, approval is reported, and all else acted on. */
  lemma WhatBecomesOfARow(v: Reading, a: Row, s: Scopes)
    ensures DispositionOf(v, a, s) ==
            match a.stream
            case Review =>
              (if a.state == "CHANGES_REQUESTED" then Act
               else if a.state == "DISMISSED" then Ignore
               else if IsBlank(a.body) then (if a.state == "APPROVED" && a.id !in s.owning then Report else Ignore)
               else if v.approval(a.body) then Report
               else if a.id in s.handledReviews then Ignore
               else Act)
            case Inline =>
              (if a.replyTo.Some? || (Inline, a.id) in s.handled || v.automated(a.body) then Ignore
               else if v.approval(a.body) then Report
               else Act)
            case Conversation =>
              (if (Conversation, a.id) in s.handled || IsBlank(a.body) || v.loom(a.body) then Ignore
               else if v.approval(a.body) then Report
               else Act)
  {}

  // ---- The scopes -----------------------------------------------------------------------------------

  function Owning(rows: seq<Row>): set<nat> { set a | a in rows && a.owner.Some? && !a.IsReply() :: a.owner.value }

  // Every root the review owns is handled.
  predicate AllHandled(rows: seq<Row>, review: nat, handled: set<Key>) {
    forall a :: a in rows && a.IsRootOf(review) ==> a.Key() in handled
  }

  function HandledReviews(rows: seq<Row>, handled: set<Key>): set<nat> {
    set r | r in Owning(rows) && AllHandled(rows, r, handled)
  }

  function ScopesOf(rows: seq<Row>, handled: set<Key>): Scopes {
    Scopes(handled, HandledReviews(rows, handled), Owning(rows))
  }

  // The roots of each review among the first n rows.
  ghost predicate Collected(rows: seq<Row>, n: nat, roots: map<nat, seq<Key>>)
    requires n <= |rows|
  {
    && (forall i :: 0 <= i < n && rows[i].owner.Some? && !rows[i].IsReply() ==>
          rows[i].owner.value in roots && rows[i].Key() in roots[rows[i].owner.value])
    && (forall r, k :: r in roots && k in roots[r] ==>
          exists i :: 0 <= i < n && rows[i].IsRootOf(r) && rows[i].Key() == k)
    && (forall r :: r in roots ==> roots[r] != [])
  }

  /** `handled_review_ids`. */
  method HandledReviewIds(rows: seq<Row>, handled: set<Key>) returns (reviews: set<nat>)
    ensures reviews == HandledReviews(rows, handled)
    ensures forall r :: r in reviews <==>
              && (exists a :: a in rows && a.owner == Some(r) && a.replyTo.None?)
              && (forall a :: a in rows && a.owner == Some(r) && a.replyTo.None? ==> (a.stream, a.id) in handled)
  {
    var roots: map<nat, seq<Key>> := map[];
    for i := 0 to |rows|
      invariant Collected(rows, i, roots)
    {
      if rows[i].owner.Some? && !rows[i].IsReply() {
        var r := rows[i].owner.value;
        roots := roots[r := (if r in roots then roots[r] else []) + [rows[i].Key()]];
      }
    }
    reviews := set r | r in roots && roots[r] != [] && forall k :: k in roots[r] ==> k in handled;
    CollectedIsHandled(rows, handled, roots);
    HandledReviewsExactly(rows, handled);
  }

  lemma HandledReviewsExactly(rows: seq<Row>, handled: set<Key>)
    ensures forall r :: r in HandledReviews(rows, handled) <==>
              && (exists a :: a in rows && a.owner == Some(r) && a.replyTo.None?)
              && (forall a :: a in rows && a.owner == Some(r) && a.replyTo.None? ==> (a.stream, a.id) in handled)
  {
    forall r: nat
      ensures AllHandled(rows, r, handled) <==>
              forall a :: a in rows && a.owner == Some(r) && a.replyTo.None? ==> (a.stream, a.id) in handled
    {
      assert forall a: Row :: a.IsRootOf(r) <==> a.owner == Some(r) && a.replyTo.None?;
    }
  }

  lemma CollectedIsHandled(rows: seq<Row>, handled: set<Key>, roots: map<nat, seq<Key>>)
    requires Collected(rows, |rows|, roots)
    ensures HandledReviews(rows, handled) ==
            set r | r in roots && roots[r] != [] && forall k :: k in roots[r] ==> k in handled
  {
    forall r: nat ensures r in roots <==> r in Owning(rows) {
      if r in roots {
        var k := roots[r][0];
        assert k in roots[r];
        var i :| 0 <= i < |rows| && rows[i].IsRootOf(r) && rows[i].Key() == k;
        assert rows[i] in rows;
      }
    }
    forall r: nat | r in roots ensures (forall k :: k in roots[r] ==> k in handled) <==> AllHandled(rows, r, handled) {
      if AllHandled(rows, r, handled) {
        forall k | k in roots[r] ensures k in handled {
          var i :| 0 <= i < |rows| && rows[i].IsRootOf(r) && rows[i].Key() == k;
          assert rows[i] in rows;
        }
      }
    }
  }

  /** `dispositions`: the rows to act on and the approvals, in input order. */
  method Dispositions(v: Reading, candidates: seq<Row>, handled: set<Key>, context: seq<Row>)
    returns (act: seq<Row>, approvals: seq<Row>)
    ensures act == Rows(v, candidates, ScopesOf(context, handled), Act)
    ensures approvals == Rows(v, candidates, ScopesOf(context, handled), Report)
  {
    var reviews := HandledReviewIds(context, handled);
    var s := Scopes(handled, reviews, Owning(context));
    act, approvals := [], [];
    for i := 0 to |candidates|
      invariant act == Rows(v, candidates[..i], s, Act)
      invariant approvals == Rows(v, candidates[..i], s, Report)
    {
      var a := candidates[i];
      assert candidates[..i + 1] == candidates[..i] + [a];
      RowsSnoc(v, candidates[..i], a, s, Act);
      RowsSnoc(v, candidates[..i], a, s, Report);
      if IsApproval(v, a, s) {
        approvals := approvals + [a];
      } else if IsActionable(v, a, s) {
        act := act + [a];
      }
    }
    assert candidates[..|candidates|] == candidates;
  }

  lemma RowsSnoc(v: Reading, rows: seq<Row>, a: Row, s: Scopes, d: Disposition)
    ensures Rows(v, rows + [a], s, d) ==
            if DispositionOf(v, a, s) == d then Rows(v, rows, s, d) + [a] else Rows(v, rows, s, d)
  {
    assert (rows + [a])[..|rows|] == rows;
  }

  // ---- Suppression only removes ------------------------------------------------------------------------

  /** Proving more handled never turns a row into another disposition: it keeps its own or is dropped, and a
      `CHANGES_REQUESTED` review is always acted on. */
  lemma MoreHandledOnlyDrops(v: Reading, a: Row, context: seq<Row>, handled: set<Key>, more: set<Key>)
    requires handled <= more
    ensures var d, e := DispositionOf(v, a, ScopesOf(context, handled)), DispositionOf(v, a, ScopesOf(context, more));
            && (e == d || e == Ignore)
            && (a.stream.Review? && a.state == BLOCKING ==> d == Act && e == Act)
            && (d == Report && a.stream.Review? ==> e == Report)
  {
    assert HandledReviews(context, handled) <= HandledReviews(context, more);
  }

  /** Both lists only lose rows, in order. */
  lemma {:induction false} ListsOnlyShrink(v: Reading, rows: seq<Row>, context: seq<Row>, handled: set<Key>,
                                           more: set<Key>, d: Disposition)
    requires handled <= more && d != Ignore
    ensures IsSubsequence(Rows(v, rows, ScopesOf(context, more), d), Rows(v, rows, ScopesOf(context, handled), d))
    decreases |rows|
  {
    if rows != [] {
      var front, last := rows[..|rows| - 1], rows[|rows| - 1];
      assert rows == front + [last];
      ListsOnlyShrink(v, front, context, handled, more, d);
      RowsSnoc(v, front, last, ScopesOf(context, more), d);
      RowsSnoc(v, front, last, ScopesOf(context, handled), d);
      MoreHandledOnlyDrops(v, last, context, handled, more);
      var small, large := Rows(v, front, ScopesOf(context, more), d), Rows(v, front, ScopesOf(context, handled), d);
      SubsequenceSkips(small, large, last);
      SubsequenceTakes(small, large, last);
    }
  }

  // `actionable`: approvals are not filtered out of it.
  function Actionable(v: Reading, rows: seq<Row>, s: Scopes): seq<Row> {
    if rows == [] then []
    else
      var n := |rows| - 1;
      Actionable(v, rows[..n], s) + (if IsActionable(v, rows[n], s) then [rows[n]] else [])
  }

  function WithoutApprovals(v: Reading, rows: seq<Row>, s: Scopes): seq<Row> {
    if rows == [] then []
    else
      var n := |rows| - 1;
      WithoutApprovals(v, rows[..n], s) + (if IsApproval(v, rows[n], s) then [] else [rows[n]])
  }

  /** The sweep's list is the intake's list without the approvals, in order. */
  lemma {:induction false} SweepIsIntakeWithoutApprovals(v: Reading, rows: seq<Row>, s: Scopes)
    ensures Rows(v, rows, s, Act) == WithoutApprovals(v, Actionable(v, rows, s), s)
  {
    if rows != [] {
      var front, last := rows[..|rows| - 1], rows[|rows| - 1];
      SweepIsIntakeWithoutApprovals(v, front, s);
      if IsActionable(v, last, s) {
        var before := Actionable(v, front, s);
        assert (before + [last])[..|before|] == before;
      } else {
        assert Actionable(v, rows, s) == Actionable(v, front, s);
      }
    }
  }

  // ---- Trust ---------------------------------------------------------------------------------------------

  // What probing an author's repository permission answers; None is a failed probe.
  datatype Authority = Authority(bots: set<string>, permission: string -> Option<string>)

  function PermissionOf(t: Authority, author: string): string {
    var p := t.permission(author);
    if p.Some? then p.value else "none"
  }

  predicate IsTrusted(t: Authority, author: string) {
    author in t.bots || PermissionOf(t, author) in {"admin", "write"}
  }

  /** Trusted are the listed bots and those whose probe answered write or admin; a failed probe trusts no one. */
  lemma TrustedExactly(t: Authority, author: string)
    ensures IsTrusted(t, author) <==>
            author in t.bots || t.permission(author) == Some("admin") || t.permission(author) == Some("write")
  {
    assert "none"[0] != "admin"[0] && "none"[0] != "write"[0];
  }

  class AuthorTrust {
    const t: Authority
    var cache: map<string, string>
    ghost var probes: seq<string>

    // Each author is probed at most once, and the cache holds what the probe said.
    ghost predicate Valid()
      reads this
    {
      && (forall a :: a in cache ==> cache[a] == PermissionOf(t, a))
      && (forall a :: a in probes ==> a in cache)
      && (forall i, j :: 0 <= i < j < |probes| ==> probes[i] != probes[j])
    }

    constructor (t: Authority)
      ensures Valid() && this.t == t && probes == []
    {
      this.t, cache, probes := t, map[], [];
    }

    method Permission(author: string) returns (p: string)
      requires Valid()
      modifies this
      ensures Valid() && p == PermissionOf(t, author)
      ensures old(author in cache) ==> probes == old(probes)
    {
      if author in cache { return cache[author]; }
      p := PermissionOf(t, author);
      cache := cache[author := p];
      probes := probes + [author];
    }

    // Bots are trusted without a probe.
    method Trusted(author: string) returns (yes: bool)
      requires Valid()
      modifies this
      ensures Valid() && yes == IsTrusted(t, author)
      ensures author in t.bots ==> probes == old(probes)
    {
      if author in t.bots { return true; }
      var p := Permission(author);
      yes := p in {"admin", "write"};
    }

    /** `proven_handled`, over the claims of `landed_fix_claims`. */
    method ProvenHandled(v: Reading, rows: seq<Row>) returns (handled: set<Key>)
      requires Valid()
      modifies this
      ensures Valid() && handled == Proven(v, t, rows)
    {
      handled := {};
      for i := 0 to |rows|
        invariant Valid() && handled == Proven(v, t, rows[..i])
      {
        assert rows[..i + 1] == rows[..i] + [rows[i]];
        ProvenSnoc(v, t, rows[..i], rows[i]);
        if rows[i].IsReply() && v.landedFix(rows[i].body) {
          var yes := Trusted(rows[i].author);
          if yes { handled := handled + {(rows[i].stream, rows[i].replyTo.value)}; }
        }
      }
      assert rows[..|rows|] == rows;
    }
  }

  // A reply that proves its root handled.
  predicate Proves(v: Reading, t: Authority, a: Row) { a.IsReply() && v.landedFix(a.body) && IsTrusted(t, a.author) }

  function Proven(v: Reading, t: Authority, rows: seq<Row>): set<Key> {
    set a | a in rows && Proves(v, t, a) :: (a.stream, if a.IsReply() then a.replyTo.value else 0)
  }

  /** A root is proven handled exactly if a reply to it says so and is by a bot on the list or an author whose probe
      answered write or admin. */
  lemma ProvenExactly(v: Reading, t: Authority, rows: seq<Row>, root: Key)
    ensures root in Proven(v, t, rows) <==>
            exists a :: a in rows && a.stream == root.0 && a.replyTo == Some(root.1) && v.landedFix(a.body) &&
                        (a.author in t.bots || t.permission(a.author) in {Some("admin"), Some("write")})
  {
    if root in Proven(v, t, rows) {
      var a :| a in rows && Proves(v, t, a) && root == (a.stream, a.replyTo.value);
      TrustedExactly(t, a.author);
    }
    if a :| a in rows && a.stream == root.0 && a.replyTo == Some(root.1) && v.landedFix(a.body) &&
            (a.author in t.bots || t.permission(a.author) in {Some("admin"), Some("write")}) {
      TrustedExactly(t, a.author);
      assert Proves(v, t, a);
    }
  }

  lemma ProvenSnoc(v: Reading, t: Authority, rows: seq<Row>, a: Row)
    ensures Proven(v, t, rows + [a]) ==
            Proven(v, t, rows) + if Proves(v, t, a) then {(a.stream, a.replyTo.value)} else {}
  {
    forall k ensures k in Proven(v, t, rows + [a]) <==>
                     k in Proven(v, t, rows) || (Proves(v, t, a) && k == (a.stream, a.replyTo.value))
    {
      if Proves(v, t, a) { assert a in rows + [a]; }
    }
  }

  /** Rows of untrusted authors prove nothing: however many are added or removed, the same roots are proven. */
  lemma UntrustedRowsProveNothing(v: Reading, t: Authority, a: seq<Row>, b: seq<Row>)
    requires forall r: Row :: IsTrusted(t, r.author) ==> (r in a <==> r in b)
    ensures Proven(v, t, a) == Proven(v, t, b)
  {}

  // A reply no one need believe.
  predicate IsIdle(t: Authority, r: Row) { r.IsReply() && !IsTrusted(t, r.author) }

  /** Nor do their replies change anything else: two histories that differ only in untrusted replies prove the same
      roots and give every row the same disposition. */
  lemma UntrustedRepliesChangeNothing(v: Reading, t: Authority, a: seq<Row>, b: seq<Row>, row: Row)
    requires forall r: Row :: !IsIdle(t, r) ==> (r in a <==> r in b)
    ensures Proven(v, t, a) == Proven(v, t, b)
    ensures DispositionOf(v, row, ScopesOf(a, Proven(v, t, a))) == DispositionOf(v, row, ScopesOf(b, Proven(v, t, b)))
  {
    UntrustedRowsProveNothing(v, t, a, b);
    forall n: nat ensures n in Owning(a) <==> n in Owning(b) {
      if r :| r in a && r.IsRootOf(n) { assert !IsIdle(t, r) && r in b; }
      if r :| r in b && r.IsRootOf(n) { assert !IsIdle(t, r) && r in a; }
    }
    assert Owning(a) == Owning(b);
    forall n: nat ensures AllHandled(a, n, Proven(v, t, a)) == AllHandled(b, n, Proven(v, t, b)) {
      assert forall r: Row :: r.IsRootOf(n) ==> (r in a <==> r in b);
    }
    assert HandledReviews(a, Proven(v, t, a)) == HandledReviews(b, Proven(v, t, b));
  }
}
