/**
 The pull request of a hand delivery (`adoptable`, `open_or_adopt` and `_created_despite_the_error`
 in `_deliver_repo.py`): adopt this branch's own open pull request or open one, never a second,
 although a create may be applied and report failure, at once or later, and other actors act at any moment.
 */
module PullRequests {
  import opened Options

  // An open pull request as `gh` reports it; an unreported head or base is empty, an unreported origin reads as a fork.
  datatype Candidate = Candidate(url: nat, fork: bool, head: string, base: string)

  predicate IsOurs(c: Candidate, heads: set<string>, base: string) {
    !c.fork && c.head in heads && c.base == base
  }

  // The first candidate that is ours.
  method Adoptable(candidates: seq<Candidate>, heads: set<string>, base: string) returns (found: Option<Candidate>)
    ensures found.Some? ==> found.value in candidates
    ensures found.Some? ==>
              exists i :: 0 <= i < |candidates| && candidates[i] == found.value && IsOurs(found.value, heads, base) &&
                          forall j :: 0 <= j < i ==> !IsOurs(candidates[j], heads, base)
    ensures found.None? ==> forall c :: c in candidates ==> !IsOurs(c, heads, base)
  {
    for i := 0 to |candidates|
      invariant forall j :: 0 <= j < i ==> !IsOurs(candidates[j], heads, base)
    {
      if IsOurs(candidates[i], heads, base) { return Some(candidates[i]); }
    }
    found := None;
  }

  // The widest match that is still about this delivery: the head may have moved since the create.
  predicate IsMoved(c: Candidate, base: string) { !c.fork && c.base == base && c.head != "" }

  method FirstMoved(candidates: seq<Candidate>, base: string) returns (found: Option<Candidate>)
    ensures found.Some? ==> found.value in candidates && IsMoved(found.value, base)
    ensures found.None? ==> forall c :: c in candidates ==> !IsMoved(c, base)
  {
    for i := 0 to |candidates|
      invariant forall j :: 0 <= j < i ==> !IsMoved(candidates[j], base)
    {
      if IsMoved(candidates[i], base) { return Some(candidates[i]); }
    }
    found := None;
  }

  // ---- GitHub, as seen through one branch name -----------------------------------------------------

  datatype Pr = Pr(fork: bool, base: string, open: bool)

  // None vanishes or reopens.
  predicate Moves(before: map<nat, Pr>, after: map<nat, Pr>) {
    before.Keys <= after.Keys && forall u :: u in before ==> MovesTo(before[u], after[u])
  }

  predicate MovesTo(a: Pr, b: Pr) { b.fork == a.fork && (b.open ==> a.open) }

  predicate Reports(c: Candidate, prs: map<nat, Pr>) {
    && c.url in prs && prs[c.url].open
    && (!c.fork ==> !prs[c.url].fork) && (c.base != "" ==> c.base == prs[c.url].base)
  }

  // Every open pull request is listed with all its fields.
  predicate Full(listing: seq<Candidate>, prs: map<nat, Pr>) {
    forall u :: u in prs && prs[u].open ==> Listed(listing, u, prs[u])
  }

  predicate Listed(listing: seq<Candidate>, u: nat, pr: Pr) {
    exists c :: c in listing && c.url == u && c.fork == pr.fork && c.base == pr.base && c.head != ""
  }

  // What may happen between two calls: others act, and a create still in flight is applied.
  ghost predicate MayBecome(prs: map<nat, Pr>, mine: set<nat>, flying: bool,
                            prs': map<nat, Pr>, mine': set<nat>, flying': bool) {
    && Moves(prs, prs')
    && ((mine' == mine && flying' == flying) ||
        (flying && !flying' && exists u :: u !in prs && u in prs' && mine' == {u}))
  }

  class GitHub {
    var prs: map<nat, Pr>
    ghost var mine: set<nat>       // by this delivery
    var flying: bool               // its create failed, and may be applied yet
    ghost var disturbed: bool        // one of those was closed or retargeted by someone else
    ghost var faults: nat            // calls that failed

    ghost predicate Valid(base: string)
      reads this
    {
      && mine <= prs.Keys && (flying ==> mine == {})
      && (!disturbed ==> forall u :: u in mine ==> prs[u] == Pr(false, base, true))
    }

    // The named premise of a lasting refusal: no create of this delivery is applied from here on.
    ghost predicate Settled()
      reads this
    {
      !flying
    }

    method Others(base: string)
      requires Valid(base)
      modifies this`prs, this`mine, this`flying, this`disturbed
      ensures Valid(base) && (old(disturbed) ==> disturbed)
      ensures MayBecome(old(prs), old(mine), old(flying), prs, mine, flying)
    {
      var u: nat := *;
      var lands: bool := *;
      if flying && lands && u !in prs {
        prs, mine, flying := prs[u := Pr(false, base, true)], {u}, false;
      }
      var next: map<nat, Pr> := *;
      if Moves(prs, next) {
        disturbed := disturbed || exists u :: u in mine && next[u] != prs[u];
        prs := next;
      }
    }

    // `full` is whether the answer was complete; an unreported field or a skipped row makes it less.
    method ListOpen(base: string) returns (listing: Option<seq<Candidate>>, ghost full: bool)
      requires Valid(base)
      modifies this
      ensures Valid(base) && (old(disturbed) ==> disturbed)
      ensures MayBecome(old(prs), old(mine), old(flying), prs, mine, flying)
      ensures faults == old(faults) + if listing.Some? then 0 else 1
      ensures listing.Some? ==> forall c :: c in listing.value ==> Reports(c, prs)
      ensures full ==> listing.Some? && Full(listing.value, prs)
    {
      Others(base);
      var answer: seq<Candidate> := *;
      var answers: bool := *;
      full := false;
      if answers && forall c :: c in answer ==> Reports(c, prs) {
        listing := Some(answer);
        full := Full(answer, prs);
      } else {
        listing := None;
        faults := faults + 1;
      }
    }

    // `gh pr create`: the url when the response arrives; the pull request may exist all the same, or later.
    method Create(base: string) returns (url: Option<nat>)
      requires Valid(base) && mine == {} && !flying
      modifies this
      ensures Valid(base) && Moves(old(prs), prs) && (old(disturbed) ==> disturbed)
      ensures url.Some? ==> mine == {url.value} && !flying
      ensures faults == old(faults) + if url.Some? then 0 else 1
      ensures mine == {} || exists u :: mine == {u} && u !in old(prs)
    {
      Others(base);
      url := None;
      var u: nat := *;
      var commits: bool := *;
      if commits && u !in prs {
        prs := prs[u := Pr(false, base, true)];
        mine := {u};
        if * { url := Some(u); }
      } else {
        flying := *;
      }
      if url.None? { faults := faults + 1; }
      Others(base);
    }
  }

  // ---- Asking again after a failed create ------------------------------------------------------------

  predicate Reported(listing: seq<Candidate>, prs: map<nat, Pr>) {
    forall c :: c in listing ==> Reports(c, prs)
  }

  // Neither rule finds anything.
  predicate FindsNone(listing: seq<Candidate>, head: string, base: string) {
    forall c :: c in listing ==> !IsOurs(c, {head}, base) && !IsMoved(c, base)
  }

  predicate IsOpenHere(prs: map<nat, Pr>, u: nat, base: string) { u in prs && prs[u] == Pr(false, base, true) }

  // A listing in which nothing is found means that none is open here, for listings of this quality.
  ghost predicate NoneFoundMeansNone(full: bool) {
    forall listing, prs, head, base, u: nat ::
      Reported(listing, prs) && (full ==> Full(listing, prs)) && FindsNone(listing, head, base) ==>
        !IsOpenHere(prs, u, base)
  }

  /** What is overlooked is left out, or its row lacks its origin, its base or its head. */
  lemma OverlookedRowsAreIncomplete(listing: seq<Candidate>, prs: map<nat, Pr>, head: string, base: string, u: nat)
    requires Reported(listing, prs) && FindsNone(listing, head, base) && IsOpenHere(prs, u, base)
    ensures forall c :: c in listing && c.url == u ==> c.fork || c.base == "" || c.head == ""
    ensures !Full(listing, prs)
  {
    forall c | c in listing && c.url == u
      ensures c.fork || c.base == "" || c.head == ""
    {
      assert Reports(c, prs) && !IsMoved(c, base);
    }
    assert !Listed(listing, u, prs[u]);
  }

  // A row that does not report `isCrossRepository` reads as a fork's.
  function StrippedRow(head: string, base: string): seq<Candidate> { [Candidate(7, true, head, base)] }

  lemma AStrippedRowIsOverlooked(head: string, base: string)
    ensures var prs := map[7 := Pr(false, base, true)];
            && Reported(StrippedRow(head, base), prs) && FindsNone(StrippedRow(head, base), head, base)
            && IsOpenHere(prs, 7, base)
  {
    var prs: map<nat, Pr> := map[7 := Pr(false, base, true)];
    assert 7 in prs && StrippedRow(head, base)[0].fork;
  }

  /** A complete listing is exactly what "none was opened" takes. */
  lemma NoneFoundMeansNoneExactly(full: bool)
    ensures NoneFoundMeansNone(full) <==> full
  {
    if full {
      forall listing, prs, head, base, u: nat |
        Reported(listing, prs) && Full(listing, prs) && FindsNone(listing, head, base)
        ensures !IsOpenHere(prs, u, base)
      {
        if IsOpenHere(prs, u, base) { OverlookedRowsAreIncomplete(listing, prs, head, base, u); }
      }
    } else {
      AStrippedRowIsOverlooked("h", "main");
      var prs: map<nat, Pr> := map[7 := Pr(false, "main", true)];
      assert Reported(StrippedRow("h", "main"), prs) && FindsNone(StrippedRow("h", "main"), "h", "main");
    }
  }

  // Nothing that may still happen opens one.
  ghost predicate StaysUnopened(flying: bool) {
    forall prs, prs', mine', flying' :: MayBecome(prs, {}, flying, prs', mine', flying') ==> mine' == {}
  }

  /** And that none was opened stays so exactly if no create is in flight. */
  lemma StaysUnopenedExactly(flying: bool)
    ensures StaysUnopened(flying) <==> !flying
  {
    if flying {
      var late: map<nat, Pr> := map[7 := Pr(false, "main", true)];
      var none: map<nat, Pr> := map[];
      assert 7 !in none && 7 in late;
      assert MayBecome(none, {}, true, late, {7}, false);
    }
  }

  // Refused and Unreadable both tell the operator that none was opened.
  datatype Answer = Url(url: nat, adopted: bool) | Refused | Unreadable | Uncertain

  /** `open_or_adopt` after the base was resolved. `first` is what the first listing said. */
  method OpenOrAdopt(gh: GitHub, head: string, base: string)
    returns (answer: Answer, ghost first: Option<seq<Candidate>>, ghost seen: map<nat, Pr>, ghost full: bool)
    requires gh.Valid(base) && gh.mine == {} && gh.Settled()
    modifies gh
    ensures Moves(old(gh.prs), seen) && Moves(seen, gh.prs)
    // one is opened only when none was reported for this branch name
    ensures gh.mine != {} ==> first == Some([])
    ensures forall u :: u in gh.mine ==> u !in seen && gh.mine == {u}
    ensures answer.Url? && !answer.adopted ==> gh.mine == {answer.url}
    // an adopted one was listed first as of this repository, at our head and onto our base, and it was
    ensures answer.Url? && answer.adopted && first != Some([]) ==>
            first.Some? && Candidate(answer.url, false, head, base) in first.value
            && answer.url in seen && seen[answer.url].open && !seen[answer.url].fork
            && (base != "" ==> seen[answer.url].base == base)
    // or it was opened since, in this repository and onto our base
    ensures answer.Url? && answer.adopted && first == Some([]) ==>
            answer.url in gh.prs && !gh.prs[answer.url].fork && (base != "" ==> gh.prs[answer.url].base == base)
            && (full ==> answer.url !in seen)
    // a refusal is honest, and stays so unless a create is still in flight
    ensures answer.Refused? || answer.Unreadable? ==> gh.mine == {} || gh.disturbed || !full
    ensures answer.Unreadable? || first != Some([]) || gh.faults == old(gh.faults) ==> gh.Settled()
    ensures answer.Refused? ==> first.Some? && forall u: nat :: Candidate(u, false, head, base) !in first.value
    ensures answer.Unreadable? ==> first.None?
    // uncertainty is owned up to only when two calls in a row failed
    ensures answer.Uncertain? <==> first == Some([]) && gh.faults == old(gh.faults) + 2
    // ours is adopted when it is there; when no call fails, one is opened if the branch has none
    ensures first.Some? && (exists u: nat :: Candidate(u, false, head, base) in first.value) ==>
            answer.Url? && answer.adopted
    ensures gh.faults == old(gh.faults) && first == Some([]) ==> answer.Url? && !answer.adopted
    ensures gh.faults == old(gh.faults) ==> first.Some?
  {
    var listing, complete := gh.ListOpen(base);
    first, seen, full := listing, gh.prs, complete;
    if listing.None? { return Unreadable, first, seen, full; }
    var existing := Adoptable(listing.value, {head}, base);
    if existing.Some? {
      return Url(existing.value.url, true), first, seen, full;
    }
    if listing.value != [] { return Refused, first, seen, full; }
    var created := gh.Create(base);
    if created.Some? { return Url(created.value, false), first, seen, full; }
    var recovered, asked, again, relisted := CreatedDespiteTheError(gh, head, base);
    full := full && again;
    if recovered.Some? {
      answer := Url(recovered.value, true);
    } else if !asked {
      answer := Uncertain;
    } else {
      answer := Refused;
    }
  }

  /** `_created_despite_the_error`: the pull request a failed create opened anyway. */
  method CreatedDespiteTheError(gh: GitHub, head: string, base: string)
    returns (url: Option<nat>, asked: bool, ghost full: bool, ghost listing: Option<seq<Candidate>>)
    requires gh.Valid(base)
    modifies gh
    ensures gh.faults == old(gh.faults) + if asked then 0 else 1
    ensures gh.Valid(base) && Moves(old(gh.prs), gh.prs) && (old(gh.disturbed) ==> gh.disturbed)
    ensures url.Some? ==> url.value in gh.prs && gh.prs[url.value].open && !gh.prs[url.value].fork
                          && (base != "" ==> gh.prs[url.value].base == base)
    // one at our head if there is one, else one onto our base whose head moved, else none
    ensures asked <==> listing.Some?
    ensures asked && (exists u: nat :: Candidate(u, false, head, base) in listing.value) ==>
              url.Some? && Candidate(url.value, false, head, base) in listing.value
    ensures url.Some? ==>
              asked && exists h :: (h != "" || h == head) && Candidate(url.value, false, h, base) in listing.value
    ensures asked && head != "" && url.None? ==>
              forall u: nat, h :: h != "" ==> Candidate(u, false, h, base) !in listing.value
    ensures MayBecome(old(gh.prs), old(gh.mine), old(gh.flying), gh.prs, gh.mine, gh.flying)
    ensures url.None? && asked && full ==> gh.mine == {} || gh.disturbed
    ensures full ==> asked
  {
    var answer;
    answer, full := gh.ListOpen(base);
    listing := answer;
    if answer.None? { return None, false, false, listing; }
    asked := true;
    var found := Adoptable(answer.value, {head}, base);
    if found.Some? { return Some(found.value.url), true, full, listing; }
    var moved := FirstMoved(answer.value, base);
    if moved.Some? { return Some(moved.value.url), true, full, listing; }
    url := None;
  }
}
