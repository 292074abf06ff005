/**
 The compare-and-swap loop over a project document's metadata (`_mutate_with_cas` in
 `_github_metadata.py`, over `note_write`): any number of writers mutate one versioned document, the
 server merges per key, and a write may commit although its response is lost, after which it is sent again.
 */
module CasLoop {
  import opened Options

  // A metadata value; the server takes None as a request to delete the key.
  datatype Value = Null | Text(text: string) | Flag(on: bool) | Items(items: seq<Value>)

  type Meta = map<string, Value>

  // What a mutator makes of the metadata it is shown; it may raise.
  datatype Answer = Raised | Wanted(meta: Meta)

  // The mutator of each writer.
  type Mutators = (nat, Meta) -> Answer

  // What a writer is after; one whose mutator raises is after nothing new.
  function Desired(mutate: Mutators, writer: nat, meta: Meta): Meta {
    var answer := mutate(writer, meta);
    if answer.Raised? then meta else answer.meta
  }

  // Every write that ever took effect, latest first.
  datatype Log = Initial(meta: Meta) | Committed(prev: Log, writer: nat, meta: Meta)

  function Version(log: Log): nat { if log.Initial? then 0 else Version(log.prev) + 1 }

  function CommitsBy(log: Log, writer: nat): nat {
    if log.Initial? then 0 else CommitsBy(log.prev, writer) + if log.writer == writer then 1 else 0
  }

  function CommitsByOthers(log: Log, writer: nat): int { Version(log) - CommitsBy(log, writer) }

  predicate Extends(log: Log, base: Log) { log == base || (log.Committed? && Extends(log.prev, base)) }

  // What the server makes of a patch: an empty one clears, None deletes its key, the rest is merged in.
  function Merge(before: Meta, patch: Meta): Meta {
    if patch == map[] then map[]
    else
      map k | k in before.Keys + patch.Keys && (k in patch ==> patch[k] != Null) ::
        if k in patch then patch[k] else before[k]
  }

  ghost predicate Lawful(mutate: Mutators, log: Log) {
    log.Committed? ==>
      && Lawful(mutate, log.prev) && mutate(log.writer, log.prev.meta).Wanted?
      && log.meta == Merge(log.prev.meta, Desired(mutate, log.writer, log.prev.meta))
  }

  // The committed mutators applied one after the other.
  function Composed(mutate: Mutators, log: Log): Meta {
    if log.Initial? then log.meta else Desired(mutate, log.writer, Composed(mutate, log.prev))
  }

  // A patch that says everything: it clears, or it mentions every key and deletes none.
  predicate SaysAll(before: Meta, patch: Meta) {
    patch == map[] || (before.Keys <= patch.Keys && forall k :: k in patch ==> patch[k] != Null)
  }

  ghost predicate AllSayAll(mutate: Mutators, log: Log) {
    log.Committed? ==>
      AllSayAll(mutate, log.prev) && SaysAll(log.prev.meta, Desired(mutate, log.writer, log.prev.meta))
  }

  /** What a writer sends is what the document then holds exactly if it clears, or keeps every key and sets none
      to None. */
  lemma MergeReplacesExactly(before: Meta, patch: Meta)
    ensures Merge(before, patch) == patch <==> SaysAll(before, patch)
  {
    var after := Merge(before, patch);
    if !SaysAll(before, patch) {
      if k :| k in patch && patch[k] == Null {
        assert k !in after;
      } else {
        var k :| k in before && k !in patch;
        assert k in after;
      }
    } else if patch != map[] {
      assert after.Keys == patch.Keys;
    }
  }

  /** However many writers raced, the document is the composition of the committed mutators in commit order,
      as long as each of them said all. */
  lemma {:induction false} DocumentIsTheComposition(mutate: Mutators, log: Log)
    requires Lawful(mutate, log) && AllSayAll(mutate, log)
    ensures log.meta == Composed(mutate, log)
  {
    if log.Committed? {
      DocumentIsTheComposition(mutate, log.prev);
      MergeReplacesExactly(log.prev.meta, Desired(mutate, log.writer, log.prev.meta));
    }
  }

  /** The premise is exact: the first commit that drops a key, or sets one to None, leaves another document. */
  lemma CompositionFailsExactly(mutate: Mutators, log: Log)
    requires log.Committed? && Lawful(mutate, log) && AllSayAll(mutate, log.prev)
    ensures log.meta == Composed(mutate, log) <==> SaysAll(log.prev.meta, Desired(mutate, log.writer, log.prev.meta))
  {
    DocumentIsTheComposition(mutate, log.prev);
    MergeReplacesExactly(log.prev.meta, Desired(mutate, log.writer, log.prev.meta));
  }

  // A document of one key, after one commit of a mutator that always answers `patch`.
  function OneCommit(patch: Meta): Log {
    var before := map["a" := Text("1")];
    Committed(Initial(before), 0, Merge(before, patch))
  }

  /** At inputs: setting the key to None, and dropping it for another, do not land; clearing everything does. */
  lemma WhatLands()
    ensures var nulled: Meta := map["a" := Null];
            var m: Mutators := (w, meta) => Wanted(nulled);
            Lawful(m, OneCommit(nulled)) && OneCommit(nulled).meta != Composed(m, OneCommit(nulled))
    ensures var other: Meta := map["b" := Text("2")];
            var m: Mutators := (w, meta) => Wanted(other);
            Lawful(m, OneCommit(other)) && OneCommit(other).meta != Composed(m, OneCommit(other))
    ensures var empty: Meta := map[];
            var m: Mutators := (w, meta) => Wanted(empty);
            Lawful(m, OneCommit(empty)) && OneCommit(empty).meta == Composed(m, OneCommit(empty)) == map[]
  {
    var before: Meta := map["a" := Text("1")];
    var nulled: Meta, other: Meta := map["a" := Null], map["b" := Text("2")];
    var key := "a";
    assert key in nulled && nulled[key] == Null;
    assert !SaysAll(before, nulled);
    MergeReplacesExactly(before, nulled);
    assert "a"[0] != "b"[0] && "b" in other;
    assert key in before && key !in other;
    assert !SaysAll(before, other);
    MergeReplacesExactly(before, other);
  }

  lemma {:induction false} ExtendsGrows(log: Log, base: Log)
    requires Extends(log, base)
    ensures Version(log) >= Version(base)
    ensures Version(log) == Version(base) ==> log == base
  {
    if log != base { ExtendsGrows(log.prev, base); }
  }

  lemma {:induction false} ExtendsTransitive(a: Log, b: Log, c: Log)
    requires Extends(a, b) && Extends(b, c)
    ensures Extends(a, c)
  {
    if a != b { ExtendsTransitive(a.prev, b, c); }
  }

  datatype WriteStatus = Updated | VersionConflict | Refused | Unanswered

  datatype Outcome = Changed | Unchanged | Exhausted | Declined | Failed

  const SENDS := 3
  const MAX_CAS_ATTEMPTS := 3

  // ---- One writer's run, as what became of each send ---------------------------------------------------

  // The sends of one write, latest first: the log when it arrived and behind it, and what the writer was told.
  datatype Sends = NoSend | Sent(prev: Sends, arrived: Log, after: Log, status: WriteStatus)

  // The attempts of one run, latest first: the log that was read, and the write that followed.
  datatype Tries = NoTry | Tried(prev: Tries, seen: Log, sends: Sends)

  function Next(mutate: Mutators, me: nat, log: Log): Log {
    Committed(log, me, Merge(log.meta, Desired(mutate, me, log.meta)))
  }

  function SendsEnd(from: Log, sends: Sends): Log { if sends.NoSend? then from else sends.after }

  function TriesEnd(start: Log, tries: Tries): Log { if tries.NoTry? then start else SendsEnd(tries.seen, tries.sends) }

  function SendCount(sends: Sends): nat { if sends.NoSend? then 0 else SendCount(sends.prev) + 1 }

  function TryCount(tries: Tries): nat { if tries.NoTry? then 0 else TryCount(tries.prev) + 1 }

  // Only others commit in between.
  predicate OthersOnly(me: nat, from: Log, to: Log) { Extends(to, from) && CommitsBy(to, me) == CommitsBy(from, me) }

  // A write takes effect only on the version it was computed from, and the writer may not be told. So one that lands
  // late, between two sends, might as well have landed in its turn, and after a conflict none does.
  predicate SendOk(mutate: Mutators, me: nat, seen: Log, arrived: Log, after: Log, status: WriteStatus) {
    match status
    case Updated => arrived == seen && after == Next(mutate, me, seen)
    case VersionConflict => arrived != seen && after == arrived
    case Refused => after == arrived
    case Unanswered => after == arrived || (arrived == seen && after == Next(mutate, me, seen))
  }

  ghost predicate SendsOk(mutate: Mutators, me: nat, seen: Log, sends: Sends) {
    sends.Sent? ==>
      && SendsOk(mutate, me, seen, sends.prev)
      && (sends.prev.Sent? ==> sends.prev.status == Unanswered)
      && OthersOnly(me, SendsEnd(seen, sends.prev), sends.arrived)
      && SendOk(mutate, me, seen, sends.arrived, sends.after, sends.status)
  }

  // The sends that were refused or went unanswered.
  function FaultsOf(sends: Sends): nat {
    if sends.NoSend? then 0
    else FaultsOf(sends.prev) + if sends.status.Refused? || sends.status.Unanswered? then 1 else 0
  }

  predicate Conflicted(sends: Sends) { sends.Sent? && sends.status == VersionConflict }

  // Every attempt read the document, wanted to change it, and was told of a conflict.
  ghost predicate Beaten(mutate: Mutators, me: nat, start: Log, tries: Tries) {
    tries.Tried? ==>
      && Beaten(mutate, me, start, tries.prev)
      && OthersOnly(me, TriesEnd(start, tries.prev), tries.seen)
      && Desired(mutate, me, tries.seen.meta) != tries.seen.meta
      && SendsOk(mutate, me, tries.seen, tries.sends) && SendCount(tries.sends) <= SENDS && Conflicted(tries.sends)
  }

  /** However often a write is sent, at most one send commits; after a success report it is that one, after a
      conflict report the document has moved on. */
  lemma {:induction false} OneCommitPerWrite(mutate: Mutators, me: nat, seen: Log, sends: Sends)
    requires SendsOk(mutate, me, seen, sends)
    ensures Extends(SendsEnd(seen, sends), seen)
    ensures CommitsBy(SendsEnd(seen, sends), me) <= CommitsBy(seen, me) + 1
    ensures CommitsBy(SendsEnd(seen, sends), me) == CommitsBy(seen, me) + 1 ==> SendsEnd(seen, sends) != seen
    ensures sends.Sent? && sends.status == Updated ==> CommitsBy(SendsEnd(seen, sends), me) == CommitsBy(seen, me) + 1
    ensures Conflicted(sends) ==> Version(SendsEnd(seen, sends)) > Version(seen)
    ensures Conflicted(sends) && SendCount(sends) <= 1 ==> CommitsBy(SendsEnd(seen, sends), me) == CommitsBy(seen, me)
  {
    if sends.Sent? {
      OneCommitPerWrite(mutate, me, seen, sends.prev);
      var before := SendsEnd(seen, sends.prev);
      ExtendsTransitive(sends.arrived, before, seen);
      ExtendsGrows(sends.arrived, seen);
      ExtendsGrows(sends.arrived, before);
      ExtendsGrows(before, seen);
      assert sends.prev.Sent? ==> SendCount(sends) > 1;
    }
  }

  /** A beaten writer ran into a commit in each attempt, and made one at most in each that it sent more than once. */
  lemma {:induction false} EachAttemptWasBeaten(mutate: Mutators, me: nat, start: Log, tries: Tries)
    requires Beaten(mutate, me, start, tries)
    ensures var end := TriesEnd(start, tries);
            && Extends(end, start)
            && CommitsBy(start, me) <= CommitsBy(end, me) <= CommitsBy(start, me) + Resent(tries)
            && Resent(tries) <= TryCount(tries)
            && Version(end) >= Version(start) + TryCount(tries)
  {
    if tries.Tried? {
      EachAttemptWasBeaten(mutate, me, start, tries.prev);
      OneCommitPerWrite(mutate, me, tries.seen, tries.sends);
      var before := TriesEnd(start, tries.prev);
      ExtendsGrows(tries.seen, before);
      ExtendsTransitive(tries.seen, before, start);
      ExtendsTransitive(TriesEnd(start, tries), tries.seen, start);
      CommitsGrow(TriesEnd(start, tries), tries.seen, me);
    }
  }

  // ---- When a beaten writer wrote nothing, and who beat it ---------------------------------------------

  // The attempts whose write was sent more than once.
  function Resent(tries: Tries): nat {
    if tries.NoTry? then 0 else Resent(tries.prev) + if SendCount(tries.sends) > 1 then 1 else 0
  }

  // The attempts sent their writes this many times each.
  predicate Took(tries: Tries, counts: seq<nat>)
    decreases tries
  {
    if tries.NoTry? then counts == []
    else
      && counts != [] && counts[|counts| - 1] == SendCount(tries.sends)
      && Took(tries.prev, counts[..|counts| - 1])
  }

  predicate OnceEach(counts: seq<nat>) { forall i :: 0 <= i < |counts| ==> counts[i] == 1 }

  predicate SendCounts(counts: seq<nat>) { forall i :: 0 <= i < |counts| ==> 1 <= counts[i] <= SENDS }

  // A writer that was beaten in every attempt, on a document that only mutators ever changed.
  ghost predicate GaveUp(mutate: Mutators, me: nat, start: Log, tries: Tries, counts: seq<nat>) {
    Beaten(mutate, me, start, tries) && Took(tries, counts) && Lawful(mutate, TriesEnd(start, tries))
  }

  lemma {:induction false} TookResent(tries: Tries, counts: seq<nat>)
    requires Took(tries, counts) && SendCounts(counts)
    ensures Resent(tries) == 0 <==> OnceEach(counts)
    decreases tries
  {
    if tries.Tried? {
      var init := counts[..|counts| - 1];
      TookResent(tries.prev, init);
      assert forall i :: 0 <= i < |counts| ==> counts[i] == if i < |init| then init[i] else SendCount(tries.sends);
    }
  }

  lemma {:induction false} CommitsGrow(log: Log, base: Log, me: nat)
    requires Extends(log, base)
    ensures CommitsBy(log, me) >= CommitsBy(base, me)
  {
    if log != base { CommitsGrow(log.prev, base, me); }
  }

  // What a writer sent is then what it wants.
  ghost predicate SettlesAt(mutate: Mutators, me: nat, meta: Meta) {
    var landed := Merge(meta, Desired(mutate, me, meta));
    Desired(mutate, me, landed) == landed
  }

  ghost predicate Settles(mutate: Mutators, me: nat) { forall meta: Meta :: SettlesAt(mutate, me, meta) }

  // Where others did not commit, the document is as it was read or holds the write.
  lemma {:induction false} SendsWithoutOthers(mutate: Mutators, me: nat, seen: Log, sends: Sends)
    requires SendsOk(mutate, me, seen, sends)
    ensures CommitsByOthers(SendsEnd(seen, sends), me) >= CommitsByOthers(seen, me)
    ensures CommitsByOthers(SendsEnd(seen, sends), me) == CommitsByOthers(seen, me) ==>
              SendsEnd(seen, sends) == seen || SendsEnd(seen, sends) == Next(mutate, me, seen)
  {
    if sends.Sent? {
      SendsWithoutOthers(mutate, me, seen, sends.prev);
      ExtendsGrows(sends.arrived, SendsEnd(seen, sends.prev));
    }
  }

  /** A writer whose mutator settles is beaten by others: it would have read back a lost commit of its own and found
      nothing left to do, so between any two of its attempts, and so in all but one of them, another committed. */
  lemma {:induction false} OthersBeatASettlingWriter(mutate: Mutators, me: nat, start: Log, tries: Tries)
    requires Beaten(mutate, me, start, tries) && Settles(mutate, me)
    ensures var end := TriesEnd(start, tries);
            var met := CommitsByOthers(end, me) - CommitsByOthers(start, me);
            met >= TryCount(tries) - 1 && (met == TryCount(tries) - 1 ==> Desired(mutate, me, end.meta) == end.meta)
  {
    if tries.Tried? {
      OthersBeatASettlingWriter(mutate, me, start, tries.prev);
      ExtendsGrows(tries.seen, TriesEnd(start, tries.prev));
      OneCommitPerWrite(mutate, me, tries.seen, tries.sends);
      SendsWithoutOthers(mutate, me, tries.seen, tries.sends);
      assert SettlesAt(mutate, me, tries.seen.meta);
    }
  }

  // Another writer that is idle at one document, and takes back what the first one makes of it.
  ghost predicate Rivals(mutate: Mutators, me: nat, other: nat, meta: Meta) {
    var landed := Merge(meta, Desired(mutate, me, meta));
    && me != other && landed != meta && Desired(mutate, me, meta) != meta && mutate(me, meta).Wanted?
    && mutate(other, meta).Wanted? && Merge(meta, Desired(mutate, other, meta)) == meta
    && mutate(other, landed).Wanted? && Merge(landed, Desired(mutate, other, landed)) == meta
  }

  // The sends of one beaten attempt: the first of several commits unseen, a single one comes after a commit of the
  // other writer (which may leave the metadata as it is, as a push of the note's body does).
  function BeatenSends(seen: Log, other: nat, next: Log, count: nat): Sends {
    if count <= 1 then
      var raced := Committed(seen, other, seen.meta);
      Sent(NoSend, raced, raced, VersionConflict)
    else
      var lost := Sent(NoSend, seen, next, Unanswered);
      Sent(if count == 2 then lost else Sent(lost, next, next, Unanswered), next, next, VersionConflict)
  }

  lemma LostSend(mutate: Mutators, me: nat, seen: Log)
    ensures var lost := Sent(NoSend, seen, Next(mutate, me, seen), Unanswered);
            SendsOk(mutate, me, seen, lost) && SendCount(lost) == 1
  {
    assert Extends(seen, seen) && SendsOk(mutate, me, seen, NoSend);
  }

  lemma BeatenSendsAreOk(mutate: Mutators, me: nat, other: nat, seen: Log, count: nat)
    requires me != other && 1 <= count <= SENDS
    ensures var sends := BeatenSends(seen, other, Next(mutate, me, seen), count);
            SendsOk(mutate, me, seen, sends) && SendCount(sends) == count && Conflicted(sends)
  {
    var next := Next(mutate, me, seen);
    assert Extends(next, next) && Extends(seen, seen) && Version(next) == Version(seen) + 1;
    if count == 1 {
      var raced := Committed(seen, other, seen.meta);
      assert Extends(raced, raced.prev) && Version(raced) == Version(seen) + 1;
      assert SendsOk(mutate, me, seen, NoSend) && SendCount(NoSend) == 0;
    } else {
      LostSend(mutate, me, seen);
      var lost := Sent(NoSend, seen, next, Unanswered);
      assert count == 3 ==> SendsOk(mutate, me, seen, Sent(lost, next, next, Unanswered));
    }
  }

  // One more beaten attempt, read at the document `meta`.
  lemma BeatenAgain(mutate: Mutators, me: nat, other: nat, seen: Log, tries: Tries, start: Log, count: nat)
    returns (more: Tries)
    requires Rivals(mutate, me, other, seen.meta) && 1 <= count <= SENDS && Lawful(mutate, seen)
    requires Beaten(mutate, me, start, tries) && OthersOnly(me, TriesEnd(start, tries), seen)
    ensures Beaten(mutate, me, start, more) && more.Tried? && more.prev == tries && SendCount(more.sends) == count
    ensures var end := TriesEnd(start, more);
            && Lawful(mutate, end) && Resent(more) == Resent(tries) + (if count > 1 then 1 else 0)
            && CommitsBy(end, me) == CommitsBy(seen, me) + (if count > 1 then 1 else 0)
            && CommitsByOthers(end, me) == CommitsByOthers(seen, me) + (if count > 1 then 0 else 1)
            && end.meta == if count > 1 then Merge(seen.meta, Desired(mutate, me, seen.meta)) else seen.meta
  {
    BeatenSendsAreOk(mutate, me, other, seen, count);
    more := Tried(tries, seen, BeatenSends(seen, other, Next(mutate, me, seen), count));
  }

  /** Against a rival, every way of counting sends can happen, each attempt sent more than once committing. */
  lemma {:induction false} BeatenByARival(mutate: Mutators, me: nat, other: nat, meta: Meta, counts: seq<nat>)
    returns (tries: Tries)
    requires Rivals(mutate, me, other, meta) && SendCounts(counts)
    ensures GaveUp(mutate, me, Initial(meta), tries, counts)
    ensures var end := TriesEnd(Initial(meta), tries);
            && CommitsBy(end, me) == Resent(tries)
            && (if counts == [] || counts[|counts| - 1] == 1
                then end.meta == meta && CommitsByOthers(end, me) == |counts|
                else end.meta == Merge(meta, Desired(mutate, me, meta)) && CommitsByOthers(end, me) == |counts| - 1)
    decreases |counts|
  {
    tries := NoTry;
    if counts != [] {
      var init, count := counts[..|counts| - 1], counts[|counts| - 1];
      var before := BeatenByARival(mutate, me, other, meta, init);
      var end := TriesEnd(Initial(meta), before);
      var seen := if end.meta == meta then end else Committed(end, other, meta);
      assert Extends(end, end) && Extends(seen, end);
      tries := BeatenAgain(mutate, me, other, seen, before, Initial(meta), count);
    }
  }

  lemma ResentThrice(tries: Tries)
    requires Took(tries, [2, 2, 2])
    ensures Resent(tries) == 3
  {
    assert [2, 2, 2][..2] == [2, 2] && [2, 2][..1] == [2] && [2][..0] == [];
    assert Took(tries.prev, [2, 2]) && Took(tries.prev.prev, [2]) && Took(tries.prev.prev.prev, []);
    assert Resent(tries.prev.prev) == 1;
  }

  // Three attempts, each committed and sent again.
  lemma WrittenThrice(mutate: Mutators, me: nat, other: nat, meta: Meta) returns (tries: Tries)
    requires Rivals(mutate, me, other, meta)
    ensures GaveUp(mutate, me, Initial(meta), tries, [2, 2, 2])
    ensures var end := TriesEnd(Initial(meta), tries);
            && CommitsBy(end, me) == 3 && CommitsByOthers(end, me) == 2
            && end.meta == Merge(meta, Desired(mutate, me, meta))
  {
    tries := BeatenByARival(mutate, me, other, meta, [2, 2, 2]);
    ResentThrice(tries);
  }

  /** Exactly when a writer that gives up has written nothing: when it sent each of its writes once, so that what it
      was told of was never a write of its own. */
  lemma WroteNothingExactly(mutate: Mutators, me: nat, other: nat, meta: Meta, counts: seq<nat>)
    requires Rivals(mutate, me, other, meta) && SendCounts(counts)
    ensures (forall start, tries :: GaveUp(mutate, me, start, tries, counts) ==>
                                      CommitsBy(TriesEnd(start, tries), me) == CommitsBy(start, me))
            <==> OnceEach(counts)
  {
    if OnceEach(counts) {
      forall start, tries | GaveUp(mutate, me, start, tries, counts)
        ensures CommitsBy(TriesEnd(start, tries), me) == CommitsBy(start, me)
      {
        TookResent(tries, counts);
        EachAttemptWasBeaten(mutate, me, start, tries);
      }
    } else {
      var tries := BeatenByARival(mutate, me, other, meta, counts);
      TookResent(tries, counts);
      assert GaveUp(mutate, me, Initial(meta), tries, counts);
    }
  }

  lemma UnansweredIsAFault(sends: Sends)
    ensures sends.Sent? && sends.prev.Sent? && sends.prev.status.Unanswered? ==> FaultsOf(sends) > 0
    ensures sends.Sent? && (sends.status.Refused? || sends.status.Unanswered?) ==> FaultsOf(sends) > 0
  {}

  class Document {
    var meta: Meta
    var version: nat
    ghost var log: Log
    ghost var faults: nat      // calls that failed or went unanswered

    ghost predicate Valid(mutate: Mutators)
      reads this
    {
      log.meta == meta && Version(log) == version && Lawful(mutate, log)
    }

    method Commit(mutate: Mutators, writer: nat, patch: Meta)
      requires Valid(mutate) && mutate(writer, meta) == Wanted(patch)
      modifies this
      ensures Valid(mutate) && log == Committed(old(log), writer, meta) && faults == old(faults)
    {
      meta, version := Merge(meta, patch), version + 1;
      log := Committed(log, writer, meta);
    }

    // Any number of commits by writers other than this one.
    method Interfere(mutate: Mutators, me: nat)
      requires Valid(mutate)
      modifies this
      ensures Valid(mutate) && Extends(log, old(log)) && CommitsBy(log, me) == CommitsBy(old(log), me)
      ensures faults == old(faults)
    {
      var n: nat := *;
      while n > 0
        invariant Valid(mutate) && Extends(log, old(log)) && CommitsBy(log, me) == CommitsBy(old(log), me)
        invariant faults == old(faults)
      {
        var other: nat := *;
        if other != me {
          var answer := mutate(other, meta);
          if answer.Wanted? { Commit(mutate, other, answer.meta); }
        }
        n := n - 1;
      }
    }

    method NoteRead(mutate: Mutators, me: nat) returns (ok: bool, found: Meta, at: nat)
      requires Valid(mutate)
      modifies this
      ensures Valid(mutate) && Extends(log, old(log)) && CommitsBy(log, me) == CommitsBy(old(log), me)
      ensures found == meta && at == version && faults == old(faults) + if ok then 0 else 1
    {
      Interfere(mutate, me);
      ok := *;
      if !ok { faults := faults + 1; }
      found, at := meta, version;
    }

    // One send of a write computed from `seen`; `from` is where the sends before it left the log.
    method Send(mutate: Mutators, me: nat, patch: Meta, expected: nat, ghost seen: Log, ghost sends: Sends)
      returns (status: WriteStatus, ghost more: Sends)
      requires Valid(mutate) && Version(seen) == expected && mutate(me, seen.meta) == Wanted(patch)
      requires SendsOk(mutate, me, seen, sends) && (sends.Sent? ==> sends.status == Unanswered)
      requires log == SendsEnd(seen, sends)
      modifies this
      ensures Valid(mutate) && SendsOk(mutate, me, seen, more) && log == SendsEnd(seen, more)
      ensures more.Sent? && more.prev == sends && more.status == status
      ensures faults - old(faults) == FaultsOf(more) - FaultsOf(sends)
    {
      OneCommitPerWrite(mutate, me, seen, sends);
      Interfere(mutate, me);
      ExtendsTransitive(log, old(log), seen);
      ExtendsGrows(log, seen);
      ghost var arrived := log;
      var arrives: bool, accepted: bool, answers: bool := *, *, *;
      status := Unanswered;
      if arrives && !accepted {
        if answers { status := Refused; }
      } else if arrives && version != expected {
        if answers { status := VersionConflict; }
      } else if arrives {
        Commit(mutate, me, patch);
        if answers { status := Updated; }
      }
      if status == Unanswered || status == Refused { faults := faults + 1; }
      more := Sent(sends, arrived, log, status);
    }

    method NoteWrite(mutate: Mutators, me: nat, patch: Meta, expected: nat, ghost seen: Log)
      returns (status: WriteStatus, ghost sends: Sends)
      requires Valid(mutate) && log == seen && version == expected && mutate(me, seen.meta) == Wanted(patch)
      modifies this
      ensures Valid(mutate) && SendsOk(mutate, me, seen, sends) && log == SendsEnd(seen, sends)
      ensures sends.Sent? && sends.status == status && SendCount(sends) <= SENDS
      ensures CommitsBy(log, me) <= CommitsBy(seen, me) + 1
      // it is given up only after three sends, and only what was refused or went unanswered counts as a fault
      ensures status == Unanswered ==> SendCount(sends) == 3
      ensures faults == old(faults) + FaultsOf(sends)
    {
      status, sends := Unanswered, NoSend;
      var n := 0;
      while n < SENDS && status == Unanswered
        invariant Valid(mutate) && SendsOk(mutate, me, seen, sends) && log == SendsEnd(seen, sends)
        invariant n <= SENDS && SendCount(sends) == n && (n > 0 ==> sends.status == status)
                  && (n == 0 ==> status == Unanswered)
        invariant faults == old(faults) + FaultsOf(sends)
      {
        status, sends := Send(mutate, me, patch, expected, seen, sends);
        n := n + 1;
      }
      OneCommitPerWrite(mutate, me, seen, sends);
    }

    // One attempt: None is a conflict, after which the document is read again.
    method Attempt(mutate: Mutators, me: nat, ghost start: Log, ghost tries: Tries)
      returns (ended: Option<Outcome>, ghost more: Tries, ghost seen: Log, ghost sends: Sends)
      requires Valid(mutate) && Beaten(mutate, me, start, tries) && log == TriesEnd(start, tries)
      modifies this
      ensures Valid(mutate) && Extends(log, start) && OthersOnly(me, TriesEnd(start, tries), seen)
      ensures ended.None? ==>
                && Beaten(mutate, me, start, more) && TryCount(more) == TryCount(tries) + 1
                && log == TriesEnd(start, more) && Resent(more) - Resent(tries) <= faults - old(faults)
      ensures ended.Some? ==> more == tries && faults >= old(faults) && !ended.value.Exhausted?
      ensures ended.Some? ==> CommitsBy(log, me) <= CommitsBy(TriesEnd(start, tries), me) + 1
      ensures ended == Some(Unchanged) ==> seen == log && mutate(me, seen.meta) == Wanted(seen.meta)
      ensures ended == Some(Declined) ==> seen == log && mutate(me, seen.meta).Raised?
      ensures ended == Some(Changed) ==> Extends(log, seen) && CommitsBy(log, me) == CommitsBy(seen, me) + 1
      // the write's last send decides; the read fails, or no write is made, otherwise
      ensures SendsOk(mutate, me, seen, sends) && (sends.Sent? ==> log == SendsEnd(seen, sends))
      ensures ended.None? <==> Conflicted(sends)
      ensures ended == Some(Changed) <==> sends.Sent? && sends.status == Updated
      ensures sends.Sent? && sends.status == Unanswered ==> SendCount(sends) == SENDS
      ensures faults - old(faults) == FaultsOf(sends) + if ended == Some(Failed) && sends.NoSend? then 1 else 0
    {
      more, sends := tries, NoSend;
      EachAttemptWasBeaten(mutate, me, start, tries);
      var ok, found, at := NoteRead(mutate, me);
      seen := log;
      ExtendsTransitive(log, TriesEnd(start, tries), start);
      if !ok { return Some(Failed), more, seen, sends; }
      var answer := mutate(me, found);
      if answer.Raised? { return Some(Declined), more, seen, sends; }
      if answer.meta == found { return Some(Unchanged), more, seen, sends; }
      var status;
      status, sends := NoteWrite(mutate, me, answer.meta, at, seen);
      OneCommitPerWrite(mutate, me, seen, sends);
      ExtendsTransitive(log, seen, start);
      UnansweredIsAFault(sends);
      if status == Updated { return Some(Changed), more, seen, sends; }
      if status != VersionConflict { return Some(Failed), more, seen, sends; }
      more := Tried(tries, seen, sends);
      ended := None;
    }

    /** `_mutate_with_cas`. Each commit replaces exactly the version it was computed from (`Valid` keeps the log
        lawful); a no-op changes nothing, nor does a mutator that raises; each attempt commits at most once, whatever
        its responses; a writer that gives up was beaten in every attempt. It then wrote at most once for each write
        it sent again, and if what it writes settles, others wrote at least twice. */
    method MutateWithCas(mutate: Mutators, me: nat) returns (outcome: Outcome, ghost tries: Tries, ghost seen: Log)
      requires Valid(mutate)
      modifies this
      ensures Valid(mutate) && Extends(log, old(log))
      ensures Beaten(mutate, me, old(log), tries) && TryCount(tries) <= MAX_CAS_ATTEMPTS
      ensures CommitsBy(log, me) - CommitsBy(old(log), me) <= MAX_CAS_ATTEMPTS
      ensures outcome == Unchanged ==>
                && OthersOnly(me, TriesEnd(old(log), tries), seen) && seen == log
                && mutate(me, seen.meta) == Wanted(seen.meta)
      ensures outcome == Declined ==>
                && OthersOnly(me, TriesEnd(old(log), tries), seen) && seen == log && mutate(me, seen.meta).Raised?
      ensures outcome == Changed ==>
                && OthersOnly(me, TriesEnd(old(log), tries), seen) && Extends(log, seen)
                && CommitsBy(log, me) == CommitsBy(seen, me) + 1
      ensures outcome == Exhausted ==> TryCount(tries) == 3 && log == TriesEnd(old(log), tries)
      ensures outcome == Exhausted ==>
                CommitsByOthers(log, me) - CommitsByOthers(old(log), me)
                >= MAX_CAS_ATTEMPTS - (CommitsBy(log, me) - CommitsBy(old(log), me))
      ensures outcome == Exhausted ==>
                CommitsBy(log, me) - CommitsBy(old(log), me) <= Resent(tries) <= faults - old(faults)
      ensures outcome == Exhausted && Settles(mutate, me) ==>
                CommitsByOthers(log, me) - CommitsByOthers(old(log), me) >= MAX_CAS_ATTEMPTS - 1
      ensures outcome == Failed ==> faults > old(faults)
    {
      tries, seen := NoTry, log;
      var attempt := 0;
      while attempt < MAX_CAS_ATTEMPTS
        invariant attempt <= MAX_CAS_ATTEMPTS && TryCount(tries) == attempt && Resent(tries) <= faults - old(faults)
        invariant Valid(mutate) && Beaten(mutate, me, old(log), tries) && log == TriesEnd(old(log), tries)
      {
        EachAttemptWasBeaten(mutate, me, old(log), tries);
        var ended;
        ghost var sends;
        ended, tries, seen, sends := Attempt(mutate, me, old(log), tries);
        if ended.Some? { return ended.value, tries, seen; }
        attempt := attempt + 1;
      }
      EachAttemptWasBeaten(mutate, me, old(log), tries);
      if Settles(mutate, me) { OthersBeatASettlingWriter(mutate, me, old(log), tries); }
      outcome := Exhausted;
    }
  }
}
