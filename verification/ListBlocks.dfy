/**
 Lists as the approval reader sees them (`_mask_data_lists` in `github_approval.py`), over lines
 already recognised one by one.

 The loop decides late: it accumulates a block and masks it when it ends. Here every line gets its
 role from the lines up to it alone, and what is masked is said from the roles.
 */
module ListBlocks {
  import opened MaskingScanners
  import opened Options

  // A line with what the recognisers say of it: its item text, whether it starts a block of its own,
  // and whether it reads as a verdict when it stands above a list.
  datatype Line = Line(text: string, item: Option<string>, blank: bool, starts: bool,
                       indent: nat, stripped: string, lead: bool)

  // ---- Roles -------------------------------------------------------------------------------------

  datatype Role = Outside | TopItem(block: nat) | Continuation(block: nat) | Nested(block: nat) | Gap(block: nat)

  datatype Scan = NoList | InList(start: nat, indent: nat, afterBlank: bool)

  function RoleOf(line: Line, i: nat, s: Scan): Role {
    if line.item.Some? then
      if s.NoList? then TopItem(i) else if line.indent > s.indent then Nested(s.start) else TopItem(s.start)
    else if s.NoList? then Outside
    else if line.blank then Gap(s.start)
    else if !line.starts && (!s.afterBlank || line.indent > s.indent) then Continuation(s.start)
    else Outside
  }

  function NextScan(line: Line, i: nat, s: Scan): Scan {
    var r := RoleOf(line, i, s);
    if r.Outside? then NoList
    else if s.NoList? then InList(i, line.indent, false)
    else s.(afterBlank := r.Gap?)
  }

  function ScanBefore(lines: seq<Line>, n: nat): Scan
    requires n <= |lines|
  {
    if n == 0 then NoList else NextScan(lines[n - 1], n - 1, ScanBefore(lines, n - 1))
  }

  function RoleAt(lines: seq<Line>, i: nat): Role
    requires i < |lines|
  {
    RoleOf(lines[i], i, ScanBefore(lines, i))
  }

  predicate IsMember(r: Role, b: nat) { r == TopItem(b) || r == Continuation(b) }

  // One more line for the texts of the block it belongs to: a new item, or a folded continuation.
  function Fold(texts: seq<string>, line: Line): seq<string> {
    if line.item.Some? then texts + [line.item.value]
    else if texts == [] then []
    else Continued(texts, line.stripped)
  }

  function Continued(texts: seq<string>, stripped: string): seq<string>
    requires texts != []
  {
    texts[..|texts| - 1] + [texts[|texts| - 1] + " " + stripped]
  }

  // The item texts of block b among the first n lines, continuations folded in.
  function Texts(lines: seq<Line>, b: nat, n: nat): seq<string>
    requires n <= |lines|
  {
    if n == 0 then []
    else if IsMember(RoleAt(lines, n - 1), b) then Fold(Texts(lines, b, n - 1), lines[n - 1])
    else Texts(lines, b, n - 1)
  }

  // The nearest non-blank line above does not read as a verdict.
  predicate IntroducedAsData(lines: seq<Line>, first: nat)
    requires first <= |lines|
  {
    first > 0 && (if lines[first - 1].blank then IntroducedAsData(lines, first - 1) else !lines[first - 1].lead)
  }

  predicate AllVerdicts(verdict: string -> bool, texts: seq<string>) {
    forall t | t in texts :: verdict(t)
  }

  // A block is kept when nothing introduces it as data and every item text is a verdict.
  predicate Kept(verdict: string -> bool, lines: seq<Line>, b: nat)
    requires b <= |lines|
  {
    !IntroducedAsData(lines, b) && AllVerdicts(verdict, Texts(lines, b, |lines|))
  }

  lemma {:induction false} StartIsEarlier(lines: seq<Line>, n: nat)
    requires n <= |lines| && ScanBefore(lines, n).InList?
    ensures ScanBefore(lines, n).start < n
  {
    if ScanBefore(lines, n - 1).InList? { StartIsEarlier(lines, n - 1); }
  }

  function BlockAt(lines: seq<Line>, i: nat): (b: nat)
    requires i < |lines| && !RoleAt(lines, i).Outside?
    ensures b == RoleAt(lines, i).block && b <= i
  {
    if ScanBefore(lines, i).InList? then StartIsEarlier(lines, i); RoleAt(lines, i).block
    else RoleAt(lines, i).block
  }

  function Masked(verdict: string -> bool, lines: seq<Line>, i: nat): string
    requires i < |lines|
  {
    var r := RoleAt(lines, i);
    if r.Nested? then MASK
    else if (r.TopItem? || r.Continuation?) && !Kept(verdict, lines, BlockAt(lines, i)) then MASK
    else lines[i].text
  }

  // ---- What the roles say ------------------------------------------------------------------------

  // An open list started at an earlier line, and every line since belongs to it.
  lemma {:induction false} OpenListIsContiguous(lines: seq<Line>, n: nat)
    requires n <= |lines| && ScanBefore(lines, n).InList?
    ensures var s := ScanBefore(lines, n);
            && s.start < n && s.indent == lines[s.start].indent
            && RoleAt(lines, s.start) == TopItem(s.start)
            && forall i :: s.start <= i < n ==> !RoleAt(lines, i).Outside? && RoleAt(lines, i).block == s.start
  {
    if ScanBefore(lines, n - 1).InList? { OpenListIsContiguous(lines, n - 1); }
  }

  /** A block is an unbroken stretch of lines from its first item on. */
  lemma BlocksAreContiguous(lines: seq<Line>, i: nat)
    requires i < |lines| && !RoleAt(lines, i).Outside?
    ensures var b := BlockAt(lines, i);
            && RoleAt(lines, b) == TopItem(b)
            && forall k :: b <= k <= i ==> !RoleAt(lines, k).Outside? && RoleAt(lines, k).block == b
  {
    if ScanBefore(lines, i).InList? { OpenListIsContiguous(lines, i); }
  }

  /** An item of a block is nested exactly when it is indented more than the block's first item. */
  lemma NestingIsByIndent(lines: seq<Line>, i: nat)
    requires i < |lines| && lines[i].item.Some?
    ensures RoleAt(lines, i).Nested? || RoleAt(lines, i).TopItem?
    ensures RoleAt(lines, i).Nested? <==> lines[i].indent > lines[BlockAt(lines, i)].indent
  {
    if ScanBefore(lines, i).InList? { OpenListIsContiguous(lines, i); }
  }

  /** The role of a line follows from the line above and the first item of its block alone. */
  lemma RoleFollowsTheLineAbove(lines: seq<Line>, i: nat)
    requires i < |lines| && (i > 0 && lines[i - 1].item.Some? ==> !lines[i - 1].blank)
    ensures RoleAt(lines, i) ==
            if i == 0 || RoleAt(lines, i - 1).Outside? then (if lines[i].item.Some? then TopItem(i) else Outside)
            else
              var b := BlockAt(lines, i - 1);
              if lines[i].item.Some? then (if lines[i].indent > lines[b].indent then Nested(b) else TopItem(b))
              else if lines[i].blank then Gap(b)
              else if lines[i].starts || (lines[i - 1].blank && lines[i].indent <= lines[b].indent) then Outside
              else Continuation(b)
  {
    if i > 0 && !RoleAt(lines, i - 1).Outside? {
      BlocksAreContiguous(lines, i - 1);
      OpenListIsContiguous(lines, i);
    }
  }

  /** A line right after a list is outside it exactly if it is no item, not blank, and either starts a block or is
      unindented after a blank. */
  lemma ListsEndForAReason(lines: seq<Line>, i: nat)
    requires 0 < i < |lines| && !RoleAt(lines, i - 1).Outside? && (lines[i - 1].item.Some? ==> !lines[i - 1].blank)
    ensures RoleAt(lines, i).Outside? <==>
            && lines[i].item.None? && !lines[i].blank
            && (lines[i].starts || (lines[i - 1].blank && lines[i].indent <= lines[BlockAt(lines, i - 1)].indent))
  {
    RoleFollowsTheLineAbove(lines, i);
  }

  // ---- What the item texts are ---------------------------------------------------------------------

  // The top items of block b among the first n lines.
  function TopItems(lines: seq<Line>, b: nat, n: nat): seq<nat>
    requires n <= |lines|
  {
    if n == 0 then []
    else if RoleAt(lines, n - 1) == TopItem(b) then TopItems(lines, b, n - 1) + [n - 1]
    else TopItems(lines, b, n - 1)
  }

  /** They are all of them, in order. */
  lemma {:induction false} TopItemsAreAll(lines: seq<Line>, b: nat, n: nat)
    requires n <= |lines|
    ensures var items := TopItems(lines, b, n);
            && (forall k :: 0 <= k < |items| ==> items[k] < n && RoleAt(lines, items[k]) == TopItem(b))
            && (forall i: nat :: i < n && RoleAt(lines, i) == TopItem(b) ==> i in items)
            && (forall j, k :: 0 <= j < k < |items| ==> items[j] < items[k])
  {
    if n > 0 {
      TopItemsAreAll(lines, b, n - 1);
      var items, before := TopItems(lines, b, n), TopItems(lines, b, n - 1);
      forall i: nat | i < n && RoleAt(lines, i) == TopItem(b) ensures i in items {
        if i < n - 1 { assert i in before; } else { assert items == before + [n - 1]; }
      }
    }
  }

  // What a line adds to the text of an item above it.
  function Piece(lines: seq<Line>, b: nat, i: nat): string
    requires i < |lines|
  {
    if RoleAt(lines, i) == Continuation(b) then " " + lines[i].stripped else ""
  }

  // The continuations of block b from line j on, up to its next top item or line n.
  function Tail(lines: seq<Line>, b: nat, j: nat, n: nat): string
    requires n <= |lines|
    decreases n - j
  {
    if j >= n || RoleAt(lines, j) == TopItem(b) then "" else Piece(lines, b, j) + Tail(lines, b, j + 1, n)
  }

  // The item's own text, and what continues it.
  function WholeText(lines: seq<Line>, b: nat, i: nat, n: nat): string
    requires i < n <= |lines| && RoleAt(lines, i) == TopItem(b)
  {
    lines[i].item.value + Tail(lines, b, i + 1, n)
  }

  lemma {:induction false} TailEnds(lines: seq<Line>, b: nat, j: nat, n: nat, next: nat)
    requires j <= next < n < |lines| && RoleAt(lines, next) == TopItem(b)
    ensures Tail(lines, b, j, n + 1) == Tail(lines, b, j, n)
    decreases n - j
  {
    if RoleAt(lines, j) != TopItem(b) { TailEnds(lines, b, j + 1, n, next); }
  }

  lemma {:induction false} TailGrows(lines: seq<Line>, b: nat, j: nat, n: nat)
    requires j <= n < |lines| && forall i :: j <= i < n ==> RoleAt(lines, i) != TopItem(b)
    ensures Tail(lines, b, j, n + 1) == Tail(lines, b, j, n) + Piece(lines, b, n)
    decreases n - j
  {
    if j < n {
      TailGrows(lines, b, j + 1, n);
      Reassociate(Piece(lines, b, j), Tail(lines, b, j + 1, n), Piece(lines, b, n));
    } else {
      assert Tail(lines, b, n + 1, n + 1) == "";
    }
  }

  lemma Reassociate(x: string, y: string, z: string)
    ensures x + (y + z) == x + y + z
  {}

  // The items found are behind one another, and none is behind the last.
  lemma ItemsAreApart(lines: seq<Line>, b: nat, n: nat, k: nat)
    requires n <= |lines| && k < |TopItems(lines, b, n)|
    ensures var items := TopItems(lines, b, n);
            && items[k] < n && RoleAt(lines, items[k]) == TopItem(b)
            && (k < |items| - 1 ==> items[k] < items[k + 1] < n && RoleAt(lines, items[k + 1]) == TopItem(b))
            && (k == |items| - 1 ==> forall i: nat :: items[k] < i < n ==> RoleAt(lines, i) != TopItem(b))
  {
    var items := TopItems(lines, b, n);
    TopItemsAreAll(lines, b, n);
    if k == |items| - 1 {
      forall i: nat | items[k] < i < n ensures RoleAt(lines, i) != TopItem(b) {
        assert i !in items by { assert forall m :: 0 <= m < |items| ==> items[m] <= items[k]; }
      }
    }
  }

  lemma WholeTextStays(lines: seq<Line>, b: nat, i: nat, n: nat, next: nat)
    requires i < next < n < |lines| && RoleAt(lines, i) == RoleAt(lines, next) == TopItem(b)
    ensures WholeText(lines, b, i, n + 1) == WholeText(lines, b, i, n)
  {
    TailEnds(lines, b, i + 1, n, next);
  }

  lemma WholeTextTakes(lines: seq<Line>, b: nat, i: nat, n: nat)
    requires i < n < |lines| && RoleAt(lines, i) == TopItem(b)
    requires forall k :: i < k < n ==> RoleAt(lines, k) != TopItem(b)
    ensures WholeText(lines, b, i, n + 1) == WholeText(lines, b, i, n) + Piece(lines, b, n)
  {
    TailGrows(lines, b, i + 1, n);
    Reassociate(lines[i].item.value, Tail(lines, b, i + 1, n), Piece(lines, b, n));
  }

  // One line more leaves the texts before the last alone, and adds its piece to the last.
  lemma WholeTextGrows(lines: seq<Line>, b: nat, n: nat, k: nat)
    requires n < |lines| && k < |TopItems(lines, b, n)|
    ensures var items := TopItems(lines, b, n);
            && items[k] < n && RoleAt(lines, items[k]) == TopItem(b)
            && WholeText(lines, b, items[k], n + 1) ==
               WholeText(lines, b, items[k], n) + if k == |items| - 1 then Piece(lines, b, n) else ""
  {
    var items := TopItems(lines, b, n);
    ItemsAreApart(lines, b, n, k);
    if k < |items| - 1 {
      WholeTextStays(lines, b, items[k], n, items[k + 1]);
    } else {
      WholeTextTakes(lines, b, items[k], n);
    }
  }

  lemma ContinuationsHaveItems(lines: seq<Line>, b: nat, n: nat)
    requires n < |lines| && RoleAt(lines, n) == Continuation(b)
    ensures TopItems(lines, b, n) != []
  {
    BlocksAreContiguous(lines, n);
    TopItemsAreAll(lines, b, n);
  }

  lemma {:induction false} OneTextPerItem(lines: seq<Line>, b: nat, n: nat)
    requires n <= |lines|
    ensures |Texts(lines, b, n)| == |TopItems(lines, b, n)|
  {
    if n > 0 {
      OneTextPerItem(lines, b, n - 1);
      if RoleAt(lines, n - 1) == Continuation(b) { ContinuationsHaveItems(lines, b, n - 1); }
    }
  }

  // One line more, as the fold takes it.
  lemma TextsNext(lines: seq<Line>, b: nat, n: nat, k: nat)
    requires n < |lines| && k < |Texts(lines, b, n)|
    ensures k < |Texts(lines, b, n + 1)|
    ensures Texts(lines, b, n + 1)[k] ==
            Texts(lines, b, n)[k] + if k == |Texts(lines, b, n)| - 1 then Piece(lines, b, n) else ""
  {}

  /** The texts of a block are one for each of its top items, in order: the item's text, then a space and the stripped
      text of every continuation before the block's next top item. */
  lemma {:induction false} TextsOfTheItems(lines: seq<Line>, b: nat, n: nat, k: nat)
    requires n <= |lines| && k < |TopItems(lines, b, n)|
    ensures |Texts(lines, b, n)| == |TopItems(lines, b, n)|
    ensures var i := TopItems(lines, b, n)[k];
            i < n && RoleAt(lines, i) == TopItem(b) && Texts(lines, b, n)[k] == WholeText(lines, b, i, n)
  {
    OneTextPerItem(lines, b, n);
    OneTextPerItem(lines, b, n - 1);
    var before := TopItems(lines, b, n - 1);
    if k < |before| {
      TextsOfTheItems(lines, b, n - 1, k);
      TextsNext(lines, b, n - 1, k);
      WholeTextGrows(lines, b, n - 1, k);
    }
  }

  /** All members of a block are kept, or all are masked; and they are kept exactly when nothing introduces them as data
      and each item reads as a verdict together with all that continues it. */
  lemma BlocksAreAllOrNothing(verdict: string -> bool, lines: seq<Line>, b: nat, i: nat)
    requires b < |lines| && i < |lines| && IsMember(RoleAt(lines, i), b)
    ensures Masked(verdict, lines, i) ==
            if !IntroducedAsData(lines, b) &&
               forall k: nat :: k < |lines| && RoleAt(lines, k) == TopItem(b) ==>
                                  verdict(WholeText(lines, b, k, |lines|))
            then lines[i].text else MASK
  {
    VerdictsOfTheItems(verdict, lines, b);
  }

  lemma VerdictsOfTheItems(verdict: string -> bool, lines: seq<Line>, b: nat)
    ensures AllVerdicts(verdict, Texts(lines, b, |lines|)) <==>
            forall k: nat :: k < |lines| && RoleAt(lines, k) == TopItem(b) ==> verdict(WholeText(lines, b, k, |lines|))
  {
    var items, texts := TopItems(lines, b, |lines|), Texts(lines, b, |lines|);
    OneTextPerItem(lines, b, |lines|);
    TopItemsAreAll(lines, b, |lines|);
    if AllVerdicts(verdict, texts) {
      forall k: nat | k < |lines| && RoleAt(lines, k) == TopItem(b) ensures verdict(WholeText(lines, b, k, |lines|)) {
        var m :| 0 <= m < |items| && items[m] == k;
        TextsOfTheItems(lines, b, |lines|, m);
        assert texts[m] in texts;
      }
    } else {
      var m :| 0 <= m < |texts| && !verdict(texts[m]);
      TextsOfTheItems(lines, b, |lines|, m);
    }
  }

  /** At an input: a verdict with a line that continues it is read with that line, and both are masked. */
  lemma AContinuationIsRead(verdict: string -> bool)
    requires !verdict("looks good" + " " + "except the auth check")
    ensures var lines := [Line("- looks good", Some("looks good"), false, true, 0, "- looks good", false),
                          Line("  except the auth check", None, false, false, 2, "except the auth check", false)];
            Masked(verdict, lines, 0) == MASK && Masked(verdict, lines, 1) == MASK
  {
    var lines := [Line("- looks good", Some("looks good"), false, true, 0, "- looks good", false),
                  Line("  except the auth check", None, false, false, 2, "except the auth check", false)];
    assert RoleAt(lines, 0) == TopItem(0) && RoleAt(lines, 1) == Continuation(0);
    assert Tail(lines, 0, 2, 2) == "" && Tail(lines, 0, 1, 2) == " " + "except the auth check" + "";
    assert WholeText(lines, 0, 0, 2) == "looks good" + " " + "except the auth check";
    BlocksAreAllOrNothing(verdict, lines, 0, 0);
    BlocksAreAllOrNothing(verdict, lines, 0, 1);
  }

  /** A list is introduced as data exactly if there is a line above it that is not blank, and the nearest such line does
      not read as a verdict. */
  lemma {:induction false} IntroducedByTheNearestLine(lines: seq<Line>, first: nat)
    requires first <= |lines|
    ensures IntroducedAsData(lines, first) <==>
            exists j :: 0 <= j < first && !lines[j].blank && !lines[j].lead &&
                        forall k :: j < k < first ==> lines[k].blank
  {
    if first > 0 && lines[first - 1].blank {
      IntroducedByTheNearestLine(lines, first - 1);
      if j :| 0 <= j < first - 1 && !lines[j].blank && !lines[j].lead &&
              forall k :: j < k < first - 1 ==> lines[k].blank {
        assert forall k :: j < k < first ==> lines[k].blank;
      }
    }
  }

  /** Nested items are always masked, and no line outside a list, and no blank, is ever touched. */
  lemma OnlyListLinesAreTouched(verdict: string -> bool, lines: seq<Line>, i: nat)
    requires i < |lines| && (lines[i].item.Some? ==> !lines[i].blank)
    ensures RoleAt(lines, i).Nested? ==> Masked(verdict, lines, i) == MASK
    ensures Masked(verdict, lines, i) != lines[i].text ==> !RoleAt(lines, i).Outside? && !lines[i].blank
  {
    if lines[i].blank { assert !RoleAt(lines, i).TopItem? && !RoleAt(lines, i).Continuation?; }
  }

  // ---- What the loop has accumulated before line n ----------------------------------------------------

  datatype Open = Open(run: seq<nat>, members: seq<nat>, texts: seq<string>)

  ghost predicate Accumulated(lines: seq<Line>, n: nat, o: Open)
    requires n <= |lines|
  {
    var s := ScanBefore(lines, n);
    if s.NoList? then o == Open([], [], [])
    else
      && o.run != [] && o.run[0] == s.start
      && o.texts != [] && o.texts == Texts(lines, s.start, n)
      && (forall i :: i in o.members <==> 0 <= i < n && IsMember(RoleAt(lines, i), s.start))
  }

  // Line i as the loop has left it before line n: the members of the open list are still undecided.
  ghost predicate LeftAs(verdict: string -> bool, lines: seq<Line>, n: nat, i: nat, line: string)
    requires n <= |lines| && i < |lines|
  {
    var s := ScanBefore(lines, n);
    line == if i < n && !(s.InList? && IsMember(RoleAt(lines, i), s.start)) then Masked(verdict, lines, i)
            else lines[i].text
  }

  lemma {:induction false} NoTextsBefore(lines: seq<Line>, b: nat, n: nat)
    requires n <= b && n <= |lines|
    ensures Texts(lines, b, n) == []
  {
    if n > 0 {
      NoTextsBefore(lines, b, n - 1);
      if !RoleAt(lines, n - 1).Outside? { var b' := BlockAt(lines, n - 1); }
    }
  }

  // Later lines never join a list that is no longer open.
  lemma {:induction false} ClosedListsStayClosed(lines: seq<Line>, n: nat, j: nat, b: nat)
    requires n <= j <= |lines| && b < n
    requires ScanBefore(lines, n).InList? ==> ScanBefore(lines, n).start != b
    ensures ScanBefore(lines, j).InList? ==> ScanBefore(lines, j).start != b
  {
    if n < j { ClosedListsStayClosed(lines, n, j - 1, b); }
  }

  lemma {:induction false} TextsOfClosedList(lines: seq<Line>, n: nat, m: nat, b: nat)
    requires n <= m <= |lines| && b < n
    requires ScanBefore(lines, n).InList? ==> ScanBefore(lines, n).start != b
    ensures Texts(lines, b, m) == Texts(lines, b, n)
    decreases m
  {
    if n < m {
      TextsOfClosedList(lines, n, m - 1, b);
      ClosedListsStayClosed(lines, n, m - 1, b);
      assert !IsMember(RoleAt(lines, m - 1), b);
    }
  }

  // ---- One line of the loop ---------------------------------------------------------------------------

  // A top-level item: opens a list, or joins the open one.
  lemma AddItem(lines: seq<Line>, n: nat, o: Open)
    requires n < |lines| && Accumulated(lines, n, o) && RoleAt(lines, n).TopItem?
    ensures Accumulated(lines, n + 1, Open(o.run + [n], o.members + [n], Fold(o.texts, lines[n])))
  {
    if ScanBefore(lines, n).NoList? {
      NoTextsBefore(lines, n, n);
      forall i | 0 <= i < n ensures !IsMember(RoleAt(lines, i), n) {
        if !RoleAt(lines, i).Outside? { var b := BlockAt(lines, i); }
      }
    }
  }

  lemma AddContinuation(lines: seq<Line>, n: nat, o: Open)
    requires n < |lines| && Accumulated(lines, n, o) && RoleAt(lines, n).Continuation?
    ensures Accumulated(lines, n + 1, Open(o.run, o.members + [n], Fold(o.texts, lines[n])))
  {}

  lemma AddNothing(lines: seq<Line>, n: nat, o: Open)
    requires n < |lines| && Accumulated(lines, n, o) && (RoleAt(lines, n).Nested? || RoleAt(lines, n).Gap?)
    ensures Accumulated(lines, n + 1, o)
  {}

  // A line that keeps the list open settles nothing but a nested item.
  lemma StillLeftAs(verdict: string -> bool, lines: seq<Line>, n: nat, out: seq<string>)
    requires n < |lines| && |out| == |lines| && !RoleAt(lines, n).Outside?
    requires forall i :: 0 <= i < |lines| ==> LeftAs(verdict, lines, n, i, out[i])
    ensures var out' := if RoleAt(lines, n).Nested? then out[n := MASK] else out;
            forall i :: 0 <= i < |lines| ==> LeftAs(verdict, lines, n + 1, i, out'[i])
  {
    var out' := if RoleAt(lines, n).Nested? then out[n := MASK] else out;
    forall i | 0 <= i < |lines| ensures LeftAs(verdict, lines, n + 1, i, out'[i]) {
      assert LeftAs(verdict, lines, n, i, out[i]);
      if ScanBefore(lines, n).NoList? && i < n && !RoleAt(lines, i).Outside? { var b := BlockAt(lines, i); }
    }
  }

  // Masking the accumulated members, when the list does not read as a verdict.
  predicate Masks(verdict: string -> bool, lines: seq<Line>, o: Open)
    requires o.run != [] ==> o.run[0] <= |lines|
  {
    o.run != [] && (IntroducedAsData(lines, o.run[0]) || !AllVerdicts(verdict, o.texts))
  }

  // Flushing where the open list ends settles it: every line before is as masked, the rest untouched.
  lemma FlushSettles(verdict: string -> bool, lines: seq<Line>, n: nat, o: Open, i: nat, line: string)
    requires n <= |lines| && i < |lines| && Accumulated(lines, n, o)
    requires LeftAs(verdict, lines, n, i, line)
    requires n == |lines| || RoleAt(lines, n).Outside?
    requires o.run != [] ==> o.run[0] <= |lines|
    ensures (if Masks(verdict, lines, o) && i in o.members then MASK else line) ==
            if i < n then Masked(verdict, lines, i) else lines[i].text
  {
    var s := ScanBefore(lines, n);
    if s.InList? {
      StartIsEarlier(lines, n);
      if n < |lines| { TextsOfClosedList(lines, n + 1, |lines|, s.start); }
    }
  }

  // ---- The loop ------------------------------------------------------------------------------------

  // `_introduced_as_data`: walks up to the nearest non-blank line.
  method LeadIn(lines: seq<Line>, first: nat) returns (data: bool)
    requires first <= |lines|
    ensures data == IntroducedAsData(lines, first)
  {
    var j := first;
    while j > 0
      invariant 0 <= j <= first && IntroducedAsData(lines, first) == IntroducedAsData(lines, j)
    {
      if !lines[j - 1].blank { return !lines[j - 1].lead; }
      j := j - 1;
    }
    data := false;
  }

  method MaskMembers(out: seq<string>, members: seq<nat>) returns (masked: seq<string>)
    requires forall k :: 0 <= k < |members| ==> members[k] < |out|
    ensures |masked| == |out|
    ensures forall i: nat :: i < |out| ==> masked[i] == if i in members then MASK else out[i]
  {
    masked := out;
    for k := 0 to |members|
      invariant |masked| == |out|
      invariant forall i: nat :: i < |out| ==> masked[i] == if i in members[..k] then MASK else out[i]
    {
      assert members[..k + 1] == members[..k] + [members[k]];
      masked := masked[members[k] := MASK];
    }
    assert members[..|members|] == members;
  }

  // Ends the open list at line n: masks it whole, or keeps it whole.
  method Flush(verdict: string -> bool, lines: seq<Line>, ghost n: nat, o: Open, out: seq<string>)
    returns (flushed: seq<string>)
    requires n <= |lines| && |out| == |lines| && Accumulated(lines, n, o)
    requires forall i :: 0 <= i < |lines| ==> LeftAs(verdict, lines, n, i, out[i])
    requires n == |lines| || RoleAt(lines, n).Outside?
    ensures |flushed| == |lines|
    ensures forall i :: 0 <= i < |lines| ==> flushed[i] == if i < n then Masked(verdict, lines, i) else lines[i].text
  {
    flushed := out;
    MembersAreEarlier(lines, n, o);
    if o.run != [] {
      var data := LeadIn(lines, o.run[0]);
      if data || !AllVerdicts(verdict, o.texts) {
        flushed := MaskMembers(out, o.members);
      }
    }
    forall i | 0 <= i < |lines| ensures flushed[i] == if i < n then Masked(verdict, lines, i) else lines[i].text {
      FlushSettles(verdict, lines, n, o, i, out[i]);
    }
  }

  lemma MembersAreEarlier(lines: seq<Line>, n: nat, o: Open)
    requires n <= |lines| && Accumulated(lines, n, o)
    ensures forall k :: 0 <= k < |o.members| ==> o.members[k] < n
    ensures o.run != [] ==> o.run[0] < n
  {
    if ScanBefore(lines, n).InList? { StartIsEarlier(lines, n); }
    forall k | 0 <= k < |o.members| ensures o.members[k] < n { assert o.members[k] in o.members; }
  }

  // What the loop knows before line n.
  ghost predicate LoopState(verdict: string -> bool, lines: seq<Line>, n: nat, o: Open, runIndent: nat,
      afterBlank: bool, out: seq<string>)
    requires n <= |lines|
  {
    && Accumulated(lines, n, o)
    && (var s := ScanBefore(lines, n); s.InList? ==> s.indent == runIndent && s.afterBlank == afterBlank)
    && |out| == |lines| && forall i :: 0 <= i < |lines| ==> LeftAs(verdict, lines, n, i, out[i])
  }

  method Step(verdict: string -> bool, lines: seq<Line>, n: nat, o: Open, runIndent: nat, afterBlank: bool,
      out: seq<string>)
    returns (o': Open, runIndent': nat, afterBlank': bool, out': seq<string>)
    requires n < |lines| && LoopState(verdict, lines, n, o, runIndent, afterBlank, out)
    ensures LoopState(verdict, lines, n + 1, o', runIndent', afterBlank', out')
  {
    o', runIndent', afterBlank', out' := o, runIndent, false, out;
    var line := lines[n];
    if line.item.Some? {
      StillLeftAs(verdict, lines, n, out);
      if o.run != [] && line.indent > runIndent {
        AddNothing(lines, n, o);
        out' := out[n := MASK];
      } else {
        AddItem(lines, n, o);
        if o.run == [] { runIndent' := line.indent; }
        o' := Open(o.run + [n], o.members + [n], o.texts + [line.item.value]);
      }
    } else if o.run != [] && line.blank {
      StillLeftAs(verdict, lines, n, out);
      AddNothing(lines, n, o);
      afterBlank' := true;
    } else if o.run != [] && !line.starts && (!afterBlank || line.indent > runIndent) {
      StillLeftAs(verdict, lines, n, out);
      AddContinuation(lines, n, o);
      o' := Open(o.run, o.members + [n], Continued(o.texts, line.stripped));
    } else {
      out' := Flush(verdict, lines, n, o, out);
      o' := Open([], [], []);
    }
  }

  /** The loop: one open list at a time, settled where it ends. */
  method MaskLists(verdict: string -> bool, lines: seq<Line>) returns (out: seq<string>)
    ensures |out| == |lines|
    ensures forall i :: 0 <= i < |lines| ==> out[i] == Masked(verdict, lines, i)
  {
    out := seq(|lines|, i requires 0 <= i < |lines| => lines[i].text);
    var o, runIndent, afterBlank := Open([], [], []), 0, false;
    for n := 0 to |lines|
      invariant LoopState(verdict, lines, n, o, runIndent, afterBlank, out)
    {
      o, runIndent, afterBlank, out := Step(verdict, lines, n, o, runIndent, afterBlank, out);
    }
    out := Flush(verdict, lines, |lines|, o, out);
  }
}
