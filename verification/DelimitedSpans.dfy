/**
 What it means to mask delimited spans out of a sequence, independent of any scanner.

 `open` says which items open a span, and with what key; `closes` which items close it. The
 reference reading cuts the sequence into pieces, each a kept item or a whole span; `Mask` is
 the scanning form. Fenced blocks (over lines) and inline runs (over tokens) are both instances.
 */
module DelimitedSpans {
  import opened Options

  datatype Piece<T> = Kept(item: T) | Span(opener: T, content: seq<T>, closer: Option<T>)

  // ---- The reference reading ---------------------------------------------------------------

  ghost predicate ValidPiece<T, K>(open: T -> Option<K>, closes: (K, T) -> bool, p: Piece<T>, last: bool) {
    match p
    case Kept(x) => open(x).None?
    case Span(o, content, closer) =>
      && open(o).Some?
      && (forall x :: x in content ==> !closes(open(o).value, x))
      && (closer.Some? ==> closes(open(o).value, closer.value))
      && (closer.None? ==> last)
  }

  // Only the last span may be left unclosed.
  ghost predicate ValidPieces<T, K>(open: T -> Option<K>, closes: (K, T) -> bool, ps: seq<Piece<T>>) {
    ps == [] || (ValidPiece(open, closes, ps[0], |ps| == 1) && ValidPieces(open, closes, ps[1..]))
  }

  function ItemsOf<T>(p: Piece<T>): seq<T> {
    match p
    case Kept(x) => [x]
    case Span(o, content, closer) => [o] + content + (if closer.Some? then [closer.value] else [])
  }

  function Source<T>(ps: seq<Piece<T>>): seq<T> {
    if ps == [] then [] else ItemsOf(ps[0]) + Source(ps[1..])
  }

  // One entry per piece: the kept item, or None for a masked span.
  function Rendering<T>(ps: seq<Piece<T>>): seq<Option<T>> {
    if ps == [] then []
    else [if ps[0].Kept? then Some(ps[0].item) else None] + Rendering(ps[1..])
  }

  // ---- The scanning form -------------------------------------------------------------------

  // What follows the first item that closes k, None when nothing does.
  function AfterClose<T, K>(closes: (K, T) -> bool, k: K, items: seq<T>): (rest: Option<seq<T>>)
    ensures rest.Some? ==> |rest.value| < |items|
  {
    if items == [] then None
    else if closes(k, items[0]) then Some(items[1..])
    else AfterClose(closes, k, items[1..])
  }

  function Mask<T, K>(open: T -> Option<K>, closes: (K, T) -> bool, items: seq<T>): seq<Option<T>>
    decreases |items|
  {
    if items == [] then []
    else match open(items[0])
      case None => [Some(items[0])] + Mask(open, closes, items[1..])
      case Some(k) =>
        match AfterClose(closes, k, items[1..])
        case None => [None]
        case Some(rest) => [None] + Mask(open, closes, rest)
  }

  // ---- They agree ----------------------------------------------------------------------------

  lemma {:induction false} AfterContent<T, K>(closes: (K, T) -> bool, k: K, content: seq<T>, rest: seq<T>)
    requires forall x :: x in content ==> !closes(k, x)
    ensures AfterClose(closes, k, content + rest) == AfterClose(closes, k, rest)
  {
    if content == [] {
      assert content + rest == rest;
    } else {
      AfterContent(closes, k, content[1..], rest);
      assert (content + rest)[1..] == content[1..] + rest;
    }
  }

  // One valid piece in front: masking renders it and goes on behind it.
  lemma MaskRendersPiece<T, K>(open: T -> Option<K>, closes: (K, T) -> bool, p: Piece<T>, rest: seq<T>)
    requires ValidPiece(open, closes, p, rest == [])
    ensures Mask(open, closes, ItemsOf(p) + rest) == [if p.Kept? then Some(p.item) else None] + Mask(open, closes, rest)
  {
    var items := ItemsOf(p) + rest;
    match p
    case Kept(x) =>
      assert items[1..] == rest;
    case Span(o, content, closer) =>
      var tail := (if closer.Some? then [closer.value] else []) + rest;
      assert items[1..] == content + tail;
      AfterContent(closes, open(o).value, content, tail);
      if closer.Some? { assert tail[1..] == rest; }
  }

  /** However a sequence is cut into valid pieces, masking renders exactly those pieces. */
  lemma {:induction false} MaskRendersPieces<T, K>(open: T -> Option<K>, closes: (K, T) -> bool, ps: seq<Piece<T>>)
    requires ValidPieces(open, closes, ps)
    ensures Mask(open, closes, Source(ps)) == Rendering(ps)
  {
    if ps != [] {
      MaskRendersPieces(open, closes, ps[1..]);
      SourceIsNotEmpty(ps[1..]);
      MaskRendersPiece(open, closes, ps[0], Source(ps[1..]));
    }
  }

  lemma SourceIsNotEmpty<T>(ps: seq<Piece<T>>)
    ensures Source(ps) == [] <==> ps == []
  {}

  lemma {:induction false} CutAtClose<T, K>(closes: (K, T) -> bool, k: K, items: seq<T>)
    returns (content: seq<T>, closer: Option<T>)
    ensures forall x :: x in content ==> !closes(k, x)
    ensures match AfterClose(closes, k, items)
            case None => closer.None? && items == content
            case Some(rest) => closer.Some? && closes(k, closer.value) && items == content + [closer.value] + rest
  {
    if items == [] {
      content, closer := [], None;
    } else if closes(k, items[0]) {
      content, closer := [], Some(items[0]);
    } else {
      content, closer := CutAtClose(closes, k, items[1..]);
      content := [items[0]] + content;
    }
  }

  /** Every sequence can be cut into valid pieces, so the rendering above is defined for all of them. */
  lemma {:induction false} EverySequenceHasPieces<T, K>(open: T -> Option<K>, closes: (K, T) -> bool, items: seq<T>)
    returns (ps: seq<Piece<T>>)
    ensures ValidPieces(open, closes, ps) && Source(ps) == items
    decreases |items|
  {
    if items == [] {
      ps := [];
    } else if open(items[0]).None? {
      var rest := EverySequenceHasPieces(open, closes, items[1..]);
      ps := [Kept(items[0])] + rest;
    } else {
      var k := open(items[0]).value;
      var content, closer := CutAtClose(closes, k, items[1..]);
      var after := AfterClose(closes, k, items[1..]);
      var rest := [];
      if after.Some? { rest := EverySequenceHasPieces(open, closes, after.value); }
      ps := [Span(items[0], content, closer)] + rest;
      assert ps[1..] == rest;
    }
  }

  // ---- Consequences ----------------------------------------------------------------------------

  lemma {:induction false} NothingOpensAfterwards<T, K>(open: T -> Option<K>, closes: (K, T) -> bool, items: seq<T>)
    ensures forall x :: Some(x) in Mask(open, closes, items) ==> open(x).None? && x in items
    decreases |items|
  {
    if items != [] {
      if open(items[0]).None? {
        NothingOpensAfterwards(open, closes, items[1..]);
      } else {
        var k := open(items[0]).value;
        var content, closer := CutAtClose(closes, k, items[1..]);
        var after := AfterClose(closes, k, items[1..]);
        if after.Some? {
          NothingOpensAfterwards(open, closes, after.value);
          assert items == [items[0]] + (content + [closer.value] + after.value);
        }
      }
    }
  }

  lemma {:induction false} WithoutOpenersNothingIsMasked<T, K>(
    open: T -> Option<K>, closes: (K, T) -> bool, items: seq<T>)
    requires forall x :: x in items ==> open(x).None?
    ensures |Mask(open, closes, items)| == |items|
    ensures forall i :: 0 <= i < |items| ==> Mask(open, closes, items)[i] == Some(items[i])
  {
    if items != [] {
      WithoutOpenersNothingIsMasked(open, closes, items[1..]);
    }
  }
}
