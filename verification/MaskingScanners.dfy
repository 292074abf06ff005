/**
 The two span scanners of the approval reader (`github_approval.py`): fenced code blocks over
 lines, code spans and strike-through over characters. Each is an index loop, proved to be the
 masking of `DelimitedSpans` over its own items.
 */
module MaskingScanners {
  import opened Options
  import opened DelimitedSpans
  import opened Text

  const MASK: string := " x "

  function Repeat(c: char, n: nat): string {
    if n == 0 then "" else [c] + Repeat(c, n - 1)
  }

  lemma {:induction false} RunIsRepeated(s: string, i: nat, c: char, n: nat)
    requires i <= |s| && n <= RunLength(s, i, c)
    ensures s[i..i + n] == Repeat(c, n)
    decreases n
  {
    if n > 0 {
      RunIsRepeated(s, i + 1, c, n - 1);
      assert s[i..i + n] == [s[i]] + s[i + 1..i + n];
    }
  }

  // ---- Fenced code blocks ----------------------------------------------------------------------

  datatype Fence = Fence(mark: char, length: nat)

  // Up to three spaces, three or more of one fence character, then the info string.
  function FenceShape(line: string): Option<(Fence, string)> {
    var i := RunLength(line, 0, ' ');
    if i > 3 || i == |line| || (line[i] != '`' && line[i] != '~') || RunLength(line, i, line[i]) < 3 then None
    else Some((Fence(line[i], RunLength(line, i, line[i])), line[i + RunLength(line, i, line[i])..]))
  }

  // A backtick fence may not carry a backtick in its info string.
  function OpensFence(line: string): Option<Fence> {
    match FenceShape(line)
    case None => None
    case Some((fence, info)) => if fence.mark == '`' && '`' in info then None else Some(fence)
  }

  predicate IsBlankTail(s: string) { forall c | c in s :: c == ' ' || c == '\t' }

  // Nothing but a run of the fence character, at least as long as the opener's.
  predicate ClosesFence(fence: Fence, line: string) {
    var i := RunLength(line, 0, ' ');
    && i <= 3
    && fence.length <= RunLength(line, i, fence.mark)
    && IsBlankTail(line[i + RunLength(line, i, fence.mark)..])
  }

  // A fence line, cut up: at most three spaces, the run, and the rest.
  ghost predicate IsFenceCut(line: string, start: nat, fence: Fence) {
    && start <= 3 && start + fence.length <= |line|
    && (forall j :: 0 <= j < start ==> line[j] == ' ')
    && (forall j :: start <= j < start + fence.length ==> line[j] == fence.mark)
    && (start + fence.length < |line| ==> line[start + fence.length] != fence.mark)
  }

  /** A line opens a fence exactly if it is at most three spaces and then three or more of one fence character, with no
      backtick behind a run of those. */
  lemma OpensFenceExactly(line: string, fence: Fence)
    ensures OpensFence(line) == Some(fence) <==>
            exists start: nat ::
              && IsFenceCut(line, start, fence)
              && (fence.mark == '`' || fence.mark == '~') && fence.length >= 3
              && (fence.mark == '`' ==> '`' !in line[start + fence.length..])
  {
    var i := RunLength(line, 0, ' ');
    RunLengthExactly(line, 0, ' ', i);
    if i < |line| { RunLengthExactly(line, i, line[i], RunLength(line, i, line[i])); }
    if OpensFence(line) == Some(fence) { assert IsFenceCut(line, i, fence); }
    if start: nat :| IsFenceCut(line, start, fence) && (fence.mark == '`' || fence.mark == '~') && fence.length >= 3
                     && (fence.mark == '`' ==> '`' !in line[start + fence.length..]) {
      RunLengthExactly(line, 0, ' ', start);
      RunLengthExactly(line, start, line[start], fence.length);
    }
  }

  /** It closes one exactly if it is at most three spaces, then the same character at least as often, then blanks. */
  lemma ClosesFenceExactly(fence: Fence, line: string)
    requires fence.mark != ' ' && fence.length > 0
    ensures ClosesFence(fence, line) <==>
            exists start: nat, n: nat ::
              && n >= fence.length && IsFenceCut(line, start, Fence(fence.mark, n))
              && (forall j :: start + n <= j < |line| ==> line[j] == ' ' || line[j] == '\t')
  {
    var i := RunLength(line, 0, ' ');
    RunLengthExactly(line, 0, ' ', i);
    var n := RunLength(line, i, fence.mark);
    RunLengthExactly(line, i, fence.mark, n);
    assert forall j :: i + n <= j < |line| ==> line[j] == line[i + n..][j - (i + n)];
    if ClosesFence(fence, line) {
      assert IsFenceCut(line, i, Fence(fence.mark, n));
      forall j | i + n <= j < |line| ensures line[j] == ' ' || line[j] == '\t' {
        assert line[j] in line[i + n..];
      }
    }
    if start: nat, m: nat :| m >= fence.length && IsFenceCut(line, start, Fence(fence.mark, m))
                           && (forall j :: start + m <= j < |line| ==> line[j] == ' ' || line[j] == '\t') {
      RunLengthExactly(line, 0, ' ', start);
      RunLengthExactly(line, start, fence.mark, m);
    }
  }

  const FENCE_OPEN: string -> Option<Fence> := line => OpensFence(line)
  const FENCE_CLOSE: (Fence, string) -> bool := (fence, line) => ClosesFence(fence, line)

  function Unmasked(items: seq<Option<string>>): seq<string> {
    if items == [] then []
    else [if items[0].Some? then items[0].value else MASK] + Unmasked(items[1..])
  }

  function MaskFences(lines: seq<string>): seq<string> {
    Unmasked(Mask(FENCE_OPEN, FENCE_CLOSE, lines))
  }

  lemma AfterCloseSkips(fence: Fence, lines: seq<string>, i: nat)
    requires i < |lines|
    ensures AfterClose(FENCE_CLOSE, fence, lines[i..]) ==
            if ClosesFence(fence, lines[i]) then Some(lines[i + 1..])
            else AfterClose(FENCE_CLOSE, fence, lines[i + 1..])
  {
    assert lines[i..][1..] == lines[i + 1..];
  }

  lemma UnmaskedCons(item: Option<string>, rest: seq<Option<string>>)
    ensures Unmasked([item] + rest) == [if item.Some? then item.value else MASK] + Unmasked(rest)
  {
    assert ([item] + rest)[1..] == rest;
  }

  lemma MaskFencesAt(lines: seq<string>, i: nat)
    requires i < |lines|
    ensures MaskFences(lines[i..]) ==
            match OpensFence(lines[i])
            case None => [lines[i]] + MaskFences(lines[i + 1..])
            case Some(fence) =>
              match AfterClose(FENCE_CLOSE, fence, lines[i + 1..])
              case None => [MASK]
              case Some(rest) => [MASK] + MaskFences(rest)
  {
    assert lines[i..][1..] == lines[i + 1..];
    match OpensFence(lines[i])
    case None => UnmaskedCons(Some(lines[i]), Mask(FENCE_OPEN, FENCE_CLOSE, lines[i + 1..]));
    case Some(fence) =>
      match AfterClose(FENCE_CLOSE, fence, lines[i + 1..])
      case None =>
        var masked: seq<Option<string>> := [None];
        assert masked[1..] == [];
      case Some(rest) => UnmaskedCons(None, Mask(FENCE_OPEN, FENCE_CLOSE, rest));
  }

  lemma Onward(out: seq<string>, ahead: seq<string>, whole: seq<string>, item: string, rest: seq<string>)
    requires out + ahead == whole && ahead == [item] + rest
    ensures out + [item] + rest == whole
  {}

  /** `_mask_fenced_blocks`. */
  method MaskFencedBlocks(lines: seq<string>) returns (out: seq<string>)
    ensures out == MaskFences(lines)
  {
    out := [];
    var i := 0;
    assert lines[0..] == lines;
    while i < |lines|
      invariant 0 <= i <= |lines|
      invariant out + MaskFences(lines[i..]) == MaskFences(lines)
    {
      MaskFencesAt(lines, i);
      var opener := OpensFence(lines[i]);
      ghost var ahead := MaskFences(lines[i..]);
      var item := if opener.None? then lines[i] else MASK;
      i := i + 1;
      if opener.Some? { i := CloseOfFence(lines, i, opener.value); }
      Onward(out, ahead, MaskFences(lines), item, MaskFences(lines[i..]));
      out := out + [item];
    }
  }

  // The line after the closing fence, or the end.
  method CloseOfFence(lines: seq<string>, start: nat, fence: Fence) returns (i: nat)
    requires start <= |lines|
    ensures start <= i <= |lines|
    ensures match AfterClose(FENCE_CLOSE, fence, lines[start..])
            case None => i == |lines|
            case Some(rest) => lines[i..] == rest
  {
    i := start;
    while i < |lines| && !ClosesFence(fence, lines[i])
      invariant start <= i <= |lines|
      invariant AfterClose(FENCE_CLOSE, fence, lines[start..]) == AfterClose(FENCE_CLOSE, fence, lines[i..])
    {
      AfterCloseSkips(fence, lines, i);
      i := i + 1;
    }
    if i < |lines| {
      AfterCloseSkips(fence, lines, i);
      i := i + 1;
    }
  }

  lemma MaskIsNoFence()
    ensures OpensFence(MASK).None?
  {
    assert MASK[0] == ' ' && MASK[1] == 'x';
    assert RunLength(MASK, 0, ' ') == 1;
  }

  lemma {:induction false} UnmaskedLines(items: seq<Option<string>>)
    ensures forall l :: l in Unmasked(items) ==> l == MASK || Some(l) in items
  {
    if items != [] {
      UnmaskedLines(items[1..]);
    }
  }

  lemma {:induction false} UnmaskedKept(items: seq<Option<string>>, lines: seq<string>)
    requires |items| == |lines| && forall i :: 0 <= i < |items| ==> items[i] == Some(lines[i])
    ensures Unmasked(items) == lines
  {
    if items != [] {
      UnmaskedKept(items[1..], lines[1..]);
    }
  }

  /** No line of the output opens a fence, so masking again changes nothing. */
  lemma MaskedFencesAreGone(lines: seq<string>)
    ensures forall l :: l in MaskFences(lines) ==> OpensFence(l).None?
    ensures MaskFences(MaskFences(lines)) == MaskFences(lines)
  {
    var out := MaskFences(lines);
    MaskIsNoFence();
    NothingOpensAfterwards(FENCE_OPEN, FENCE_CLOSE, lines);
    UnmaskedLines(Mask(FENCE_OPEN, FENCE_CLOSE, lines));
    WithoutOpenersNothingIsMasked(FENCE_OPEN, FENCE_CLOSE, out);
    UnmaskedKept(Mask(FENCE_OPEN, FENCE_CLOSE, out), out);
  }

  /** One mask line per block, every other line as it was. */
  lemma FencesAreMaskedByBlock(lines: seq<string>) returns (pieces: seq<Piece<string>>)
    ensures ValidPieces(FENCE_OPEN, FENCE_CLOSE, pieces) && Source(pieces) == lines
    ensures MaskFences(lines) == Unmasked(Rendering(pieces))
  {
    pieces := EverySequenceHasPieces(FENCE_OPEN, FENCE_CLOSE, lines);
    MaskRendersPieces(FENCE_OPEN, FENCE_CLOSE, pieces);
  }

  // ---- Inline runs -------------------------------------------------------------------------------

  // A code span is delimited by a whole run of backticks, a strike-through by one or two tildes.
  datatype Delimiter = Backticks | Tildes
  {
    function Mark(): char { if Backticks? then '`' else '~' }
  }

  datatype Token = Plain(c: char) | Run(length: nat)

  // The length of the delimiter match at position i.
  function MatchLength(d: Delimiter, text: string, i: nat): (n: nat)
    requires i <= |text|
    ensures i + n <= |text| && (n > 0 <==> i < |text| && text[i] == d.Mark())
  {
    var n := RunLength(text, i, d.Mark());
    if d.Tildes? && n > 2 then 2 else n
  }

  function Tokens(d: Delimiter, text: string, i: nat): (tokens: seq<Token>)
    requires i <= |text|
    decreases |text| - i
  {
    if i == |text| then []
    else if MatchLength(d, text, i) > 0 then
      [Run(MatchLength(d, text, i))] + Tokens(d, text, i + MatchLength(d, text, i))
    else [Plain(text[i])] + Tokens(d, text, i + 1)
  }

  const RUN_OPEN: Token -> Option<nat> := (t: Token) => if t.Run? then Some(t.length) else None
  const RUN_CLOSE: (nat, Token) -> bool := (n: nat, t: Token) => t == Run(n)

  function Written(items: seq<Option<Token>>): string {
    if items == [] then ""
    else (match items[0] case None => MASK case Some(Run(_)) => "" case Some(Plain(c)) => [c]) + Written(items[1..])
  }

  function MaskTokens(tokens: seq<Token>): string {
    Written(Mask(RUN_OPEN, RUN_CLOSE, tokens))
  }

  function MaskInline(d: Delimiter, text: string): string {
    MaskTokens(Tokens(d, text, 0))
  }

  // The first position from i on where the delimiter matches, or the end of the text.
  function Search(d: Delimiter, text: string, i: nat): (p: nat)
    requires i <= |text|
    ensures i <= p <= |text| && (p < |text| ==> MatchLength(d, text, p) > 0)
    decreases |text| - i
  {
    if i == |text| || MatchLength(d, text, i) > 0 then i else Search(d, text, i + 1)
  }

  // What the scan makes of the text from position i on.
  function MaskFrom(d: Delimiter, text: string, i: nat): string
    requires i <= |text|
  {
    MaskTokens(Tokens(d, text, i))
  }

  lemma MaskOfPlain(c: char, rest: seq<Token>)
    ensures MaskTokens([Plain(c)] + rest) == [c] + MaskTokens(rest)
  {
    assert ([Plain(c)] + rest)[1..] == rest;
    WrittenCons(Some(Plain(c)), Mask(RUN_OPEN, RUN_CLOSE, rest));
  }

  // A character that is no delimiter is kept.
  lemma PlainIsKept(d: Delimiter, text: string, i: nat)
    requires i < |text| && MatchLength(d, text, i) == 0
    ensures MaskFrom(d, text, i) == [text[i]] + MaskFrom(d, text, i + 1)
  {
    MaskOfPlain(text[i], Tokens(d, text, i + 1));
  }

  lemma SliceCons(text: string, i: nat, p: nat, rest: string)
    requires i < p <= |text|
    ensures [text[i]] + (text[i + 1..p] + rest) == text[i..p] + rest
  {
    assert [text[i]] + text[i + 1..p] == text[i..p];
  }

  lemma {:induction false} PlainUntilSearch(d: Delimiter, text: string, i: nat)
    requires i <= |text|
    ensures MaskFrom(d, text, i) == text[i..Search(d, text, i)] + MaskFrom(d, text, Search(d, text, i))
    decreases |text| - i
  {
    if i < |text| && MatchLength(d, text, i) == 0 {
      PlainUntilSearch(d, text, i + 1);
      PlainIsKept(d, text, i);
      SliceCons(text, i, Search(d, text, i), MaskFrom(d, text, Search(d, text, i)));
    }
  }

  lemma {:induction false} NothingClosesUntilSearch(d: Delimiter, text: string, i: nat, n: nat)
    requires i <= |text|
    ensures AfterClose(RUN_CLOSE, n, Tokens(d, text, i)) ==
            AfterClose(RUN_CLOSE, n, Tokens(d, text, Search(d, text, i)))
    decreases |text| - i
  {
    if i < |text| && MatchLength(d, text, i) == 0 {
      NothingClosesUntilSearch(d, text, i + 1, n);
      assert Tokens(d, text, i)[1..] == Tokens(d, text, i + 1);
    }
  }

  lemma WrittenCons(item: Option<Token>, rest: seq<Option<Token>>)
    ensures Written([item] + rest) ==
            (match item case None => MASK case Some(Run(_)) => "" case Some(Plain(c)) => [c]) + Written(rest)
  {
    assert ([item] + rest)[1..] == rest;
  }

  // A run opens a span: up to its closing run it becomes one mask.
  lemma MaskOfRun(n: nat, rest: seq<Token>)
    ensures MaskTokens([Run(n)] + rest) ==
            match AfterClose(RUN_CLOSE, n, rest)
            case None => MASK
            case Some(after) => MASK + MaskTokens(after)
  {
    var all := [Run(n)] + rest;
    assert all[1..] == rest && RUN_OPEN(all[0]) == Some(n);
    match AfterClose(RUN_CLOSE, n, rest)
    case None =>
      var masked: seq<Option<Token>> := [None];
      assert masked[1..] == [] && MASK + "" == MASK;
    case Some(after) => WrittenCons(None, Mask(RUN_OPEN, RUN_CLOSE, after));
  }

  lemma TokensAtRun(d: Delimiter, text: string, p: nat)
    requires p < |text| && MatchLength(d, text, p) > 0
    ensures Tokens(d, text, p) == [Run(MatchLength(d, text, p))] + Tokens(d, text, p + MatchLength(d, text, p))
  {}

  lemma MaskOfTokens(tokens: seq<Token>, n: nat, rest: seq<Token>, after: Option<seq<Token>>)
    requires tokens == [Run(n)] + rest && AfterClose(RUN_CLOSE, n, rest) == after
    ensures MaskTokens(tokens) == match after case None => MASK case Some(left) => MASK + MaskTokens(left)
  {
    MaskOfRun(n, rest);
  }

  lemma MaskAtRun(d: Delimiter, text: string, p: nat)
    requires p < |text| && MatchLength(d, text, p) > 0
    ensures var n := MatchLength(d, text, p);
            MaskFrom(d, text, p) ==
            match AfterSpan(d, text, p + n, n)
            case None => MASK
            case Some(rest) => MASK + MaskTokens(rest)
  {
    var n := MatchLength(d, text, p);
    TokensAtRun(d, text, p);
    MaskOfTokens(Tokens(d, text, p), n, Tokens(d, text, p + n), AfterSpan(d, text, p + n, n));
  }

  lemma AfterRun(d: Delimiter, text: string, p: nat, n: nat)
    requires p < |text| && MatchLength(d, text, p) > 0
    ensures var m := MatchLength(d, text, p);
            AfterClose(RUN_CLOSE, n, Tokens(d, text, p)) ==
            if m == n then Some(Tokens(d, text, p + m)) else AfterClose(RUN_CLOSE, n, Tokens(d, text, p + m))
  {
    assert Tokens(d, text, p)[1..] == Tokens(d, text, p + MatchLength(d, text, p));
  }

  // The text from pos to the next opening run, and the mask that stands for the span there.
  function Chunk(d: Delimiter, text: string, pos: nat): string
    requires pos <= |text|
  {
    text[pos..Search(d, text, pos)] + MASK
  }

  // The same, with what the scan makes of the span there.
  lemma ChunkGoesOn(d: Delimiter, text: string, pos: nat, rest: string)
    requires pos <= |text| && MaskFrom(d, text, Search(d, text, pos)) == MASK + rest
    ensures MaskFrom(d, text, pos) == Chunk(d, text, pos) + rest
  {
    PlainUntilSearch(d, text, pos);
  }

  // Without an opening run the rest of the text is kept.
  lemma MaskNoSpan(d: Delimiter, text: string, pos: nat)
    requires pos <= |text| && Search(d, text, pos) == |text|
    ensures MaskFrom(d, text, pos) == text[pos..]
  {
    PlainUntilSearch(d, text, pos);
  }

  lemma Advance(out: string, ahead: string, whole: string, chunk: string, rest: string)
    requires out + ahead == whole && ahead == chunk + rest
    ensures out + chunk + rest == whole
  {}

  // A span that closes before `next`, or at all.
  lemma MaskOfSpan(d: Delimiter, text: string, opener: nat, closed: bool, next: nat)
    requires opener < |text| && MatchLength(d, text, opener) > 0 && next <= |text|
    requires var length := MatchLength(d, text, opener);
             AfterSpan(d, text, opener + length, length) == if closed then Some(Tokens(d, text, next)) else None
    ensures MaskFrom(d, text, opener) == MASK + if closed then MaskFrom(d, text, next) else ""
  {
    MaskAtRun(d, text, opener);
  }

  // One round: the chunk up to the next span is written, and the scan goes on behind the span.
  method TakeSpan(d: Delimiter, text: string, pos: nat) returns (closed: bool, next: nat, chunk: string)
    requires pos <= |text| && Search(d, text, pos) < |text|
    ensures closed ==> pos < next <= |text|
    ensures MaskFrom(d, text, pos) == if closed then chunk + MaskFrom(d, text, next) else chunk
  {
    var opener := Search(d, text, pos);
    var length := MatchLength(d, text, opener);
    closed, next := SkipToCloser(d, text, opener + length, length);
    chunk := Chunk(d, text, pos);
    MaskOfSpan(d, text, opener, closed, next);
    ChunkGoesOn(d, text, pos, if closed then MaskFrom(d, text, next) else "");
  }

  /** `_mask_inline_runs`. */
  method MaskInlineRuns(d: Delimiter, text: string) returns (out: string)
    ensures out == MaskInline(d, text)
  {
    out := "";
    var pos := 0;
    var opener := Search(d, text, 0);
    while opener < |text|
      invariant pos <= |text| && opener == Search(d, text, pos)
      invariant out + MaskFrom(d, text, pos) == MaskInline(d, text)
      decreases |text| - pos
    {
      var closed, next, chunk := TakeSpan(d, text, pos);
      if !closed { return out + chunk; }
      Advance(out, MaskFrom(d, text, pos), MaskInline(d, text), chunk, MaskFrom(d, text, next));
      out, pos := out + chunk, next;
      opener := Search(d, text, pos);
    }
    MaskNoSpan(d, text, pos);
    out := out + text[pos..];
  }

  // What follows the closing run of a span, looking from position i.
  function AfterSpan(d: Delimiter, text: string, i: nat, length: nat): Option<seq<Token>>
    requires i <= |text|
  {
    AfterClose(RUN_CLOSE, length, Tokens(d, text, i))
  }

  lemma AfterSpanStep(d: Delimiter, text: string, i: nat, length: nat)
    requires i <= |text|
    ensures var p := Search(d, text, i);
            if p == |text| then AfterSpan(d, text, i, length).None?
            else
              var m := MatchLength(d, text, p);
              AfterSpan(d, text, i, length) ==
              if m == length then Some(Tokens(d, text, p + m)) else AfterSpan(d, text, p + m, length)
  {
    NothingClosesUntilSearch(d, text, i, length);
    var p := Search(d, text, i);
    if p < |text| { AfterRun(d, text, p, length); }
  }

  // The position after the run that closes a span of this length, if there is one.
  method SkipToCloser(d: Delimiter, text: string, start: nat, length: nat) returns (closed: bool, pos: nat)
    requires start <= |text|
    ensures start <= pos <= |text|
    ensures AfterSpan(d, text, start, length) == if closed then Some(Tokens(d, text, pos)) else None
  {
    pos := start;
    AfterSpanStep(d, text, pos, length);
    var closer := Search(d, text, pos);
    while closer < |text|
      invariant start <= pos <= closer <= |text| && closer == Search(d, text, pos)
      invariant AfterSpan(d, text, start, length) == AfterSpan(d, text, pos, length)
      decreases |text| - closer
    {
      AfterSpanStep(d, text, pos, length);
      pos := closer + MatchLength(d, text, closer);
      if MatchLength(d, text, closer) == length { return true, pos; }
      closer := Search(d, text, pos);
    }
    AfterSpanStep(d, text, pos, length);
    closed := false;
  }

  lemma {:induction false} TextWithoutMarkIsKept(d: Delimiter, text: string, i: nat)
    requires i <= |text|
    requires forall k :: i <= k < |text| ==> text[k] != d.Mark()
    ensures MaskFrom(d, text, i) == text[i..]
    decreases |text| - i
  {
    if i < |text| {
      TextWithoutMarkIsKept(d, text, i + 1);
      PlainIsKept(d, text, i);
    }
  }

  lemma {:induction false} PlainTokensAreNotMarks(d: Delimiter, text: string, i: nat)
    requires i <= |text|
    ensures forall t :: t in Tokens(d, text, i) && t.Plain? ==> t.c != d.Mark()
    decreases |text| - i
  {
    if i < |text| {
      if MatchLength(d, text, i) > 0 { PlainTokensAreNotMarks(d, text, i + MatchLength(d, text, i)); }
      else { PlainTokensAreNotMarks(d, text, i + 1); }
    }
  }

  lemma {:induction false} WrittenCharacters(items: seq<Option<Token>>, mark: char)
    requires mark !in MASK
    requires forall t :: Some(t) in items && t.Plain? ==> t.c != mark
    ensures mark !in Written(items)
  {
    if items != [] {
      assert items[0] in items;
      forall t | Some(t) in items[1..] && t.Plain? ensures t.c != mark { assert Some(t) in items; }
      WrittenCharacters(items[1..], mark);
    }
  }

  /** No delimiter character is left, so masking again changes nothing. */
  lemma MaskedRunsAreGone(d: Delimiter, text: string)
    ensures d.Mark() !in MaskInline(d, text)
    ensures MaskInline(d, MaskInline(d, text)) == MaskInline(d, text)
  {
    var tokens := Tokens(d, text, 0);
    NothingOpensAfterwards(RUN_OPEN, RUN_CLOSE, tokens);
    PlainTokensAreNotMarks(d, text, 0);
    assert MASK == [' ', 'x', ' '];
    WrittenCharacters(Mask(RUN_OPEN, RUN_CLOSE, tokens), d.Mark());
    var out := MaskInline(d, text);
    forall k | 0 <= k < |out| ensures out[k] != d.Mark() { assert out[k] in out; }
    TextWithoutMarkIsKept(d, out, 0);
    assert out[0..] == out;
  }

  /** One mask per span closed by a run of exactly the opening length, the text around it kept. */
  lemma RunsAreMaskedBySpan(d: Delimiter, text: string) returns (pieces: seq<Piece<Token>>)
    ensures ValidPieces(RUN_OPEN, RUN_CLOSE, pieces) && Source(pieces) == Tokens(d, text, 0)
    ensures MaskInline(d, text) == Written(Rendering(pieces))
  {
    pieces := EverySequenceHasPieces(RUN_OPEN, RUN_CLOSE, Tokens(d, text, 0));
    MaskRendersPieces(RUN_OPEN, RUN_CLOSE, pieces);
  }

  // The characters a token stands for: tokenising loses nothing.
  function Spelled(d: Delimiter, tokens: seq<Token>): string {
    if tokens == [] then ""
    else SpelledToken(d, tokens[0]) + Spelled(d, tokens[1..])
  }

  function SpelledToken(d: Delimiter, t: Token): string {
    match t case Plain(c) => [c] case Run(n) => Repeat(d.Mark(), n)
  }

  lemma SpelledCons(d: Delimiter, t: Token, rest: seq<Token>)
    ensures Spelled(d, [t] + rest) == SpelledToken(d, t) + Spelled(d, rest)
  {
    assert ([t] + rest)[1..] == rest;
  }

  // The first token stands for the text up to the next one.
  lemma FirstToken(d: Delimiter, text: string, i: nat) returns (t: Token, next: nat)
    requires i < |text|
    ensures i < next <= |text| && SpelledToken(d, t) == text[i..next]
    ensures Tokens(d, text, i) == [t] + Tokens(d, text, next)
  {
    var n := MatchLength(d, text, i);
    t := if n > 0 then Run(n) else Plain(text[i]);
    next := if n > 0 then i + n else i + 1;
    if n > 0 { RunIsRepeated(text, i, d.Mark(), n); }
  }

  lemma {:induction false} TokensSpellTheText(d: Delimiter, text: string, i: nat)
    requires i <= |text|
    ensures Spelled(d, Tokens(d, text, i)) == text[i..]
    decreases |text| - i
  {
    if i < |text| {
      var t, next := FirstToken(d, text, i);
      SpelledCons(d, t, Tokens(d, text, next));
      TokensSpellTheText(d, text, next);
      assert text[i..] == text[i..next] + text[next..];
    }
  }

  // A plain token is no mark, and a run goes on as far as its delimiter lets it: all the way for backticks, two for
  // tildes.
  predicate IsWholeAt(d: Delimiter, tokens: seq<Token>, k: nat)
    requires k < |tokens|
  {
    match tokens[k]
    case Plain(c) => c != d.Mark()
    case Run(n) =>
      && n >= 1 && (d.Tildes? ==> n <= 2)
      && (k + 1 < |tokens| && tokens[k + 1].Run? ==> d.Tildes? && n == 2)
  }

  /** With the text they spell, this says which tokens they are. */
  lemma {:induction false} RunsAreWhole(d: Delimiter, text: string, i: nat, k: nat)
    requires i <= |text| && k < |Tokens(d, text, i)|
    ensures IsWholeAt(d, Tokens(d, text, i), k)
    decreases |text| - i
  {
    var t, next := FirstToken(d, text, i);
    if k > 0 {
      RunsAreWhole(d, text, next, k - 1);
    } else if t.Run? {
      RunLengthExactly(text, i, d.Mark(), RunLength(text, i, d.Mark()));
    }
  }
}
