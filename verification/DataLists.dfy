/**
 The list rule of the approval reader (`_mask_data_lists` in `github_approval.py`): a list block
 is kept only when all of it reads as a verdict, and is otherwise masked whole.

 These are the recognisers of single lines; the loop over recognised lines, and what it must
 produce, is `ListBlocks`. The approval vocabulary itself is a parameter.
 */
module DataLists {
  import opened ListBlocks
  import opened MaskingScanners
  import opened Options
  import opened Text

  // Which texts read end to end as a verdict, and which lead-in lines do.
  datatype Vocabulary = Vocabulary(verdict: string -> bool, lead: string -> bool)

  // ---- Recognisers -------------------------------------------------------------------------------

  predicate IsDigit(c: char) { '0' <= c <= '9' }

  predicate IsTabOrSpace(c: char) { c == ' ' || c == '\t' }

  // The first position from i on that `p` does not cover.
  function Skip(p: char -> bool, s: string, i: nat): (k: nat)
    requires i <= |s|
    ensures i <= k <= |s|
    ensures k < |s| ==> !p(s[k])
    decreases |s| - i
  {
    if i < |s| && p(s[i]) then Skip(p, s, i + 1) else i
  }

  function NumberValue(digits: string): nat {
    if digits == "" then 0
    else
      var last := digits[|digits| - 1];
      NumberValue(digits[..|digits| - 1]) * 10 + (if IsDigit(last) then (last - '0') as int else 0)
  }

  // A list marker and the text after it; `number` and `delim` only for an ordered item.
  datatype Marked = Marked(number: Option<nat>, delim: Option<char>, text: string)

  // The text of an item whose marker ends at i: blanks, then something.
  function ItemText(line: string, i: nat): Option<string>
    requires i <= |line|
  {
    var j := Skip(IsTabOrSpace, line, i);
    if j > i && j < |line| && !IsSpace(line[j]) then Some(line[j..]) else None
  }

  function ParseItem(line: string): Option<Marked> {
    var i := Skip(IsTabOrSpace, line, 0);
    if i < |line| && (line[i] == '-' || line[i] == '*' || line[i] == '+') then
      var text := ItemText(line, i + 1);
      if text.Some? then Some(Marked(None, None, text.value)) else None
    else
      var j := Skip(IsDigit, line, i);
      if 1 <= j - i <= 9 && j < |line| && (line[j] == '.' || line[j] == ')') then
        var text := ItemText(line, j + 1);
        if text.Some? then Some(Marked(Some(NumberValue(line[i..j])), Some(line[j]), text.value)) else None
      else None
  }

  // Heading, quote or thematic break.
  predicate StartsOwnBlock(line: string) {
    var i := Skip(IsTabOrSpace, line, 0);
    i < |line| && (line[i] == '>' || IsHeading(line, i) || IsThematicBreak(line, i))
  }

  predicate IsHeading(line: string, i: nat)
    requires i < |line|
  {
    var h := i + RunLength(line, i, '#');
    1 <= h - i <= 6 && h < |line| && IsTabOrSpace(line[h])
  }

  predicate IsThematicBreak(line: string, i: nat)
    requires i < |line|
  {
    var n := RunLength(line, i, line[i]);
    (line[i] == '-' || line[i] == '*' || line[i] == '_') && n >= 3 && i + n == |line|
  }

  predicate EndsAParagraph(line: string) { IsBlank(line) || Stripped(line) == "x" }

  // An ordered item above with the same delimiter, reached over its own continuations.
  predicate ContinuesOrdered(lines: seq<string>, j: nat, delim: Option<char>)
    requires j <= |lines|
  {
    j > 0 && !EndsAParagraph(lines[j - 1]) &&
    (var above := ParseItem(lines[j - 1]);
     if above.Some? then above.value.delim == delim else ContinuesOrdered(lines, j - 1, delim))
  }

  // `_list_item`: an ordered item not numbered 1 may not interrupt a paragraph.
  function ListItem(lines: seq<string>, i: nat): Option<string>
    requires i < |lines|
  {
    match ParseItem(lines[i])
    case None => None
    case Some(m) =>
      if m.number.None? || m.number == Some(1) || i == 0 || EndsAParagraph(lines[i - 1])
         || ContinuesOrdered(lines, i, m.delim)
      then Some(m.text) else None
  }

  predicate StartsABlock(lines: seq<string>, i: nat)
    requires i < |lines|
  {
    StartsOwnBlock(lines[i]) || FenceShape(lines[i]).Some? || ListItem(lines, i).Some?
  }

  // ---- What they recognise ------------------------------------------------------------------------

  lemma {:induction false} SkipExactly(p: char -> bool, s: string, i: nat, k: nat)
    requires i <= |s|
    ensures Skip(p, s, i) == k <==>
            i <= k <= |s| && (forall j :: i <= j < k ==> p(s[j])) && (k < |s| ==> !p(s[k]))
    decreases |s| - i
  {
    if i < |s| && p(s[i]) { SkipExactly(p, s, i + 1, k); }
  }

  // Tabs and spaces up to `pad`, and between a marker that ends at `mark` and the text, which is not blank.
  ghost predicate IsItemCut(line: string, pad: nat, mark: nat, start: nat) {
    && pad < mark < start < |line| && !IsSpace(line[start])
    && (forall j :: 0 <= j < pad || mark <= j < start ==> IsTabOrSpace(line[j]))
  }

  ghost predicate IsBullet(line: string, pad: nat, start: nat) {
    IsItemCut(line, pad, pad + 1, start) && line[pad] in "-*+"
  }

  // One to nine digits up to `delim`, a dot or a parenthesis.
  ghost predicate IsOrdered(line: string, pad: nat, delim: nat, start: nat) {
    && IsItemCut(line, pad, delim + 1, start) && 1 <= delim - pad <= 9
    && (forall j :: pad <= j < delim ==> IsDigit(line[j])) && line[delim] in ".)"
  }

  lemma ItemTextExactly(line: string, i: nat, start: nat)
    requires i <= |line|
    ensures (ItemText(line, i).Some? && Skip(IsTabOrSpace, line, i) == start) <==>
            i < start < |line| && !IsSpace(line[start]) && forall j :: i <= j < start ==> IsTabOrSpace(line[j])
    ensures ItemText(line, i).Some? ==> ItemText(line, i).value == line[Skip(IsTabOrSpace, line, i)..]
  {
    SkipExactly(IsTabOrSpace, line, i, start);
  }

  lemma BulletIsParsed(line: string, pad: nat, start: nat)
    requires IsBullet(line, pad, start)
    ensures ParseItem(line) == Some(Marked(None, None, line[start..]))
  {
    SkipExactly(IsTabOrSpace, line, 0, pad);
    ItemTextExactly(line, pad + 1, start);
  }

  lemma OrderedIsParsed(line: string, pad: nat, delim: nat, start: nat)
    requires IsOrdered(line, pad, delim, start)
    ensures ParseItem(line) == Some(Marked(Some(NumberValue(line[pad..delim])), Some(line[delim]), line[start..]))
  {
    SkipExactly(IsTabOrSpace, line, 0, pad);
    SkipExactly(IsDigit, line, pad, delim);
    ItemTextExactly(line, delim + 1, start);
  }

  // Where the marker and the text of a recognised item are.
  lemma ParsedIsCut(line: string)
    requires ParseItem(line).Some?
    ensures var m := ParseItem(line).value;
            if m.number.None? then
              m.delim.None? && exists pad: nat, start: nat :: IsBullet(line, pad, start) && m.text == line[start..]
            else
              exists pad: nat, delim: nat, start: nat ::
                && IsOrdered(line, pad, delim, start) && m.text == line[start..]
                && m.number == Some(NumberValue(line[pad..delim])) && m.delim == Some(line[delim])
  {
    var pad := Skip(IsTabOrSpace, line, 0);
    SkipExactly(IsTabOrSpace, line, 0, pad);
    if line[pad] in "-*+" {
      ItemTextExactly(line, pad + 1, Skip(IsTabOrSpace, line, pad + 1));
      assert IsBullet(line, pad, Skip(IsTabOrSpace, line, pad + 1));
    } else {
      var delim := Skip(IsDigit, line, pad);
      SkipExactly(IsDigit, line, pad, delim);
      ItemTextExactly(line, delim + 1, Skip(IsTabOrSpace, line, delim + 1));
      assert IsOrdered(line, pad, delim, Skip(IsTabOrSpace, line, delim + 1));
    }
  }

  /** A line parses as an item exactly if it is blanks, a bullet or a short number with a delimiter, blanks, and a text;
      the item is what the cut says. */
  lemma ParsesExactly(line: string, m: Marked)
    ensures ParseItem(line) == Some(m) <==>
            || (exists pad: nat, start: nat :: IsBullet(line, pad, start) && m == Marked(None, None, line[start..]))
            || (exists pad: nat, delim: nat, start: nat ::
                  IsOrdered(line, pad, delim, start) &&
                  m == Marked(Some(NumberValue(line[pad..delim])), Some(line[delim]), line[start..]))
  {
    if ParseItem(line) == Some(m) { ParsedIsCut(line); }
    if pad: nat, start: nat :| IsBullet(line, pad, start) && m == Marked(None, None, line[start..]) {
      BulletIsParsed(line, pad, start);
    }
    if pad: nat, delim: nat, start: nat :| (
      IsOrdered(line, pad, delim, start) &&
      m == Marked(Some(NumberValue(line[pad..delim])), Some(line[delim]), line[start..])) {
      OrderedIsParsed(line, pad, delim, start);
    }
  }

  lemma {:induction false} IsZeroExactly(digits: string)
    requires forall j :: 0 <= j < |digits| ==> IsDigit(digits[j])
    ensures NumberValue(digits) == 0 <==> forall j :: 0 <= j < |digits| ==> digits[j] == '0'
  {
    if digits != "" { IsZeroExactly(digits[..|digits| - 1]); }
  }

  /** A number is one exactly if it is a `1` behind zeros. */
  lemma IsOneExactly(digits: string)
    requires forall j :: 0 <= j < |digits| ==> IsDigit(digits[j])
    ensures NumberValue(digits) == 1 <==>
            digits != "" && digits[|digits| - 1] == '1' && forall j :: 0 <= j < |digits| - 1 ==> digits[j] == '0'
  {
    if digits != "" { IsZeroExactly(digits[..|digits| - 1]); }
  }

  lemma {:induction false} ContinuesFromAnItem(lines: seq<string>, j: nat, delim: Option<char>) returns (k: nat)
    requires j <= |lines| && ContinuesOrdered(lines, j, delim)
    ensures IsItemAbove(lines, j, delim, k)
  {
    k := j - 1;
    if ParseItem(lines[j - 1]).None? { k := ContinuesFromAnItem(lines, j - 1, delim); }
  }

  lemma {:induction false} ItemAboveIsReached(lines: seq<string>, j: nat, delim: Option<char>, k: nat)
    requires j <= |lines| && IsItemAbove(lines, j, delim, k)
    ensures ContinuesOrdered(lines, j, delim)
  {
    if k < j - 1 { ItemAboveIsReached(lines, j - 1, delim, k); }
  }

  /** An item continues an ordered list exactly if the nearest item above has its delimiter, and no line from there on
      ends the paragraph. */
  lemma ContinuesOrderedExactly(lines: seq<string>, j: nat, delim: Option<char>)
    requires j <= |lines|
    ensures ContinuesOrdered(lines, j, delim) <==> exists k: nat :: IsItemAbove(lines, j, delim, k)
  {
    if ContinuesOrdered(lines, j, delim) { var k := ContinuesFromAnItem(lines, j, delim); }
    if k: nat :| IsItemAbove(lines, j, delim, k) { ItemAboveIsReached(lines, j, delim, k); }
  }

  // Line k is an item with this delimiter, and from there to line j the paragraph goes on.
  ghost predicate IsItemAbove(lines: seq<string>, j: nat, delim: Option<char>, k: nat)
    requires j <= |lines|
  {
    && k < j && ParseItem(lines[k]).Some? && ParseItem(lines[k]).value.delim == delim
    && !EndsAParagraph(lines[k]) && JustText(lines, k + 1, j)
  }

  // Paragraph lines that are no items.
  ghost predicate JustText(lines: seq<string>, from: nat, to: nat)
    requires to <= |lines|
  {
    forall k :: from <= k < to ==> !EndsAParagraph(lines[k]) && ParseItem(lines[k]).None?
  }

  lemma MaskIsAnX()
    ensures Stripped(MASK) == "x"
  {
    assert MASK[0] == ' ' && MASK[1] == 'x' && MASK[2] == ' ';
    SkipSpaceExactly(MASK, 0, 1);
    assert LastNonSpace(MASK, 2, 1) == 2;
    assert LastNonSpace(MASK, 3, 1) == 2;
    assert MASK[1..2] == "x";
  }

  /** What looks like an item is one exactly if it is a bullet or numbered one, or no paragraph is open above it, or it
      continues an ordered list; a paragraph is not open behind a blank line or a mask. */
  lemma ListItemExactly(lines: seq<string>, i: nat)
    requires i < |lines|
    ensures ListItem(lines, i).Some? <==>
            && ParseItem(lines[i]).Some?
            && (var m := ParseItem(lines[i]).value;
                || m.number.None? || m.number == Some(1)
                || i == 0 || IsBlank(lines[i - 1]) || Stripped(lines[i - 1]) == Stripped(MASK)
                || ContinuesOrdered(lines, i, m.delim))
    ensures ListItem(lines, i).Some? ==> ListItem(lines, i).value == ParseItem(lines[i]).value.text
  {
    MaskIsAnX();
  }

  // One to six hashes and a blank.
  ghost predicate IsHashes(line: string, pad: nat, n: nat) {
    && 1 <= n <= 6 && pad + n < |line| && IsTabOrSpace(line[pad + n])
    && forall j :: pad <= j < pad + n ==> line[j] == '#'
  }

  // A heading, a quote or a thematic break behind tabs and spaces.
  ghost predicate IsBlockCut(line: string, pad: nat) {
    && pad < |line| && (forall j :: 0 <= j < pad ==> IsTabOrSpace(line[j]))
    && (|| line[pad] == '>'
        || (exists n: nat :: IsHashes(line, pad, n))
        || (line[pad] in "-*_" && |line| - pad >= 3 && forall j :: pad <= j < |line| ==> line[j] == line[pad]))
  }

  lemma StartsOwnBlockExactly(line: string)
    ensures StartsOwnBlock(line) <==> exists pad: nat :: IsBlockCut(line, pad)
  {
    var i := Skip(IsTabOrSpace, line, 0);
    SkipExactly(IsTabOrSpace, line, 0, i);
    if i < |line| { BlockAt(line, i); }
    if pad: nat :| IsBlockCut(line, pad) { BlockCutIsFirst(line, pad); }
  }

  lemma BlockCutIsFirst(line: string, pad: nat)
    requires IsBlockCut(line, pad)
    ensures Skip(IsTabOrSpace, line, 0) == pad
  {
    SkipExactly(IsTabOrSpace, line, 0, pad);
    if n: nat :| IsHashes(line, pad, n) { assert line[pad] == '#'; }
  }

  lemma BlockAt(line: string, i: nat)
    requires i < |line| && forall j :: 0 <= j < i ==> IsTabOrSpace(line[j])
    ensures IsBlockCut(line, i) <==> line[i] == '>' || IsHeading(line, i) || IsThematicBreak(line, i)
  {
    HeadingExactly(line, i);
    ThematicBreakExactly(line, i);
  }

  lemma HeadingExactly(line: string, i: nat)
    requires i < |line|
    ensures IsHeading(line, i) <==> exists n: nat :: IsHashes(line, i, n)
  {
    var h := RunLength(line, i, '#');
    RunLengthExactly(line, i, '#', h);
    if IsHeading(line, i) { assert IsHashes(line, i, h); }
    if n: nat :| IsHashes(line, i, n) { RunLengthExactly(line, i, '#', n); }
  }

  lemma ThematicBreakExactly(line: string, i: nat)
    requires i < |line|
    ensures IsThematicBreak(line, i) <==>
            line[i] in "-*_" && |line| - i >= 3 && forall j :: i <= j < |line| ==> line[j] == line[i]
  {
    RunLengthExactly(line, i, line[i], RunLength(line, i, line[i]));
    RunLengthExactly(line, i, line[i], |line| - i);
  }

  function Recognised(v: Vocabulary, lines: seq<string>, i: nat): Line
    requires i < |lines|
  {
    Line(lines[i], ListItem(lines, i), IsBlank(lines[i]), StartsABlock(lines, i),
         SkipSpace(lines[i], 0), Stripped(lines[i]), v.lead(lines[i]))
  }

  function RecognisedLines(v: Vocabulary, lines: seq<string>): (out: seq<Line>)
    ensures |out| == |lines| && forall i :: 0 <= i < |lines| ==> out[i] == Recognised(v, lines, i)
  {
    seq(|lines|, i requires 0 <= i < |lines| => Recognised(v, lines, i))
  }

  /** A list item is never a blank line. */
  lemma ItemsAreNotBlank(v: Vocabulary, lines: seq<string>, i: nat)
    requires i < |lines| && ListItem(lines, i).Some?
    ensures !Recognised(v, lines, i).blank
  {
    BlankIsAllSpace(lines[i]);
    var k := Skip(IsTabOrSpace, lines[i], 0);
    assert !IsSpace(lines[i][k]);
  }

  /** What a line is recognised as: its item, whether it is all white space, how much white space it begins with, and
      what is left of it without that at either end. */
  lemma RecognisedExactly(v: Vocabulary, lines: seq<string>, i: nat) returns (at: nat)
    requires i < |lines|
    ensures var line, r := lines[i], Recognised(v, lines, i);
            && r.text == line && r.item == ListItem(lines, i) && r.lead == v.lead(line)
            && (r.blank <==> forall j :: 0 <= j < |line| ==> IsSpace(line[j]))
            && r.indent <= |line| && (r.indent < |line| ==> !IsSpace(line[r.indent]))
            && (forall j :: 0 <= j < r.indent ==> IsSpace(line[j]))
            && at + |r.stripped| <= |line| && line[at..at + |r.stripped|] == r.stripped
            && (forall j :: 0 <= j < at || at + |r.stripped| <= j < |line| ==> IsSpace(line[j]))
            && (r.stripped != "" ==> !IsSpace(r.stripped[0]) && !IsSpace(r.stripped[|r.stripped| - 1]))
  {
    BlankIsAllSpace(lines[i]);
    SkipSpaceStops(lines[i], 0);
    at := StrippedExactly(lines[i]);
  }

  /** And it starts a block exactly if it is an item, a heading, a quote, a thematic break or the shape of a fence. */
  lemma BlockStartsExactly(v: Vocabulary, lines: seq<string>, i: nat)
    requires i < |lines|
    ensures Recognised(v, lines, i).starts <==>
            || ListItem(lines, i).Some? || (exists pad: nat :: IsBlockCut(lines[i], pad))
            || (exists start: nat, fence: Fence :: IsFenceShape(lines[i], start, fence))
  {
    StartsOwnBlockExactly(lines[i]);
    FenceShapeExactly(lines[i]);
  }

  ghost predicate IsFenceShape(line: string, start: nat, fence: Fence) {
    IsFenceCut(line, start, fence) && fence.length >= 3 && fence.mark in "`~"
  }

  lemma FenceShapeExactly(line: string)
    ensures FenceShape(line).Some? <==> exists start: nat, fence: Fence :: IsFenceShape(line, start, fence)
  {
    if FenceShape(line).Some? { ShapeIsCut(line); }
    if start: nat, fence: Fence :| IsFenceShape(line, start, fence) {
      RunLengthExactly(line, 0, ' ', start);
      RunLengthExactly(line, start, line[start], fence.length);
    }
  }

  lemma ShapeIsCut(line: string)
    requires FenceShape(line).Some?
    ensures IsFenceShape(line, RunLength(line, 0, ' '), FenceShape(line).value.0)
  {
    var i := RunLength(line, 0, ' ');
    RunLengthExactly(line, 0, ' ', i);
    RunLengthExactly(line, i, line[i], RunLength(line, i, line[i]));
  }

  /** `_mask_data_lists`: the lines are recognised against the original text, then the loop runs. */
  method MaskDataLists(v: Vocabulary, lines: seq<string>) returns (out: seq<string>)
    ensures |out| == |lines|
    ensures forall i :: 0 <= i < |lines| ==> out[i] == Masked(v.verdict, RecognisedLines(v, lines), i)
  {
    out := MaskLists(v.verdict, RecognisedLines(v, lines));
  }
}
