/**
 Rendering a project-context note into a vault file and splitting it back
 (`render_project_context.py`).

 YAML is a pair of functions; what is needed of them is stated where it is needed.
 */
module RenderDoc {
  import opened Options
  import opened Text

  datatype Note = Note(
    id: string, version: int, updatedAt: Option<string>, slug: string, status: Option<string>, tags: seq<string>,
    title: string, body: string)

  // The frontmatter keys in order; absent ones are left out.
  datatype Front = Front(
    id: string, version: int, updatedAt: Option<string>, slug: Option<string>, status: Option<string>,
    tags: Option<seq<string>>)

  datatype Yaml = Yaml(dump: Front -> string, load: string -> Option<Front>)

  function FrontOf(note: Note): Front {
    Front(note.id, note.version, note.updatedAt, if note.slug != "" then Some(note.slug) else None, note.status,
          if note.tags != [] then Some(note.tags) else None)
  }

  /** The frontmatter tells two notes apart exactly if anything but their titles and bodies does; it leaves out what is
      absent. */
  lemma FrontmatterLosesNothing(a: Note, b: Note)
    ensures FrontOf(a) == FrontOf(b) <==>
            && a.id == b.id && a.version == b.version && a.updatedAt == b.updatedAt
            && a.slug == b.slug && a.status == b.status && a.tags == b.tags
    ensures (FrontOf(a).slug.None? <==> a.slug == "") && (FrontOf(a).tags.None? <==> a.tags == [])
    ensures FrontOf(a).id == a.id && FrontOf(a).version == a.version && FrontOf(a).updatedAt == a.updatedAt
            && FrontOf(a).status == a.status && FrontOf(a).tags in {None, Some(a.tags)}
            && FrontOf(a).slug in {None, Some(a.slug)}
  {}

  // `str.rstrip()`.
  function RightStripped(s: string): string { s[..LastNonSpace(s, |s|, 0)] }

  // The first position of c from i on, or |s|.
  function FindChar(s: string, c: char, i: nat): (k: nat)
    requires i <= |s|
    ensures i <= k <= |s| && (k < |s| ==> s[k] == c)
    decreases |s| - i
  {
    if i == |s| || s[i] == c then i else FindChar(s, c, i + 1)
  }

  function Heading(title: string): string { "# " + title }

  // The body without a leading heading of that title; one separating line goes with it.
  function StripLeadingTitle(body: string, title: string): string {
    var first := FindChar(body, '\n', 0);
    if body == "" || RightStripped(body[..first]) != Heading(title) then body
    else if first == |body| then ""
    else WithoutSeparator(body[first + 1..])
  }

  // What is kept after the heading: all that follows a blank line, else only the next line.
  function WithoutSeparator(all: string): string {
    var end := FindChar(all, '\n', 0);
    if end == 0 && end < |all| then all[1..] else all[..end]
  }

  const OPENING := "---\n"
  const CLOSING := "\n---\n"

  function BodyHalf(title: string, body: string): string {
    Heading(title) + "\n\n" + RightStripped(StripLeadingTitle(body, title)) + "\n"
  }

  function RenderNote(yaml: Yaml, note: Note): string {
    OPENING + RightStripped(yaml.dump(FrontOf(note))) + CLOSING + BodyHalf(note.title, note.body)
  }

  predicate ClosesAt(text: string, i: nat) { i + |CLOSING| <= |text| && text[i..i + |CLOSING|] == CLOSING }

  // The first closing delimiter from i on.
  function ClosingAt(text: string, i: nat): (k: Option<nat>)
    requires i <= |text|
    ensures k.Some? ==> i <= k.value && ClosesAt(text, k.value)
    decreases |text| - i
  {
    if i + |CLOSING| > |text| then None
    else if ClosesAt(text, i) then Some(i)
    else ClosingAt(text, i + 1)
  }

  function ExtractFrontmatter(yaml: Yaml, text: string): (Option<Front>, string) {
    if !(OPENING <= text) || ClosingAt(text, |OPENING|).None? then (None, text)
    else
      var k := ClosingAt(text, |OPENING|).value;
      var front := yaml.load(text[|OPENING|..k]);
      if front.None? then (None, text) else (front, text[k + |CLOSING|..])
  }

  // ---- Splitting a rendered file -------------------------------------------------------------------

  // No line but possibly the first is a bare `---`.
  ghost predicate NoBareRule(block: string) {
    forall i :: 0 <= i < |block| ==> !IsRuleAt(block, i)
  }

  predicate IsRuleAt(block: string, i: nat)
    requires i < |block|
  {
    block[i] == '\n' && i + 4 <= |block| && block[i + 1..i + 4] == "---" && (i + 4 == |block| || block[i + 4] == '\n')
  }

  lemma {:induction false} ClosingIsFirst(text: string, i: nat, k: nat)
    requires i <= k && ClosesAt(text, k)
    requires forall j :: i <= j < k ==> !ClosesAt(text, j)
    ensures ClosingAt(text, i) == Some(k)
    decreases k - i
  {
    if i < k { ClosingIsFirst(text, i + 1, k); }
  }

  lemma RuleIsDelimiter(block: string, rest: string, i: nat)
    requires i < |block|
    ensures var text := OPENING + block + CLOSING + rest;
            ClosesAt(text, i + 4) <==> IsRuleAt(block, i)
  {
    var text := OPENING + block + CLOSING + rest;
    var piece := text[i + 4..i + 9];
    assert |piece| == 5;
    assert forall j :: 0 <= j < 5 && i + j < |block| ==> piece[j] == block[i + j];
    assert forall j :: 0 <= j < 5 && i + j >= |block| ==> piece[j] == CLOSING[i + j - |block|];
    assert piece == CLOSING <==>
           piece[0] == '\n' && piece[1] == '-' && piece[2] == '-' && piece[3] == '-' && piece[4] == '\n';
    if i + 4 <= |block| {
      assert block[i + 1..i + 4] == "---" <==> block[i + 1] == '-' && block[i + 2] == '-' && block[i + 3] == '-';
    }
  }

  /** A rendered block is split off where it ends exactly when no line of it but the first is a bare `---`. */
  lemma SplitsWhereItEnds(block: string, rest: string)
    ensures ClosingAt(OPENING + block + CLOSING + rest, |OPENING|) == Some(|OPENING| + |block|) <==> NoBareRule(block)
  {
    var text := OPENING + block + CLOSING + rest;
    var k := |OPENING| + |block|;
    assert ClosesAt(text, k);
    if NoBareRule(block) {
      forall j | |OPENING| <= j < k ensures !ClosesAt(text, j) {
        RuleIsDelimiter(block, rest, j - 4);
      }
      ClosingIsFirst(text, |OPENING|, k);
    } else {
      var i :| 0 <= i < |block| && IsRuleAt(block, i);
      RuleIsDelimiter(block, rest, i);
      ClosingNotAfter(text, |OPENING|, i + 4);
    }
  }

  lemma {:induction false} ClosingNotAfter(text: string, i: nat, j: nat)
    requires i <= j && ClosesAt(text, j)
    ensures ClosingAt(text, i).Some? && ClosingAt(text, i).value <= j
    decreases j - i
  {
    if i < j { ClosingNotAfter(text, i + 1, j); }
  }

  // What the YAML library promises of a note's frontmatter.
  ghost predicate RoundTrips(yaml: Yaml, front: Front) {
    var block := RightStripped(yaml.dump(front));
    NoBareRule(block) && yaml.load(block) == Some(front)
  }

  lemma Pieces(a: string, b: string, c: string, d: string)
    ensures var text := a + b + c + d;
            && a <= text && text[|a|..|a| + |b|] == b && text[|a| + |b| + |c|..] == d
  {}

  /** Splitting a rendered note gives back its frontmatter and its titled body. */
  lemma ExtractUndoesRender(yaml: Yaml, note: Note)
    requires RoundTrips(yaml, FrontOf(note))
    ensures ExtractFrontmatter(yaml, RenderNote(yaml, note)) == (Some(FrontOf(note)), BodyHalf(note.title, note.body))
  {
    var block, rest := RightStripped(yaml.dump(FrontOf(note))), BodyHalf(note.title, note.body);
    var text := RenderNote(yaml, note);
    assert text == OPENING + block + CLOSING + rest;
    SplitsWhereItEnds(block, rest);
    var k := |OPENING| + |block|;
    Pieces(OPENING, block, CLOSING, rest);
  }

  /** A file splits into this frontmatter and this rest exactly if it is the delimiters around a block without a bare
      `---` line, which loads as it, and the rest; else it is all body. */
  lemma ExtractsExactly(yaml: Yaml, text: string, front: Front, rest: string)
    ensures ExtractFrontmatter(yaml, text) == (Some(front), rest) <==>
            exists block ::
              text == OPENING + block + CLOSING + rest && NoBareRule(block) && yaml.load(block) == Some(front)
    ensures ExtractFrontmatter(yaml, text).0.None? ==> ExtractFrontmatter(yaml, text).1 == text
  {
    if OPENING <= text && ClosingAt(text, |OPENING|).Some? {
      var k := ClosingAt(text, |OPENING|).value;
      var block, behind := text[|OPENING|..k], text[k + |CLOSING|..];
      assert text == OPENING + block + CLOSING + behind;
      SplitsWhereItEnds(block, behind);
    }
    if block :| text == OPENING + block + CLOSING + rest && NoBareRule(block) && yaml.load(block) == Some(front) {
      SplitsWhereItEnds(block, rest);
      Pieces(OPENING, block, CLOSING, rest);
    }
  }

  // ---- Rendering what was rendered -----------------------------------------------------------------

  // The heading reads back as itself: no newline, nothing to strip at its end.
  predicate Readable(title: string) { '\n' !in title && title != "" && !IsSpace(title[|title| - 1]) }

  lemma {:induction false} FindCharIs(s: string, c: char, i: nat, k: nat)
    requires i <= k <= |s| && (k < |s| ==> s[k] == c) && forall j :: i <= j < k ==> s[j] != c
    ensures FindChar(s, c, i) == k
    decreases k - i
  {
    if i < k { FindCharIs(s, c, i + 1, k); }
  }

  lemma {:induction false} FindCharHasNoneBefore(s: string, c: char, i: nat)
    requires i <= |s|
    ensures forall j :: i <= j < FindChar(s, c, i) ==> s[j] != c
    decreases |s| - i
  {
    if i < |s| && s[i] != c { FindCharHasNoneBefore(s, c, i + 1); }
  }

  // Where stripping stops.
  lemma {:induction false} LastNonSpaceIs(s: string, n: nat, k: nat)
    requires k <= n <= |s| && (k > 0 ==> !IsSpace(s[k - 1])) && forall j :: k <= j < n ==> IsSpace(s[j])
    ensures LastNonSpace(s, n, 0) == k
  {
    if k < n { LastNonSpaceIs(s, n - 1, k); }
  }

  lemma {:induction false} LastNonSpaceShape(s: string, n: nat)
    requires n <= |s|
    ensures var k := LastNonSpace(s, n, 0);
            (k > 0 ==> !IsSpace(s[k - 1])) && forall j :: k <= j < n ==> IsSpace(s[j])
  {
    if n > 0 && IsSpace(s[n - 1]) { LastNonSpaceShape(s, n - 1); }
  }

  lemma StrippedEnds(s: string)
    ensures var r := RightStripped(s);
            r <= s && (r != "" ==> !IsSpace(r[|r| - 1])) && forall j :: |r| <= j < |s| ==> IsSpace(s[j])
  {
    LastNonSpaceShape(s, |s|);
  }

  // Stripping past some text keeps it when what follows it is not blank, or it ends in no space.
  lemma StrippedAfter(a: string, b: string)
    requires RightStripped(b) != "" || a == "" || !IsSpace(a[|a| - 1])
    ensures RightStripped(a + b) == a + RightStripped(b)
  {
    var r := RightStripped(b);
    StrippedEnds(b);
    var s, k := a + b, |a| + |r|;
    assert s[..k] == a + r;
    forall j | k <= j < |s| ensures IsSpace(s[j]) {
      assert s[j] == b[j - |a|];
    }
    if r != "" {
      assert s[k - 1] == s[..k][k - 1] == r[|r| - 1];
    } else if a != "" {
      assert s[k - 1] == a[|a| - 1];
    }
    LastNonSpaceIs(s, |s|, k);
  }

  // A body that begins with a line, then goes on.
  lemma FirstLine(line: string, rest: string)
    requires '\n' !in line
    ensures FindChar(line + "\n" + rest, '\n', 0) == |line|
    ensures (line + "\n" + rest)[..|line|] == line
  {
    var s := line + "\n" + rest;
    FindCharIs(s, '\n', 0, |line|);
  }

  lemma HeadingReadsBack(title: string)
    ensures RightStripped(Heading(title)) == Heading(title) <==> title != "" && !IsSpace(title[|title| - 1])
  {
    var h := Heading(title);
    StrippedEnds(h);
    if title != "" && !IsSpace(title[|title| - 1]) {
      LastNonSpaceIs(h, |h|, |h|);
      assert h[..|h|] == h;
    } else {
      assert h[|h| - 1] == if title == "" then ' ' else title[|title| - 1];
    }
  }

  lemma TitledBodyStrips(title: string, b: string)
    requires Readable(title)
    ensures StripLeadingTitle(Heading(title) + "\n\n" + b, title) == b
  {
    var h := Heading(title);
    var s := h + "\n\n" + b;
    assert s == h + "\n" + ("\n" + b);
    FirstLine(h, "\n" + b);
    HeadingReadsBack(title);
    assert s[|h| + 1..] == "\n" + b;
    assert ("\n" + b)[1..] == b;
  }

  lemma UnreadableIsKept(title: string, b: string)
    requires !Readable(title)
    ensures StripLeadingTitle(Heading(title) + "\n\n" + b, title) == Heading(title) + "\n\n" + b
  {
    var h := Heading(title);
    var s := h + "\n\n" + b;
    var first := FindChar(s, '\n', 0);
    HeadingReadsBack(title);
    if '\n' in title {
      FindCharHasNoneBefore(s, '\n', 0);
      var j :| 0 <= j < |title| && title[j] == '\n';
      assert s[j + 2] == h[j + 2] == '\n';
      StrippedEnds(s[..first]);
    } else {
      assert s == h + "\n" + ("\n" + b);
      FirstLine(h, "\n" + b);
    }
  }

  /** Pushing the rendered body back and rendering again gives the same body half, whatever the note's body was,
      exactly when the title is one that reads back. */
  lemma RenderIsAFixpointExactly(title: string, body: string)
    ensures BodyHalf(title, BodyHalf(title, body)) == BodyHalf(title, body) <==> Readable(title)
  {
    var h, b := Heading(title), RightStripped(StripLeadingTitle(body, title));
    StrippedEnds(StripLeadingTitle(body, title));
    var half := BodyHalf(title, body);
    assert half == h + "\n\n" + (b + "\n");
    StripTrailingNewline(b);
    if Readable(title) {
      TitledBodyStrips(title, b + "\n");
    } else {
      UnreadableIsKept(title, b + "\n");
      var again := RightStripped(half);
      if b != "" {
        StrippedAfter(h + "\n\n", b + "\n");
      } else {
        StrippedEnds(half);
        assert half[0] == '#';
      }
      assert |again| > |b|;
    }
  }

  /** At an input: a title that ends in a space is doubled by each push-back, whatever the body. */
  lemma ATrailingSpaceIsNoFixpoint(body: string)
    ensures BodyHalf("T ", BodyHalf("T ", body)) != BodyHalf("T ", body)
  {
    assert "T "[1] == ' ';
    RenderIsAFixpointExactly("T ", body);
  }

  lemma StripTrailingNewline(b: string)
    requires b != "" ==> !IsSpace(b[|b| - 1])
    ensures RightStripped(b + "\n") == b
  {
    var s := b + "\n";
    LastNonSpaceIs(s, |s|, |b|);
    assert s[..|b|] == b;
  }

  /** Pushing the extracted body back keeps it, and with it the body hash, through any rewrite of version, time,
      status or tags, exactly when the title reads back. */
  lemma PushBackIsStableExactly(yaml: Yaml, note: Note, again: Note)
    requires RoundTrips(yaml, FrontOf(note)) && RoundTrips(yaml, FrontOf(again))
    requires again.title == note.title && again.body == ExtractFrontmatter(yaml, RenderNote(yaml, note)).1
    ensures ExtractFrontmatter(yaml, RenderNote(yaml, again)).1 == again.body <==> Readable(note.title)
  {
    ExtractUndoesRender(yaml, note);
    ExtractUndoesRender(yaml, again);
    RenderIsAFixpointExactly(note.title, note.body);
  }

  // ---- What stripping the title loses ----------------------------------------------------------------

  // A title heading followed directly by a line with no blank one between, and then more text.
  predicate LosesText(body: string, title: string) {
    var first := FindChar(body, '\n', 0);
    body != "" && RightStripped(body[..first]) == Heading(title) && first < |body| && LosesAfter(body[first + 1..])
  }

  predicate LosesAfter(all: string) {
    var end := FindChar(all, '\n', 0);
    0 < end < |all| && RightStripped(all[end + 1..]) != ""
  }

  // All that follows the title's heading, or the whole body when it has none.
  function AfterHeading(body: string, title: string): string {
    var first := FindChar(body, '\n', 0);
    if body == "" || RightStripped(body[..first]) != Heading(title) then body
    else if first == |body| then "" else body[first + 1..]
  }

  lemma AllSpaceStripsAway(a: string, b: string)
    requires RightStripped(b) == ""
    ensures RightStripped(a + "\n" + b) == RightStripped(a)
  {
    var s, k := a + "\n" + b, |RightStripped(a)|;
    StrippedEnds(a);
    StrippedEnds(b);
    forall j | k <= j < |s| ensures IsSpace(s[j]) {
      if j > |a| { assert s[j] == b[j - |a| - 1]; }
    }
    LastNonSpaceIs(s, |s|, k);
    assert s[..k] == RightStripped(a);
  }

  lemma LineAndMore(line: string, rest: string)
    requires line != "" && '\n' !in line
    ensures var all := line + "\n" + rest;
            (RightStripped(all) == RightStripped(line) || RightStripped(all) == "\n" + RightStripped(line))
            <==> RightStripped(rest) == ""
  {
    if RightStripped(rest) == "" {
      AllSpaceStripsAway(line, rest);
    } else {
      StrippedAfter(line + "\n", rest);
      assert (line + "\n" + RightStripped(rest))[0] == line[0];
    }
  }

  lemma BlankAndMore(rest: string)
    ensures RightStripped("\n" + rest) == RightStripped(rest)
            || RightStripped("\n" + rest) == "\n" + RightStripped(rest)
  {
    if RightStripped(rest) == "" {
      AllSpaceStripsAway("", rest);
      assert "" + "\n" + rest == "\n" + rest;
      StrippedEnds("");
    } else {
      StrippedAfter("\n", rest);
    }
  }

  lemma SeparatorGoesExactly(all: string)
    ensures var kept := RightStripped(WithoutSeparator(all));
            (RightStripped(all) == kept || RightStripped(all) == "\n" + kept) <==> !LosesAfter(all)
  {
    var end := FindChar(all, '\n', 0);
    FindCharHasNoneBefore(all, '\n', 0);
    if end == |all| {
      assert all[..end] == all;
    } else if end == 0 {
      assert all == "\n" + all[1..];
      BlankAndMore(all[1..]);
    } else {
      assert all == all[..end] + "\n" + all[end + 1..];
      LineAndMore(all[..end], all[end + 1..]);
    }
  }

  /** Rendering keeps all that follows the heading, up to one separating blank line and trailing space, exactly when
      the heading is not followed directly by a line and then by more. */
  lemma KeepsTheBodyExactly(title: string, body: string)
    ensures var kept := RightStripped(StripLeadingTitle(body, title));
            var all := RightStripped(AfterHeading(body, title));
            (all == kept || all == "\n" + kept) <==> !LosesText(body, title)
  {
    var first := FindChar(body, '\n', 0);
    if body != "" && RightStripped(body[..first]) == Heading(title) && first < |body| {
      SeparatorGoesExactly(body[first + 1..]);
    }
  }

  /** At an input: a heading, a line and a line more; the last is dropped. */
  lemma RenderingDropsALine()
    ensures StripLeadingTitle("# T\na\nb", "T") == "a" && LosesText("# T\na\nb", "T")
  {
    var body, after := "# T\na\nb", "a\nb";
    assert body == "# T" + "\n" + after && after == "a" + "\n" + "b";
    FirstLine("# T", after);
    FirstLine("a", "b");
    assert Heading("T") == "# T" && "T"[0] == 'T';
    HeadingReadsBack("T");
    assert body[4..] == after && after[..1] == "a" && after[2..] == "b";
    LastNonSpaceIs("b", 1, 1);
  }

  /** At an input: a titled body is rendered under one heading, with its trailing space gone and a final newline. */
  lemma RenderingIsTidy()
    ensures BodyHalf("T", "# T\n\na \n") == "# T\n\na\n" && BodyHalf("T", "a") == "# T\n\na\n"
  {
    assert Heading("T") == "# T" && "T"[0] == 'T';
    var body, after := "# T\n\na \n", "\na \n";
    assert body == "# T" + "\n" + after;
    FirstLine("# T", after);
    HeadingReadsBack("T");
    assert body[4..] == after && after[1..] == "a \n";
    FindCharIs(after, '\n', 0, 0);
    LastNonSpaceIs("a \n", 3, 1);
    assert "a \n"[..1] == "a";
    FindCharIs("a", '\n', 0, 1);
    assert "a"[..1] == "a";
    LastNonSpaceIs("a", 1, 1);
    assert "a"[0] == 'a' && Heading("T")[0] == '#';
  }
}
