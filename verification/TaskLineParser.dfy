/**
 The import's line machine (`task_line_parser.py`): one pass over the document that takes
 the open task lines out and leaves the narrative, with fenced code and quotes untouched.

 What a task line's text carries (tags, priority, the `[sequential]` marker) is a parameter,
 `TaskText`; the machine never looks at it.
 */
module TaskLineParser {
  import opened Options
  import opened TaskGraph
  import opened Text

  // ---- Characters ------------------------------------------------------------------

  // The characters `str.splitlines` breaks at; "\r\n" is one break.
  predicate IsBreak(c: char) {
    '\U{A}' <= c <= '\U{D}' || '\U{1C}' <= c <= '\U{1E}' || c == '\U{85}' || c == '\U{2028}' || c == '\U{2029}'
  }

  // ---- Line recognisers --------------------------------------------------------------

  datatype Fence = Outside | Inside(mark: char, length: nat)

  // Three or more backticks or tildes at the very start of the line.
  function FenceMarker(line: string): Fence {
    if line == "" || (line[0] != '`' && line[0] != '~') || RunLength(line, 0, line[0]) < 3 then Outside
    else Inside(line[0], RunLength(line, 0, line[0]))
  }

  predicate IsQuote(line: string) {
    var i := SkipSpace(line, 0);
    i < |line| && line[i] == '>'
  }

  // `- [ ]` after optional white space: the indent and where the text starts.
  function TaskMatch(line: string): (m: Option<(nat, nat)>)
    ensures m.Some? ==> m.value.0 < m.value.1 <= |line|
  {
    var dash := SkipSpace(line, 0);
    if dash < |line| && line[dash] == '-' then
      var box := SkipSpace(line, dash + 1);
      if box > dash + 1 && box + 3 <= |line| && line[box..box + 3] == "[ ]" then
        Some((dash, SkipSpace(line, box + 3)))
      else None
    else None
  }

  predicate ClosesFence(line: string, open: Fence)
    requires open.Inside?
  {
    var f := FenceMarker(line);
    f.Inside? && f.mark == open.mark && open.length <= f.length
  }

  /** A fence marker is a run of three or more backticks or tildes at the very start, as long as it goes. */
  lemma FenceMarkerExactly(line: string, mark: char, length: nat)
    ensures FenceMarker(line) == Inside(mark, length) <==>
            && (mark == '`' || mark == '~') && 3 <= length <= |line|
            && (forall j :: 0 <= j < length ==> line[j] == mark) && (length < |line| ==> line[length] != mark)
  {
    if line != "" { RunLengthExactly(line, 0, line[0], length); }
  }

  /** A quote line is one whose first character that is not white space is `>`. */
  lemma IsQuoteExactly(line: string)
    ensures IsQuote(line) <==>
            exists i :: 0 <= i < |line| && line[i] == '>' && forall j :: 0 <= j < i ==> IsSpace(line[j])
  {
    SkipSpaceStops(line, 0);
  }

  // A task line, cut up: white space, `-`, more white space, `[ ]`, white space, and the text.
  ghost predicate IsTaskCut(line: string, indent: nat, box: nat, start: nat) {
    && indent + 1 < box && box + 3 <= start <= |line|
    && line[indent] == '-' && line[box] == '[' && line[box + 1] == ' ' && line[box + 2] == ']'
    && (forall j :: 0 <= j < indent || indent < j < box || box + 3 <= j < start ==> IsSpace(line[j]))
    && (start < |line| ==> !IsSpace(line[start]))
  }

  lemma BoxAt(line: string, box: nat)
    requires box + 3 <= |line|
    ensures line[box..box + 3] == "[ ]" <==> line[box] == '[' && line[box + 1] == ' ' && line[box + 2] == ']'
  {
    var piece := line[box..box + 3];
    assert piece[0] == line[box] && piece[1] == line[box + 1] && piece[2] == line[box + 2];
  }

  lemma TaskIsCut(line: string) returns (box: nat)
    requires TaskMatch(line).Some?
    ensures IsTaskCut(line, TaskMatch(line).value.0, box, TaskMatch(line).value.1)
  {
    var dash := SkipSpace(line, 0);
    box := SkipSpace(line, dash + 1);
    SkipSpaceStops(line, 0);
    SkipSpaceStops(line, dash + 1);
    SkipSpaceStops(line, box + 3);
    BoxAt(line, box);
  }

  /** The line matches exactly if it can be cut up so, and then its indent and its text are where the cut says. */
  lemma TaskMatchExactly(line: string, indent: nat, start: nat)
    ensures TaskMatch(line) == Some((indent, start)) <==> exists box: nat :: IsTaskCut(line, indent, box, start)
  {
    if TaskMatch(line) == Some((indent, start)) { var box := TaskIsCut(line); }
    if box: nat :| IsTaskCut(line, indent, box, start) { TaskCutIsFound(line, indent, box, start); }
  }

  lemma TaskCutIsFound(line: string, indent: nat, box: nat, start: nat)
    requires IsTaskCut(line, indent, box, start)
    ensures TaskMatch(line) == Some((indent, start))
  {
    SkipSpaceExactly(line, 0, indent);
    SkipSpaceExactly(line, indent + 1, box);
    SkipSpaceExactly(line, box + 3, start);
    BoxAt(line, box);
  }

  // ---- The machine, one line at a time -------------------------------------------------

  function NextFence(fence: Fence, line: string): Fence {
    if fence.Inside? then (if ClosesFence(line, fence) then Outside else fence)
    else FenceMarker(line)
  }

  predicate IsTask(fence: Fence, line: string) {
    fence.Outside? && FenceMarker(line).Outside? && !IsQuote(line) && TaskMatch(line).Some?
  }

  // The fence state before line n.
  function FenceBefore(lines: seq<string>, n: nat): Fence
    requires n <= |lines|
  {
    if n == 0 then Outside else NextFence(FenceBefore(lines, n - 1), lines[n - 1])
  }

  predicate IsTaskAt(lines: seq<string>, i: nat)
    requires i < |lines|
  {
    IsTask(FenceBefore(lines, i), lines[i])
  }

  // What the text after `- [ ]` says: description, the sequential marker, and whether it names another project.
  type TaskText = string -> (string, bool, bool)

  function ParseTask(text: TaskText, number: nat, line: string): TaskLine
    requires TaskMatch(line).Some?
  {
    var (indent, start) := TaskMatch(line).value;
    var (description, sequential, _) := text(line[start..]);
    TaskLine(number, indent, description, sequential)
  }

  function Tasks(text: TaskText, lines: seq<string>, n: nat): seq<TaskLine>
    requires n <= |lines|
  {
    if n == 0 then []
    else if IsTaskAt(lines, n - 1) then Tasks(text, lines, n - 1) + [ParseTask(text, n, lines[n - 1])]
    else Tasks(text, lines, n - 1)
  }

  // The lines reported for a tag of another project.
  function ForeignTags(text: TaskText, lines: seq<string>, n: nat): seq<nat>
    requires n <= |lines|
  {
    if n == 0 then []
    else if IsTaskAt(lines, n - 1) && NamesAnother(text, lines[n - 1]) then ForeignTags(text, lines, n - 1) + [n]
    else ForeignTags(text, lines, n - 1)
  }

  predicate NamesAnother(text: TaskText, line: string)
    requires TaskMatch(line).Some?
  {
    text(line[TaskMatch(line).value.1..]).2
  }

  function Body(lines: seq<string>, n: nat): seq<string>
    requires n <= |lines|
  {
    if n == 0 then []
    else if IsTaskAt(lines, n - 1) then Body(lines, n - 1)
    else Body(lines, n - 1) + [lines[n - 1]]
  }

  // One line of the document: the fence state behind it, and the task if it is one.
  method ParseLine(text: TaskText, number: nat, fence: Fence, line: string)
    returns (next: Fence, task: Option<TaskLine>, foreign: bool)
    ensures next == NextFence(fence, line)
    ensures task == if IsTask(fence, line) then Some(ParseTask(text, number, line)) else None
    ensures foreign <==> IsTask(fence, line) && NamesAnother(text, line)
  {
    next, task, foreign := fence, None, false;
    if fence.Inside? {
      if ClosesFence(line, fence) { next := Outside; }
    } else if FenceMarker(line).Inside? {
      next := FenceMarker(line);
    } else if !IsQuote(line) && TaskMatch(line).Some? {
      task, foreign := Some(ParseTask(text, number, line)), NamesAnother(text, line);
    }
  }

  // One line more of what the machine yields.
  lemma MachineNext(text: TaskText, lines: seq<string>, i: nat)
    requires i < |lines|
    ensures var fence, line := FenceBefore(lines, i), lines[i];
            && FenceBefore(lines, i + 1) == NextFence(fence, line)
            && (if IsTask(fence, line) then
                  && Tasks(text, lines, i + 1) == Tasks(text, lines, i) + [ParseTask(text, i + 1, line)]
                  && Body(lines, i + 1) == Body(lines, i)
                else
                  && Tasks(text, lines, i + 1) == Tasks(text, lines, i)
                  && Body(lines, i + 1) == Body(lines, i) + [line])
            && ForeignTags(text, lines, i + 1) ==
               ForeignTags(text, lines, i) + if IsTask(fence, line) && NamesAnother(text, line) then [i + 1] else []
  {}

  method ParseLines(text: TaskText, lines: seq<string>)
    returns (parsed: seq<TaskLine>, errors: seq<nat>, body: seq<string>)
    ensures parsed == Tasks(text, lines, |lines|)
    ensures errors == ForeignTags(text, lines, |lines|)
    ensures body == Body(lines, |lines|)
  {
    parsed, errors, body := [], [], [];
    var fence := Outside;
    for i := 0 to |lines|
      invariant fence == FenceBefore(lines, i)
      invariant parsed == Tasks(text, lines, i) && body == Body(lines, i)
      invariant errors == ForeignTags(text, lines, i)
    {
      var task, foreign;
      fence, task, foreign := ParseLine(text, i + 1, fence, lines[i]);
      MachineNext(text, lines, i);
      if task.Some? { parsed := parsed + [task.value]; } else { body := body + [lines[i]]; }
      if foreign { errors := errors + [i + 1]; }
    }
  }

  // ---- Conservation ---------------------------------------------------------------------

  lemma {:induction false} NumbersIncrease(text: TaskText, lines: seq<string>, n: nat)
    requires n <= |lines|
    ensures Increasing(Tasks(text, lines, n))
    ensures forall t :: t in Tasks(text, lines, n) ==> 1 <= t.lineNumber <= n
  {
    if n > 0 { NumbersIncrease(text, lines, n - 1); }
  }

  ghost predicate Claimed(tasks: seq<TaskLine>, n: nat) {
    exists t :: t in tasks && t.lineNumber == n
  }

  // The lines whose number no task carries, in order.
  ghost function Unclaimed(lines: seq<string>, tasks: seq<TaskLine>, n: nat): seq<string>
    requires n <= |lines|
  {
    if n == 0 then []
    else if Claimed(tasks, n) then Unclaimed(lines, tasks, n - 1)
    else Unclaimed(lines, tasks, n - 1) + [lines[n - 1]]
  }

  lemma ClaimedByLater(tasks: seq<TaskLine>, t: TaskLine, n: nat)
    ensures Claimed(tasks + [t], n) <==> Claimed(tasks, n) || t.lineNumber == n
  {
    if u :| u in tasks && u.lineNumber == n { assert u in tasks + [t]; }
    assert t in tasks + [t];
  }

  lemma {:induction false} UnclaimedIgnoresLater(lines: seq<string>, tasks: seq<TaskLine>, t: TaskLine, n: nat)
    requires n <= |lines| && n < t.lineNumber
    ensures Unclaimed(lines, tasks + [t], n) == Unclaimed(lines, tasks, n)
  {
    if n > 0 {
      UnclaimedIgnoresLater(lines, tasks, t, n - 1);
      ClaimedByLater(tasks, t, n);
    }
  }

  // Each task is read off the line with its number.
  lemma {:induction false} TaskIsReadOffItsLine(text: TaskText, lines: seq<string>, n: nat, t: TaskLine)
    requires n <= |lines| && t in Tasks(text, lines, n)
    ensures 1 <= t.lineNumber <= n
    ensures IsTaskAt(lines, t.lineNumber - 1)
    ensures t == ParseTask(text, t.lineNumber, lines[t.lineNumber - 1])
  {
    if t in Tasks(text, lines, n - 1) { TaskIsReadOffItsLine(text, lines, n - 1, t); }
  }

  /** Every line becomes one task or one body line: the body is exactly the lines no task claims. */
  lemma {:induction false} EveryLineGoesOnce(text: TaskText, lines: seq<string>, n: nat)
    requires n <= |lines|
    ensures Body(lines, n) == Unclaimed(lines, Tasks(text, lines, n), n)
    ensures |Tasks(text, lines, n)| + |Body(lines, n)| == n
  {
    if n > 0 {
      EveryLineGoesOnce(text, lines, n - 1);
      var before := Tasks(text, lines, n - 1);
      if IsTaskAt(lines, n - 1) {
        var t := ParseTask(text, n, lines[n - 1]);
        UnclaimedIgnoresLater(lines, before, t, n - 1);
        ClaimedByLater(before, t, n);
      } else {
        NoTaskClaimsLater(text, lines, n - 1, n);
      }
    }
  }

  lemma NoTaskClaimsLater(text: TaskText, lines: seq<string>, n: nat, m: nat)
    requires n <= |lines| && n < m
    ensures !Claimed(Tasks(text, lines, n), m)
  {
    NumbersIncrease(text, lines, n);
  }

  /** Nothing inside a fence, on a fence line or on a quote line is ever extracted. */
  lemma NeverExtracted(text: TaskText, lines: seq<string>, i: nat)
    requires i < |lines|
    requires FenceBefore(lines, i).Inside? || FenceMarker(lines[i]).Inside? || IsQuote(lines[i])
    ensures forall t :: t in Tasks(text, lines, |lines|) ==> t.lineNumber != i + 1
  {
    forall t | t in Tasks(text, lines, |lines|) ensures t.lineNumber != i + 1 {
      TaskIsReadOffItsLine(text, lines, |lines|, t);
    }
  }

  /** A line is extracted exactly if it is outside fences, no fence line, no quote, and has the shape of a task. */
  lemma {:induction false} ExtractedExactly(text: TaskText, lines: seq<string>, n: nat, i: nat)
    requires i < n <= |lines|
    ensures (exists t :: t in Tasks(text, lines, n) && t.lineNumber == i + 1) <==>
            && FenceBefore(lines, i).Outside? && FenceMarker(lines[i]).Outside? && !IsQuote(lines[i])
            && TaskMatch(lines[i]).Some?
  {
    var tasks, before := Tasks(text, lines, n), Tasks(text, lines, n - 1);
    if i < n - 1 {
      ExtractedExactly(text, lines, n - 1, i);
      if t :| t in before && t.lineNumber == i + 1 { assert t in tasks; }
      if t :| t in tasks && t.lineNumber == i + 1 { assert t in before; }
    } else {
      NumbersIncrease(text, lines, n - 1);
      if IsTaskAt(lines, i) { assert ParseTask(text, n, lines[i]) in tasks; }
    }
  }

  /** An extracted task says where its dash was and what the text after its box reads as. */
  lemma TasksSayWhatTheirLinesSay(text: TaskText, lines: seq<string>, n: nat, t: TaskLine)
    requires n <= |lines| && t in Tasks(text, lines, n)
    ensures 1 <= t.lineNumber <= n
    ensures var line := lines[t.lineNumber - 1];
            exists box: nat, start: nat ::
              IsTaskCut(line, t.indent, box, start)
              && text(line[start..]).0 == t.description && text(line[start..]).1 == t.sequentialParent
  {
    TaskIsReadOffItsLine(text, lines, n, t);
    var line := lines[t.lineNumber - 1];
    var (indent, start) := TaskMatch(line).value;
    TaskMatchExactly(line, indent, start);
    var box: nat :| IsTaskCut(line, indent, box, start);
    assert text(line[start..]).0 == t.description;
  }

  /** A line is reported exactly if it is extracted and its text names another project. */
  lemma {:induction false} ForeignTagsExactly(text: TaskText, lines: seq<string>, n: nat, i: nat)
    requires n <= |lines| && i < |lines|
    ensures i + 1 in ForeignTags(text, lines, n) <==>
            i < n && IsTaskAt(lines, i) && text(lines[i][TaskMatch(lines[i]).value.1..]).2
    ensures forall k :: k in ForeignTags(text, lines, n) ==> 1 <= k <= n
  {
    if n > 0 { ForeignTagsExactly(text, lines, n - 1, i); }
  }

  // Line j opened this fence, outside any other, and none since closed it.
  ghost predicate OpenSince(lines: seq<string>, n: nat, mark: char, length: nat, j: nat)
    requires n <= |lines|
  {
    && j < n && FenceBefore(lines, j).Outside? && FenceMarker(lines[j]) == Inside(mark, length)
    && forall k :: j < k < n ==> !Closes(lines[k], mark, length)
  }

  lemma {:induction false} FenceWasOpened(lines: seq<string>, n: nat) returns (j: nat)
    requires n <= |lines| && FenceBefore(lines, n).Inside?
    ensures OpenSince(lines, n, FenceBefore(lines, n).mark, FenceBefore(lines, n).length, j)
  {
    if FenceBefore(lines, n - 1).Outside? { j := n - 1; } else { j := FenceWasOpened(lines, n - 1); }
  }

  lemma {:induction false} OpenedStaysOpen(lines: seq<string>, n: nat, mark: char, length: nat, j: nat)
    requires n <= |lines| && OpenSince(lines, n, mark, length, j)
    ensures FenceBefore(lines, n) == Inside(mark, length)
  {
    if j < n - 1 { OpenedStaysOpen(lines, n - 1, mark, length, j); }
  }

  /** A line is inside a fence exactly if an earlier line opened it, outside any other, and none since closed it. */
  lemma InsideAFenceExactly(lines: seq<string>, n: nat, mark: char, length: nat)
    requires n <= |lines|
    ensures FenceBefore(lines, n) == Inside(mark, length) <==> exists j: nat :: OpenSince(lines, n, mark, length, j)
  {
    if FenceBefore(lines, n) == Inside(mark, length) { var j := FenceWasOpened(lines, n); }
    if j: nat :| OpenSince(lines, n, mark, length, j) { OpenedStaysOpen(lines, n, mark, length, j); }
  }

  // A marker of the same character, at least as long.
  predicate Closes(line: string, mark: char, length: nat) {
    FenceMarker(line).Inside? && FenceMarker(line).mark == mark && FenceMarker(line).length >= length
  }

  // ---- Removing the tasks changes nothing for the rest ------------------------------------

  lemma {:induction false} BodyPrefix(lines: seq<string>, rest: seq<string>, n: nat)
    requires n <= |lines|
    ensures FenceBefore(lines + rest, n) == FenceBefore(lines, n)
    ensures Body(lines + rest, n) == Body(lines, n)
  {
    if n > 0 { BodyPrefix(lines, rest, n - 1); }
  }

  lemma SameLineSameTask(lines: seq<string>, rest: seq<string>, n: nat)
    requires n < |lines|
    ensures IsTaskAt(lines + rest, n) == IsTaskAt(lines, n) && (lines + rest)[n] == lines[n]
  {
    BodyPrefix(lines, rest, n);
  }

  lemma {:induction false} TaskPrefix(text: TaskText, lines: seq<string>, rest: seq<string>, n: nat)
    requires n <= |lines|
    ensures Tasks(text, lines + rest, n) == Tasks(text, lines, n)
  {
    if n > 0 {
      TaskPrefix(text, lines, rest, n - 1);
      SameLineSameTask(lines, rest, n - 1);
    }
  }

  // A body that re-parses to itself, and one more line that is no task where it stands.
  lemma KeptLineReparses(text: TaskText, b: seq<string>, line: string)
    requires Tasks(text, b, |b|) == [] && Body(b, |b|) == b && !IsTask(FenceBefore(b, |b|), line)
    ensures var c := b + [line];
            && FenceBefore(c, |c|) == NextFence(FenceBefore(b, |b|), line)
            && Tasks(text, c, |c|) == [] && Body(c, |c|) == c
  {
    BodyPrefix(b, [line], |b|);
    TaskPrefix(text, b, [line], |b|);
    assert (b + [line])[|b|] == line;
  }

  /** Re-parsing the body extracts no task and returns the same lines; the fence state each kept
      line saw is the one it sees again. */
  lemma {:induction false} ReparseIsStable(text: TaskText, lines: seq<string>, n: nat)
    requires n <= |lines|
    ensures var b := Body(lines, n);
            && FenceBefore(b, |b|) == FenceBefore(lines, n)
            && Tasks(text, b, |b|) == []
            && Body(b, |b|) == b
  {
    if n > 0 {
      ReparseIsStable(text, lines, n - 1);
      if !IsTaskAt(lines, n - 1) { KeptLineReparses(text, Body(lines, n - 1), lines[n - 1]); }
    }
  }

  // ---- The document as one string ---------------------------------------------------------

  function FirstBreak(s: string, i: nat): (k: nat)
    requires i <= |s|
    ensures i <= k <= |s| && (k < |s| ==> IsBreak(s[k]))
    ensures forall j :: i <= j < k ==> !IsBreak(s[j])
    decreases |s| - i
  {
    if i < |s| && !IsBreak(s[i]) then FirstBreak(s, i + 1) else i
  }

  function SplitLines(s: string): (lines: seq<string>)
    decreases |s|
  {
    if s == "" then []
    else
      var k := FirstBreak(s, 0);
      if k == |s| then [s]
      else if s[k] == '\r' && k + 1 < |s| && s[k + 1] == '\n' then [s[..k]] + SplitLines(s[k + 2..])
      else [s[..k]] + SplitLines(s[k + 1..])
  }

  function JoinLines(lines: seq<string>): string {
    if lines == [] then ""
    else if |lines| == 1 then lines[0]
    else lines[0] + "\n" + JoinLines(lines[1..])
  }

  ghost predicate Unbroken(s: string) {
    forall i :: 0 <= i < |s| ==> !IsBreak(s[i])
  }

  function EndsWithNewline(s: string): bool {
    s != "" && s[|s| - 1] == '\n'
  }

  function StripTasks(doc: string): string {
    var lines := SplitLines(doc);
    var stripped := JoinLines(Body(lines, |lines|));
    if EndsWithNewline(doc) && stripped != "" then stripped + "\n" else stripped
  }

  /** `parse_doc`: the tasks, the lines in error, and the stripped document. */
  method ParseDoc(text: TaskText, doc: string) returns (parsed: seq<TaskLine>, errors: seq<nat>, stripped: string)
    ensures var lines := SplitLines(doc);
            parsed == Tasks(text, lines, |lines|) && errors == ForeignTags(text, lines, |lines|)
    ensures stripped == StripTasks(doc)
  {
    var lines := SplitLines(doc);
    var body;
    parsed, errors, body := ParseLines(text, lines);
    stripped := JoinLines(body);
    if EndsWithNewline(doc) && stripped != "" {
      stripped := stripped + "\n";
    }
  }

  lemma {:induction false} SplitLinesUnbroken(s: string)
    ensures forall l :: l in SplitLines(s) ==> Unbroken(l)
    decreases |s|
  {
    if s != "" {
      var k := FirstBreak(s, 0);
      if k < |s| {
        if s[k] == '\r' && k + 1 < |s| && s[k + 1] == '\n' { SplitLinesUnbroken(s[k + 2..]); }
        else { SplitLinesUnbroken(s[k + 1..]); }
      }
    }
  }

  lemma {:induction false} BodyLinesAreLines(lines: seq<string>, n: nat)
    requires n <= |lines|
    ensures forall l :: l in Body(lines, n) ==> l in lines
  {
    if n > 0 { BodyLinesAreLines(lines, n - 1); }
  }

  lemma FirstBreakAfter(l: string, rest: string)
    requires Unbroken(l)
    ensures FirstBreak(l + "\n" + rest, 0) == |l|
  {
    var s := l + "\n" + rest;
    assert s[|l|] == '\n';
    forall j | 0 <= j < |l| ensures !IsBreak(s[j]) { assert s[j] == l[j]; }
  }

  lemma SplitOne(l: string, rest: string)
    requires Unbroken(l)
    ensures SplitLines(l + "\n" + rest) == [l] + SplitLines(rest)
  {
    var s := l + "\n" + rest;
    FirstBreakAfter(l, rest);
    assert s[..|l|] == l && s[|l| + 1..] == rest;
  }

  /** A line ends at its first line break, and "\r\n" is one; what holds none is one line. */
  lemma LinesEndAtBreaks(l: string, br: string, rest: string)
    requires Unbroken(l)
    requires br == "\r\n" || (|br| == 1 && IsBreak(br[0]) && !(br == "\r" && rest != "" && rest[0] == '\n'))
    ensures SplitLines(l + br + rest) == [l] + SplitLines(rest)
    ensures SplitLines(l) == if l == "" then [] else [l]
  {
    var s := l + br + rest;
    assert s[|l|] == br[0] && IsBreak(br[0]);
    forall j | 0 <= j < |l| ensures !IsBreak(s[j]) { assert s[j] == l[j]; }
    assert FirstBreak(s, 0) == |l|;
    assert s[..|l|] == l && s[|l| + |br|..] == rest;
    if br == "\r\n" {
      assert s[|l| + 1] == '\n';
    } else if br[0] == '\r' {
      assert br == "\r";
      assert rest != "" ==> s[|l| + 1] == rest[0];
    }
  }

  /** The line breaks: LF, VT, FF, CR, the information separators, NEL and the two Unicode separators. */
  lemma BreaksAre(c: char)
    ensures IsBreak(c) <==>
            c in {'\U{A}', '\U{B}', '\U{C}', '\U{D}', '\U{1C}', '\U{1D}', '\U{1E}', '\U{85}', '\U{2028}', '\U{2029}'}
  {}

  // Splitting joined lines: only a final empty line is lost.
  lemma {:induction false} SplitJoin(b: seq<string>)
    requires forall l :: l in b ==> Unbroken(l)
    ensures SplitLines(JoinLines(b)) == if b != [] && b[|b| - 1] == "" then b[..|b| - 1] else b
  {
    if |b| == 1 {
      assert b[0] in b;
      assert FirstBreak(b[0], 0) == |b[0]|;
    } else if |b| > 1 {
      var rest := b[1..];
      SplitJoin(rest);
      SplitOne(b[0], JoinLines(rest));
      assert b == [b[0]] + rest && b[..|b| - 1] == [b[0]] + rest[..|rest| - 1];
    }
  }

  lemma {:induction false} SplitJoinNewline(b: seq<string>)
    requires b != [] && forall l :: l in b ==> Unbroken(l)
    ensures SplitLines(JoinLines(b) + "\n") == b
  {
    if |b| == 1 {
      SplitOne(b[0], "");
      assert b[0] + "\n" + "" == b[0] + "\n";
    } else {
      SplitJoinNewline(b[1..]);
      SplitOne(b[0], JoinLines(b[1..]) + "\n");
      assert JoinLines(b) + "\n" == b[0] + "\n" + (JoinLines(b[1..]) + "\n");
    }
  }

  lemma {:induction false} JoinDropsFinalEmpty(b: seq<string>)
    requires |b| >= 2 && b[|b| - 1] == ""
    ensures JoinLines(b) == JoinLines(b[..|b| - 1]) + "\n"
  {
    if |b| > 2 {
      JoinDropsFinalEmpty(b[1..]);
      assert b[1..][..|b| - 2] == b[..|b| - 1][1..];
    }
  }

  lemma JoinIsEmpty(b: seq<string>)
    ensures JoinLines(b) == "" <==> b == [] || b == [""]
  {}

  lemma {:induction false} JoinEndsUnbroken(b: seq<string>)
    requires forall l :: l in b ==> Unbroken(l)
    requires b != [] && b[|b| - 1] != ""
    ensures !EndsWithNewline(JoinLines(b))
  {
    assert b[|b| - 1] in b;
    if |b| > 1 {
      JoinEndsUnbroken(b[1..]);
      JoinIsEmpty(b[1..]);
    }
  }

  // Stripping a document whose lines are already a body only re-joins them.
  lemma RestripBody(doc: string, b: seq<string>)
    requires SplitLines(doc) == b && Body(b, |b|) == b
    ensures StripTasks(doc) == if EndsWithNewline(doc) && JoinLines(b) != "" then JoinLines(b) + "\n" else JoinLines(b)
  {}

  // A body that ends in an empty line, joined without a final newline, loses that line when re-read.
  lemma RestripFinalEmpty(b: seq<string>)
    requires |b| > 1 && b[|b| - 1] == "" && Body(b, |b|) == b
    requires forall l :: l in b ==> Unbroken(l)
    ensures StripTasks(JoinLines(b)) == JoinLines(b) <==> b != ["", ""]
  {
    var front := b[..|b| - 1];
    assert b == front + [""];
    JoinDropsFinalEmpty(b);
    JoinIsEmpty(front);
    SplitJoin(b);
    BodyPrefix(front, [""], |front|);
    assert Body(b, |b|) == Body(front, |front|) + [""];
    RestripBody(JoinLines(b), front);
  }

  // Among the first n lines, every one is a task line or empty.
  predicate OnlyTasksAndEmpties(lines: seq<string>, n: nat)
    requires n <= |lines|
  {
    n == 0 || (OnlyTasksAndEmpties(lines, n - 1) && (lines[n - 1] == "" || TaskMatch(lines[n - 1]).Some?))
  }

  function Empties(lines: seq<string>, n: nat): nat
    requires n <= |lines|
  {
    if n == 0 then 0 else Empties(lines, n - 1) + if lines[n - 1] == "" then 1 else 0
  }

  lemma TaskLinesAreOnlyThat(line: string)
    requires TaskMatch(line).Some?
    ensures line != "" && FenceMarker(line).Outside? && !IsQuote(line)
  {
    assert line[SkipSpace(line, 0)] == '-';
    assert SkipSpace(line, 0) > 0 ==> IsSpace(line[0]);
  }

  lemma {:induction false} BodyOfTasksAndEmpties(lines: seq<string>, n: nat)
    requires n <= |lines| && OnlyTasksAndEmpties(lines, n)
    ensures FenceBefore(lines, n).Outside? && |Body(lines, n)| == Empties(lines, n)
    ensures forall b :: b in Body(lines, n) ==> b == ""
  {
    if n > 0 {
      BodyOfTasksAndEmpties(lines, n - 1);
      if lines[n - 1] != "" { TaskLinesAreOnlyThat(lines[n - 1]); }
    }
  }

  lemma {:induction false} OtherLinesStay(lines: seq<string>, n: nat)
    requires n <= |lines| && !OnlyTasksAndEmpties(lines, n)
    ensures exists b :: b in Body(lines, n) && b != ""
  {
    if OnlyTasksAndEmpties(lines, n - 1) {
      assert lines[n - 1] in Body(lines, n);
    } else {
      OtherLinesStay(lines, n - 1);
      var b :| b in Body(lines, n - 1) && b != "";
      assert b in Body(lines, n);
    }
  }

  // The shape that a second stripping changes.
  predicate IsTwoEmpties(doc: string) {
    var lines := SplitLines(doc);
    !EndsWithNewline(doc) && OnlyTasksAndEmpties(lines, |lines|) && Empties(lines, |lines|) == 2
  }

  /** Stripping twice is stripping once, except for one shape: a document of task lines and exactly two empty
      lines, without a final newline. */
  lemma StrippingIsIdempotentUnless(doc: string)
    ensures StripTasks(StripTasks(doc)) == StripTasks(doc) <==> !IsTwoEmpties(doc)
  {
    var lines := SplitLines(doc);
    RestrippedBody(doc);
    if OnlyTasksAndEmpties(lines, |lines|) {
      BodyOfTasksAndEmpties(lines, |lines|);
      var b := Body(lines, |lines|);
      if |b| == 2 { assert b == [b[0], b[1]] && b[0] in b && b[1] in b; }
    } else {
      OtherLinesStay(lines, |lines|);
    }
  }

  lemma {:induction false} UnbrokenIsOneLine(line: string)
    requires line != "" && Unbroken(line)
    ensures SplitLines(line) == [line]
  {
    assert FirstBreak(line, 0) == |line|;
  }

  lemma SplitOfTwoEmpties(task: string)
    requires task != "" && Unbroken(task)
    ensures SplitLines("\n" + ("\n" + task)) == ["", "", task]
  {
    UnbrokenIsOneLine(task);
    SplitOne("", task);
    SplitOne("", "\n" + task);
    assert "" + "\n" + task == "\n" + task && "" + "\n" + ("\n" + task) == "\n" + ("\n" + task);
  }

  lemma BodyOfTwoEmpties(task: string)
    requires TaskMatch(task).Some?
    ensures Body(["", "", task], 3) == ["", ""]
  {
    TaskLinesAreOnlyThat(task);
    var lines := ["", "", task];
    BodyOfTasksAndEmpties(lines, 2);
    assert IsTaskAt(lines, 2) && FenceBefore(lines, 1).Outside?;
    assert Body(lines, 1) == [""] && Body(lines, 2) == ["", ""];
  }

  /** At an input: two empty lines and a task become one newline, and then nothing. */
  lemma StrippingTwiceDiffers(task: string)
    requires TaskMatch(task).Some? && Unbroken(task) && !EndsWithNewline(task)
    ensures var doc := "\n" + ("\n" + task); StripTasks(doc) == "\n" && StripTasks("\n") == ""
  {
    TaskLinesAreOnlyThat(task);
    SplitOfTwoEmpties(task);
    BodyOfTwoEmpties(task);
    SplitOne("", "");
    assert "" + "\n" + "" == "\n" && SplitLines("\n") == [""];
    BodyOfTasksAndEmpties([""], 1);
    var body := Body([""], 1);
    assert body == [body[0]] && body[0] in body;
    assert JoinLines(["", ""]) == "\n" by { assert ["", ""][1..] == [""]; }
  }

  // In terms of the body.
  lemma RestrippedBody(doc: string)
    ensures var lines := SplitLines(doc);
            StripTasks(StripTasks(doc)) == StripTasks(doc) <==>
            EndsWithNewline(doc) || Body(lines, |lines|) != ["", ""]
  {
    var lines := SplitLines(doc);
    var b := Body(lines, |lines|);
    SplitLinesUnbroken(doc);
    BodyLinesAreLines(lines, |lines|);
    ReparseIsStable(_ => ("", false, false), lines, |lines|);
    JoinIsEmpty(b);
    if EndsWithNewline(doc) && JoinLines(b) != "" {
      SplitJoinNewline(b);
      RestripBody(JoinLines(b) + "\n", b);
    } else if JoinLines(b) != "" {
      if b[|b| - 1] == "" {
        RestripFinalEmpty(b);
      } else {
        SplitJoin(b);
        JoinEndsUnbroken(b);
        RestripBody(JoinLines(b), b);
      }
    }
  }
}
