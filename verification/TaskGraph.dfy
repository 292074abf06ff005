/**
 The task-graph builder of the bulk import (`task_graph.py`): indentation becomes a
 forest, and a `[sequential]` parent chains its children.

 The forest is defined here without a stack: the parent of a line is the nearest earlier
 line that is indented less. `BuildPlan` is the stack algorithm, proved against it.
 */
module TaskGraph {
  import opened Options

  datatype TaskLine = TaskLine(lineNumber: nat, indent: nat, description: string, sequentialParent: bool)

  datatype TaskType = Epic | Work

  datatype Plan = Plan(line: TaskLine, taskType: TaskType, parent: Option<nat>, dependsOn: seq<nat>)

  // Line numbers come from the parser, one per source line.
  ghost predicate Increasing(lines: seq<TaskLine>) {
    forall i, j :: 0 <= i < j < |lines| ==> lines[i].lineNumber < lines[j].lineNumber
  }

  // ---- The declarative forest -------------------------------------------------------

  ghost predicate IsParent(lines: seq<TaskLine>, p: int, i: int) {
    && 0 <= p < i < |lines|
    && lines[p].indent < lines[i].indent
    && forall k :: p < k < i ==> lines[i].indent <= lines[k].indent
  }

  ghost predicate IsAncestor(lines: seq<TaskLine>, a: int, i: int)
    decreases i
  {
    exists p :: IsParent(lines, p, i) && (p == a || IsAncestor(lines, a, p))
  }

  // j is the child of p immediately before its child i
  ghost predicate IsPreviousChild(lines: seq<TaskLine>, p: int, j: int, i: int) {
    && IsParent(lines, p, j) && IsParent(lines, p, i) && j < i
    && forall k :: j < k < i ==> !IsParent(lines, p, k)
  }

  // ---- The same forest as functions, for the algorithm ------------------------------

  function NearestShallower(lines: seq<TaskLine>, i: nat, j: nat): (p: Option<nat>)
    requires j <= i < |lines|
    ensures p.Some? ==> p.value < j
  {
    if j == 0 then None
    else if lines[j - 1].indent < lines[i].indent then Some(j - 1)
    else NearestShallower(lines, i, j - 1)
  }

  function Parent(lines: seq<TaskLine>, i: nat): (p: Option<nat>)
    requires i < |lines|
    ensures p.Some? ==> p.value < i
  {
    NearestShallower(lines, i, i)
  }

  // The open ancestor chain after line i: its ancestors from the root down, then itself.
  function Chain(lines: seq<TaskLine>, i: nat): (c: seq<(nat, nat)>)
    requires i < |lines|
    ensures |c| > 0 && c[|c| - 1] == (lines[i].indent, lines[i].lineNumber)
  {
    var p := Parent(lines, i);
    (if p.None? then [] else Chain(lines, p.value)) + [(lines[i].indent, lines[i].lineNumber)]
  }

  // The line numbers of p's children among the first n lines, in document order.
  function ChildrenUpTo(lines: seq<TaskLine>, p: nat, n: nat): (c: seq<nat>)
    requires n <= |lines|
  {
    if n == 0 then []
    else if Parent(lines, n - 1) == Some(p) then ChildrenUpTo(lines, p, n - 1) + [lines[n - 1].lineNumber]
    else ChildrenUpTo(lines, p, n - 1)
  }

  function Children(lines: seq<TaskLine>, p: nat): seq<nat> {
    ChildrenUpTo(lines, p, |lines|)
  }

  function ParentNumber(lines: seq<TaskLine>, i: nat): Option<nat>
    requires i < |lines|
  {
    var p := Parent(lines, i);
    if p.None? then None else Some(lines[p.value].lineNumber)
  }

  function PlanOf(lines: seq<TaskLine>, i: nat): Plan
    requires i < |lines|
  {
    var p := Parent(lines, i);
    var earlier := if p.None? then [] else ChildrenUpTo(lines, p.value, i);
    Plan(lines[i],
         if Children(lines, i) == [] then Work else Epic,
         ParentNumber(lines, i),
         if p.Some? && lines[p.value].sequentialParent && earlier != [] then [earlier[|earlier| - 1]] else [])
  }

  function PlansOf(lines: seq<TaskLine>, n: nat): (plans: seq<Plan>)
    requires n <= |lines|
    ensures |plans| == n
    ensures forall i :: 0 <= i < n ==> plans[i] == PlanOf(lines, i)
  {
    seq(n, i requires 0 <= i < |lines| => PlanOf(lines, i))
  }

  // The lines reported as headings: empty, with children, in document order.
  function EmptyParents(lines: seq<TaskLine>, n: nat): seq<nat>
    requires n <= |lines|
  {
    if n == 0 then []
    else if lines[n - 1].description == "" && Children(lines, n - 1) != [] then
      EmptyParents(lines, n - 1) + [lines[n - 1].lineNumber]
    else EmptyParents(lines, n - 1)
  }

  // ---- The stack algorithm ------------------------------------------------------------

  // The stack is the chain of line top - 1 (empty when top is 0), and every line since is
  // indented at least `indent`.
  ghost predicate StackAt(lines: seq<TaskLine>, stack: seq<(nat, nat)>, top: nat, i: nat, indent: nat) {
    && top <= i <= |lines|
    && stack == (if top == 0 then [] else Chain(lines, top - 1))
    && forall k :: top <= k < i ==> indent <= lines[k].indent
  }

  lemma {:induction false} NearestShallowerSkips(lines: seq<TaskLine>, i: nat, j: nat, top: nat)
    requires top <= j <= i < |lines|
    requires forall k :: top <= k < j ==> lines[i].indent <= lines[k].indent
    ensures NearestShallower(lines, i, j) == NearestShallower(lines, i, top)
  {
    if top < j { NearestShallowerSkips(lines, i, j - 1, top); }
  }

  lemma {:induction false} NearestShallowerIsNearest(lines: seq<TaskLine>, i: nat, j: nat)
    requires j <= i < |lines|
    ensures var p := NearestShallower(lines, i, j);
            && (p.Some? ==> lines[p.value].indent < lines[i].indent)
            && (forall k :: (if p.Some? then p.value + 1 else 0) <= k < j ==> lines[i].indent <= lines[k].indent)
  {
    if j > 0 { NearestShallowerIsNearest(lines, i, j - 1); }
  }

  // The functional parent is the declarative one.
  lemma ParentIsParent(lines: seq<TaskLine>, p: nat, i: nat)
    requires i < |lines|
    ensures IsParent(lines, p, i) <==> Parent(lines, i) == Some(p)
  {
    NearestShallowerIsNearest(lines, i, i);
    if IsParent(lines, p, i) { NearestShallowerSkips(lines, i, i, p + 1); }
  }

  lemma PopKeepsStack(lines: seq<TaskLine>, stack: seq<(nat, nat)>, top: nat, i: nat, indent: nat) returns (top': nat)
    requires stack != [] && StackAt(lines, stack, top, i, indent)
    requires indent <= stack[|stack| - 1].0
    ensures StackAt(lines, stack[..|stack| - 1], top', i, indent)
  {
    NearestShallowerIsNearest(lines, top - 1, top - 1);
    var p := Parent(lines, top - 1);
    top' := if p.None? then 0 else p.value + 1;
  }

  // Once popping stops, the stack is the chain of the parent (or empty at a root).
  lemma TopIsParent(lines: seq<TaskLine>, stack: seq<(nat, nat)>, top: nat, i: nat)
    requires i < |lines| && StackAt(lines, stack, top, i, lines[i].indent)
    requires stack != [] ==> stack[|stack| - 1].0 < lines[i].indent
    ensures stack == [] ==> Parent(lines, i).None?
    ensures stack != [] ==> Parent(lines, i).Some? && Parent(lines, i).value == top - 1
    ensures stack + [(lines[i].indent, lines[i].lineNumber)] == Chain(lines, i)
  {
    NearestShallowerSkips(lines, i, i, top);
  }

  // The links recorded for the first i lines.
  ghost predicate Linked(lines: seq<TaskLine>, childrenOf: map<nat, seq<nat>>, parentOf: map<nat, Option<nat>>, i: nat)
    requires i <= |lines|
  {
    && (forall p :: 0 <= p < |lines| ==>
          && lines[p].lineNumber in childrenOf
          && childrenOf[lines[p].lineNumber] == ChildrenUpTo(lines, p, i))
    && (forall j :: 0 <= j < |lines| ==>
          && lines[j].lineNumber in parentOf
          && parentOf[lines[j].lineNumber] == if j < i then ParentNumber(lines, j) else None)
  }

  // Line i is the only line with its number.
  ghost predicate OwnsNumber(lines: seq<TaskLine>, i: nat)
    requires i < |lines|
  {
    forall j :: 0 <= j < |lines| && lines[j].lineNumber == lines[i].lineNumber ==> j == i
  }

  lemma LinkStep(lines: seq<TaskLine>, childrenOf: map<nat, seq<nat>>, parentOf: map<nat, Option<nat>>, i: nat)
    requires i < |lines| && Linked(lines, childrenOf, parentOf, i) && OwnsNumber(lines, i)
    requires Parent(lines, i).Some? ==> OwnsNumber(lines, Parent(lines, i).value)
    ensures var q := Parent(lines, i);
            if q.None? then Linked(lines, childrenOf, parentOf, i + 1)
            else
              var parent := lines[q.value].lineNumber;
              Linked(lines, childrenOf[parent := childrenOf[parent] + [lines[i].lineNumber]],
                     parentOf[lines[i].lineNumber := Some(parent)], i + 1)
  {}

  // Pop the ancestors indented at least as much as the current line.
  method Pop(ghost lines: seq<TaskLine>, ghost i: nat, open: seq<(nat, nat)>, line: TaskLine)
    returns (stack: seq<(nat, nat)>, ghost top: nat)
    requires i < |lines| && line == lines[i] && open == if i == 0 then [] else Chain(lines, i - 1)
    ensures StackAt(lines, stack, top, i, line.indent)
    ensures stack == [] || stack[|stack| - 1].0 < line.indent
  {
    stack, top := open, i;
    while stack != [] && stack[|stack| - 1].0 >= line.indent
      invariant StackAt(lines, stack, top, i, line.indent)
      decreases |stack|
    {
      top := PopKeepsStack(lines, stack, top, i, line.indent);
      stack := stack[..|stack| - 1];
    }
  }

  // Then the top is the parent, and the line is pushed.
  method Reopen(ghost lines: seq<TaskLine>, ghost i: nat, open: seq<(nat, nat)>, line: TaskLine)
    returns (parent: Option<nat>, stack: seq<(nat, nat)>)
    requires i < |lines| && line == lines[i] && open == if i == 0 then [] else Chain(lines, i - 1)
    ensures parent == ParentNumber(lines, i)
    ensures stack == Chain(lines, i)
  {
    ghost var top;
    stack, top := Pop(lines, i, open, line);
    TopIsParent(lines, stack, top, i);
    parent := if stack != [] then Some(stack[|stack| - 1].1) else None;
    stack := stack + [(line.indent, line.lineNumber)];
  }

  lemma NumberIsOwned(lines: seq<TaskLine>, p: nat)
    requires Increasing(lines) && p < |lines|
    ensures OwnsNumber(lines, p)
  {}

  method EmptyLinks(lines: seq<TaskLine>)
    returns (childrenOf: map<nat, seq<nat>>, parentOf: map<nat, Option<nat>>)
    ensures Linked(lines, childrenOf, parentOf, 0)
  {
    childrenOf, parentOf := map[], map[];
    for i := 0 to |lines|
      invariant forall j :: 0 <= j < i ==> lines[j].lineNumber in childrenOf && childrenOf[lines[j].lineNumber] == []
      invariant forall j :: 0 <= j < i ==> lines[j].lineNumber in parentOf && parentOf[lines[j].lineNumber] == None
    {
      childrenOf := childrenOf[lines[i].lineNumber := []];
      parentOf := parentOf[lines[i].lineNumber := None];
    }
  }

  method IndexLines(lines: seq<TaskLine>) returns (lineByNumber: map<nat, TaskLine>)
    requires Increasing(lines)
    ensures forall j :: 0 <= j < |lines| ==>
            lines[j].lineNumber in lineByNumber && lineByNumber[lines[j].lineNumber] == lines[j]
  {
    lineByNumber := map[];
    for i := 0 to |lines|
      invariant forall j :: 0 <= j < i ==>
                lines[j].lineNumber in lineByNumber && lineByNumber[lines[j].lineNumber] == lines[j]
    {
      lineByNumber := lineByNumber[lines[i].lineNumber := lines[i]];
    }
  }

  method LinkLines(lines: seq<TaskLine>)
    returns (childrenOf: map<nat, seq<nat>>, parentOf: map<nat, Option<nat>>)
    requires Increasing(lines)
    ensures Linked(lines, childrenOf, parentOf, |lines|)
  {
    childrenOf, parentOf := EmptyLinks(lines);
    var stack: seq<(nat, nat)> := [];
    for i := 0 to |lines|
      invariant stack == if i == 0 then [] else Chain(lines, i - 1)
      invariant Linked(lines, childrenOf, parentOf, i)
    {
      var line := lines[i];
      var parent;
      parent, stack := Reopen(lines, i, stack, line);
      NumberIsOwned(lines, i);
      if parent.Some? { NumberIsOwned(lines, Parent(lines, i).value); }
      LinkStep(lines, childrenOf, parentOf, i);
      if parent.Some? {
        parentOf := parentOf[line.lineNumber := parent];
        childrenOf := childrenOf[parent.value := childrenOf[parent.value] + [line.lineNumber]];
      }
    }
  }

  method IndexOf(s: seq<nat>, x: nat) returns (k: nat)
    requires x in s
    ensures k < |s| && s[k] == x && forall m :: 0 <= m < k ==> s[m] != x
  {
    k := 0;
    while s[k] != x
      invariant k < |s| && forall m :: 0 <= m < k ==> s[m] != x
      decreases |s| - k
    {
      assert x in s[k + 1..];
      k := k + 1;
    }
  }

  // The children recorded before line i are those with a smaller line number.
  lemma {:induction false} EarlierChildren(lines: seq<TaskLine>, p: nat, i: nat, n: nat)
    requires Increasing(lines) && i <= n <= |lines|
    ensures ChildrenUpTo(lines, p, i) <= ChildrenUpTo(lines, p, n)
    ensures i < |lines| ==> forall x :: x in ChildrenUpTo(lines, p, i) ==> x < lines[i].lineNumber
    decreases n, i
  {
    if i < n { EarlierChildren(lines, p, i, n - 1); }
    else if i > 0 { EarlierChildren(lines, p, i - 1, n - 1); }
  }

  lemma OwnPosition(lines: seq<TaskLine>, p: nat, i: nat)
    requires Increasing(lines) && i < |lines| && Parent(lines, i) == Some(p)
    ensures var c, idx := Children(lines, p), |ChildrenUpTo(lines, p, i)|;
            idx < |c| && c[idx] == lines[i].lineNumber && ChildrenUpTo(lines, p, i) == c[..idx]
                      && forall m :: 0 <= m < idx ==> c[m] != lines[i].lineNumber
  {
    EarlierChildren(lines, p, i, |lines|);
    EarlierChildren(lines, p, i + 1, |lines|);
    var earlier := ChildrenUpTo(lines, p, i);
    forall m | 0 <= m < |earlier| ensures Children(lines, p)[m] != lines[i].lineNumber {
      assert earlier[m] in earlier;
    }
  }

  method SequentialPredecessor(ghost lines: seq<TaskLine>, ghost i: nat, siblings: seq<nat>, lineNumber: nat)
    returns (dependsOn: seq<nat>)
    requires Increasing(lines) && i < |lines| && lineNumber == lines[i].lineNumber
    requires Parent(lines, i).Some? && siblings == Children(lines, Parent(lines, i).value)
    requires lines[Parent(lines, i).value].sequentialParent
    ensures dependsOn == PlanOf(lines, i).dependsOn
  {
    OwnPosition(lines, Parent(lines, i).value, i);
    dependsOn := [];
    var idx := IndexOf(siblings, lineNumber);
    assert idx == |ChildrenUpTo(lines, Parent(lines, i).value, i)|;
    if idx > 0 {
      dependsOn := dependsOn + [siblings[idx - 1]];
    }
  }

  method FindEmptyParents(lines: seq<TaskLine>, childrenOf: map<nat, seq<nat>>) returns (errors: seq<nat>)
    requires forall p :: 0 <= p < |lines| ==>
               lines[p].lineNumber in childrenOf && childrenOf[lines[p].lineNumber] == Children(lines, p)
    ensures errors == EmptyParents(lines, |lines|)
  {
    errors := [];
    for i := 0 to |lines|
      invariant errors == EmptyParents(lines, i)
    {
      if lines[i].description == "" && childrenOf[lines[i].lineNumber] != [] {
        errors := errors + [lines[i].lineNumber];
      }
    }
  }

  method PlanLine(lines: seq<TaskLine>, i: nat, childrenOf: map<nat, seq<nat>>, parent: Option<nat>,
                  lineByNumber: map<nat, TaskLine>)
    returns (plan: Plan)
    requires Increasing(lines) && i < |lines| && parent == ParentNumber(lines, i)
    requires forall p :: 0 <= p < |lines| ==>
               lines[p].lineNumber in childrenOf && childrenOf[lines[p].lineNumber] == Children(lines, p)
    requires forall j :: 0 <= j < |lines| ==>
             lines[j].lineNumber in lineByNumber && lineByNumber[lines[j].lineNumber] == lines[j]
    ensures plan == PlanOf(lines, i)
  {
    var taskType := if childrenOf[lines[i].lineNumber] != [] then Epic else Work;
    var dependsOn := [];
    if parent.Some? {
      ghost var p := Parent(lines, i).value;
      assert lineByNumber[parent.value] == lines[p];
      if lineByNumber[parent.value].sequentialParent {
        dependsOn := SequentialPredecessor(lines, i, childrenOf[parent.value], lines[i].lineNumber);
      }
    }
    plan := Plan(lines[i], taskType, parent, dependsOn);
  }

  lemma PlansOfNext(lines: seq<TaskLine>, n: nat)
    requires n < |lines|
    ensures PlansOf(lines, n + 1) == PlansOf(lines, n) + [PlanOf(lines, n)]
  {}

  method PlanLines(lines: seq<TaskLine>, childrenOf: map<nat, seq<nat>>, parentOf: map<nat, Option<nat>>,
                   lineByNumber: map<nat, TaskLine>)
    returns (plans: seq<Plan>)
    requires Increasing(lines)
    requires forall p :: 0 <= p < |lines| ==>
               lines[p].lineNumber in childrenOf && childrenOf[lines[p].lineNumber] == Children(lines, p)
    requires forall p :: 0 <= p < |lines| ==>
               lines[p].lineNumber in parentOf && parentOf[lines[p].lineNumber] == ParentNumber(lines, p)
    requires forall j :: 0 <= j < |lines| ==>
             lines[j].lineNumber in lineByNumber && lineByNumber[lines[j].lineNumber] == lines[j]
    ensures plans == PlansOf(lines, |lines|)
  {
    plans := [];
    for i := 0 to |lines|
      invariant plans == PlansOf(lines, i)
    {
      var plan := PlanLine(lines, i, childrenOf, parentOf[lines[i].lineNumber], lineByNumber);
      PlansOfNext(lines, i);
      plans := plans + [plan];
    }
  }

  /** The builder: plans in document order, and the line numbers of the empty parents. */
  method BuildPlan(lines: seq<TaskLine>) returns (plans: seq<Plan>, errors: seq<nat>)
    requires Increasing(lines)
    ensures plans == PlansOf(lines, |lines|)
    ensures errors == EmptyParents(lines, |lines|)
  {
    var childrenOf, parentOf := LinkLines(lines);
    errors := FindEmptyParents(lines, childrenOf);
    var lineByNumber := IndexLines(lines);
    plans := PlanLines(lines, childrenOf, parentOf, lineByNumber);
  }

  // ---- What the forest means -----------------------------------------------------------

  // The descendants of a line are exactly the deeper lines that follow it without a break.
  lemma {:induction false} DescendantsAreTheDeeperBlock(lines: seq<TaskLine>, a: nat, i: nat)
    requires a < |lines| && i < |lines|
    ensures IsAncestor(lines, a, i) <==>
            a < i && forall k :: a < k <= i ==> lines[a].indent < lines[k].indent
    decreases i
  {
    if IsAncestor(lines, a, i) {
      var p :| IsParent(lines, p, i) && (p == a || IsAncestor(lines, a, p));
      if p != a { DescendantsAreTheDeeperBlock(lines, a, p); }
    }
    if a < i && forall k :: a < k <= i ==> lines[a].indent < lines[k].indent {
      NearestShallowerIsNearest(lines, i, i);
      var p := Parent(lines, i).value;
      ParentIsParent(lines, p, i);
      if a < p { DescendantsAreTheDeeperBlock(lines, a, p); }
    }
  }

  // One more step up: the ancestors of a child are its parent and the parent's ancestors.
  lemma AncestorsOfChild(lines: seq<TaskLine>, a: nat, p: nat, i: nat)
    requires i < |lines| && IsParent(lines, p, i)
    ensures IsAncestor(lines, a, i) <==> a == p || IsAncestor(lines, a, p)
  {
    ParentIsParent(lines, p, i);
    if IsAncestor(lines, a, i) {
      var q :| IsParent(lines, q, i) && (q == a || IsAncestor(lines, a, q));
      ParentIsParent(lines, q, i);
    }
  }

  // The stack entry of a line is in the chain of line i exactly for i and its ancestors.
  lemma {:induction false} ChainIsTheAncestors(lines: seq<TaskLine>, i: nat, a: nat)
    requires Increasing(lines) && i < |lines| && a < |lines|
    ensures (lines[a].indent, lines[a].lineNumber) in Chain(lines, i) <==> a == i || IsAncestor(lines, a, i)
    decreases i
  {
    var p := Parent(lines, i);
    if p.Some? {
      ParentIsParent(lines, p.value, i);
      AncestorsOfChild(lines, a, p.value, i);
      ChainIsTheAncestors(lines, p.value, a);
    } else if IsAncestor(lines, a, i) {
      var q :| IsParent(lines, q, i) && (q == a || IsAncestor(lines, a, q));
      ParentIsParent(lines, q, i);
    }
  }

  // Membership in the children list, both ways.
  lemma {:induction false} ChildIsListed(lines: seq<TaskLine>, p: nat, n: nat, i: nat)
    requires Increasing(lines) && n <= |lines| && i < |lines|
    ensures lines[i].lineNumber in ChildrenUpTo(lines, p, n) <==> i < n && IsParent(lines, p, i)
  {
    if n > 0 {
      ChildIsListed(lines, p, n - 1, i);
      ParentIsParent(lines, p, n - 1);
    }
  }

  lemma {:induction false} LastListedChild(lines: seq<TaskLine>, p: nat, n: nat) returns (j: nat)
    requires n <= |lines| && ChildrenUpTo(lines, p, n) != []
    ensures j < n && IsParent(lines, p, j)
    ensures lines[j].lineNumber == ChildrenUpTo(lines, p, n)[|ChildrenUpTo(lines, p, n)| - 1]
    ensures forall k :: j < k < n ==> !IsParent(lines, p, k)
  {
    ParentIsParent(lines, p, n - 1);
    if Parent(lines, n - 1) == Some(p) { j := n - 1; } else { j := LastListedChild(lines, p, n - 1); }
  }

  lemma DependencyIsPreviousChild(lines: seq<TaskLine>, i: nat) returns (p: nat, j: nat)
    requires i < |lines| && PlanOf(lines, i).dependsOn != []
    ensures p < |lines| && j < |lines| && IsPreviousChild(lines, p, j, i) && lines[p].sequentialParent
    ensures PlanOf(lines, i).dependsOn == [lines[j].lineNumber]
  {
    p := Parent(lines, i).value;
    j := LastListedChild(lines, p, i);
    ParentIsParent(lines, p, i);
  }

  lemma PreviousChildIsDependency(lines: seq<TaskLine>, i: nat, j: nat, p: nat)
    requires Increasing(lines) && i < |lines| && IsPreviousChild(lines, p, j, i) && lines[p].sequentialParent
    ensures PlanOf(lines, i).dependsOn == [lines[j].lineNumber]
  {
    ParentIsParent(lines, p, i);
    ChildIsListed(lines, p, i, j);
    var last := LastListedChild(lines, p, i);
    assert last == j;
  }

  /** A line waits for another exactly when that is the preceding child of their sequential parent. */
  lemma DependsOnPreviousSibling(lines: seq<TaskLine>, i: nat, j: nat)
    requires Increasing(lines) && i < |lines| && j < |lines|
    ensures |PlanOf(lines, i).dependsOn| <= 1
    ensures lines[j].lineNumber in PlanOf(lines, i).dependsOn <==>
            exists p :: IsPreviousChild(lines, p, j, i) && lines[p].sequentialParent
  {
    if q :| IsPreviousChild(lines, q, j, i) && lines[q].sequentialParent {
      PreviousChildIsDependency(lines, i, j, q);
    }
    if PlanOf(lines, i).dependsOn != [] {
      var p, k := DependencyIsPreviousChild(lines, i);
      assert lines[j].lineNumber == lines[k].lineNumber ==> j == k;
    }
  }

  // The dependency edges that arrive at the children of p among the first n lines.
  function EdgesInto(lines: seq<TaskLine>, p: nat, n: nat): seq<(nat, nat)>
    requires n <= |lines|
  {
    if n == 0 then []
    else if Parent(lines, n - 1) == Some(p) && PlanOf(lines, n - 1).dependsOn != [] then
      EdgesInto(lines, p, n - 1) + [(PlanOf(lines, n - 1).dependsOn[0], lines[n - 1].lineNumber)]
    else EdgesInto(lines, p, n - 1)
  }

  /** A sequential parent with k children gets exactly the k - 1 edge path over them; other parents none. */
  lemma {:induction false} SequentialChildrenFormAPath(lines: seq<TaskLine>, p: nat, n: nat)
    requires p < |lines| && n <= |lines|
    ensures var c, e := ChildrenUpTo(lines, p, n), EdgesInto(lines, p, n);
            if !lines[p].sequentialParent || c == [] then e == []
            else |e| == |c| - 1 && forall m :: 0 <= m < |e| ==> e[m] == (c[m], c[m + 1])
  {
    if n > 0 { SequentialChildrenFormAPath(lines, p, n - 1); }
  }

  // A line is an epic exactly when some line has it as parent.
  lemma EpicsAreTheParents(lines: seq<TaskLine>, p: nat)
    requires Increasing(lines) && p < |lines|
    ensures PlanOf(lines, p).taskType.Epic? <==> exists i :: IsParent(lines, p, i)
  {
    if Children(lines, p) != [] { var i := LastListedChild(lines, p, |lines|); }
    if i :| IsParent(lines, p, i) { ChildIsListed(lines, p, |lines|, i); }
  }

  /** The parent of a plan is the nearest earlier line indented less, if there is one, and a plan is of its line. */
  lemma PlansHaveTheirParents(lines: seq<TaskLine>, i: nat, p: nat)
    requires Increasing(lines) && i < |lines| && p < |lines|
    ensures PlanOf(lines, i).line == lines[i]
    ensures PlanOf(lines, i).parent == Some(lines[p].lineNumber) <==> IsParent(lines, p, i)
    ensures PlanOf(lines, i).parent.None? <==> forall q :: !IsParent(lines, q, i)
  {
    ParentIsParent(lines, p, i);
    if Parent(lines, i).Some? { ParentIsParent(lines, Parent(lines, i).value, i); }
    if q :| IsParent(lines, q, i) { ParentIsParent(lines, q, i); }
  }

  // The reported errors are the epics without a description.
  lemma {:induction false} EmptyParentsAreReported(lines: seq<TaskLine>, n: nat, i: nat)
    requires Increasing(lines) && n <= |lines| && i < |lines|
    ensures lines[i].lineNumber in EmptyParents(lines, n) <==>
            i < n && lines[i].description == "" && PlanOf(lines, i).taskType.Epic?
  {
    if n > 0 { EmptyParentsAreReported(lines, n - 1, i); }
  }

  /** Document order is a creation order: every reference names the line of an earlier plan. */
  lemma ReferencesPointBackwards(lines: seq<TaskLine>, i: nat)
    requires i < |lines|
    ensures PlanOf(lines, i).parent.Some? ==>
            exists j :: 0 <= j < i && lines[j].lineNumber == PlanOf(lines, i).parent.value
    ensures forall n :: n in PlanOf(lines, i).dependsOn ==> exists j :: 0 <= j < i && lines[j].lineNumber == n
  {
    var p := Parent(lines, i);
    if p.Some? {
      assert lines[p.value].lineNumber == PlanOf(lines, i).parent.value;
      if PlanOf(lines, i).dependsOn != [] { var j := LastListedChild(lines, p.value, i); }
    }
  }
}
