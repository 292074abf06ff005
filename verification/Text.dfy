/** Characters and runs, shared by the line recognisers. */
module Text {
  // Python's notion of white space in a string (`str.isspace`, `\s`).
  predicate IsSpace(c: char) {
    || '\U{9}' <= c <= '\U{D}' || '\U{1C}' <= c <= '\U{20}'
    || c == '\U{85}' || c == '\U{A0}' || c == '\U{1680}' || '\U{2000}' <= c <= '\U{200A}'
    || c == '\U{2028}' || c == '\U{2029}' || c == '\U{202F}' || c == '\U{205F}' || c == '\U{3000}'
  }

  function SkipSpace(s: string, i: nat): (k: nat)
    requires i <= |s|
    ensures i <= k <= |s|
    decreases |s| - i
  {
    if i < |s| && IsSpace(s[i]) then SkipSpace(s, i + 1) else i
  }

  // How many copies of c start at position i.
  function RunLength(s: string, i: nat, c: char): (n: nat)
    requires i <= |s|
    ensures i + n <= |s|
    decreases |s| - i
  {
    if i < |s| && s[i] == c then 1 + RunLength(s, i + 1, c) else 0
  }

  // What `str.strip()` leaves.
  function Stripped(s: string): string {
    var i := SkipSpace(s, 0);
    s[i..LastNonSpace(s, |s|, i)]
  }

  function LastNonSpace(s: string, n: nat, low: nat): (k: nat)
    requires low <= n <= |s|
    ensures low <= k <= n
  {
    if n > low && IsSpace(s[n - 1]) then LastNonSpace(s, n - 1, low) else n
  }

  predicate IsBlank(line: string) { Stripped(line) == "" }

  // A line is blank exactly when it holds nothing but white space.
  lemma BlankIsAllSpace(line: string)
    ensures IsBlank(line) <==> forall i :: 0 <= i < |line| ==> IsSpace(line[i])
  {
    var low := SkipSpace(line, 0);
    SkipSpaceStops(line, 0);
    if low < |line| { LastNonSpaceStops(line, |line|, low); }
  }

  lemma {:induction false} SkipSpaceStops(s: string, i: nat)
    requires i <= |s|
    ensures var k := SkipSpace(s, i);
            (forall j :: i <= j < k ==> IsSpace(s[j])) && (k < |s| ==> !IsSpace(s[k]))
    decreases |s| - i
  {
    if i < |s| && IsSpace(s[i]) { SkipSpaceStops(s, i + 1); }
  }

  lemma {:induction false} LastNonSpaceStops(s: string, n: nat, low: nat)
    requires low < n <= |s| && !IsSpace(s[low])
    ensures LastNonSpace(s, n, low) > low
  {
    if IsSpace(s[n - 1]) { LastNonSpaceStops(s, n - 1, low); }
  }

  // The run at i is n long exactly if n copies of c start there and no more.
  lemma {:induction false} RunLengthExactly(s: string, i: nat, c: char, n: nat)
    requires i <= |s|
    ensures RunLength(s, i, c) == n <==>
            i + n <= |s| && (forall j :: i <= j < i + n ==> s[j] == c) && (i + n < |s| ==> s[i + n] != c)
    decreases |s| - i
  {
    if i < |s| && s[i] == c {
      if n > 0 { RunLengthExactly(s, i + 1, c, n - 1); }
    }
  }

  // White space is skipped up to k exactly if it is all white space, and what follows is not.
  lemma SkipSpaceExactly(s: string, i: nat, k: nat)
    requires i <= |s|
    ensures SkipSpace(s, i) == k <==>
            i <= k <= |s| && (forall j :: i <= j < k ==> IsSpace(s[j])) && (k < |s| ==> !IsSpace(s[k]))
  {
    SkipSpaceStops(s, i);
  }

  /** Stripping takes the white space off both ends, and nothing else. */
  lemma StrippedExactly(s: string) returns (i: nat)
    ensures var r := Stripped(s);
            && i + |r| <= |s| && s[i..i + |r|] == r
            && (forall j :: 0 <= j < i || i + |r| <= j < |s| ==> IsSpace(s[j]))
            && (r != "" ==> !IsSpace(r[0]) && !IsSpace(r[|r| - 1]))
  {
    i := SkipSpace(s, 0);
    SkipSpaceStops(s, 0);
    LastNonSpaceEnds(s, |s|, i);
  }

  lemma {:induction false} LastNonSpaceEnds(s: string, n: nat, low: nat)
    requires low <= n <= |s|
    ensures var k := LastNonSpace(s, n, low);
            (k > low ==> !IsSpace(s[k - 1])) && forall j :: k <= j < n ==> IsSpace(s[j])
  {
    if n > low && IsSpace(s[n - 1]) { LastNonSpaceEnds(s, n - 1, low); }
  }
}
