/** String operations of the JavaScript runtime that the server relies on:
    `trim`, the `\s` class, ASCII case mapping, `replace` of character runs,
    `split('@')[0]` and decimal rendering of a timestamp. */
module Text {
  import opened Wrappers

  /** The characters that `String.prototype.trim` strips and that the regular
      expression class `\s` matches (ECMAScript WhiteSpace and LineTerminator). */
  predicate IsSpace(c: char) {
    || c == ' ' || c == '\t' || c == '\n' || c == '\U{000B}' || c == '\U{000C}' || c == '\r'
    || c == '\U{00A0}' || c == '\U{1680}' || ('\U{2000}' <= c <= '\U{200A}')
    || c == '\U{2028}' || c == '\U{2029}' || c == '\U{202F}' || c == '\U{205F}'
    || c == '\U{3000}' || c == '\U{FEFF}'
  }

  /** The number of white-space characters `s` starts with. */
  function LeadingSpaces(s: string): (n: nat)
    ensures n <= |s| && (n == |s| || !IsSpace(s[n]))
    ensures forall k :: 0 <= k < n ==> IsSpace(s[k])
  {
    if s != [] && IsSpace(s[0]) then 1 + LeadingSpaces(s[1..]) else 0
  }

  /** The length of `s` without the white space it ends with. */
  function TrailingStart(s: string): (j: nat)
    ensures j <= |s| && (j == 0 || !IsSpace(s[j - 1]))
    ensures forall k :: j <= k < |s| ==> IsSpace(s[k])
  {
    if s != [] && IsSpace(s[|s| - 1]) then TrailingStart(s[..|s| - 1]) else |s|
  }

  /** `String.prototype.trim`. */
  function Trim(s: string): (r: string)
    ensures |r| <= |s|
    ensures r == [] <==> forall k :: 0 <= k < |s| ==> IsSpace(s[k])
    ensures r != [] ==> !IsSpace(r[0]) && !IsSpace(r[|r| - 1])
    ensures s == [] || (!IsSpace(s[0]) && !IsSpace(s[|s| - 1])) ==> r == s
    ensures var i := LeadingSpaces(s);
      i + |r| <= |s| && r == s[i..i + |r|] && forall k :: i + |r| <= k < |s| ==> IsSpace(s[k])
  {
    var i, j := LeadingSpaces(s), TrailingStart(s);
    if j <= i then
      assert forall k :: 0 <= k < |s| ==> IsSpace(s[k]);
      assert s[i..i] == [];
      []
    else
      s[i..j]
  }

  /** `!x || x.trim().length === 0`: a payload field that is missing or only white space. */
  predicate Blank(x: Option<string>) {
    x.None? || Trim(x.value) == []
  }

  /** ASCII `toLowerCase` of one character. */
  function LowerChar(c: char): char {
    if 'A' <= c <= 'Z' then (c as int + 32) as char else c
  }

  /** ASCII `toUpperCase` of one character. */
  function UpperChar(c: char): char {
    if 'a' <= c <= 'z' then (c as int - 32) as char else c
  }

  function Lower(s: string): string {
    seq(|s|, i requires 0 <= i < |s| => LowerChar(s[i]))
  }

  function Upper(s: string): string {
    seq(|s|, i requires 0 <= i < |s| => UpperChar(s[i]))
  }

  /** `s.replace(/a/g, b)` for a single character `a`. */
  function ReplaceChar(s: string, a: char, b: char): string {
    seq(|s|, i requires 0 <= i < |s| => if s[i] == a then b else s[i])
  }

  predicate StartsWith(s: string, prefix: string) {
    |prefix| <= |s| && s[..|prefix|] == prefix
  }

  /** `s.replace(/^prefix/, '')`. */
  function StripPrefix(s: string, prefix: string): string {
    if StartsWith(s, prefix) then s[|prefix|..] else s
  }

  /** `s.split(c)[0]`: everything before the first `c`, or all of `s`. */
  function BeforeFirst(s: string, c: char): (r: string)
    ensures |r| <= |s| && r == s[..|r|]
    ensures c !in r
    ensures |r| < |s| ==> s[|r|] == c
  {
    if s == [] || s[0] == c then [] else [s[0]] + BeforeFirst(s[1..], c)
  }

  /** The number a string of decimal digits denotes. */
  function DigitsValue(r: string): nat
    requires forall i :: 0 <= i < |r| ==> '0' <= r[i] <= '9'
  {
    if r == [] then 0 else 10 * DigitsValue(r[..|r| - 1]) + (r[|r| - 1] as int - '0' as int)
  }

  /** The decimal rendering of a non-negative integer, as template literals
      print it: digits denoting `n`, with no leading zero. */
  function Decimal(n: nat): (r: string)
    ensures r != []
    ensures forall i :: 0 <= i < |r| ==> '0' <= r[i] <= '9'
    ensures DigitsValue(r) == n
    ensures r[0] == '0' ==> r == "0"
  {
    var digit := (48 + n % 10) as char;
    if n < 10 then [digit]
    else
      var front := Decimal(n / 10);
      var r := front + [digit];
      assert r[..|r| - 1] == front;
      r
  }

  /** The left-to-right scan behind `s.replace(/[class]+/g, '-')`, where `p`
      decides the class: the first character of each run writes one '-', the
      rest of the run writes nothing. `inRun` says the scan is inside a run
      whose '-' is already written. */
  function Runs(s: string, p: char -> bool, inRun: bool): (r: string)
    ensures |r| <= |s|
    ensures s != [] && !(inRun && p(s[0])) ==> r != []
    ensures forall i :: 0 <= i < |r| ==> r[i] == '-' || !p(r[i])
  {
    if s == [] then []
    else if p(s[0]) then (if inRun then [] else "-") + Runs(s[1..], p, true)
    else [s[0]] + Runs(s[1..], p, false)
  }

  /** Every maximal run of characters satisfying `p` replaced by one '-'. */
  function ReplaceRuns(s: string, p: char -> bool): (r: string)
    ensures |r| <= |s|
    ensures r == [] <==> s == []
    ensures forall i :: 0 <= i < |r| ==> r[i] == '-' || !p(r[i])
  {
    Runs(s, p, false)
  }

  lemma {:induction false} RunsNone(s: string, p: char -> bool, inRun: bool)
    requires forall i :: 0 <= i < |s| ==> !p(s[i])
    ensures Runs(s, p, inRun) == s
    decreases |s|
  {
    if s != [] {
      RunsNone(s[1..], p, false);
    }
  }

  /** Replacing runs changes nothing in a string with no character of the class. */
  lemma ReplaceRunsNone(s: string, p: char -> bool)
    requires forall i :: 0 <= i < |s| ==> !p(s[i])
    ensures ReplaceRuns(s, p) == s
  {
    RunsNone(s, p, false);
  }

  /** The characters of `s` that do not satisfy `p`, in order. */
  function Kept(s: string, p: char -> bool): string {
    if s == [] then [] else (if p(s[0]) then [] else [s[0]]) + Kept(s[1..], p)
  }

  lemma {:induction false} KeptConcat(a: string, b: string, p: char -> bool)
    ensures Kept(a + b, p) == Kept(a, p) + Kept(b, p)
    decreases |a|
  {
    if a == [] {
      assert a + b == b;
    } else {
      var c := a + b;
      assert c[0] == a[0];
      assert c[1..] == a[1..] + b;
      KeptConcat(a[1..], b, p);
    }
  }

  /** Filtering with a class `q` that holds '-' and every character of `p`
      sees the same characters before and after the scan. */
  lemma {:induction false} RunsKeeps(s: string, p: char -> bool, q: char -> bool, inRun: bool)
    requires q('-')
    requires forall c :: p(c) ==> q(c)
    ensures Kept(Runs(s, p, inRun), q) == Kept(s, q)
    decreases |s|
  {
    if s != [] {
      var rest := Runs(s[1..], p, p(s[0]));
      RunsKeeps(s[1..], p, q, p(s[0]));
      var head: string := if p(s[0]) then (if inRun then [] else "-") else [s[0]];
      assert Runs(s, p, inRun) == head + rest;
      KeptConcat(head, rest, q);
      assert s == [s[0]] + s[1..];
      KeptConcat([s[0]], s[1..], q);
    }
  }

  /** Replacing runs loses and reorders none of the characters outside the
      class and other than '-': filtered by any `q` covering both, the result
      and the input agree. */
  lemma ReplaceRunsKeeps(s: string, p: char -> bool, q: char -> bool)
    requires q('-')
    requires forall c :: p(c) ==> q(c)
    ensures Kept(ReplaceRuns(s, p), q) == Kept(s, q)
  {
    RunsKeeps(s, p, q, false);
  }

  /** Whether the scan is inside a run after reading `a`. */
  function After(a: string, p: char -> bool, inRun: bool): bool {
    if a == [] then inRun else p(a[|a| - 1])
  }

  lemma ConcatAssoc(x: string, y: string, z: string)
    ensures x + (y + z) == (x + y) + z
  {
  }

  lemma {:induction false} RunsConcat(a: string, b: string, p: char -> bool, inRun: bool)
    ensures Runs(a + b, p, inRun) == Runs(a, p, inRun) + Runs(b, p, After(a, p, inRun))
    decreases |a|
  {
    if a == [] {
      assert a + b == b;
    } else {
      var c, t := a + b, a[1..];
      assert c[0] == a[0] && c[1..] == t + b;
      var head: string := if !p(a[0]) then [a[0]] else if inRun then [] else "-";
      RunsConcat(t, b, p, p(a[0]));
      assert After(t, p, p(a[0])) == After(a, p, inRun);
      calc {
        Runs(c, p, inRun);
        head + Runs(t + b, p, p(a[0]));
        head + (Runs(t, p, p(a[0])) + Runs(b, p, After(a, p, inRun)));
        { ConcatAssoc(head, Runs(t, p, p(a[0])), Runs(b, p, After(a, p, inRun))); }
        (head + Runs(t, p, p(a[0]))) + Runs(b, p, After(a, p, inRun));
        Runs(a, p, inRun) + Runs(b, p, After(a, p, inRun));
      }
    }
  }

  /** A non-empty run of class characters writes one '-', or nothing when the
      scan is already inside a run. */
  lemma {:induction false} RunsOfRun(run: string, p: char -> bool, inRun: bool)
    requires run != [] && forall i :: 0 <= i < |run| ==> p(run[i])
    ensures Runs(run, p, inRun) == if inRun then [] else "-"
    decreases |run|
  {
    if |run| > 1 {
      RunsOfRun(run[1..], p, true);
    }
  }

  /** A maximal run of class characters, of any length, becomes exactly one
      '-' between the replacements of what precedes and what follows it. */
  lemma ReplaceRunsCollapses(x: string, run: string, y: string, p: char -> bool)
    requires x == [] || !p(x[|x| - 1])
    requires run != [] && forall i :: 0 <= i < |run| ==> p(run[i])
    requires y == [] || !p(y[0])
    ensures ReplaceRuns(x + run + y, p) == ReplaceRuns(x, p) + "-" + ReplaceRuns(y, p)
  {
    RunsConcat(x + run, y, p, false);
    RunsConcat(x, run, p, false);
    RunsOfRun(run, p, false);
    assert After(x + run, p, false) == true;
  }

  /** No "--" in the output; inside a run the output does not even start with '-'. */
  lemma {:induction false} RunsNoDoubleDash(s: string, p: char -> bool, inRun: bool)
    requires p('-')
    ensures forall i :: 0 <= i < |Runs(s, p, inRun)| - 1 ==>
      !(Runs(s, p, inRun)[i] == '-' && Runs(s, p, inRun)[i + 1] == '-')
    ensures inRun ==> Runs(s, p, inRun) == [] || Runs(s, p, inRun)[0] != '-'
    decreases |s|
  {
    if s != [] {
      var r := Runs(s, p, inRun);
      var rest := Runs(s[1..], p, p(s[0]));
      RunsNoDoubleDash(s[1..], p, p(s[0]));
      if p(s[0]) && !inRun {
        assert r == "-" + rest;
        assert rest != [] ==> r[1] == rest[0];
        assert forall i :: 1 <= i < |r| ==> r[i] == rest[i - 1];
      } else if !p(s[0]) {
        assert r == [s[0]] + rest;
        assert forall i :: 1 <= i < |r| ==> r[i] == rest[i - 1];
      }
    }
  }

  /** When '-' itself belongs to the replaced class, the result never holds "--". */
  lemma ReplaceRunsNoDoubleDash(s: string, p: char -> bool)
    requires p('-')
    ensures forall i :: 0 <= i < |ReplaceRuns(s, p)| - 1 ==>
      !(ReplaceRuns(s, p)[i] == '-' && ReplaceRuns(s, p)[i + 1] == '-')
  {
    RunsNoDoubleDash(s, p, false);
  }

  /** Each character of `s` satisfying `p` replaced by '-' on its own. */
  function DashEach(s: string, p: char -> bool): string {
    seq(|s|, i requires 0 <= i < |s| => if p(s[i]) then '-' else s[i])
  }

  lemma DashEachCons(s: string, p: char -> bool)
    requires s != []
    ensures DashEach(s, p) == [if p(s[0]) then '-' else s[0]] + DashEach(s[1..], p)
  {
    assert DashEach(s, p)[1..] == DashEach(s[1..], p);
  }

  lemma {:induction false} RunsIsolated(s: string, p: char -> bool, inRun: bool)
    requires forall i :: 0 <= i < |s| - 1 ==> !(p(s[i]) && p(s[i + 1]))
    requires inRun ==> s == [] || !p(s[0])
    ensures Runs(s, p, inRun) == DashEach(s, p)
    decreases |s|
  {
    if s != [] {
      var tail := s[1..];
      if p(s[0]) && tail != [] {
        assert !p(tail[0]);
      }
      RunsIsolated(tail, p, p(s[0]));
      DashEachCons(s, p);
    }
  }

  /** When no two characters of the class are adjacent, every run is a single
      character, so replacing runs is replacing characters. */
  lemma ReplaceIsolatedRuns(s: string, p: char -> bool)
    requires forall i :: 0 <= i < |s| - 1 ==> !(p(s[i]) && p(s[i + 1]))
    ensures ReplaceRuns(s, p) == DashEach(s, p)
  {
    RunsIsolated(s, p, false);
  }
}
