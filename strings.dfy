/**
 * String primitives behind index.js's regular expressions and string
 * methods: `indexOf`, `replace` with a non-global pattern (first
 * occurrence only), `^` anchoring, and `.` (any character but a line
 * terminator).
 */
module Strings {
  import opened Wrappers

  predicate StartsWith(s: string, prefix: string) {
    |prefix| <= |s| && s[..|prefix|] == prefix
  }

  /** A string that starts with `p` agrees with it position by position. */
  lemma PrefixAt(s: string, p: string)
    requires StartsWith(s, p)
    ensures forall i :: 0 <= i < |p| ==> s[i] == p[i]
  {
    forall i | 0 <= i < |p| ensures s[i] == p[i] { assert s[..|p|][i] == s[i]; }
  }

  /** `pat` occurs in `s` starting at index `i`. */
  predicate OccursAt(s: string, pat: string, i: int) {
    0 <= i && i + |pat| <= |s| && s[i..i + |pat|] == pat
  }

  predicate Contains(s: string, pat: string) {
    exists i :: 0 <= i <= |s| && OccursAt(s, pat, i)
  }

  /** `s.indexOf(pat)`: the first index at which `pat` occurs, if any. */
  function IndexOf(s: string, pat: string): (r: Option<nat>)
    ensures r.Some? ==> OccursAt(s, pat, r.value)
    ensures r.Some? ==> forall j :: 0 <= j < r.value ==> !OccursAt(s, pat, j)
    ensures r.None? ==> !Contains(s, pat)
    decreases |s|
  {
    if StartsWith(s, pat) then Some(0)
    else if s == [] then None
    else
      match IndexOf(s[1..], pat)
      case None =>
        assert !Contains(s, pat) by {
          forall j | 0 < j <= |s| ensures !OccursAt(s, pat, j) { OccursShift(s, pat, j); }
        }
        None
      case Some(i) =>
        assert OccursAt(s, pat, i + 1) && forall j :: 0 < j < i + 1 ==> !OccursAt(s, pat, j) by {
          OccursShift(s, pat, i + 1);
          forall j | 0 < j < i + 1 ensures !OccursAt(s, pat, j) { OccursShift(s, pat, j); }
        }
        Some(i + 1)
  }

  /** An occurrence past the first character is an occurrence in the tail. */
  lemma OccursShift(s: string, pat: string, j: int)
    requires 0 < j && s != []
    ensures OccursAt(s, pat, j) <==> OccursAt(s[1..], pat, j - 1)
  {
    if j + |pat| <= |s| { assert s[1..][j - 1..j - 1 + |pat|] == s[j..j + |pat|]; }
  }

  /** The first occurrence is the one the search finds. */
  lemma IndexOfIs(s: string, pat: string, i: nat)
    requires OccursAt(s, pat, i)
    requires forall j :: 0 <= j < i ==> !OccursAt(s, pat, j)
    ensures IndexOf(s, pat) == Some(i)
  {
  }

  /** `s.replace(pat, rep)` for a pattern without the `g` flag: only the first occurrence changes. */
  function ReplaceFirst(s: string, pat: string, rep: string): (r: string)
    ensures !Contains(s, pat) ==> r == s
    ensures forall i :: OccursAt(s, pat, i) && (forall j :: 0 <= j < i ==> !OccursAt(s, pat, j)) ==>
      r == s[..i] + rep + s[i + |pat|..]
  {
    match IndexOf(s, pat)
    case None => s
    case Some(k) =>
      FirstOccurrenceUnique(s, pat, k);
      s[..k] + rep + s[k + |pat|..]
  }

  /** The occurrence with none before it is the one the search finds. */
  lemma FirstOccurrenceUnique(s: string, pat: string, k: nat)
    requires IndexOf(s, pat) == Some(k)
    ensures forall i :: OccursAt(s, pat, i) && (forall j :: 0 <= j < i ==> !OccursAt(s, pat, j)) ==> i == k
  {
  }

  /** Replacing at the first occurrence, when that occurrence is known. */
  lemma ReplaceFirstAt(s: string, pat: string, rep: string, i: nat)
    requires IndexOf(s, pat) == Some(i)
    ensures ReplaceFirst(s, pat, rep) == s[..i] + rep + s[i + |pat|..]
  {
  }

  lemma AppendAssoc(x: string, y: string, z: string)
    ensures (x + y) + z == x + (y + z)
  {
  }

  lemma EmptyAppend(x: string, y: string)
    requires x == []
    ensures x + y == y
  {
  }

  lemma SliceAppend(x: string, y: string, n: nat)
    requires n <= |x|
    ensures (x + y)[..n] == x[..n] && (x + y)[n..] == x[n..] + y
  {
  }

  /** The characters ECMAScript treats as line terminators, which `.` does not match. */
  predicate IsLineTerminator(c: char) {
    c == '\n' || c == '\r' || c == '\U{2028}' || c == '\U{2029}'
  }

  predicate NoLineTerminator(s: string) {
    forall i :: 0 <= i < |s| ==> !IsLineTerminator(s[i])
  }

  /** What `(.*)` captures at the start of `s`: everything before the first line terminator. */
  function TakeLine(s: string): (r: string)
    ensures StartsWith(s, r) && NoLineTerminator(r)
    ensures |r| == |s| || IsLineTerminator(s[|r|])
    decreases |s|
  {
    if s == [] || IsLineTerminator(s[0]) then []
    else
      var rest := TakeLine(s[1..]);
      assert s[1..][..|rest|] == s[1..|rest| + 1];
      [s[0]] + rest
  }

  /** `toLowerCase`, restricted to the ASCII letters. */
  function ToLower(s: string): (r: string)
    ensures |r| == |s|
    ensures forall i :: 0 <= i < |s| ==> r[i] == LowerChar(s[i])
  {
    seq(|s|, i requires 0 <= i < |s| => LowerChar(s[i]))
  }

  function LowerChar(c: char): char {
    if 'A' <= c <= 'Z' then (c as int - 'A' as int + 'a' as int) as char else c
  }

  /** `(.*)` captures exactly `p` when `p` is line-terminator free and is followed by a terminator or the end. */
  lemma {:induction false} TakeLineUnique(s: string, p: string)
    requires StartsWith(s, p) && NoLineTerminator(p)
    requires |s| == |p| || IsLineTerminator(s[|p|])
    ensures TakeLine(s) == p
    decreases |p|
  {
    if p != [] {
      assert s[1..][..|p| - 1] == p[1..];
      TakeLineUnique(s[1..], p[1..]);
    }
  }

  /** For a one-character pattern, an occurrence is just that character. */
  lemma OccursAtChar(s: string, c: char, i: int)
    ensures OccursAt(s, [c], i) <==> 0 <= i < |s| && s[i] == c
  {
    if 0 <= i < |s| { assert s[i..i + 1] == [s[i]]; }
  }

  /** The first `c` in `s` splits it into a `c`-free prefix, `c` and the rest. */
  lemma {:induction false} IndexOfCharSplit(s: string, c: char)
    requires c in s
    ensures IndexOf(s, [c]).Some?
    ensures var i := IndexOf(s, [c]).value;
      i < |s| && s[i] == c && c !in s[..i] && s == s[..i] + [c] + s[i + 1..]
  {
    var k :| 0 <= k < |s| && s[k] == c;
    OccursAtChar(s, c, k);
    var i := IndexOf(s, [c]).value;
    OccursAtChar(s, c, i);
    forall j | 0 <= j < i ensures s[..i][j] != c {
      OccursAtChar(s, c, j);
    }
  }

  /** A character that occurs nowhere yields no match. */
  lemma IndexOfAbsentChar(s: string, c: char)
    requires c !in s
    ensures IndexOf(s, [c]).None?
  {
    if IndexOf(s, [c]).Some? {
      OccursAtChar(s, c, IndexOf(s, [c]).value);
    }
  }

  /** Replacing the first `c` of `a + [c] + b`, where `a` holds no `c`, splices `rep` in at `|a|`. */
  lemma ReplaceFirstCharAt(a: string, c: char, b: string, rep: string)
    requires c !in a
    ensures ReplaceFirst(a + [c] + b, [c], rep) == a + rep + b
  {
    var s := a + [c] + b;
    IndexOfCharSplit(s, c);
    var i := IndexOf(s, [c]).value;
    assert forall j :: 0 <= j < |a| ==> s[j] == a[j];
    assert s[|a|] == c;
    OccursAtChar(s, c, |a|);
    assert i == |a|;
    assert s[..i] == a && s[i + 1..] == b;
  }
}

