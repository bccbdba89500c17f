/**
 * The .NET string operations the engine relies on: `String.Split(char)`,
 * `String.Trim()`, `String.Trim(params char[])`, `String.Contains(string)`,
 * `String.IsNullOrWhiteSpace` and `Char.IsWhiteSpace`, all ordinal.
 */
module Text {

  /** Char.IsWhiteSpace: the Unicode separators (Zs, Zl, Zp), U+0009..U+000D and U+0085. */
  predicate IsWhiteSpace(c: char) {
    || ('\t' <= c <= '\r')
    || c == ' ' || c == '\U{85}' || c == '\U{A0}' || c == '\U{1680}'
    || ('\U{2000}' <= c <= '\U{200A}')
    || c == '\U{2028}' || c == '\U{2029}' || c == '\U{202F}' || c == '\U{205F}' || c == '\U{3000}'
  }

  /** `String.IsNullOrWhiteSpace` for a non-null string: empty or only white space. */
  predicate IsWhiteSpaceOnly(s: string) {
    forall i :: 0 <= i < |s| ==> IsWhiteSpace(s[i])
  }

  /** How many times `c` occurs in `s`. */
  function Occurrences(s: string, c: char): nat {
    multiset(s)[c]
  }

  /** Removes the longest prefix whose characters all satisfy `drop`. */
  function TrimStart(s: string, drop: char -> bool): string {
    if |s| > 0 && drop(s[0]) then TrimStart(s[1..], drop) else s
  }

  /** Removes the longest suffix whose characters all satisfy `drop`. */
  function TrimEnd(s: string, drop: char -> bool): string {
    if |s| > 0 && drop(s[|s| - 1]) then TrimEnd(s[..|s| - 1], drop) else s
  }

  /** `TrimStart` keeps a suffix, drops only droppable characters, and stops at one it keeps. */
  lemma {:induction false} TrimStartSpec(s: string, drop: char -> bool)
    ensures var r := TrimStart(s, drop);
      && |r| <= |s| && r == s[|s| - |r|..]
      && (forall i :: 0 <= i < |s| - |r| ==> drop(s[i]))
      && (|r| > 0 ==> !drop(r[0]))
  {
    if |s| > 0 && drop(s[0]) {
      TrimStartSpec(s[1..], drop);
      assert forall i :: 1 <= i < |s| ==> s[i] == s[1..][i - 1];
    }
  }

  /** `TrimEnd` keeps a prefix, drops only droppable characters, and stops at one it keeps. */
  lemma {:induction false} TrimEndSpec(s: string, drop: char -> bool)
    ensures var r := TrimEnd(s, drop);
      && |r| <= |s| && r == s[..|r|]
      && (forall i :: |r| <= i < |s| ==> drop(s[i]))
      && (|r| > 0 ==> !drop(r[|r| - 1]))
  {
    if |s| > 0 && drop(s[|s| - 1]) {
      TrimEndSpec(s[..|s| - 1], drop);
    }
  }

  /** Trims both ends. */
  function TrimBoth(s: string, drop: char -> bool): string {
    TrimEnd(TrimStart(s, drop), drop)
  }

  /**
   * The trimmed text is the infix of `s` that starts at the first character
   * not satisfying `drop` and ends at the last one.
   */
  lemma TrimBothSpec(s: string, drop: char -> bool)
    ensures var r := TrimBoth(s, drop);
      var start := |s| - |TrimStart(s, drop)|;
      && 0 <= start && start + |r| <= |s|
      && r == s[start..start + |r|]
      && (forall i :: 0 <= i < start ==> drop(s[i]))
      && (forall i :: start + |r| <= i < |s| ==> drop(s[i]))
      && (|r| > 0 ==> !drop(r[0]) && !drop(r[|r| - 1]))
  {
    var t := TrimStart(s, drop);
    TrimStartSpec(s, drop);
    TrimEndSpec(t, drop);
    var r := TrimEnd(t, drop);
    var start := |s| - |t|;
    assert forall i :: 0 <= i < |t| ==> t[i] == s[start + i];
  }

  /** `String.Trim()`: strips white space from both ends. */
  function Trim(s: string): string {
    TrimBoth(s, IsWhiteSpace)
  }

  /** `String.Trim('[', ']')`: strips every bracket character from both ends. */
  function TrimBrackets(s: string): string {
    TrimBoth(s, c => c == '[' || c == ']')
  }

  /** Every character of the trimmed text occurs in the text. */
  lemma TrimWithin(s: string, drop: char -> bool)
    ensures forall ch :: ch in TrimBoth(s, drop) ==> ch in s
  {
    TrimBothSpec(s, drop);
    var r := TrimBoth(s, drop);
    var start := |s| - |TrimStart(s, drop)|;
    forall ch | ch in r ensures ch in s {
      var i :| 0 <= i < |r| && r[i] == ch;
      assert s[start + i] == ch;
    }
  }

  /**
   * Trimming text made of a droppable prefix, a word whose two ends are kept
   * and a droppable suffix leaves exactly the word.
   */
  lemma TrimBothPadded(pre: string, w: string, post: string, drop: char -> bool)
    requires |w| > 0 && !drop(w[0]) && !drop(w[|w| - 1])
    requires forall i :: 0 <= i < |pre| ==> drop(pre[i])
    requires forall i :: 0 <= i < |post| ==> drop(post[i])
    ensures TrimBoth(pre + w + post, drop) == w
  {
    var s := pre + w + post;
    TrimBothSpec(s, drop);
    var r := TrimBoth(s, drop);
    var start := |s| - |TrimStart(s, drop)|;
    assert s[|pre|] == w[0];
    assert s[|pre| + |w| - 1] == w[|w| - 1];
    assert forall i :: 0 <= i < |pre| ==> s[i] == pre[i];
    assert forall i :: |pre| + |w| <= i < |s| ==> s[i] == post[i - |pre| - |w|];
    assert start <= |pre|;
    assert start + |r| > |pre|;
    assert |r| > 0;
    assert r[0] == s[start];
    assert start == |pre|;
    assert r[|r| - 1] == s[start + |r| - 1];
    assert start + |r| == |pre| + |w|;
    assert r == s[|pre|..|pre| + |w|];
  }

  /** `Trim()` of a word padded with white space is the word. */
  lemma TrimPadded(pre: string, w: string, post: string)
    requires |w| > 0 && !IsWhiteSpace(w[0]) && !IsWhiteSpace(w[|w| - 1])
    requires IsWhiteSpaceOnly(pre) && IsWhiteSpaceOnly(post)
    ensures Trim(pre + w + post) == w
  {
    TrimBothPadded(pre, w, post, IsWhiteSpace);
  }

  /** `String.Split(char)`: the pieces between separators, empty pieces included. */
  function Split(s: string, sep: char): (parts: seq<string>)
    ensures |parts| > 0
    ensures forall i :: 0 <= i < |parts| ==> sep !in parts[i]
  {
    if |s| == 0 then [""]
    else
      var rest := Split(s[1..], sep);
      if s[0] == sep then [""] + rest
      else [[s[0]] + rest[0]] + rest[1..]
  }

  /** Every character of a piece occurs in the text. */
  lemma {:induction false} SplitPiecesWithin(s: string, sep: char)
    ensures forall i, ch :: 0 <= i < |Split(s, sep)| && ch in Split(s, sep)[i] ==> ch in s
  {
    if |s| > 0 {
      SplitPiecesWithin(s[1..], sep);
      var rest := Split(s[1..], sep);
      assert forall ch :: ch in s[1..] ==> ch in s;
      if s[0] != sep {
        assert forall ch :: ch in [s[0]] + rest[0] ==> ch == s[0] || ch in rest[0];
        assert forall i :: 1 <= i < |Split(s, sep)| ==> Split(s, sep)[i] == rest[i];
      } else {
        assert forall i :: 1 <= i < |Split(s, sep)| ==> Split(s, sep)[i] == rest[i - 1];
      }
    }
  }

  /** There is one more piece than there are separators. */
  lemma {:induction false} SplitCount(s: string, sep: char)
    ensures |Split(s, sep)| == Occurrences(s, sep) + 1
  {
    if |s| > 0 {
      SplitCount(s[1..], sep);
      assert s == [s[0]] + s[1..];
      assert multiset(s) == multiset([s[0]]) + multiset(s[1..]);
    }
  }

  /** Joining the pieces with the separator gives the text back. */
  lemma {:induction false} JoinSplit(s: string, sep: char)
    ensures Join(Split(s, sep), sep) == s
  {
    if |s| > 0 {
      JoinSplit(s[1..], sep);
      var rest := Split(s[1..], sep);
      if s[0] == sep {
        assert ([""] + rest)[1..] == rest;
      } else {
        JoinCons(s[0], rest, sep);
      }
    }
  }

  /** `String.Join`: the pieces with one separator between neighbours. */
  function Join(parts: seq<string>, sep: char): string
  {
    if |parts| == 0 then ""
    else if |parts| == 1 then parts[0]
    else parts[0] + [sep] + Join(parts[1..], sep)
  }

  lemma JoinCons(c: char, parts: seq<string>, sep: char)
    requires |parts| > 0
    ensures Join([[c] + parts[0]] + parts[1..], sep) == [c] + Join(parts, sep)
  {
    var q := [[c] + parts[0]] + parts[1..];
    assert q[1..] == parts[1..];
  }

  /** Splitting a joined sequence gives the pieces back, when no piece holds the separator. */
  lemma {:induction false} SplitJoin(parts: seq<string>, sep: char)
    requires |parts| > 0
    requires forall i :: 0 <= i < |parts| ==> sep !in parts[i]
    ensures Split(Join(parts, sep), sep) == parts
  {
    if |parts| == 1 {
      SplitWithout(parts[0], sep);
    } else {
      SplitJoin(parts[1..], sep);
      SplitAfter(parts[0], Join(parts[1..], sep), sep);
      assert [parts[0]] + parts[1..] == parts;
    }
  }

  /** Text without the separator is one piece. */
  lemma {:induction false} SplitWithout(s: string, sep: char)
    requires sep !in s
    ensures Split(s, sep) == [s]
  {
    SplitCount(s, sep);
    JoinSplit(s, sep);
    assert multiset(s)[sep] == 0;
  }

  /** A separator-free prefix followed by the separator becomes the first piece. */
  lemma {:induction false} SplitAfter(a: string, b: string, sep: char)
    requires sep !in a
    ensures Split(a + [sep] + b, sep) == [a] + Split(b, sep)
  {
    if |a| == 0 {
      assert a + [sep] + b == [sep] + b;
      assert ([sep] + b)[1..] == b;
    } else {
      var s := a + [sep] + b;
      assert s[0] == a[0] && s[0] != sep;
      assert s[1..] == a[1..] + [sep] + b;
      SplitAfter(a[1..], b, sep);
      var rest := Split(s[1..], sep);
      assert rest == [a[1..]] + Split(b, sep);
      assert Split(s, sep) == [[s[0]] + rest[0]] + rest[1..];
      assert [a[0]] + a[1..] == a;
      assert rest[1..] == Split(b, sep);
    }
  }

  /** `String.Contains(string)`, ordinal: `v` occurs somewhere in `s` (the empty string always does). */
  predicate Contains(s: string, v: string) {
    exists i | 0 <= i <= |s| - |v| :: OccursAt(s, v, i)
  }

  /** `v` occurs in `s` starting at index `i`. */
  predicate OccursAt(s: string, v: string, i: int) {
    0 <= i <= |s| - |v| && s[i..i + |v|] == v
  }
}
