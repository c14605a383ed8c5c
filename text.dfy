/** The Python string operations the diagnostics code relies on, stated over `seq<char>`:
    `str.strip()`, `str.split('\n')`, `'\n'.join(...)`, `in` (substring), `str.find`,
    `str.count`, `str.split(sep)[0]` and `str.lower()`. */
module Text {
  import opened Wrappers

  /** The characters for which Python's `str.isspace()` holds. */
  predicate IsSpace(c: char) {
    || c == ' ' || c == '\t' || c == '\n' || c == '\r'
    || c == '\U{B}' || c == '\U{C}'
    || ('\U{1C}' <= c <= '\U{1F}')
    || c == '\U{85}' || c == '\U{A0}' || c == '\U{1680}'
    || ('\U{2000}' <= c <= '\U{200A}')
    || c == '\U{2028}' || c == '\U{2029}' || c == '\U{202F}' || c == '\U{205F}' || c == '\U{3000}'
  }

  /** `s` without its leading whitespace. */
  function TrimStart(s: string): string {
    if s != [] && IsSpace(s[0]) then TrimStart(s[1..]) else s
  }

  /** `s` without its trailing whitespace. */
  function TrimEnd(s: string): string {
    if s != [] && IsSpace(s[|s| - 1]) then TrimEnd(s[..|s| - 1]) else s
  }

  /** Python's `s.strip()`. */
  function Strip(s: string): string {
    TrimEnd(TrimStart(s))
  }

  /** `TrimStart` removes exactly the leading whitespace. */
  lemma {:induction false} TrimStartSpec(s: string)
    ensures var r := TrimStart(s);
      && |r| <= |s| && r == s[|s| - |r|..]
      && (forall i :: 0 <= i < |s| - |r| ==> IsSpace(s[i]))
      && (r != [] ==> !IsSpace(r[0]))
  {
    if s != [] && IsSpace(s[0]) {
      var t := s[1..];
      TrimStartSpec(t);
      var r := TrimStart(t);
      assert TrimStart(s) == r;
      assert forall i :: 1 <= i < |s| ==> s[i] == t[i - 1];
    }
  }

  /** `TrimEnd` removes exactly the trailing whitespace. */
  lemma {:induction false} TrimEndSpec(s: string)
    ensures var r := TrimEnd(s);
      && |r| <= |s| && r == s[..|r|]
      && (forall i :: |r| <= i < |s| ==> IsSpace(s[i]))
      && (r != [] ==> !IsSpace(r[|r| - 1]))
  {
    if s != [] && IsSpace(s[|s| - 1]) {
      var t := s[..|s| - 1];
      TrimEndSpec(t);
      assert TrimEnd(s) == TrimEnd(t);
      assert forall i :: 0 <= i < |t| ==> s[i] == t[i];
    }
  }

  /** `Strip(s)` is `s` with its leading and trailing whitespace removed and nothing else:
      it is the infix of `s` at some `lo` with only whitespace before and after it, it is
      empty iff `s` is all whitespace, and otherwise it begins and ends with a
      non-whitespace character (so it is the longest such infix). */
  lemma StripSpec(s: string)
    ensures Strip(s) == [] <==> forall i :: 0 <= i < |s| ==> IsSpace(s[i])
    ensures Strip(s) != [] ==> !IsSpace(Strip(s)[0]) && !IsSpace(Strip(s)[|Strip(s)| - 1])
    ensures exists lo: nat :: StrippedAt(s, Strip(s), lo)
  {
    var t := TrimStart(s);
    TrimStartSpec(s);
    TrimEndSpec(t);
    var r := TrimEnd(t);
    var lo := |s| - |t|;
    assert forall i :: lo <= i < |s| ==> s[i] == t[i - lo];
    assert r == s[lo..lo + |r|];
    assert forall i :: lo + |r| <= i < |s| ==> IsSpace(s[i]) by {
      forall i | lo + |r| <= i < |s| ensures IsSpace(s[i]) {
        assert s[i] == t[i - lo];
      }
    }
    assert StrippedAt(s, r, lo);
  }

  /** `r` is the part of `s` at `lo`, and everything of `s` before and after it is
      whitespace. */
  predicate StrippedAt(s: string, r: string, lo: nat) {
    && lo + |r| <= |s| && r == s[lo..lo + |r|]
    && (forall i :: 0 <= i < lo ==> IsSpace(s[i]))
    && (forall i :: lo + |r| <= i < |s| ==> IsSpace(s[i]))
  }

  /** Python's `s.split('\n')`: never empty, the pieces hold no newline, and joining them
      with newlines gives `s` back. */
  function SplitLines(s: string): (r: seq<string>)
    ensures |r| >= 1
    ensures forall k :: 0 <= k < |r| ==> '\n' !in r[k]
    ensures JoinLines(r) == s
  {
    if s == [] then [""]
    else
      var rest := SplitLines(s[1..]);
      if s[0] == '\n' then
        assert [s[0]] + s[1..] == s;
        [""] + rest
      else
        var r := [[s[0]] + rest[0]] + rest[1..];
        assert r[1..] == rest[1..];
        assert JoinLines(r) == s by {
          if |rest| == 1 {
            assert [s[0]] + s[1..] == s;
          } else {
            calc {
              JoinLines(r);
              ([s[0]] + rest[0]) + "\n" + JoinLines(rest[1..]);
              [s[0]] + (rest[0] + "\n" + JoinLines(rest[1..]));
              [s[0]] + JoinLines(rest);
              s;
            }
          }
        }
        r
  }

  /** Python's `'\n'.join(ls)`. */
  function JoinLines(ls: seq<string>): string {
    if |ls| == 0 then ""
    else if |ls| == 1 then ls[0]
    else ls[0] + "\n" + JoinLines(ls[1..])
  }

  lemma {:induction false} SplitSingleLine(a: string)
    requires '\n' !in a
    ensures SplitLines(a) == [a]
  {
    if a != [] {
      SplitSingleLine(a[1..]);
    }
  }

  lemma {:induction false} SplitFirstLine(a: string, b: string)
    requires '\n' !in a
    ensures SplitLines(a + "\n" + b) == [a] + SplitLines(b)
  {
    if a == [] {
      assert a + "\n" + b == "\n" + b;
      assert ("\n" + b)[1..] == b;
      assert SplitLines("\n" + b) == [""] + SplitLines(b);
    } else {
      assert (a + "\n" + b)[1..] == a[1..] + "\n" + b;
      SplitFirstLine(a[1..], b);
      assert [a[0]] + a[1..] == a;
    }
  }

  /** Splitting undoes joining, for lines that hold no newline (`split` always yields
      at least one piece, so the empty list is excluded). */
  lemma {:induction false} SplitJoinLines(ls: seq<string>)
    requires |ls| >= 1
    requires forall k :: 0 <= k < |ls| ==> '\n' !in ls[k]
    ensures SplitLines(JoinLines(ls)) == ls
  {
    if |ls| == 1 {
      SplitSingleLine(ls[0]);
    } else {
      SplitJoinLines(ls[1..]);
      SplitFirstLine(ls[0], JoinLines(ls[1..]));
    }
  }

  /** The text of at least two lines joined by newlines is never empty. */
  lemma JoinTwoLinesNonEmpty(ls: seq<string>)
    requires |ls| >= 2
    ensures JoinLines(ls) != ""
  {
    assert |JoinLines(ls)| >= |"\n"|;
  }

  /** `p` occurs in `s` at index `j`. */
  predicate OccursAt(s: string, p: string, j: nat) {
    j + |p| <= |s| && s[j..j + |p|] == p
  }

  /** Python's `s.find(p, from)`: the least index at or after `from` where `p` occurs. */
  function FindFrom(s: string, p: string, from: nat): (r: Option<nat>)
    ensures r.Some? ==> from <= r.value && OccursAt(s, p, r.value)
    ensures r.Some? ==> forall j :: from <= j < r.value ==> !OccursAt(s, p, j)
    ensures r.None? ==> forall j :: from <= j ==> !OccursAt(s, p, j)
    decreases |s| - from
  {
    if from + |p| > |s| then None
    else if s[from..from + |p|] == p then Some(from)
    else FindFrom(s, p, from + 1)
  }

  /** Python's `p in s`. */
  predicate Contains(s: string, p: string)
    ensures Contains(s, p) <==> exists j: nat :: OccursAt(s, p, j)
  {
    FindFrom(s, p, 0).Some?
  }

  lemma ContainsAt(s: string, p: string, j: nat)
    requires OccursAt(s, p, j)
    ensures Contains(s, p)
  {
  }

  lemma ContainsPrefix(s: string, p: string)
    requires |p| <= |s| && s[..|p|] == p
    ensures Contains(s, p)
  {
    ContainsAt(s, p, 0);
  }

  /** Text containing `p` still contains it with more text on either side. */
  lemma ContainsConcat(a: string, b: string, p: string)
    requires Contains(a, p) || Contains(b, p)
    ensures Contains(a + b, p)
  {
    if Contains(a, p) {
      var j := FindFrom(a, p, 0).value;
      assert (a + b)[j..j + |p|] == a[j..j + |p|];
      ContainsAt(a + b, p, j);
    } else {
      var j := FindFrom(b, p, 0).value;
      assert (a + b)[|a| + j..|a| + j + |p|] == b[j..j + |p|];
      ContainsAt(a + b, p, |a| + j);
    }
  }

  /** If `s` lacks one of the characters of `p`, then `p` does not occur in `s`. */
  lemma MissingCharNotContained(s: string, p: string, k: nat)
    requires k < |p|
    requires forall i :: 0 <= i < |s| ==> s[i] != p[k]
    ensures !Contains(s, p)
  {
    if Contains(s, p) {
      var j := FindFrom(s, p, 0).value;
      OccursAtChar(s, p, j, k);
      assert false;
    }
  }

  lemma OccursAtChar(s: string, p: string, j: nat, k: nat)
    requires OccursAt(s, p, j) && k < |p|
    ensures s[j + k] == p[k]
  {
    assert s[j..j + |p|][k] == s[j + k];
  }

  /** `p` occurs in `a + b` only inside `a`, inside `b`, or across the seam; when `p` has no
      newline and `b` starts with one, nothing crosses the seam. */
  lemma NoOccurrenceAcrossNewline(a: string, b: string, p: string)
    requires !Contains(a, p) && !Contains(b, p)
    requires '\n' !in p
    requires |b| > 0 && b[0] == '\n'
    ensures !Contains(a + b, p)
  {
    if Contains(a + b, p) {
      var s := a + b;
      var j := FindFrom(s, p, 0).value;
      if j + |p| <= |a| {
        assert a[j..j + |p|] == s[j..j + |p|];
        ContainsAt(a, p, j);
      } else if j >= |a| {
        var k := j - |a|;
        SliceOfSuffix(a, b, k, |p|);
        ContainsAt(b, p, k);
      } else {
        OccursAtChar(s, p, j, |a| - j);
        assert false;
      }
    }
  }

  lemma SliceOfSuffix(a: string, b: string, k: nat, n: nat)
    requires k + n <= |b|
    ensures (a + b)[|a| + k..|a| + k + n] == b[k..k + n]
  {
    assert forall m :: |a| + k <= m < |a| + k + n ==> (a + b)[m] == b[m - |a|];
  }

  /** Python's `s.count(p, from)` for a non-empty `p`: the occurrences of `p` found scanning
      left to right, each search resuming after the previous occurrence. */
  function CountFrom(s: string, p: string, from: nat): nat
    requires |p| > 0
    decreases |s| - from
  {
    match FindFrom(s, p, from)
    case None => 0
    case Some(i) => 1 + CountFrom(s, p, i + |p|)
  }

  /** The scan counts something exactly when it finds an occurrence. */
  lemma CountFromPositive(s: string, p: string, from: nat)
    requires |p| > 0
    ensures CountFrom(s, p, from) > 0 <==> FindFrom(s, p, from).Some?
  {
  }

  /** One step of the scan: an occurrence found at `i` is counted, and the scan resumes after it. */
  lemma CountFromStep(s: string, p: string, from: nat, i: nat)
    requires |p| > 0 && FindFrom(s, p, from) == Some(i)
    ensures CountFrom(s, p, from) == 1 + CountFrom(s, p, i + |p|)
  {
  }

  /** The occurrences counted fit in the text after `from`. */
  lemma {:induction false} CountFromLength(s: string, p: string, from: nat)
    requires |p| > 0 && from <= |s|
    ensures CountFrom(s, p, from) * |p| <= |s| - from
    decreases |s| - from
  {
    var found := FindFrom(s, p, from);
    if found.Some? {
      var i := found.value;
      CountFromStep(s, p, from, i);
      CountFromLength(s, p, i + |p|);
      MulSucc(CountFrom(s, p, i + |p|), |p|);
    }
  }

  lemma MulSucc(a: nat, b: nat)
    ensures (1 + a) * b == b + a * b
  {
  }

  /** `pos` lists occurrences of `p` in `s` at or after `from`, in increasing order and
      without overlap: each starts at least `|p|` after the previous one. */
  predicate Occurrences(s: string, p: string, from: nat, pos: seq<nat>) {
    && (forall k :: 0 <= k < |pos| ==> OccursAt(s, p, pos[k]))
    && (|pos| > 0 ==> from <= pos[0])
    && (forall k :: 0 < k < |pos| ==> pos[k - 1] + |p| <= pos[k])
  }

  /** An occurrence followed by a list of later ones is a list of occurrences. */
  lemma OccurrencesCons(s: string, p: string, from: nat, i: nat, later: seq<nat>)
    requires OccursAt(s, p, i) && from <= i && Occurrences(s, p, i + |p|, later)
    ensures Occurrences(s, p, from, [i] + later)
  {
    var found := [i] + later;
    assert forall k :: 0 < k < |found| ==> found[k] == later[k - 1];
  }

  /** What follows the first of a list of occurrences is a list of occurrences after it. */
  lemma OccurrencesTail(s: string, p: string, from: nat, pos: seq<nat>)
    requires Occurrences(s, p, from, pos) && |pos| > 0
    ensures Occurrences(s, p, pos[0] + |p|, pos[1..])
  {
    var tail := pos[1..];
    assert forall k :: 0 <= k < |tail| ==> tail[k] == pos[k + 1];
  }

  /** The left-to-right scan finds a list of non-overlapping occurrences of its count. */
  lemma {:induction false} CountFromAttained(s: string, p: string, from: nat) returns (pos: seq<nat>)
    requires |p| > 0
    ensures |pos| == CountFrom(s, p, from) && Occurrences(s, p, from, pos)
    decreases |s| - from
  {
    var found := FindFrom(s, p, from);
    if found.None? {
      CountFromPositive(s, p, from);
      pos := [];
    } else {
      var i := found.value;
      var later := CountFromAttained(s, p, i + |p|);
      pos := [i] + later;
      CountFromCons(s, p, from, i, later);
    }
  }

  /** The scan's first occurrence followed by the occurrences the rest of the scan finds. */
  lemma CountFromCons(s: string, p: string, from: nat, i: nat, later: seq<nat>)
    requires |p| > 0 && FindFrom(s, p, from) == Some(i)
    requires |later| == CountFrom(s, p, i + |p|) && Occurrences(s, p, i + |p|, later)
    ensures |[i] + later| == CountFrom(s, p, from) && Occurrences(s, p, from, [i] + later)
  {
    CountFromStep(s, p, from, i);
    OccurrencesCons(s, p, from, i, later);
  }

  /** No list of non-overlapping occurrences is longer than the scan's count. */
  lemma {:induction false} CountFromBound(s: string, p: string, from: nat, pos: seq<nat>)
    requires |p| > 0 && Occurrences(s, p, from, pos)
    ensures |pos| <= CountFrom(s, p, from)
    decreases |s| - from
  {
    if |pos| > 0 {
      var i := LeftmostBefore(s, p, from, pos);
      CountFromStep(s, p, from, i);
      CountFromBound(s, p, i + |p|, pos[1..]);
      assert |pos| == 1 + |pos[1..]|;
    }
  }

  /** The scan finds an occurrence no later than the first listed one, so the rest of the
      list lies after the scan's resume point. */
  lemma LeftmostBefore(s: string, p: string, from: nat, pos: seq<nat>) returns (i: nat)
    requires |p| > 0 && Occurrences(s, p, from, pos) && |pos| > 0
    ensures FindFrom(s, p, from) == Some(i) && Occurrences(s, p, i + |p|, pos[1..])
  {
    assert OccursAt(s, p, pos[0]);
    i := FindFrom(s, p, from).value;
    assert i <= pos[0];
    OccurrencesTail(s, p, from, pos);
  }

  /** Python's `s.count(p)`; an empty pattern is counted once per position, `len(s) + 1` times.
      For a non-empty `p` it is the largest number of non-overlapping occurrences of `p`. */
  function Count(s: string, p: string): (r: nat)
    ensures |p| > 0 ==> (r > 0 <==> Contains(s, p))
    ensures |p| > 0 ==> r * |p| <= |s|
    ensures |p| > 0 ==> exists pos :: |pos| == r && Occurrences(s, p, 0, pos)
    ensures |p| > 0 ==> forall pos :: Occurrences(s, p, 0, pos) ==> |pos| <= r
    ensures |p| == 0 ==> r == |s| + 1
  {
    if |p| == 0 then |s| + 1
    else
      assert exists pos :: |pos| == CountFrom(s, p, 0) && Occurrences(s, p, 0, pos) by {
        var pos := CountFromAttained(s, p, 0);
      }
      assert forall pos :: Occurrences(s, p, 0, pos) ==> |pos| <= CountFrom(s, p, 0) by {
        forall pos | Occurrences(s, p, 0, pos) ensures |pos| <= CountFrom(s, p, 0) {
          CountFromBound(s, p, 0, pos);
        }
      }
      CountFromLength(s, p, 0);
      CountFromPositive(s, p, 0);
      CountFrom(s, p, 0)
  }

  /** Python's `s.split(p)[0]`: the text before the first occurrence of `p`, or all of `s`
      when `p` does not occur (Python rejects an empty separator). */
  function PrefixBefore(s: string, p: string): (r: string)
    requires |p| > 0
    ensures |r| <= |s| && r == s[..|r|]
    ensures !Contains(r, p)
    ensures forall j: nat :: j < |r| ==> !OccursAt(s, p, j)
    ensures Contains(s, p) ==> OccursAt(s, p, |r|)
    ensures !Contains(s, p) ==> r == s
  {
    match FindFrom(s, p, 0)
    case None => s
    case Some(i) =>
      var r := s[..i];
      assert forall j: nat :: OccursAt(r, p, j) ==> OccursAt(s, p, j) by {
        forall j: nat | OccursAt(r, p, j) ensures OccursAt(s, p, j) {
          assert r[j..j + |p|] == s[j..j + |p|];
        }
      }
      r
  }

  /** ASCII lower-casing of one character. */
  function LowerChar(c: char): char {
    if 'A' <= c <= 'Z' then (c as int + 32) as char else c
  }

  /** Python's `s.lower()`, restricted to the ASCII letters. */
  function Lower(s: string): (r: string)
    ensures |r| == |s|
    ensures forall i :: 0 <= i < |s| ==> r[i] == LowerChar(s[i])
  {
    seq(|s|, i requires 0 <= i < |s| => LowerChar(s[i]))
  }
}
