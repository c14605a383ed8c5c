/** The response sanitizer of the agents (`Agent._clean_response`): drop the third and later
    line of every run of consecutive lines whose stripped forms are equal, re-join, and cut a
    long response that repeats the phrase "However, given" more than twice. */
module Sanitizer {
  import opened Wrappers
  import opened Text
  import opened Constants

  /** The notice appended to a truncated response. */
  const TruncationNotice: string := "\n\n(Analysis truncated to prevent repetition)"

  function Min(a: nat, b: nat): nat {
    if a <= b then a else b
  }

  // The de-duplication step compares lines by a key; the sanitizer's key is `Strip`, the
  // line's stripped form. The lemmas below hold for every key.

  /** The position of line `i` inside its run of consecutive lines with equal keys:
      0 for the first line of a run, 1 for the second, and so on. */
  function RunIndex(key: string -> string, ls: seq<string>, i: nat): nat
    requires i < |ls|
  {
    if i == 0 || key(ls[i]) != key(ls[i - 1]) then 0 else RunIndex(key, ls, i - 1) + 1
  }

  /** Line `i` survives de-duplication iff it is among the first `MaxRepetitionCount` lines
      of its run. */
  predicate Keep(key: string -> string, ls: seq<string>, i: nat)
    requires i < |ls|
  {
    RunIndex(key, ls, i) < MaxRepetitionCount
  }

  /** The surviving lines among the first `n`, in their original order. */
  function DedupPrefix(key: string -> string, ls: seq<string>, n: nat): seq<string>
    requires n <= |ls|
  {
    if n == 0 then []
    else DedupPrefix(key, ls, n - 1) + (if Keep(key, ls, n - 1) then [ls[n - 1]] else [])
  }

  /** The indices of the surviving lines among the first `n`. */
  function KeptIndices(key: string -> string, ls: seq<string>, n: nat): seq<nat>
    requires n <= |ls|
  {
    if n == 0 then []
    else KeptIndices(key, ls, n - 1) + (if Keep(key, ls, n - 1) then [n - 1] else [])
  }

  /** The line-level de-duplication step. */
  function Dedup(key: string -> string, ls: seq<string>): seq<string> {
    DedupPrefix(key, ls, |ls|)
  }

  /** No two adjacent lines have the same key. */
  predicate AdjacentLinesDiffer(key: string -> string, ls: seq<string>) {
    forall i :: 0 < i < |ls| ==> key(ls[i]) != key(ls[i - 1])
  }

  /** The condition under which a de-duplicated response is cut. */
  predicate TruncationApplies(text: string) {
    |text| > MaxContentLength && Count(text, RepetitionPattern) > 2
  }

  /** The truncation step: a long, repetitive text is cut at the first occurrence of the
      repetition marker and the notice is appended; any other text is left unchanged. */
  function Truncate(text: string): (r: string)
    ensures !TruncationApplies(text) ==> r == text
    ensures TruncationApplies(text) ==>
      var cut := |r| - |TruncationNotice|;
      && 0 <= cut
      && r[cut..] == TruncationNotice
      && OccursAt(text, RepetitionPattern, cut)
      && (forall j: nat :: j < cut ==> !OccursAt(text, RepetitionPattern, j))
      && r[..cut] == text[..cut]
      && !Contains(r[..cut], RepetitionPattern)
  {
    if TruncationApplies(text) then
      var before := PrefixBefore(text, RepetitionPattern);
      var r := before + TruncationNotice;
      assert r[..|before|] == before && r[|before|..] == TruncationNotice;
      r
    else text
  }

  /** The whole sanitizer as a function of the raw response. */
  function Sanitize(content: string): string {
    Truncate(JoinLines(Dedup(Strip, SplitLines(content))))
  }

  /** `Agent._clean_response`: the loop over the lines with the previous stripped line and the
      repetition counter, then the final truncation check. */
  method CleanResponse(content: string) returns (r: string)
    ensures r == Sanitize(content)
  {
    var lines := SplitLines(content);
    var cleaned: seq<string> := [];
    var prev: Option<string> := None;
    var count: nat := 0;
    for i := 0 to |lines|
      invariant cleaned == DedupPrefix(Strip, lines, i)
      invariant i == 0 ==> prev == None
      invariant i > 0 ==> prev == Some(Strip(lines[i - 1])) && count == RunIndex(Strip, lines, i - 1)
    {
      var line := lines[i];
      var stripped := Strip(line);
      if prev == Some(stripped) {
        count := count + 1;
        if count < MaxRepetitionCount {
          cleaned := cleaned + [line];
        }
      } else {
        count := 0;
        cleaned := cleaned + [line];
        prev := Some(stripped);
      }
    }
    var text := JoinLines(cleaned);
    if |text| > MaxContentLength && Count(text, RepetitionPattern) > 2 {
      r := PrefixBefore(text, RepetitionPattern) + TruncationNotice;
    } else {
      r := text;
    }
  }

  // ---------------------------------------------------------------------------------------
  // The de-duplication step

  /** The de-duplicated lines are exactly the input lines at the kept indices, unaltered and
      in their original order, and an index is kept iff `Keep` holds of it. */
  lemma DedupPrefixSelects(key: string -> string, ls: seq<string>, n: nat)
    requires n <= |ls|
    ensures var idx := KeptIndices(key, ls, n);
      && |DedupPrefix(key, ls, n)| == |idx|
      && (forall k :: 0 <= k < |idx| ==> idx[k] < n && DedupPrefix(key, ls, n)[k] == ls[idx[k]])
      && (forall a, b :: 0 <= a < b < |idx| ==> idx[a] < idx[b])
      && (forall i :: 0 <= i < n ==> (i in idx <==> Keep(key, ls, i)))
  {
    KeptLinesSelected(key, ls, n);
    KeptIndicesOrdered(key, ls, n);
  }

  lemma {:induction false} KeptLinesSelected(key: string -> string, ls: seq<string>, n: nat)
    requires n <= |ls|
    ensures var idx := KeptIndices(key, ls, n);
      && |DedupPrefix(key, ls, n)| == |idx|
      && (forall k :: 0 <= k < |idx| ==> idx[k] < n && DedupPrefix(key, ls, n)[k] == ls[idx[k]])
  {
    if n > 0 {
      KeptLinesSelected(key, ls, n - 1);
      var d := DedupPrefix(key, ls, n - 1);
      var idx := KeptIndices(key, ls, n - 1);
      if Keep(key, ls, n - 1) {
        assert DedupPrefix(key, ls, n) == d + [ls[n - 1]];
        assert KeptIndices(key, ls, n) == idx + [n - 1];
      } else {
        assert DedupPrefix(key, ls, n) == d;
        assert KeptIndices(key, ls, n) == idx;
      }
    }
  }

  lemma {:induction false} KeptIndicesOrdered(key: string -> string, ls: seq<string>, n: nat)
    requires n <= |ls|
    ensures var idx := KeptIndices(key, ls, n);
      && (forall k :: 0 <= k < |idx| ==> idx[k] < n)
      && (forall a, b :: 0 <= a < b < |idx| ==> idx[a] < idx[b])
      && (forall i :: 0 <= i < n ==> (i in idx <==> Keep(key, ls, i)))
  {
    if n > 0 {
      KeptIndicesOrdered(key, ls, n - 1);
      var idx := KeptIndices(key, ls, n - 1);
      if Keep(key, ls, n - 1) {
        assert KeptIndices(key, ls, n) == idx + [n - 1];
      } else {
        assert KeptIndices(key, ls, n) == idx;
      }
    }
  }

  /** The output of the de-duplication step is a subsequence of the input lines: the lines at
      the strictly increasing indices `KeptIndices(key, ls, |ls|)`, which are exactly those that
      `Keep` admits. */
  lemma DedupIsSubsequence(key: string -> string, ls: seq<string>)
    ensures var idx := KeptIndices(key, ls, |ls|);
      && |Dedup(key, ls)| == |idx|
      && (forall k :: 0 <= k < |idx| ==> idx[k] < |ls| && Dedup(key, ls)[k] == ls[idx[k]])
      && (forall a, b :: 0 <= a < b < |idx| ==> idx[a] < idx[b])
      && (forall i :: 0 <= i < |ls| ==> (i in idx <==> Keep(key, ls, i)))
  {
    DedupPrefixSelects(key, ls, |ls|);
  }

  lemma {:induction false} DedupPrefixGrows(key: string -> string, ls: seq<string>, m: nat, n: nat)
    requires m <= n <= |ls|
    ensures DedupPrefix(key, ls, m) <= DedupPrefix(key, ls, n)
    decreases n
  {
    if m < n {
      DedupPrefixGrows(key, ls, m, n - 1);
    }
  }

  /** A kept line appears in the output right after the lines kept before it. */
  lemma KeptLinePosition(key: string -> string, ls: seq<string>, i: nat)
    requires i < |ls| && Keep(key, ls, i)
    ensures |DedupPrefix(key, ls, i)| < |Dedup(key, ls)|
    ensures Dedup(key, ls)[|DedupPrefix(key, ls, i)|] == ls[i]
  {
    DedupPrefixGrows(key, ls, i + 1, |ls|);
  }

  /** The first line always survives: the previous stripped line starts out as `None`. */
  lemma FirstLineKept(key: string -> string, ls: seq<string>)
    requires |ls| > 0
    ensures |Dedup(key, ls)| > 0 && Dedup(key, ls)[0] == ls[0]
  {
    KeptLinePosition(key, ls, 0);
  }

  /** A line whose stripped form differs from the previous line's always survives. */
  lemma ChangedLineKept(key: string -> string, ls: seq<string>, i: nat)
    requires 0 < i < |ls| && key(ls[i]) != key(ls[i - 1])
    ensures |DedupPrefix(key, ls, i)| < |Dedup(key, ls)|
    ensures Dedup(key, ls)[|DedupPrefix(key, ls, i)|] == ls[i]
  {
    KeptLinePosition(key, ls, i);
  }

  lemma {:induction false} RunIndexInRun(key: string -> string, ls: seq<string>, a: nat, j: nat)
    requires a <= j < |ls|
    requires a == 0 || key(ls[a - 1]) != key(ls[a])
    requires forall k :: a <= k <= j ==> key(ls[k]) == key(ls[a])
    ensures RunIndex(key, ls, j) == j - a
  {
    if j > a {
      RunIndexInRun(key, ls, a, j - 1);
    }
  }

  /** A run of `b - a` consecutive lines with equal stripped forms, starting at a change of
      stripped form, contributes exactly its first `Min(b - a, 2)` lines to the output. */
  lemma {:induction false} RunKeepsFirstTwo(key: string -> string, ls: seq<string>, a: nat, b: nat)
    requires a <= b <= |ls|
    requires a == 0 || (a < |ls| && key(ls[a - 1]) != key(ls[a]))
    requires forall k :: a <= k < b ==> key(ls[k]) == key(ls[a])
    ensures DedupPrefix(key, ls, b) == DedupPrefix(key, ls, a) + ls[a..a + Min(b - a, MaxRepetitionCount)]
  {
    if b > a {
      RunKeepsFirstTwo(key, ls, a, b - 1);
      RunIndexInRun(key, ls, a, b - 1);
      if b - 1 - a < MaxRepetitionCount {
        assert ls[a..b] == ls[a..b - 1] + [ls[b - 1]];
      } else {
        assert Min(b - a, MaxRepetitionCount) == MaxRepetitionCount;
      }
    }
  }

  /** `n` copies of one line become `Min(n, 2)` copies; fifty identical lines become two. */
  lemma RepeatedLineCollapses(key: string -> string, line: string, n: nat)
    ensures Dedup(key, seq(n, _ => line)) == seq(Min(n, MaxRepetitionCount), _ => line)
  {
    var ls := seq(n, _ => line);
    RunKeepsFirstTwo(key, ls, 0, n);
  }

  lemma {:induction false} AllKeptUnchanged(key: string -> string, ls: seq<string>, n: nat)
    requires n <= |ls|
    requires forall i :: 0 <= i < |ls| ==> Keep(key, ls, i)
    ensures DedupPrefix(key, ls, n) == ls[..n]
  {
    if n > 0 {
      AllKeptUnchanged(key, ls, n - 1);
      assert ls[..n] == ls[..n - 1] + [ls[n - 1]];
    }
  }

  /** Lines that never run longer than the limit pass through unchanged. */
  lemma ShortRunsUnchanged(key: string -> string, ls: seq<string>)
    requires forall i :: 0 <= i < |ls| ==> Keep(key, ls, i)
    ensures Dedup(key, ls) == ls
  {
    AllKeptUnchanged(key, ls, |ls|);
  }

  /** If no two adjacent lines share a stripped form, de-duplication changes nothing. */
  lemma DistinctNeighboursUnchanged(key: string -> string, ls: seq<string>)
    requires AdjacentLinesDiffer(key, ls)
    ensures Dedup(key, ls) == ls
  {
    forall i | 0 <= i < |ls| ensures Keep(key, ls, i) {
      assert RunIndex(key, ls, i) == 0;
    }
    ShortRunsUnchanged(key, ls);
  }

  lemma {:induction false} RunIndexAppend(key: string -> string, ls: seq<string>, x: string, j: nat)
    requires j < |ls|
    ensures RunIndex(key, ls + [x], j) == RunIndex(key, ls, j)
  {
    var ls' := ls + [x];
    assert ls'[j] == ls[j];
    if j > 0 {
      assert ls'[j - 1] == ls[j - 1];
      RunIndexAppend(key, ls, x, j - 1);
    }
  }

  /** After the first `n` lines, the last surviving line has the stripped form of line
      `n - 1`, its position in its run of the output is that of line `n - 1` in the input
      capped at `MaxRepetitionCount - 1`, and no output line so far is over the limit. */
  lemma {:induction false} DedupPrefixState(key: string -> string, ls: seq<string>, n: nat)
    requires 1 <= n <= |ls|
    ensures var out := DedupPrefix(key, ls, n);
      && |out| >= 1
      && key(out[|out| - 1]) == key(ls[n - 1])
      && RunIndex(key, out, |out| - 1) == Min(RunIndex(key, ls, n - 1), MaxRepetitionCount - 1)
      && (forall j :: 0 <= j < |out| ==> Keep(key, out, j))
  {
    var out := DedupPrefix(key, ls, n);
    if n == 1 {
      assert Keep(key, ls, 0);
      assert out == DedupPrefix(key, ls, 0) + [ls[0]];
    } else {
      DedupPrefixState(key, ls, n - 1);
      var prev := DedupPrefix(key, ls, n - 1);
      if Keep(key, ls, n - 1) {
        assert out == prev + [ls[n - 1]];
        forall j | 0 <= j < |prev| ensures Keep(key, out, j) {
          RunIndexAppend(key, prev, ls[n - 1], j);
          assert Keep(key, prev, j);
        }
        RunIndexAppend(key, prev, ls[n - 1], |prev| - 1);
        assert out[|out| - 2] == prev[|prev| - 1];
      } else {
        assert out == prev;
      }
    }
  }

  /** No line of the de-duplicated output is the third of a run. */
  lemma DedupOutputKept(key: string -> string, ls: seq<string>)
    ensures forall j :: 0 <= j < |Dedup(key, ls)| ==> Keep(key, Dedup(key, ls), j)
  {
    if |ls| > 0 {
      DedupPrefixState(key, ls, |ls|);
    }
  }

  /** The de-duplication step is idempotent. */
  lemma DedupIdempotent(key: string -> string, ls: seq<string>)
    ensures Dedup(key, Dedup(key, ls)) == Dedup(key, ls)
  {
    DedupOutputKept(key, ls);
    ShortRunsUnchanged(key, Dedup(key, ls));
  }

  // ---------------------------------------------------------------------------------------
  // The whole sanitizer

  /** The output lines of the sanitizer hold no newline and are at least one. */
  lemma DedupLinesWellFormed(content: string)
    ensures var d := Dedup(Strip, SplitLines(content));
      && |d| >= 1
      && (forall k :: 0 <= k < |d| ==> '\n' !in d[k])
  {
    var ls := SplitLines(content);
    FirstLineKept(Strip, ls);
    DedupIsSubsequence(Strip, ls);
  }

  /** A response whose adjacent lines all differ after stripping, and that is not cut, is
      returned exactly as it came. */
  lemma SanitizeUnchanged(content: string)
    requires AdjacentLinesDiffer(Strip, SplitLines(content))
    requires !TruncationApplies(content)
    ensures Sanitize(content) == content
  {
    DistinctNeighboursUnchanged(Strip, SplitLines(content));
  }

  /** When the sanitizer does not cut, its output has no run of more than
      `MaxRepetitionCount` equal stripped lines. */
  lemma SanitizedRunsBounded(content: string)
    requires !TruncationApplies(JoinLines(Dedup(Strip, SplitLines(content))))
    ensures var out := SplitLines(Sanitize(content));
      forall j :: 0 <= j < |out| ==> Keep(Strip, out, j)
  {
    var d := Dedup(Strip, SplitLines(content));
    DedupLinesWellFormed(content);
    SplitJoinLines(d);
    DedupOutputKept(Strip, SplitLines(content));
  }

  /** Fifty (or any number n >= 2) copies of a line are sanitized to exactly two copies,
      whenever those two copies are not themselves long and repetitive enough to be cut. */
  lemma RepeatedLinesSanitized(line: string, n: nat)
    requires '\n' !in line && n >= 2
    requires !TruncationApplies(line + "\n" + line)
    ensures Sanitize(JoinLines(seq(n, _ => line))) == line + "\n" + line
  {
    var ls := seq(n, _ => line);
    SplitJoinLines(ls);
    RepeatedLineCollapses(Strip, line, n);
    assert Dedup(Strip, ls) == [line, line];
    assert JoinLines([line, line]) == line + "\n" + JoinLines([line]);
  }

  /** The marker never survives truncation: the cut text lies before its first occurrence
      and the notice cannot complete it. */
  lemma TruncatedHasNoMarker(text: string)
    requires TruncationApplies(text)
    ensures !Contains(Truncate(text), RepetitionPattern)
  {
    var r := Truncate(text);
    var cut := |r| - |TruncationNotice|;
    assert r == r[..cut] + r[cut..];
    NoticeLacksMarker();
    MarkerLacksNewline();
    NoticeStartsWithNewline();
    NoOccurrenceAcrossNewline(r[..cut], r[cut..], RepetitionPattern);
  }

  lemma MarkerLacksNewline()
    ensures '\n' !in RepetitionPattern
  {
  }

  lemma NoticeStartsWithNewline()
    ensures |TruncationNotice| > 0 && TruncationNotice[0] == '\n'
  {
  }

  /** The notice does not contain the marker: it has no capital H. */
  lemma NoticeLacksMarker()
    ensures !Contains(TruncationNotice, RepetitionPattern)
  {
    assert RepetitionPattern[0] == 'H';
    assert forall i :: 0 <= i < |TruncationNotice| ==> TruncationNotice[i] != 'H';
    MissingCharNotContained(TruncationNotice, RepetitionPattern, 0);
  }

  /** The sanitizer yields the empty string iff it is given the empty string. */
  lemma SanitizeEmptyIff(content: string)
    ensures Sanitize(content) == "" <==> content == ""
  {
    var ls := SplitLines(content);
    var d := Dedup(Strip, ls);
    if content == "" {
      assert ls == [""];
      assert d == [""] by { assert Keep(Strip, ls, 0); }
    } else {
      FirstLineKept(Strip, ls);
      if |ls| == 1 {
        assert ls == [content];
        assert d == [content] by { assert Keep(Strip, ls, 0); }
      } else {
        assert Keep(Strip, ls, 1) by { assert RunIndex(Strip, ls, 1) <= 1; }
        KeptLinePosition(Strip, ls, 1);
        assert |DedupPrefix(Strip, ls, 1)| == 1;
        JoinTwoLinesNonEmpty(d);
      }
      var text := JoinLines(d);
      assert text != "";
      assert Sanitize(content) != "" by {
        if TruncationApplies(text) {
          assert |Truncate(text)| >= |TruncationNotice|;
        }
      }
    }
  }
}
