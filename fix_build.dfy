/**
 * The line filter of `fix_build_file` in `fix_build.py`: one pass over the
 * lines of `build.py` that drops a duplicated block of DEBIAN copy commands and a
 * stray `else:` in the second half of the file. Lines are Python `str`
 * values with their line ending.
 */
module FixBuild {

  /** Index past which the duplicate block and stray `else:` can appear. */
  const THRESHOLD: nat := 630

  /** The command line that opens and closes the duplicated block. */
  const CP: string := "cp -a DEBIAN/* tmpdeb/DEBIAN/"

  /** The comment (Chinese for "make sure all scripts are executable") after which an `else:` is stray. */
  const MARKER: string := "\U{786e}\U{4fdd}\U{6240}\U{6709}\U{7684}\U{811a}\U{672c}\U{90fd}\U{6709}\U{6267}\U{884c}\U{6743}\U{9650}"

  const ELSE: string := "else:"

  /** The characters for which Python's `str.isspace` holds. */
  predicate IsSpace(c: char)
  {
    ('\t' <= c <= '\r') || ('\U{1c}' <= c <= ' ') || c == '\U{85}' || c == '\U{a0}' ||
    c == '\U{1680}' || ('\U{2000}' <= c <= '\U{200a}') || c == '\U{2028}' || c == '\U{2029}' ||
    c == '\U{202f}' || c == '\U{205f}' || c == '\U{3000}'
  }

  function StripLeft(s: string): string
  {
    if s != [] && IsSpace(s[0]) then StripLeft(s[1..]) else s
  }

  function StripRight(s: string): string
  {
    if s != [] && IsSpace(s[|s| - 1]) then StripRight(s[..|s| - 1]) else s
  }

  /** Python's `str.strip()` with no argument. */
  function Strip(s: string): string
  {
    StripRight(StripLeft(s))
  }

  /** Python's `sub in s` on strings. */
  predicate Contains(s: string, sub: string)
  {
    sub <= s || (s != [] && Contains(s[1..], sub))
  }

  lemma {:induction false} StripLeftKeeps(s: string)
    ensures forall k :: 0 <= k < |s| ==> IsSpace(s[k]) || s[k] in StripLeft(s)
  {
    if s != [] && IsSpace(s[0]) {
      StripLeftKeeps(s[1..]);
      assert forall k :: 1 <= k < |s| ==> s[k] == s[1..][k - 1];
    }
  }

  lemma {:induction false} StripRightKeeps(s: string)
    ensures forall k :: 0 <= k < |s| ==> IsSpace(s[k]) || s[k] in StripRight(s)
  {
    if s != [] && IsSpace(s[|s| - 1]) {
      StripRightKeeps(s[..|s| - 1]);
      assert forall k :: 0 <= k < |s| - 1 ==> s[k] == s[..|s| - 1][k];
    }
  }

  lemma {:induction false} ContainsHead(s: string, sub: string)
    requires Contains(s, sub) && sub != []
    ensures sub[0] in s
  {
    if !(sub <= s) {
      ContainsHead(s[1..], sub);
    }
  }

  /**
   * No line holding the copy command or the marker strips to `else:`, so the
   * stray-`else` check never fires on them.
   */
  lemma NotElse(line: string, sub: string)
    requires sub == CP || sub == MARKER
    requires Contains(line, sub)
    ensures Strip(line) != ELSE
  {
    ContainsHead(line, sub);
    StripLeftKeeps(line);
    StripRightKeeps(StripLeft(line));
    var k :| 0 <= k < |line| && line[k] == sub[0];
    assert !IsSpace(line[k]);
  }

  /** The two flags of the loop. */
  datatype Flags = Flags(skipNextElse: bool, skipBlock: bool)

  /** What one iteration does: the new flags, and whether the line is appended. */
  datatype Outcome = Outcome(flags: Flags, keep: bool)

  /** One iteration of the loop for line `i`, taking its four checks in order. */
  function LineStep(i: nat, line: string, f: Flags): Outcome
  {
    if f.skipNextElse && Strip(line) == ELSE then Outcome(f.(skipNextElse := false), false)
    else
      var f1 := if Contains(line, MARKER) && i > THRESHOLD then f.(skipNextElse := true) else f;
      if f1.skipBlock && Contains(line, CP) then Outcome(f1.(skipBlock := false), false)
      else if Contains(line, CP) && i > THRESHOLD then Outcome(f1.(skipBlock := true), false)
      else Outcome(f1, !f1.skipBlock)
  }

  /** The flags after the first `n` lines. */
  function FlagsAt(lines: seq<string>, n: nat): Flags
    requires n <= |lines|
  {
    if n == 0 then Flags(false, false)
    else LineStep(n - 1, lines[n - 1], FlagsAt(lines, n - 1)).flags
  }

  /** `fixed_lines` after the first `n` lines. */
  function Fixed(lines: seq<string>, n: nat): seq<string>
    requires n <= |lines|
  {
    if n == 0 then []
    else
      var prev := Fixed(lines, n - 1);
      if LineStep(n - 1, lines[n - 1], FlagsAt(lines, n - 1)).keep then prev + [lines[n - 1]] else prev
  }

  /** The positions of the lines kept among the first `n`. */
  function KeptAt(lines: seq<string>, n: nat): (r: seq<nat>)
    requires n <= |lines|
    ensures forall k :: 0 <= k < |r| ==> r[k] < n
  {
    if n == 0 then []
    else
      var prev := KeptAt(lines, n - 1);
      if LineStep(n - 1, lines[n - 1], FlagsAt(lines, n - 1)).keep then prev + [n - 1] else prev
  }

  /** The loop of `fix_build_file`, over the lines read from the file. */
  method FixBuildLines(lines: seq<string>) returns (fixedLines: seq<string>)
    ensures fixedLines == Fixed(lines, |lines|)
  {
    fixedLines := [];
    var skipNextElse := false;
    var skipDuplicateBlock := false;
    for i := 0 to |lines|
      invariant Flags(skipNextElse, skipDuplicateBlock) == FlagsAt(lines, i)
      invariant fixedLines == Fixed(lines, i)
    {
      var line := lines[i];
      if skipNextElse && Strip(line) == ELSE {
        skipNextElse := false;
        continue;
      }
      if Contains(line, MARKER) && i > THRESHOLD {
        skipNextElse := true;
      }
      if skipDuplicateBlock && Contains(line, CP) {
        skipDuplicateBlock := false;
        continue;
      }
      if Contains(line, CP) && i > THRESHOLD {
        skipDuplicateBlock := true;
        continue;
      }
      if !skipDuplicateBlock {
        fixedLines := fixedLines + [line];
      }
    }
  }

  /**
   * The output is an order-preserving subsequence of the input: its k-th
   * line is the input line at the k-th kept position, and those positions
   * strictly increase.
   */
  lemma {:induction false} FixedIsSubsequence(lines: seq<string>, n: nat)
    requires n <= |lines|
    ensures var out := Fixed(lines, n);
      var idx := KeptAt(lines, n);
      |idx| == |out| <= n &&
      (forall k :: 0 <= k < |idx| ==> idx[k] < n && out[k] == lines[idx[k]]) &&
      (forall k, l :: 0 <= k < l < |idx| ==> idx[k] < idx[l])
  {
    if n > 0 {
      FixedIsSubsequence(lines, n - 1);
    }
  }

  /** Both flags stay clear through index 630, since only lines past it set them. */
  lemma {:induction false} FlagsClearEarly(lines: seq<string>, n: nat)
    requires n <= |lines| && n <= THRESHOLD + 1
    ensures FlagsAt(lines, n) == Flags(false, false)
  {
    if n > 0 {
      FlagsClearEarly(lines, n - 1);
    }
  }

  /** Every line at index 630 or below is kept. */
  lemma {:induction false} EarlyLinesKept(lines: seq<string>, n: nat)
    requires n <= |lines| && n <= THRESHOLD + 1
    ensures Fixed(lines, n) == lines[..n]
  {
    if n > 0 {
      EarlyLinesKept(lines, n - 1);
      FlagsClearEarly(lines, n - 1);
      var o := LineStep(n - 1, lines[n - 1], Flags(false, false));
      assert o.keep;
      assert Fixed(lines, n) == Fixed(lines, n - 1) + [lines[n - 1]];
      assert lines[..n] == lines[..n - 1] + [lines[n - 1]];
    }
  }

  predicate NoCopyBetween(lines: seq<string>, lo: nat, hi: nat)
    requires lo <= hi <= |lines|
  {
    forall m :: lo <= m < hi ==> !Contains(lines[m], CP)
  }

  /** Inside a skipped block that has not reached its closing copy line, the block stays open and nothing is kept. */
  lemma {:induction false} InsideBlock(lines: seq<string>, i: nat, m: nat)
    requires i < m <= |lines|
    requires FlagsAt(lines, i + 1).skipBlock
    requires NoCopyBetween(lines, i + 1, m)
    ensures FlagsAt(lines, m).skipBlock && Fixed(lines, m) == Fixed(lines, i + 1)
    decreases m
  {
    if m > i + 1 {
      InsideBlock(lines, i, m - 1);
    }
  }

  /**
   * A copy line past index 630 outside a block is dropped and opens a
   * block; every line up to and including the next copy line is dropped,
   * after which the block is closed.
   */
  lemma BlockSkipped(lines: seq<string>, i: nat, j: nat)
    requires i < j < |lines| && i > THRESHOLD
    requires !FlagsAt(lines, i).skipBlock && Contains(lines[i], CP)
    requires NoCopyBetween(lines, i + 1, j) && Contains(lines[j], CP)
    ensures Fixed(lines, j + 1) == Fixed(lines, i)
    ensures !FlagsAt(lines, j + 1).skipBlock
  {
    NotElse(lines[i], CP);
    NotElse(lines[j], CP);
    InsideBlock(lines, i, j);
  }

  /** A line that is neither a stray `else:` nor a copy line is kept exactly when no block is open. */
  lemma KeepRule(lines: seq<string>, i: nat)
    requires i < |lines|
    requires !(FlagsAt(lines, i).skipNextElse && Strip(lines[i]) == ELSE) && !Contains(lines[i], CP)
    ensures Fixed(lines, i + 1) == if FlagsAt(lines, i).skipBlock then Fixed(lines, i) else Fixed(lines, i) + [lines[i]]
  {
  }

  /** Until a stripped `else:` line appears, the stray-`else` flag once set stays set. */
  lemma {:induction false} ElseFlagPersists(lines: seq<string>, i: nat, m: nat)
    requires i < m <= |lines|
    requires FlagsAt(lines, i + 1).skipNextElse
    requires forall q :: i < q < m ==> Strip(lines[q]) != ELSE
    ensures FlagsAt(lines, m).skipNextElse
    decreases m
  {
    if m > i + 1 {
      ElseFlagPersists(lines, i, m - 1);
    }
  }

  /**
   * After the marker past index 630, the first later line whose stripped
   * text is `else:` is dropped and clears the flag, whatever else holds;
   * this check comes before the block checks.
   */
  lemma {:induction false} ElseSkipped(lines: seq<string>, i: nat, j: nat)
    requires i < j < |lines| && i > THRESHOLD
    requires Contains(lines[i], MARKER)
    requires forall q :: i < q < j ==> Strip(lines[q]) != ELSE
    requires Strip(lines[j]) == ELSE
    ensures Fixed(lines, j + 1) == Fixed(lines, j)
    ensures !FlagsAt(lines, j + 1).skipNextElse
  {
    NotElse(lines[i], MARKER);
    ElseFlagPersists(lines, i, j);
  }

  /** The marker line past index 630 sets the flag, and is kept unless a block is open or it holds a copy command. */
  lemma MarkerKept(lines: seq<string>, i: nat)
    requires THRESHOLD < i < |lines|
    requires Contains(lines[i], MARKER) && !Contains(lines[i], CP)
    ensures FlagsAt(lines, i + 1).skipNextElse
    ensures Fixed(lines, i + 1) == if FlagsAt(lines, i).skipBlock then Fixed(lines, i) else Fixed(lines, i) + [lines[i]]
  {
    NotElse(lines[i], MARKER);
  }

  /** A copy line past index 630 never reaches the output. */
  lemma {:induction false} LateCopyLinesDropped(lines: seq<string>, n: nat)
    requires n <= |lines|
    ensures forall k :: 0 <= k < |KeptAt(lines, n)| ==>
      var p := KeptAt(lines, n)[k]; Contains(lines[p], CP) ==> p <= THRESHOLD
  {
    if n > 0 {
      LateCopyLinesDropped(lines, n - 1);
    }
  }
}
