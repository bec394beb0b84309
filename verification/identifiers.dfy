/** Naming of the generated test methods. The methods arrive sorted by name;
    a method whose name repeats a neighbour's gets a numeric suffix from the
    `IdIndex` counter, and every identifier ends in `_Test`. */
module Identifiers {
  import opened Wrappers

  /** A decimal digit character. */
  function Digit(d: nat): (c: char)
    requires d < 10
    ensures '0' <= c <= '9' && c as int - '0' as int == d
  {
    "0123456789"[d]
  }

  /** `int.ToString()` for a non-negative value: its decimal digits, most
      significant first, without leading zeros. */
  function DecimalString(n: nat): (s: string)
    ensures 1 <= |s|
    ensures forall k :: 0 <= k < |s| ==> '0' <= s[k] <= '9'
    decreases n
  {
    if n < 10 then [Digit(n)] else DecimalString(n / 10) + [Digit(n % 10)]
  }

  /** The number a string of decimal digits denotes. */
  function DecimalValue(s: string): nat
    requires forall k :: 0 <= k < |s| ==> '0' <= s[k] <= '9'
  {
    if s == [] then 0
    else DecimalValue(s[..|s| - 1]) * 10 + (s[|s| - 1] as int - '0' as int)
  }

  /** Reading back the decimal text gives the number. */
  lemma {:induction false} DecimalRoundTrip(n: nat)
    ensures DecimalValue(DecimalString(n)) == n
    decreases n
  {
    if n >= 10 {
      DecimalRoundTrip(n / 10);
      var s := DecimalString(n);
      assert s[..|s| - 1] == DecimalString(n / 10);
    }
  }

  /** The text between the method name and `_Test`. */
  function SuffixText(suffix: Option<nat>): string {
    match suffix
    case None => ""
    case Some(k) => "_" + DecimalString(k)
  }

  function Identifier(name: string, suffix: Option<nat>): string {
    name + SuffixText(suffix) + "_Test"
  }

  /** Neither neighbour of position `i` carries its name. */
  predicate Lone(names: seq<string>, i: int)
    requires 0 <= i < |names|
  {
    && (i + 1 == |names| || names[i + 1] != names[i])
    && (i == 0 || names[i - 1] != names[i])
  }

  /** The suffix the loop gives position `i`, read off the neighbours alone:
      a same-named successor wins first and resets the counter to 0;
      otherwise a same-named predecessor (which itself had a same-named
      successor, so left the counter at 0) makes it 1; otherwise none. */
  function Suffix(names: seq<string>, i: int): (r: Option<nat>)
    requires 0 <= i < |names|
    ensures r == None <==> Lone(names, i)
    ensures r == Some(1) <==> i > 0 && names[i - 1] == names[i] && (i + 1 == |names| || names[i + 1] != names[i])
    ensures r == Some(0) <==> i + 1 < |names| && names[i + 1] == names[i]
  {
    if i + 1 < |names| && names[i] == names[i + 1] then Some(0)
    else if i > 0 && names[i] == names[i - 1] then Some(1)
    else None
  }

  /** The identifier of the stub for the `i`-th sorted method. */
  function TestName(names: seq<string>, i: int): (r: string)
    requires 0 <= i < |names|
    ensures |r| >= |names[i]| + 5 && r[..|names[i]|] == names[i] && r[|r| - 5..] == "_Test"
    ensures r == names[i] + "_Test" <==> Lone(names, i)
  {
    Identifier(names[i], Suffix(names, i))
  }

  /** The counter value that encodes a suffix; -1 stands for none. */
  function Counter(suffix: Option<nat>): int {
    match suffix
    case None => -1
    case Some(k) => k
  }

  /** The `IdIndex` loop as written: the counter starts at -1; a same-named
      successor sets it to 0, else a same-named predecessor increments it,
      else it goes back to -1; a counter of -1 means no suffix. */
  method AssignTestNames(names: seq<string>) returns (ids: seq<string>)
    ensures |ids| == |names|
    ensures forall i :: 0 <= i < |names| ==> ids[i] == TestName(names, i)
  {
    var idIndex := -1;
    ids := [];
    var i := 0;
    while i < |names|
      invariant 0 <= i <= |names|
      invariant |ids| == i
      invariant forall k :: 0 <= k < i ==> ids[k] == Identifier(names[k], Suffix(names, k))
      invariant idIndex == if i == 0 then -1 else Counter(Suffix(names, i - 1))
    {
      var identificator;
      idIndex, identificator := NamePosition(names, i, idIndex);
      ids := ids + [identificator];
      i := i + 1;
    }
  }

  /** One pass of the loop body: the branches update the counter, which
      then spells the suffix of the `i`-th name. */
  method NamePosition(names: seq<string>, i: int, idIndex: int) returns (next: int, identificator: string)
    requires 0 <= i < |names|
    requires idIndex == if i == 0 then -1 else Counter(Suffix(names, i - 1))
    ensures next == Counter(Suffix(names, i))
    ensures identificator == Identifier(names[i], Suffix(names, i))
  {
    next := idIndex;
    if i != |names| - 1 && names[i] == names[i + 1] {
      next := 0;
    } else if i != 0 && names[i] == names[i - 1] {
      assert Suffix(names, i - 1) == Some(0);
      next := next + 1;
    } else {
      next := -1;
    }
    IdIndexStep(names, i, next);
    identificator := names[i] + (if next == -1 then "" else "_" + DecimalString(next)) + "_Test";
  }

  /** One pass of the loop: the counter it leaves behind spells the
      suffix of the `i`-th name. */
  lemma IdIndexStep(names: seq<string>, i: int, idIndex: int)
    requires 0 <= i < |names|
    requires idIndex == if i + 1 < |names| && names[i] == names[i + 1] then 0
                         else if i > 0 && names[i] == names[i - 1] then 1
                         else -1
    ensures idIndex == Counter(Suffix(names, i))
    ensures idIndex >= -1
    ensures Identifier(names[i], Suffix(names, i))
            == names[i] + (if idIndex == -1 then "" else "_" + DecimalString(idIndex)) + "_Test"
  {
  }

  /** A maximal run of equal names occupying `[lo, hi)`. */
  predicate IsRun(names: seq<string>, lo: int, hi: int) {
    && 0 <= lo < hi <= |names|
    && (forall k :: lo <= k < hi ==> names[k] == names[lo])
    && (lo == 0 || names[lo - 1] != names[lo])
    && (hi == |names| || names[hi] != names[lo])
  }

  /** A method alone in its run gets no suffix. */
  lemma LoneNameUnsuffixed(names: seq<string>, i: int)
    requires IsRun(names, i, i + 1)
    ensures TestName(names, i) == names[i] + "_Test"
  {
  }

  /** In a run of k >= 2 equal names the suffixes are 0, ..., 0, 1: every
      member but the last has a same-named successor. */
  lemma RunSuffixes(names: seq<string>, lo: int, hi: int)
    requires IsRun(names, lo, hi) && hi - lo >= 2
    ensures forall k :: lo <= k < hi - 1 ==> Suffix(names, k) == Some(0)
    ensures Suffix(names, hi - 1) == Some(1)
  {
  }

  /** Two overloads: `<Name>_0_Test` and `<Name>_1_Test`. */
  lemma OverloadPairNames(names: seq<string>, lo: int)
    requires IsRun(names, lo, lo + 2)
    ensures TestName(names, lo) == names[lo] + "_0_Test"
    ensures TestName(names, lo + 1) == names[lo] + "_1_Test"
  {
    assert Suffix(names, lo) == Some(0) && Suffix(names, lo + 1) == Some(1);
    assert names[lo + 1] == names[lo];
    ZeroOneIdentifiers(names[lo]);
  }

  lemma ZeroOneIdentifiers(name: string)
    ensures Identifier(name, Some(0)) == name + "_0_Test"
    ensures Identifier(name, Some(1)) == name + "_1_Test"
  {
    assert DecimalString(0) == "0";
    assert DecimalString(1) == "1";
  }

  /** Three equal names in a row: the first two both get suffix 0, so their
      identifiers clash. */
  lemma LongRunCollides(names: seq<string>, i: int)
    requires 0 <= i && i + 2 < |names|
    requires names[i] == names[i + 1] == names[i + 2]
    ensures TestName(names, i) == TestName(names, i + 1)
  {
  }

  /** A source name of the form `X_0` clashes with the first of two `X`
      overloads. */
  lemma LookalikeCollides()
    ensures TestName(["A", "A", "A_0"], 0) == TestName(["A", "A", "A_0"], 2) == "A_0_Test"
  {
    assert DecimalString(0) == "0";
  }

  // ----- The numbering the loop evidently aims at: 0, 1, 2, ... along a run -----

  /** The first index of the run holding `i`. */
  function RunStart(names: seq<string>, i: int): (s: int)
    requires 0 <= i < |names|
    ensures 0 <= s <= i
    ensures forall k :: s <= k <= i ==> names[k] == names[i]
    ensures s == 0 || names[s - 1] != names[i]
  {
    if i > 0 && names[i - 1] == names[i] then RunStart(names, i - 1) else i
  }

  /** One past the last index of the run holding `i`. */
  function RunEnd(names: seq<string>, i: int): (e: int)
    requires 0 <= i < |names|
    ensures i < e <= |names|
    ensures forall k :: i <= k < e ==> names[k] == names[i]
    ensures e == |names| || names[e] != names[i]
    decreases |names| - i
  {
    if i + 1 < |names| && names[i + 1] == names[i] then RunEnd(names, i + 1) else i + 1
  }

  /** Rank within the run when the run has two or more members, else none. */
  function IntendedSuffix(names: seq<string>, i: int): Option<nat>
    requires 0 <= i < |names|
  {
    if RunEnd(names, i) - RunStart(names, i) == 1 then None
    else Some(i - RunStart(names, i))
  }

  /** No three consecutive equal names. */
  predicate ShortRuns(names: seq<string>) {
    forall i :: 0 <= i < |names| - 2 ==> !(names[i] == names[i + 1] && names[i] == names[i + 2])
  }

  /** A run of three or more starts with three equal names in a row. */
  lemma LongRunHasTriple(names: seq<string>, i: int)
    requires 0 <= i < |names|
    ensures var s := RunStart(names, i);
      RunEnd(names, i) - s > 2 ==> s + 2 < |names| && names[s] == names[s + 1] && names[s] == names[s + 2]
  {
  }

  lemma ShortRunWithin(names: seq<string>, i: int)
    requires ShortRuns(names) && 0 <= i < |names|
    ensures RunEnd(names, i) - RunStart(names, i) <= 2
  {
    LongRunHasTriple(names, i);
  }

  /** A run reaches back at least as far as any stretch of equal names that
      ends at `e`. */
  lemma {:induction false} RunStartAtMost(names: seq<string>, k: int, e: int)
    requires 0 <= k <= e < |names|
    requires forall t :: k <= t <= e ==> names[t] == names[e]
    ensures RunStart(names, e) <= k
    decreases e
  {
    if k < e {
      RunStartAtMost(names, k, e - 1);
    }
  }

  /** The loop as written numbers every position as intended exactly when no
      name occurs three or more times in a row. */
  lemma WrittenMatchesIntendedIffShortRuns(names: seq<string>)
    ensures (forall i :: 0 <= i < |names| ==> Suffix(names, i) == IntendedSuffix(names, i))
        <==> ShortRuns(names)
  {
    if ShortRuns(names) {
      forall i | 0 <= i < |names|
        ensures Suffix(names, i) == IntendedSuffix(names, i)
      {
        ShortRunWithin(names, i);
      }
    } else {
      var i :| 0 <= i < |names| - 2 && names[i] == names[i + 1] && names[i] == names[i + 2];
      var e := RunEnd(names, i + 2) - 1;
      RunStartAtMost(names, i, e);
      assert Suffix(names, e) != IntendedSuffix(names, e);
    }
  }

  // ----- When the generated identifiers are pairwise distinct -----

  /** Equal names are contiguous: everything between two equal names is equal
      to them (sorting by name establishes this). */
  predicate Grouped(names: seq<string>) {
    forall i, k, j :: 0 <= i <= k <= j < |names| && names[i] == names[j] ==> names[k] == names[i]
  }

  /** No name is another name followed by `_0` or `_1`. */
  predicate NoSuffixLookalikes(names: seq<string>) {
    forall i, j :: 0 <= i < |names| && 0 <= j < |names| ==> names[i] != names[j] + "_0" && names[i] != names[j] + "_1"
  }

  /** Appending the same tail to two strings keeps them apart exactly when
      they were apart. */
  lemma AppendCancel(a: string, b: string, t: string)
    ensures a + t == b + t <==> a == b
  {
    if a + t == b + t {
      assert a == (a + t)[..|a|];
      assert b == (b + t)[..|b|];
    }
  }

  /** Only suffixes 0 and 1 ever occur, and each is one digit. */
  lemma SuffixTextShape(names: seq<string>, i: int)
    requires 0 <= i < |names|
    ensures Suffix(names, i) == Some(0) ==> SuffixText(Suffix(names, i)) == "_0"
    ensures Suffix(names, i) == Some(1) ==> SuffixText(Suffix(names, i)) == "_1"
  {
    assert DecimalString(0) == "0";
    assert DecimalString(1) == "1";
  }

  /** Two equal names at least two apart enclose a triple. */
  lemma GroupedSpanHasTriple(names: seq<string>, i: int, j: int)
    requires Grouped(names)
    requires 0 <= i < j < |names| && names[i] == names[j]
    ensures j >= i + 2 ==> names[i + 1] == names[i] && names[i + 2] == names[i]
  {
  }

  /** Under grouping and short runs, equal names sit side by side. */
  lemma EqualNamesAdjacent(names: seq<string>, i: int, j: int)
    requires Grouped(names) && ShortRuns(names)
    requires 0 <= i < j < |names| && names[i] == names[j]
    ensures j == i + 1
  {
    GroupedSpanHasTriple(names, i, j);
  }

  /** Under short runs, the second of two equal names gets suffix 1. */
  lemma SecondOfPairSuffix(names: seq<string>, i: int)
    requires ShortRuns(names)
    requires 0 <= i && i + 1 < |names| && names[i] == names[i + 1]
    ensures Suffix(names, i + 1) == Some(1)
  {
  }

  /** Two positions `i < j` get different identifiers under the hypotheses
      of `TestNamesDistinct`. */
  lemma TestNamesDiffer(names: seq<string>, i: int, j: int)
    requires Grouped(names) && ShortRuns(names) && NoSuffixLookalikes(names)
    requires 0 <= i < j < |names|
    ensures TestName(names, i) != TestName(names, j)
  {
    var si, sj := Suffix(names, i), Suffix(names, j);
    var pi, pj := names[i] + SuffixText(si), names[j] + SuffixText(sj);
    SuffixTextShape(names, i);
    SuffixTextShape(names, j);
    AppendCancel(pi, pj, "_Test");
    if si.None? && sj.None? {
      assert pi == names[i] && pj == names[j];
      assert names[i + 1] != names[i];
    } else if si.Some? && sj.Some? {
      if names[i] == names[j] {
        EqualNamesAdjacent(names, i, j);
        SecondOfPairSuffix(names, i);
        assert pi[|names[i]| + 1] == '0' && pj[|names[j]| + 1] == '1';
      } else if |names[i]| == |names[j]| {
        assert pi[..|names[i]|] == names[i] && pj[..|names[j]|] == names[j];
      } else {
        assert |pi| != |pj|;
      }
    }
  }

  /** With grouped names, runs of at most two, and no name that looks like
      another name plus a suffix, the identifiers are pairwise distinct. */
  lemma TestNamesDistinct(names: seq<string>)
    requires Grouped(names) && ShortRuns(names) && NoSuffixLookalikes(names)
    ensures forall i, j :: 0 <= i < j < |names| ==> TestName(names, i) != TestName(names, j)
  {
    forall i, j | 0 <= i < j < |names|
      ensures TestName(names, i) != TestName(names, j)
    {
      TestNamesDiffer(names, i, j);
    }
  }

  // ----- The rank-in-run numbering keeps grouped names apart -----

  predicate AllDigits(s: string) {
    forall k :: 0 <= k < |s| ==> '0' <= s[k] <= '9'
  }

  /** `a` is `b` followed by `_` and a (possibly empty) run of digits. */
  predicate NumberedForm(a: string, b: string) {
    |a| > |b| && a[..|b| + 1] == b + "_" && AllDigits(a[|b| + 1..])
  }

  /** No name is another name followed by `_` and digits. */
  predicate NoNumberedLookalikes(names: seq<string>) {
    forall i, j :: 0 <= i < |names| && 0 <= j < |names| ==> !NumberedForm(names[i], names[j])
  }

  /** The text between name and `_Test` is empty or `_` and digits. */
  lemma SuffixTextDigits(suffix: Option<nat>)
    ensures SuffixText(suffix) == "" || (SuffixText(suffix)[0] == '_' && AllDigits(SuffixText(suffix)[1..]))
  {
    match suffix
    case None =>
    case Some(k) =>
      assert SuffixText(suffix)[1..] == DecimalString(k);
  }

  /** Distinct counters are spelled differently. */
  lemma SuffixTextInjective(a: nat, b: nat)
    ensures SuffixText(Some(a)) == SuffixText(Some(b)) <==> a == b
  {
    DecimalRoundTrip(a);
    DecimalRoundTrip(b);
    assert SuffixText(Some(a))[1..] == DecimalString(a);
    assert SuffixText(Some(b))[1..] == DecimalString(b);
  }

  /** A shorter name whose suffixed text is a longer name's suffixed text
      makes the longer name a numbered lookalike of the shorter. */
  lemma NumberedPrefix(x: string, y: string, t: string, u: string)
    requires x + t == y + u && |x| < |y|
    requires t == "" || (t[0] == '_' && AllDigits(t[1..]))
    ensures NumberedForm(y, x)
  {
    var p := x + t;
    assert |t| > 0 by {
      assert |p| == |y| + |u|;
    }
    assert y == p[..|y|];
    assert y[..|x| + 1] == p[..|x| + 1] == x + "_";
    assert y[|x| + 1..] == t[1..|y| - |x|];
  }

  /** Two positions with only their name between them share one run of
      at least two, so they are numbered by their distance from its start. */
  lemma SameRun(names: seq<string>, i: int, j: int)
    requires 0 <= i < j < |names|
    requires forall t :: i <= t <= j ==> names[t] == names[j]
    ensures RunStart(names, i) == RunStart(names, j)
    ensures IntendedSuffix(names, i) == Some(i - RunStart(names, i))
    ensures IntendedSuffix(names, j) == Some(j - RunStart(names, i))
  {
    SameRunStart(names, i, j);
    assert names[i + 1] == names[i] && names[j - 1] == names[j];
    RankedInRun(names, i);
    RankedInRun(names, j);
  }

  lemma SameRunStart(names: seq<string>, i: int, j: int)
    requires 0 <= i < j < |names|
    requires forall t :: i <= t <= j ==> names[t] == names[j]
    ensures RunStart(names, i) == RunStart(names, j)
  {
    RunStartAtMost(names, i, j);
    var sj := RunStart(names, j);
    assert forall t :: sj <= t <= i ==> names[t] == names[i];
    RunStartAtMost(names, sj, i);
    var si := RunStart(names, i);
    assert forall t :: si <= t <= j ==> names[t] == names[j];
    RunStartAtMost(names, si, j);
  }

  /** A position with a same-named neighbour is numbered by its distance
      from the start of its run. */
  lemma RankedInRun(names: seq<string>, k: int)
    requires 0 <= k < |names|
    requires (k > 0 && names[k - 1] == names[k]) || (k + 1 < |names| && names[k + 1] == names[k])
    ensures IntendedSuffix(names, k) == Some(k - RunStart(names, k))
  {
  }

  /** Under grouping, everything between two equal names equals them. */
  lemma GroupedBetween(names: seq<string>, i: int, j: int)
    requires Grouped(names)
    requires 0 <= i < j < |names| && names[i] == names[j]
    ensures forall t :: i <= t <= j ==> names[t] == names[j]
  {
  }

  /** Two positions `i < j` get different rank-in-run identifiers. */
  lemma IntendedNamesDiffer(names: seq<string>, i: int, j: int)
    requires Grouped(names) && NoNumberedLookalikes(names)
    requires 0 <= i < j < |names|
    ensures Identifier(names[i], IntendedSuffix(names, i)) != Identifier(names[j], IntendedSuffix(names, j))
  {
    var x, y := names[i], names[j];
    var ti, tj := SuffixText(IntendedSuffix(names, i)), SuffixText(IntendedSuffix(names, j));
    AppendCancel(x + ti, y + tj, "_Test");
    SuffixTextDigits(IntendedSuffix(names, i));
    SuffixTextDigits(IntendedSuffix(names, j));
    if x == y {
      GroupedBetween(names, i, j);
      SameRun(names, i, j);
      var s := RunStart(names, i);
      SuffixTextInjective(i - s, j - s);
      assert (x + ti)[|x|..] == ti && (y + tj)[|y|..] == tj;
    } else if |x| == |y| {
      assert (x + ti)[..|x|] == x && (y + tj)[..|y|] == y;
    } else if |x| < |y| {
      if x + ti == y + tj {
        NumberedPrefix(x, y, ti, tj);
      }
    } else {
      if x + ti == y + tj {
        NumberedPrefix(y, x, tj, ti);
      }
    }
  }

  /** The numbering `0, 1, 2, ...` along each run would give pairwise distinct
      identifiers to grouped names, however long the runs, unless some name
      is another plus `_` and digits. */
  lemma IntendedNamesDistinct(names: seq<string>)
    requires Grouped(names) && NoNumberedLookalikes(names)
    ensures forall i, j :: 0 <= i < j < |names| ==>
      Identifier(names[i], IntendedSuffix(names, i)) != Identifier(names[j], IntendedSuffix(names, j))
  {
    forall i, j | 0 <= i < j < |names|
      ensures Identifier(names[i], IntendedSuffix(names, i)) != Identifier(names[j], IntendedSuffix(names, j))
    {
      IntendedNamesDiffer(names, i, j);
    }
  }

  /** Positions in `s` holding `x`, at least `n` of them when `x` occurs `n`
      times. */
  lemma {:induction false} Occurrences(s: seq<string>, x: string, n: nat) returns (idx: seq<int>)
    requires multiset(s)[x] >= n
    ensures |idx| == n
    ensures forall t :: 0 <= t < n ==> 0 <= idx[t] < |s| && s[idx[t]] == x
    ensures forall t, t' :: 0 <= t < t' < n ==> idx[t] < idx[t']
    decreases |s|
  {
    if n == 0 {
      idx := [];
    } else {
      var last := |s| - 1;
      assert s == s[..last] + [s[last]];
      if s[last] == x {
        var rest := Occurrences(s[..last], x, n - 1);
        idx := rest + [last];
      } else {
        idx := Occurrences(s[..last], x, n);
      }
    }
  }

  /** A name occurring three times among grouped names yields two equal
      identifiers side by side. */
  lemma ThreeOccurrencesCollide(names: seq<string>, n: string) returns (i: int)
    requires Grouped(names)
    requires multiset(names)[n] >= 3
    ensures 0 <= i && i + 1 < |names|
    ensures TestName(names, i) == TestName(names, i + 1)
  {
    var idx := Occurrences(names, n, 3);
    i := idx[0];
    assert idx[0] < idx[1] < idx[2];
    assert names[idx[2]] == names[i];
    GroupedSpanHasTriple(names, i, idx[2]);
    LongRunCollides(names, i);
  }
}
