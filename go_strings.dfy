/**
  The parts of Go's `strings` and `fmt` packages that the node runtime relies on:
  `strings.Split` and `strings.Join` (for handler names and the ESM banner),
  `strings.HasPrefix` (runtime matching), `strings.ReplaceAll` (output paths),
  and the decimal rendering `fmt.Sprint` gives an `int` (diagnostic locations).
  Strings are sequences of runes; Go's byte indexing agrees with this as long as
  only the ASCII separators below are searched for.
*/
module GoStrings {

  // ---------------------------------------------------------------------------
  // strings.Join and strings.Split (with a one-character separator)
  // ---------------------------------------------------------------------------

  /** `strings.Join(parts, sep)`: the parts with `sep` between neighbours; "" for no parts. */
  function Join(parts: seq<string>, sep: string): string
  {
    if |parts| == 0 then ""
    else if |parts| == 1 then parts[0]
    else parts[0] + sep + Join(parts[1..], sep)
  }

  /**
    `strings.Split(s, [sep])`: the maximal runs of `s` between occurrences of `sep`.
    There is always at least one part: "" splits into [""].
  */
  function Split(s: string, sep: char): (parts: seq<string>)
    ensures |parts| >= 1
    decreases |s|
  {
    if s == [] then [[]]
    else
      var rest := Split(s[1..], sep);
      if s[0] == sep then [[]] + rest
      else [[s[0]] + rest[0]] + rest[1..]
  }

  /** No part of a split holds the separator. */
  lemma {:induction false} SplitPartsLackSeparator(s: string, sep: char)
    ensures forall i :: 0 <= i < |Split(s, sep)| ==> sep !in Split(s, sep)[i]
    decreases |s|
  {
    if s != [] {
      SplitPartsLackSeparator(s[1..], sep);
      var rest := Split(s[1..], sep);
      var parts := Split(s, sep);
      if s[0] == sep {
        assert forall i :: 1 <= i < |parts| ==> parts[i] == rest[i - 1];
      } else {
        assert parts[0] == [s[0]] + rest[0];
        assert forall i :: 1 <= i < |parts| ==> parts[i] == rest[i];
      }
    }
  }

  /** Joining the parts of a split back with the separator gives the string again. */
  lemma {:induction false} SplitJoinsBack(s: string, sep: char)
    ensures Join(Split(s, sep), [sep]) == s
    decreases |s|
  {
    if s != [] {
      SplitJoinsBack(s[1..], sep);
      var rest := Split(s[1..], sep);
      var parts := Split(s, sep);
      assert s == [s[0]] + s[1..];
      if s[0] == sep {
        assert parts[0] == [] && parts[1..] == rest;
        assert Join(parts, [sep]) == [] + [sep] + Join(rest, [sep]);
      } else if |rest| == 1 {
        assert parts == [[s[0]] + rest[0]];
      } else {
        assert parts[0] == [s[0]] + rest[0] && parts[1..] == rest[1..];
        assert Join(parts, [sep]) == parts[0] + [sep] + Join(rest[1..], [sep]);
        assert Join(rest, [sep]) == rest[0] + [sep] + Join(rest[1..], [sep]);
      }
    }
  }

  lemma SplitParts(s: string, sep: char)
    ensures forall i :: 0 <= i < |Split(s, sep)| ==> sep !in Split(s, sep)[i]
    ensures Join(Split(s, sep), [sep]) == s
  {
    SplitPartsLackSeparator(s, sep);
    SplitJoinsBack(s, sep);
  }

  /** `s` holds the separator exactly when it splits into two or more parts. */
  lemma {:induction false} SplitMoreThanOne(s: string, sep: char)
    ensures sep in s <==> |Split(s, sep)| >= 2
    decreases |s|
  {
    if s != [] {
      SplitMoreThanOne(s[1..], sep);
      assert sep in s <==> s[0] == sep || sep in s[1..] by {
        assert s == [s[0]] + s[1..];
      }
    }
  }

  lemma {:induction false} SplitNoSeparator(s: string, sep: char)
    requires sep !in s
    ensures Split(s, sep) == [s]
    decreases |s|
  {
    if s != [] {
      SplitNoSeparator(s[1..], sep);
      assert [s[0]] + s[1..] == s;
    }
  }

  /** A separator splits the pieces on either side of it independently. */
  lemma {:induction false} SplitConcat(a: string, sep: char, b: string)
    ensures Split(a + [sep] + b, sep) == Split(a, sep) + Split(b, sep)
    decreases |a|
  {
    if a == [] {
      assert a + [sep] + b == [sep] + b;
      assert ([sep] + b)[1..] == b;
    } else {
      var s := a + [sep] + b;
      assert s[0] == a[0];
      assert s[1..] == a[1..] + [sep] + b;
      SplitConcat(a[1..], sep, b);
    }
  }

  /** Split undoes Join when no part holds the separator. */
  lemma {:induction false} SplitJoin(parts: seq<string>, sep: char)
    requires |parts| >= 1
    requires forall i :: 0 <= i < |parts| ==> sep !in parts[i]
    ensures Split(Join(parts, [sep]), sep) == parts
    decreases |parts|
  {
    if |parts| == 1 {
      SplitNoSeparator(parts[0], sep);
    } else {
      SplitNoSeparator(parts[0], sep);
      SplitJoin(parts[1..], sep);
      SplitConcat(parts[0], sep, Join(parts[1..], [sep]));
      assert [parts[0]] + parts[1..] == parts;
    }
  }

  /** Join of two or more parts ends with the separator and the last part. */
  lemma {:induction false} JoinLast(parts: seq<string>, sep: string)
    requires |parts| >= 2
    ensures Join(parts, sep) == Join(parts[..|parts| - 1], sep) + sep + parts[|parts| - 1]
    decreases |parts|
  {
    if |parts| > 2 {
      JoinLast(parts[1..], sep);
      assert parts[1..][..|parts| - 2] == parts[..|parts| - 1][1..];
    }
  }

  // ---------------------------------------------------------------------------
  // strings.HasPrefix
  // ---------------------------------------------------------------------------

  predicate HasPrefix(s: string, prefix: string)
  {
    |prefix| <= |s| && s[..|prefix|] == prefix
  }

  // ---------------------------------------------------------------------------
  // strings.ReplaceAll
  // ---------------------------------------------------------------------------

  /** `pat` occurs in `s` starting at index `i`. */
  predicate OccursAt(s: string, pat: string, i: nat)
  {
    i <= |s| && HasPrefix(s[i..], pat)
  }

  /**
    `strings.ReplaceAll(s, pat, repl)`: replaces every non-overlapping
    occurrence of `pat`, scanning left to right. An empty `pat` matches before
    every rune and at the end, so `repl` is inserted |s| + 1 times.
  */
  function ReplaceAll(s: string, pat: string, repl: string): string
  {
    if pat == [] then InsertAround(s, repl) else ReplaceFrom(s, pat, repl, 0)
  }

  /** ReplaceAll with an empty `pat`: `repl` before every rune and at the end. */
  function InsertAround(s: string, repl: string): string
    decreases |s|
  {
    if s == [] then repl else repl + [s[0]] + InsertAround(s[1..], repl)
  }

  /** The scan of ReplaceAll for a non-empty `pat`, from index `i` of `s` on. */
  function ReplaceFrom(s: string, pat: string, repl: string, i: nat): string
    requires pat != []
    decreases |s| - i
  {
    if i >= |s| then []
    else if OccursAt(s, pat, i) then repl + ReplaceFrom(s, pat, repl, i + |pat|)
    else [s[i]] + ReplaceFrom(s, pat, repl, i + 1)
  }

  /**
    From `j` up to the next occurrence of `pat`, at `k`, the text is kept; that
    occurrence is replaced, and the scan goes on right after it.
  */
  lemma {:induction false} ReplaceFromUpTo(s: string, pat: string, repl: string, j: nat, k: nat)
    requires pat != [] && j <= k && OccursAt(s, pat, k)
    requires forall i :: j <= i < k ==> !OccursAt(s, pat, i)
    ensures ReplaceFrom(s, pat, repl, j) == s[j..k] + repl + ReplaceFrom(s, pat, repl, k + |pat|)
    decreases k - j
  {
    if j == k {
      assert s[j..k] == [];
    } else {
      ReplaceFromUpTo(s, pat, repl, j + 1, k);
      assert s[j..k] == [s[j]] + s[j + 1..k];
      var rest := ReplaceFrom(s, pat, repl, k + |pat|);
      assert [s[j]] + (s[j + 1..k] + repl + rest) == ([s[j]] + s[j + 1..k]) + repl + rest;
    }
  }

  /** An occurrence at `m + j` in `s` is one at `j` in the suffix of `s` from `m`. */
  lemma OccursAtShift(s: string, pat: string, m: nat, j: nat)
    requires m + j < |s|
    ensures OccursAt(s, pat, m + j) == OccursAt(s[m..], pat, j)
    ensures s[m + j] == s[m..][j]
  {
    assert s[m + j..] == s[m..][j..];
  }

  /** Scanning `s` from `m + j` is scanning its suffix from `m` on, from `j`. */
  lemma {:induction false} ReplaceFromShift(s: string, pat: string, repl: string, m: nat, j: nat)
    requires pat != [] && m <= |s|
    ensures ReplaceFrom(s, pat, repl, m + j) == ReplaceFrom(s[m..], pat, repl, j)
    decreases |s| - (m + j)
  {
    if m + j < |s| {
      OccursAtShift(s, pat, m, j);
      if OccursAt(s, pat, m + j) {
        ReplaceFromShift(s, pat, repl, m, j + |pat|);
      } else {
        ReplaceFromShift(s, pat, repl, m, j + 1);
      }
    }
  }

  /** With no occurrence of `pat` from `j` on, the scan keeps the rest of `s` as it is. */
  lemma {:induction false} ReplaceFromAbsent(s: string, pat: string, repl: string, j: nat)
    requires pat != [] && j <= |s|
    requires forall i :: j <= i < |s| ==> !OccursAt(s, pat, i)
    ensures ReplaceFrom(s, pat, repl, j) == s[j..]
    decreases |s| - j
  {
    if j < |s| {
      ReplaceFromAbsent(s, pat, repl, j + 1);
      assert s[j..] == [s[j]] + s[j + 1..];
    }
  }

  /** Replacing `pat` by itself, the scan keeps the rest of `s` as it is. */
  lemma {:induction false} ReplaceFromSelf(s: string, pat: string, j: nat)
    requires pat != [] && j <= |s|
    ensures ReplaceFrom(s, pat, pat, j) == s[j..]
    decreases |s| - j
  {
    if j < |s| {
      if OccursAt(s, pat, j) {
        ReplaceFromSelf(s, pat, j + |pat|);
        assert s[j..] == s[j..][..|pat|] + s[j + |pat|..];
      } else {
        ReplaceFromSelf(s, pat, j + 1);
        assert s[j..] == [s[j]] + s[j + 1..];
      }
    }
  }

  /** Replacing a text by itself changes nothing (Go short-cuts this case). */
  lemma ReplaceAllSelf(s: string, pat: string)
    ensures ReplaceAll(s, pat, pat) == s
  {
    if pat == [] {
      InsertNothing(s);
    } else {
      ReplaceFromSelf(s, pat, 0);
    }
  }

  /** Inserting the empty text around every rune gives `s` back. */
  lemma {:induction false} InsertNothing(s: string)
    ensures InsertAround(s, []) == s
    decreases |s|
  {
    if s != [] {
      InsertNothing(s[1..]);
      assert [s[0]] + s[1..] == s;
    }
  }

  /**
    The first occurrence of a non-empty `pat` is replaced, what precedes it is
    kept, and the scan goes on right after it.
  */
  lemma ReplaceAllFirstOccurrence(prefix: string, pat: string, rest: string, repl: string)
    requires pat != []
    requires forall i :: 0 <= i < |prefix| ==> !OccursAt(prefix + pat + rest, pat, i)
    ensures ReplaceAll(prefix + pat + rest, pat, repl) == prefix + repl + ReplaceAll(rest, pat, repl)
  {
    var s := prefix + pat + rest;
    var k := |prefix|;
    assert s[k..][..|pat|] == pat;
    ReplaceAllAt(s, pat, repl, k);
    assert s[0..k] == prefix;
    assert s[k + |pat|..] == rest;
  }

  /** ReplaceAll of `s` whose first occurrence of `pat` is at `k`. */
  lemma ReplaceAllAt(s: string, pat: string, repl: string, k: nat)
    requires pat != [] && k + |pat| <= |s|
    requires OccursAt(s, pat, k)
    requires forall i :: 0 <= i < k ==> !OccursAt(s, pat, i)
    ensures ReplaceAll(s, pat, repl) == s[0..k] + repl + ReplaceAll(s[k + |pat|..], pat, repl)
  {
    var m := k + |pat|;
    var tail := s[m..];
    assert ReplaceAll(s, pat, repl) == ReplaceFrom(s, pat, repl, 0);
    assert ReplaceAll(tail, pat, repl) == ReplaceFrom(tail, pat, repl, 0);
    ReplaceFromUpTo(s, pat, repl, 0, k);
    ReplaceFromShift(s, pat, repl, m, 0);
    assert ReplaceFrom(s, pat, repl, m) == ReplaceFrom(tail, pat, repl, 0);
  }

  /**
    When a non-empty `pat` ends `s` and starts nowhere earlier, ReplaceAll swaps
    exactly that trailing occurrence: the result is the stem followed by `repl`.
  */
  lemma ReplaceAllTrailingOnly(stem: string, pat: string, repl: string)
    requires pat != []
    requires forall i :: 0 <= i < |stem| ==> !OccursAt(stem + pat, pat, i)
    ensures ReplaceAll(stem + pat, pat, repl) == stem + repl
  {
    assert stem + pat + [] == stem + pat;
    ReplaceAllFirstOccurrence(stem, pat, [], repl);
    assert stem + repl + [] == stem + repl;
  }

  /** Two occurrences of a non-empty `pat`, and no others, are both replaced. */
  lemma ReplaceAllTwoOccurrences(prefix: string, pat: string, middle: string, repl: string)
    requires pat != []
    requires forall i :: 0 <= i < |prefix| ==> !OccursAt(prefix + pat + middle + pat, pat, i)
    requires forall i :: 0 <= i < |middle| ==> !OccursAt(middle + pat, pat, i)
    ensures ReplaceAll(prefix + pat + middle + pat, pat, repl) == prefix + repl + middle + repl
  {
    var rest := middle + pat;
    assert prefix + pat + middle + pat == prefix + pat + rest;
    ReplaceAllFirstOccurrence(prefix, pat, rest, repl);
    ReplaceAllTrailingOnly(middle, pat, repl);
    assert prefix + repl + (middle + repl) == prefix + repl + middle + repl;
  }

  /** A non-empty `pat` that never occurs leaves `s` as it is. */
  lemma ReplaceAllAbsent(s: string, pat: string, repl: string)
    requires pat != []
    requires forall i :: 0 <= i < |s| ==> !OccursAt(s, pat, i)
    ensures ReplaceAll(s, pat, repl) == s
  {
    ReplaceFromAbsent(s, pat, repl, 0);
  }

  // ---------------------------------------------------------------------------
  // fmt.Sprint of an int: optional minus sign, then decimal digits
  // ---------------------------------------------------------------------------

  function DigitChar(d: nat): (c: char)
    requires d < 10
    ensures '0' <= c <= '9'
  {
    ('0' as int + d) as char
  }

  function DigitValue(c: char): nat
  {
    if '0' <= c <= '9' then c as int - '0' as int else 0
  }

  /** Decimal digits of `n`, most significant first, without leading zeros. */
  function NatToString(n: nat): (s: string)
    ensures |s| >= 1
    ensures forall i :: 0 <= i < |s| ==> '0' <= s[i] <= '9'
    decreases n
  {
    if n < 10 then [DigitChar(n)] else NatToString(n / 10) + [DigitChar(n % 10)]
  }

  /** `fmt.Sprint(i)` for an `int`. */
  function IntToString(i: int): string
  {
    if i < 0 then "-" + NatToString(-i) else NatToString(i)
  }

  /** Reads back a run of decimal digits. */
  function ParseNat(s: string): nat
    decreases |s|
  {
    if s == [] then 0 else ParseNat(s[..|s| - 1]) * 10 + DigitValue(s[|s| - 1])
  }

  /** Reads back an optionally signed decimal number. */
  function ParseInt(s: string): int
  {
    if s != [] && s[0] == '-' then -(ParseNat(s[1..]) as int) else ParseNat(s)
  }

  lemma {:induction false} ParseNatToString(n: nat)
    ensures ParseNat(NatToString(n)) == n
    decreases n
  {
    if n >= 10 {
      ParseNatToString(n / 10);
      var s := NatToString(n / 10) + [DigitChar(n % 10)];
      assert s[..|s| - 1] == NatToString(n / 10);
    }
  }

  /** Rendering an int in decimal loses nothing: it reads back as the same int. */
  lemma ParseIntToString(i: int)
    ensures ParseInt(IntToString(i)) == i
  {
    if i < 0 {
      ParseNatToString(-i);
      assert ("-" + NatToString(-i))[1..] == NatToString(-i);
    } else {
      ParseNatToString(i);
    }
  }

  lemma IntToStringHasNo(i: int, c: char)
    requires c != '-' && !('0' <= c <= '9')
    ensures c !in IntToString(i)
  {
    var s := IntToString(i);
    if i < 0 {
      assert forall k :: 1 <= k < |s| ==> s[k] == NatToString(-i)[k - 1];
    }
  }
}
