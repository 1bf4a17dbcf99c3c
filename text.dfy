/**
 * The string operations the chat handler of app.py uses: ASCII lower-casing,
 * the suffix test, the `[:n]` slice and `sep.join(parts)`.
 */
module Text {

  /** Python's `str.lower()` on one character, restricted to the ASCII letters. */
  function LowerChar(c: char): char
  {
    if 'A' <= c <= 'Z' then (c as int - 'A' as int + 'a' as int) as char else c
  }

  /** Python's `str.lower()`, character by character. */
  function Lower(s: string): (r: string)
    ensures |r| == |s|
  {
    seq(|s|, i requires 0 <= i < |s| => LowerChar(s[i]))
  }

  /** Python's `s.startswith(prefix)`. */
  predicate StartsWith(s: string, prefix: string)
  {
    |prefix| <= |s| && s[..|prefix|] == prefix
  }

  /** Python's `s.endswith(suffix)`. */
  predicate EndsWith(s: string, suffix: string)
  {
    |suffix| <= |s| && s[|s| - |suffix|..] == suffix
  }

  /** `name.lower().endswith('.txt')`: the upload filter of app.py:276. */
  predicate HasTxtSuffix(name: string)
  {
    EndsWith(Lower(name), ".txt")
  }

  /** The only characters that lower-case to `t` are `t` and `T`, and likewise for `x` and `.`. */
  lemma LowerCharIs(c: char)
    ensures LowerChar(c) == 't' <==> c == 't' || c == 'T'
    ensures LowerChar(c) == 'x' <==> c == 'x' || c == 'X'
    ensures LowerChar(c) == '.' <==> c == '.'
  {
  }

  /**
   * The suffix filter, stated without lower-casing: the last four characters
   * are a dot followed by `txt` in any mixture of cases.
   */
  lemma TxtSuffixSpelling(name: string)
    ensures HasTxtSuffix(name) <==>
      |name| >= 4 && name[|name| - 4] == '.' &&
      (name[|name| - 3] == 't' || name[|name| - 3] == 'T') &&
      (name[|name| - 2] == 'x' || name[|name| - 2] == 'X') &&
      (name[|name| - 1] == 't' || name[|name| - 1] == 'T')
  {
    var n := |name|;
    if n >= 4 {
      var low := Lower(name);
      LowerCharIs(name[n - 4]);
      LowerCharIs(name[n - 3]);
      LowerCharIs(name[n - 2]);
      LowerCharIs(name[n - 1]);
      assert low[n - 4..] == [low[n - 4], low[n - 3], low[n - 2], low[n - 1]];
    }
  }

  function Min(a: int, b: int): int
  {
    if a <= b then a else b
  }

  /** Python's `s[:n]`: the first `n` characters, or all of `s` when it is shorter. */
  function Truncate(s: string, n: nat): (r: string)
    ensures |r| == Min(n, |s|)
    ensures r == s[..|r|]
  {
    if |s| <= n then s else s[..n]
  }

  /** Python's `sep.join(parts)`. */
  function Join(parts: seq<string>, sep: string): string
  {
    if |parts| == 0 then ""
    else if |parts| == 1 then parts[0]
    else parts[0] + sep + Join(parts[1..], sep)
  }

  /** Where `parts[i]` starts inside `Join(parts, sep)`: the lengths of the earlier parts, each followed by one separator. */
  function Offset(parts: seq<string>, sep: string, i: nat): nat
    requires i <= |parts|
  {
    if i == 0 then 0 else |parts[0]| + |sep| + Offset(parts[1..], sep, i - 1)
  }

  /** A joined string is exactly as long as its parts and the separators between them. */
  lemma {:induction false} JoinLength(parts: seq<string>, sep: string)
    requires |parts| > 0
    ensures |Join(parts, sep)| == Offset(parts, sep, |parts| - 1) + |parts[|parts| - 1]|
  {
    if |parts| > 1 {
      JoinLength(parts[1..], sep);
      assert parts[1..][|parts| - 2] == parts[|parts| - 1];
    }
  }

  /** A join of two or more parts is the first part, a separator, and the join of the rest. */
  lemma JoinCons(parts: seq<string>, sep: string)
    requires |parts| > 1
    ensures Join(parts, sep) == parts[0] + sep + Join(parts[1..], sep)
  {
  }

  /** Past the first part, offsets are those of the remaining parts shifted by the first part and a separator. */
  lemma OffsetCons(parts: seq<string>, sep: string, i: nat)
    requires 0 < i <= |parts|
    ensures Offset(parts, sep, i) == |parts[0]| + |sep| + Offset(parts[1..], sep, i - 1)
  {
  }

  /** `s` holds `x` at offset `off`. */
  predicate HoldsAt(s: string, off: nat, x: string)
  {
    off + |x| <= |s| && s[off..off + |x|] == x
  }

  /** What `b` holds at `lo`, `a + b` holds at `|a| + lo`. */
  lemma HoldsAfter(a: string, b: string, lo: nat, x: string, s: string, off: nat)
    requires HoldsAt(b, lo, x)
    requires s == a + b && off == |a| + lo
    ensures HoldsAt(s, off, x)
  {
    assert (a + b)[|a| + lo..|a| + lo + |x|] == b[lo..lo + |x|];
  }

  /** The first part opens the joined string. */
  lemma JoinFirst(parts: seq<string>, sep: string)
    requires |parts| > 0
    ensures |parts[0]| <= |Join(parts, sep)| && Join(parts, sep)[..|parts[0]|] == parts[0]
  {
    if |parts| > 1 {
      JoinCons(parts, sep);
      assert (parts[0] + (sep + Join(parts[1..], sep)))[..|parts[0]|] == parts[0];
    }
  }

  /** A part found at its offset in the join of `parts[1..]` is found, shifted, in the join of `parts`. */
  lemma {:induction false} JoinPartShift(parts: seq<string>, sep: string, i: nat)
    requires 0 < i < |parts|
    requires HoldsAt(Join(parts[1..], sep), Offset(parts[1..], sep, i - 1), parts[i])
    ensures HoldsAt(Join(parts, sep), Offset(parts, sep, i), parts[i])
  {
    JoinCons(parts, sep);
    OffsetCons(parts, sep, i);
    HoldsAfter(parts[0] + sep, Join(parts[1..], sep), Offset(parts[1..], sep, i - 1), parts[i],
      Join(parts, sep), Offset(parts, sep, i));
  }

  /** Every part appears, unchanged and in its original position, inside the joined string. */
  lemma {:induction false} JoinPart(parts: seq<string>, sep: string, i: nat)
    requires i < |parts|
    ensures Offset(parts, sep, i) + |parts[i]| <= |Join(parts, sep)|
    ensures Join(parts, sep)[Offset(parts, sep, i)..Offset(parts, sep, i) + |parts[i]|] == parts[i]
  {
    if i == 0 {
      JoinFirst(parts, sep);
    } else {
      JoinPart(parts[1..], sep, i - 1);
      assert parts[1..][i - 1] == parts[i];
      JoinPartShift(parts, sep, i);
    }
  }

  /** Each part moves the start of the next one on by its own length and one separator. */
  lemma {:induction false} OffsetStep(parts: seq<string>, sep: string, i: nat)
    requires i < |parts|
    ensures Offset(parts, sep, i + 1) == Offset(parts, sep, i) + |parts[i]| + |sep|
  {
    if i > 0 {
      OffsetStep(parts[1..], sep, i - 1);
      assert parts[1..][i - 1] == parts[i];
    }
  }

  /** The first separator follows the first part. */
  lemma JoinFirstSeparator(parts: seq<string>, sep: string)
    requires |parts| > 1
    ensures |parts[0]| + |sep| <= |Join(parts, sep)|
    ensures Join(parts, sep)[|parts[0]|..|parts[0]| + |sep|] == sep
  {
    JoinCons(parts, sep);
    assert (parts[0] + sep + Join(parts[1..], sep))[|parts[0]|..|parts[0]| + |sep|] == sep;
  }

  /** A separator found after a part in the join of `parts[1..]` is found, shifted, in the join of `parts`. */
  lemma {:induction false} JoinSeparatorShift(parts: seq<string>, sep: string, i: nat)
    requires 0 < i && i + 1 < |parts|
    requires HoldsAt(Join(parts[1..], sep), Offset(parts[1..], sep, i - 1) + |parts[i]|, sep)
    ensures HoldsAt(Join(parts, sep), Offset(parts, sep, i) + |parts[i]|, sep)
  {
    JoinCons(parts, sep);
    OffsetCons(parts, sep, i);
    HoldsAfter(parts[0] + sep, Join(parts[1..], sep), Offset(parts[1..], sep, i - 1) + |parts[i]|, sep,
      Join(parts, sep), Offset(parts, sep, i) + |parts[i]|);
  }

  /** After every part but the last, the joined string holds exactly one separator. */
  lemma {:induction false} JoinSeparatorAfter(parts: seq<string>, sep: string, i: nat)
    requires i + 1 < |parts|
    ensures HoldsAt(Join(parts, sep), Offset(parts, sep, i) + |parts[i]|, sep)
  {
    if i == 0 {
      JoinFirstSeparator(parts, sep);
    } else {
      JoinSeparatorAfter(parts[1..], sep, i - 1);
      assert parts[1..][i - 1] == parts[i];
      JoinSeparatorShift(parts, sep, i);
    }
  }

  /** Between two consecutive parts the joined string holds exactly one separator. */
  lemma JoinSeparator(parts: seq<string>, sep: string, i: nat)
    requires i + 1 < |parts|
    ensures Offset(parts, sep, i + 1) == Offset(parts, sep, i) + |parts[i]| + |sep|
    ensures Offset(parts, sep, i + 1) <= |Join(parts, sep)|
    ensures Join(parts, sep)[Offset(parts, sep, i) + |parts[i]|..Offset(parts, sep, i + 1)] == sep
  {
    OffsetStep(parts, sep, i);
    JoinSeparatorAfter(parts, sep, i);
  }

  /**
   * With a non-empty separator, a join is empty exactly when there is nothing
   * to join or only one empty part.
   */
  lemma {:induction false} JoinEmptyIff(parts: seq<string>, sep: string)
    requires sep != ""
    ensures Join(parts, sep) == "" <==> |parts| == 0 || (|parts| == 1 && parts[0] == "")
  {
    if |parts| > 1 {
      assert |Join(parts, sep)| >= |sep|;
    }
  }
}
