/**
 * String helpers used by the record normaliser: Python's `str(n)` for the
 * positional counter in `f"vec{i+1}"`, and `' '.join(...)` for a table row.
 * The rendering of `n` has an inverse; the join has one only on rows whose
 * values contain no space.
 */
module Text {

  /** The decimal digit character for `d`. */
  function DigitChar(d: nat): (c: char)
    requires d < 10
    ensures '0' <= c <= '9'
  {
    ('0' as int + d) as char
  }

  /** The value of a decimal digit character. */
  function DigitValue(c: char): (d: nat)
    requires '0' <= c <= '9'
    ensures d < 10
  {
    c as int - '0' as int
  }

  predicate IsDigits(s: string) {
    forall i :: 0 <= i < |s| ==> '0' <= s[i] <= '9'
  }

  /** `str(n)` for a non-negative integer: its decimal digits, no leading zero. */
  function NatToString(n: nat): (s: string)
    ensures |s| >= 1 && IsDigits(s)
    ensures s[0] == '0' ==> n == 0
    decreases n
  {
    if n < 10 then [DigitChar(n)] else NatToString(n / 10) + [DigitChar(n % 10)]
  }

  /** `int(s)` for a string of decimal digits (the empty string reads as 0). */
  function ParseDecimal(s: string): (n: nat)
    requires IsDigits(s)
    decreases |s|
  {
    if |s| == 0 then 0 else ParseDecimal(s[..|s| - 1]) * 10 + DigitValue(s[|s| - 1])
  }

  /** Reading back the rendering of `n` gives `n`. */
  lemma {:induction false} ParseNatToString(n: nat)
    ensures ParseDecimal(NatToString(n)) == n
    decreases n
  {
    var s := NatToString(n);
    if n < 10 {
      assert s[..|s| - 1] == [];
    } else {
      ParseNatToString(n / 10);
      assert s[..|s| - 1] == NatToString(n / 10);
    }
  }

  /** Distinct numbers have distinct renderings. */
  lemma NatToStringInjective(m: nat, n: nat)
    ensures NatToString(m) == NatToString(n) ==> m == n
  {
    ParseNatToString(m);
    ParseNatToString(n);
  }

  /** Python's `' '.join(parts)`: the parts in order, one space between neighbours. */
  function JoinWithSpace(parts: seq<string>): (s: string)
    decreases |parts|
  {
    if |parts| == 0 then ""
    else if |parts| == 1 then parts[0]
    else parts[0] + " " + JoinWithSpace(parts[1..])
  }

  /** Python's `s.split(' ')`: the pieces between single spaces, always at least one. */
  function SplitOnSpace(s: string): (parts: seq<string>)
    ensures |parts| >= 1
    decreases |s|
  {
    if |s| == 0 then [""]
    else if s[0] == ' ' then [""] + SplitOnSpace(s[1..])
    else
      var rest := SplitOnSpace(s[1..]);
      [[s[0]] + rest[0]] + rest[1..]
  }

  /** The total length of the parts plus one space between each pair of neighbours. */
  function SpacedLength(parts: seq<string>): nat
    decreases |parts|
  {
    if |parts| == 0 then 0
    else if |parts| == 1 then |parts[0]|
    else |parts[0]| + 1 + SpacedLength(parts[1..])
  }

  /** A joined row is exactly as long as its values and separators. */
  lemma {:induction false} JoinWithSpaceLength(parts: seq<string>)
    ensures |JoinWithSpace(parts)| == SpacedLength(parts)
    decreases |parts|
  {
    if |parts| > 1 {
      JoinWithSpaceLength(parts[1..]);
    }
  }

  /** Splitting a space-free prefix followed by `t` extends the first piece of `t`. */
  lemma {:induction false} SplitSpaceFreePrefix(p: string, t: string)
    requires ' ' !in p
    ensures SplitOnSpace(p + t) == [p + SplitOnSpace(t)[0]] + SplitOnSpace(t)[1..]
    decreases |p|
  {
    if |p| > 0 {
      assert (p + t)[0] == p[0];
      assert (p + t)[1..] == p[1..] + t;
      SplitSpaceFreePrefix(p[1..], t);
      assert [p[0]] + (p[1..] + SplitOnSpace(t)[0]) == p + SplitOnSpace(t)[0];
    } else {
      var parts := SplitOnSpace(t);
      assert p + t == t && p + parts[0] == parts[0];
      assert [parts[0]] + parts[1..] == parts;
    }
  }

  /**
   * When no value contains a space, the joined text determines the row:
   * splitting it on spaces gives the values back in order.
   */
  lemma {:induction false} SplitJoinWithSpace(parts: seq<string>)
    requires |parts| >= 1
    requires forall i :: 0 <= i < |parts| ==> ' ' !in parts[i]
    ensures SplitOnSpace(JoinWithSpace(parts)) == parts
    decreases |parts|
  {
    if |parts| == 1 {
      SplitSpaceFreePrefix(parts[0], "");
      assert parts[0] + "" == parts[0];
    } else {
      var rest := JoinWithSpace(parts[1..]);
      SplitJoinWithSpace(parts[1..]);
      assert parts[0] + " " + rest == parts[0] + (" " + rest);
      SplitSpaceFreePrefix(parts[0], " " + rest);
      assert (" " + rest)[1..] == rest;
      assert parts[0] + "" == parts[0];
      assert parts == [parts[0]] + parts[1..];
    }
  }
}
