/**
 * The string operations the position string relies on: decimal digits, the rendering of an
 * `int` by `StringBuilder.Append(int)`, `IndexOf`/`LastIndexOf` of a character, `Reverse`, and
 * splitting on a separator (the inverse of joining, used to read the placement field back).
 */
module Texts {
  predicate IsDigit(c: char) {
    '0' <= c <= '9'
  }

  function DigitValue(c: char): (d: int)
    ensures IsDigit(c) ==> 0 <= d <= 9
  {
    c as int - '0' as int
  }

  /** The decimal digit for 0..9. */
  function Digit(n: int): (c: char)
    requires 0 <= n <= 9
    ensures IsDigit(c) && DigitValue(c) == n
  {
    ('0' as int + n) as char
  }

  /** The decimal rendering of a non-negative number: no leading zeros, at least one digit. */
  function NatToString(n: nat): (r: string)
    ensures |r| >= 1 && forall i :: 0 <= i < |r| ==> IsDigit(r[i])
    ensures n < 10 ==> r == [Digit(n)]
    decreases n
  {
    if n < 10 then [Digit(n)] else NatToString(n / 10) + [Digit(n % 10)]
  }

  /** `StringBuilder.Append(int)` and `int + ""`: a minus sign, then the digits of the magnitude. */
  function IntToString(n: int): (r: string)
    ensures |r| >= 1
  {
    if n < 0 then "-" + NatToString(-n) else NatToString(n)
  }

  /** The rendering of an integer is a sign and digits: it holds no space. */
  lemma IntToStringNoSpace(n: int)
    ensures ' ' !in IntToString(n)
  {
    var r := IntToString(n);
    if n < 0 {
      assert r == "-" + NatToString(-n);
      assert forall i :: 1 <= i < |r| ==> r[i] == NatToString(-n)[i - 1];
    }
    assert forall i :: 0 <= i < |r| ==> r[i] != ' ';
  }

  /** The value of a string of decimal digits, most significant first. */
  function ParseNat(s: string): nat
    requires forall i :: 0 <= i < |s| ==> IsDigit(s[i])
  {
    if s == [] then 0 else ParseNat(s[..|s| - 1]) * 10 + DigitValue(s[|s| - 1])
  }

  /** Reading back the decimal rendering gives the number. */
  lemma {:induction false} NatToStringRoundTrip(n: nat)
    ensures ParseNat(NatToString(n)) == n
    decreases n
  {
    if n >= 10 {
      NatToStringRoundTrip(n / 10);
      var r := NatToString(n);
      assert r[..|r| - 1] == NatToString(n / 10);
    }
  }

  /** Reading back `IntToString` (after an optional sign) gives the number. */
  lemma IntToStringRoundTrip(n: int)
    ensures var r := IntToString(n);
      if n < 0 then r[0] == '-' && r[1..] == NatToString(-n) && ParseNat(r[1..]) == -n
      else (forall i :: 0 <= i < |r| ==> IsDigit(r[i])) && ParseNat(r) == n
  {
    if n < 0 {
      NatToStringRoundTrip(-n);
      assert IntToString(n)[1..] == NatToString(-n);
    } else {
      NatToStringRoundTrip(n);
    }
  }

  /** `s.IndexOf(c)`: the first index holding `c`, or -1. */
  function IndexOf(s: string, c: char): (i: int)
    ensures -1 <= i < |s|
    ensures i == -1 <==> c !in s
    ensures i >= 0 ==> s[i] == c && forall k :: 0 <= k < i ==> s[k] != c
  {
    if s == [] then -1
    else if s[0] == c then 0
    else
      var j := IndexOf(s[1..], c);
      if j == -1 then -1 else j + 1
  }

  /** `s.LastIndexOf(c)`: the last index holding `c`, or -1. */
  function LastIndexOf(s: string, c: char): (i: int)
    ensures -1 <= i < |s|
    ensures i == -1 <==> c !in s
    ensures i >= 0 ==> s[i] == c && forall k :: i < k < |s| ==> s[k] != c
  {
    if s == [] then -1
    else if s[|s| - 1] == c then |s| - 1
    else LastIndexOf(s[..|s| - 1], c)
  }

  /** The first occurrence is the index holding `c` with no `c` before it. */
  lemma IndexOfAt(s: string, c: char, i: int)
    requires 0 <= i < |s| && s[i] == c && forall k :: 0 <= k < i ==> s[k] != c
    ensures IndexOf(s, c) == i
  {
    assert c in s by { assert s[i] == c; }
  }

  /** The last occurrence is the index holding `c` with no `c` after it. */
  lemma LastIndexOfAt(s: string, c: char, i: int)
    requires 0 <= i < |s| && s[i] == c && forall k :: i < k < |s| ==> s[k] != c
    ensures LastIndexOf(s, c) == i
  {
    assert c in s by { assert s[i] == c; }
  }

  /** `new string(s.Reverse().ToArray())`. */
  function Reverse(s: string): (r: string)
    ensures |r| == |s| && forall i :: 0 <= i < |s| ==> r[i] == s[|s| - 1 - i]
  {
    if s == [] then [] else Reverse(s[1..]) + [s[0]]
  }

  /** Reversing twice gives the string back. */
  lemma ReverseReverse(s: string)
    ensures Reverse(Reverse(s)) == s
  {
    var r := Reverse(Reverse(s));
    assert forall i :: 0 <= i < |s| ==> r[i] == Reverse(s)[|s| - 1 - i] == s[i];
  }

  /** Reversal keeps the characters. */
  lemma ReverseMembers(s: string, c: char)
    ensures c in Reverse(s) <==> c in s
  {
    var r := Reverse(s);
    if c in s {
      var i :| 0 <= i < |s| && s[i] == c;
      assert r[|s| - 1 - i] == c;
    }
    if c in r {
      var i :| 0 <= i < |r| && r[i] == c;
      assert s[|s| - 1 - i] == c;
    }
  }

  /** Reversing a concatenation reverses the parts and their order. */
  lemma ReverseAppend(a: string, b: string)
    ensures Reverse(a + b) == Reverse(b) + Reverse(a)
  {
    var l := Reverse(a + b);
    var r := Reverse(b) + Reverse(a);
    assert |l| == |r|;
    forall i | 0 <= i < |l| ensures l[i] == r[i] {
      if i < |b| {
        assert r[i] == b[|b| - 1 - i];
      } else {
        assert r[i] == Reverse(a)[i - |b|] == a[|a| - 1 - (i - |b|)];
      }
    }
  }

  /** Reversing two parts joined by a character swaps and reverses them. */
  lemma ReverseAround(x: string, c: char, y: string)
    ensures Reverse(x + [c] + y) == Reverse(y) + [c] + Reverse(x)
  {
    var l := Reverse(x + [c] + y);
    var r := Reverse(y) + [c] + Reverse(x);
    forall i | 0 <= i < |l| ensures l[i] == r[i] {
      if i < |y| {
        assert r[i] == y[|y| - 1 - i];
      } else if i > |y| {
        assert r[i] == Reverse(x)[i - |y| - 1] == x[|x| - 1 - (i - |y| - 1)];
      }
    }
  }

  /** `string.Join(sep, parts)`: the parts with the separator between each two. */
  function Join(parts: seq<string>, sep: char): string {
    if |parts| == 0 then []
    else if |parts| == 1 then parts[0]
    else Join(parts[..|parts| - 1], sep) + [sep] + parts[|parts| - 1]
  }

  /** Joining from the front: the first part, the separator, then the rest joined. */
  lemma {:induction false} JoinFront(parts: seq<string>, sep: char)
    requires |parts| >= 2
    ensures Join(parts, sep) == parts[0] + [sep] + Join(parts[1..], sep)
  {
    if |parts| > 2 {
      var init := parts[..|parts| - 1];
      JoinFront(init, sep);
      assert init[1..] == parts[1..][..|parts| - 2];
    } else {
      assert parts[1..] == [parts[1]];
    }
  }

  /** The parts in reverse order, each reversed. */
  function ReverseParts(parts: seq<string>): (r: seq<string>)
    ensures |r| == |parts| && forall i :: 0 <= i < |parts| ==> r[i] == Reverse(parts[|parts| - 1 - i])
  {
    seq(|parts|, i requires 0 <= i < |parts| => Reverse(parts[|parts| - 1 - i]))
  }

  /** Reversing a joined text joins the reversed parts in reverse order. */
  lemma {:induction false} ReverseJoin(parts: seq<string>, sep: char)
    ensures Reverse(Join(parts, sep)) == Join(ReverseParts(parts), sep)
    decreases |parts|
  {
    if |parts| == 1 {
      assert ReverseParts(parts) == [Reverse(parts[0])];
    } else if |parts| >= 2 {
      var init := parts[..|parts| - 1];
      var last := parts[|parts| - 1];
      ReverseJoin(init, sep);
      ReverseAround(Join(init, sep), sep, last);
      var r := ReverseParts(parts);
      assert r[1..] == ReverseParts(init);
      JoinFront(r, sep);
    }
  }

  /** `s.Split(sep)`: the pieces between separators, in order; at least one piece. */
  function Segments(s: string, sep: char): (r: seq<string>)
    ensures |r| >= 1
  {
    if s == [] then [[]]
    else
      var rest := Segments(s[1..], sep);
      if s[0] == sep then [[]] + rest else [[s[0]] + rest[0]] + rest[1..]
  }

  /** A string without the separator is a single piece. */
  lemma {:induction false} SegmentsOfPlain(s: string, sep: char)
    requires sep !in s
    ensures Segments(s, sep) == [s]
  {
    if s != [] {
      assert sep !in s[1..];
      SegmentsOfPlain(s[1..], sep);
      assert [s[0]] + s[1..] == s;
    }
  }

  /** Splitting `x + sep + y`, where `y` has no separator, splits `x` and adds `y` as the last piece. */
  lemma {:induction false} SegmentsAppend(x: string, sep: char, y: string)
    requires sep !in y
    ensures Segments(x + [sep] + y, sep) == Segments(x, sep) + [y]
  {
    if x == [] {
      assert x + [sep] + y == [sep] + y;
      assert ([sep] + y)[1..] == y;
      SegmentsOfPlain(y, sep);
    } else {
      var s := x + [sep] + y;
      assert s[0] == x[0] && s[1..] == x[1..] + [sep] + y;
      SegmentsAppend(x[1..], sep, y);
    }
  }
}
