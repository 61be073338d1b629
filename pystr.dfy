/** The pieces of Python 2's string library that the decoding engine relies
    on: str.split with a one-character separator, str.join, str.startswith,
    str(i) for an integer and int(s) for a string. */
module PyStr {
  import opened Base

  /** Python's s.split(c): the pieces between occurrences of c, empty pieces
      included, so that "" gives [""] and "a,,b" gives ["a", "", "b"]. */
  function Split(s: string, c: char): (r: seq<string>)
    ensures |r| >= 1
    ensures forall i :: 0 <= i < |r| ==> c !in r[i]
    decreases |s|
  {
    if |s| == 0 then [""]
    else
      var rest := Split(s[1..], c);
      if s[0] == c then [""] + rest
      else [[s[0]] + rest[0]] + rest[1..]
  }

  /** Python's c.join(xs). */
  function Join(xs: seq<string>, c: char): string
    decreases |xs|
  {
    if |xs| == 0 then ""
    else if |xs| == 1 then xs[0]
    else xs[0] + [c] + Join(xs[1..], c)
  }

  lemma {:induction false} JoinSplit(s: string, c: char)
    ensures Join(Split(s, c), c) == s
    decreases |s|
  {
    if |s| > 0 {
      JoinSplit(s[1..], c);
      var rest := Split(s[1..], c);
      if s[0] == c {
        assert Split(s, c) == [""] + rest;
        assert ([""] + rest)[1..] == rest;
      } else {
        var r := Split(s, c);
        assert r == [[s[0]] + rest[0]] + rest[1..];
        if |rest| == 1 {
          assert r == [[s[0]] + rest[0]];
        } else {
          assert r[1..] == rest[1..];
          assert Join(rest, c) == rest[0] + [c] + Join(rest[1..], c);
        }
      }
    }
  }

  lemma {:induction false} SplitJoin(xs: seq<string>, c: char)
    requires |xs| >= 1
    requires forall i :: 0 <= i < |xs| ==> c !in xs[i]
    ensures Split(Join(xs, c), c) == xs
    decreases |xs|, |xs[0]|
  {
    if |xs[0]| == 0 {
      if |xs| > 1 {
        SplitJoin(xs[1..], c);
        SplitJoinEmptyHead(xs, c);
      }
    } else {
      var ys := [xs[0][1..]] + xs[1..];
      NoSeparatorInTail(xs, c);
      SplitJoin(ys, c);
      SplitJoinHead(xs, c);
    }
  }

  /** Dropping the first character of the first piece keeps every piece
      free of the separator. */
  lemma NoSeparatorInTail(xs: seq<string>, c: char)
    requires |xs| >= 1 && |xs[0]| > 0
    requires forall i :: 0 <= i < |xs| ==> c !in xs[i]
    ensures var ys := [xs[0][1..]] + xs[1..];
      |ys| == |xs| && forall i :: 0 <= i < |ys| ==> c !in ys[i]
  {
    var x0 := xs[0];
    var ys := [x0[1..]] + xs[1..];
    assert c !in x0[1..] by {
      forall k | 0 <= k < |x0[1..]| ensures x0[1..][k] != c {
        assert x0[1..][k] == x0[k + 1];
      }
    }
    forall i | 0 <= i < |ys| ensures c !in ys[i] {
      if i > 0 { assert ys[i] == xs[i]; }
    }
  }

  /** The step of SplitJoin when the first piece is empty. */
  lemma SplitJoinEmptyHead(xs: seq<string>, c: char)
    requires |xs| > 1 && |xs[0]| == 0
    requires Split(Join(xs[1..], c), c) == xs[1..]
    ensures Split(Join(xs, c), c) == xs
  {
    assert Join(xs, c) == [c] + Join(xs[1..], c);
    assert ([c] + Join(xs[1..], c))[1..] == Join(xs[1..], c);
    assert xs == [""] + xs[1..];
  }

  /** The step of SplitJoin that moves the first character of the first
      piece out. */
  lemma SplitJoinHead(xs: seq<string>, c: char)
    requires |xs| >= 1 && |xs[0]| > 0 && xs[0][0] != c
    requires Split(Join([xs[0][1..]] + xs[1..], c), c) == [xs[0][1..]] + xs[1..]
    ensures Split(Join(xs, c), c) == xs
  {
    var x0 := xs[0];
    var ys := [x0[1..]] + xs[1..];
    assert ys[1..] == xs[1..];
    assert Join(xs, c) == [x0[0]] + Join(ys, c);
    var s := Join(xs, c);
    assert s[0] == x0[0] && s[1..] == Join(ys, c);
    assert [x0[0]] + x0[1..] == x0;
  }

  lemma JoinTwo(a: string, b: string, c: char)
    ensures Join([a, b], c) == a + [c] + b
  {
    assert [a, b][1..] == [b];
  }

  lemma JoinThree(a: string, b: string, d: string, c: char)
    ensures Join([a, b, d], c) == a + [c] + b + [c] + d
  {
    assert [a, b, d][1..] == [b, d];
    JoinTwo(b, d, c);
  }

  /** Python's s.startswith(p). */
  predicate StartsWith(s: string, p: string)
  {
    |p| <= |s| && s[..|p|] == p
  }

  predicate IsDigit(c: char)
  {
    '0' <= c <= '9'
  }

  predicate AllDigits(s: string)
  {
    forall i :: 0 <= i < |s| ==> IsDigit(s[i])
  }

  /** The characters C's isspace() accepts in the "C" locale. */
  predicate IsSpace(c: char)
  {
    c == ' ' || c == '\t' || c == '\n' || c == '\r' || c as int == 11 || c as int == 12
  }

  function DigitChar(d: nat): (c: char)
    requires d < 10
    ensures IsDigit(c)
  {
    (('0' as int) + d) as char
  }

  function DigitValue(c: char): (d: nat)
    requires IsDigit(c)
    ensures d < 10
  {
    (c as int) - ('0' as int)
  }

  /** str(n) for a natural number: its canonical decimal digits. */
  function NatToStr(n: nat): (r: string)
    ensures |r| >= 1 && AllDigits(r)
    ensures n >= 10 ==> r[0] != '0'
    decreases n
  {
    if n < 10 then [DigitChar(n)] else NatToStr(n / 10) + [DigitChar(n % 10)]
  }

  /** str(i) for any integer. */
  function IntToStr(i: int): string
  {
    if i < 0 then "-" + NatToStr(-i) else NatToStr(i)
  }

  /** The value of a run of decimal digits, leading zeros allowed. */
  function DigitsValue(s: string): nat
    requires AllDigits(s)
    decreases |s|
  {
    if |s| == 0 then 0 else DigitsValue(s[..|s| - 1]) * 10 + DigitValue(s[|s| - 1])
  }

  lemma {:induction false} DigitsValueOfNatToStr(n: nat)
    ensures DigitsValue(NatToStr(n)) == n
    decreases n
  {
    var r := NatToStr(n);
    if n < 10 {
      assert r[..0] == [];
    } else {
      DigitsValueOfNatToStr(n / 10);
      assert r[..|r| - 1] == NatToStr(n / 10);
    }
  }

  /** The first index at or after i that is not whitespace. */
  function SkipSpace(s: string, i: nat): (j: nat)
    requires i <= |s|
    ensures i <= j <= |s|
    ensures forall k :: i <= k < j ==> IsSpace(s[k])
    ensures j < |s| ==> !IsSpace(s[j])
    decreases |s| - i
  {
    if i == |s| || !IsSpace(s[i]) then i else SkipSpace(s, i + 1)
  }

  /** The first index at or after i that is not a decimal digit. */
  function SkipDigits(s: string, i: nat): (j: nat)
    requires i <= |s|
    ensures i <= j <= |s|
    ensures AllDigits(s[i..j])
    ensures j < |s| ==> !IsDigit(s[j])
    decreases |s| - i
  {
    if i == |s| || !IsDigit(s[i]) then i else SkipDigits(s, i + 1)
  }

  /** Python 2's int(s) on a byte string: optional surrounding whitespace,
      an optional sign (whitespace may follow it), at least one decimal
      digit.  None stands for the ValueError raised otherwise. */
  function ParseInt(s: string): Option<int>
  {
    var a := SkipSpace(s, 0);
    var signed := a < |s| && (s[a] == '+' || s[a] == '-');
    var negative := signed && s[a] == '-';
    var b := SkipSpace(s, if signed then a + 1 else a);
    var e := SkipDigits(s, b);
    if e == b || SkipSpace(s, e) != |s| then None
    else
      var v: int := DigitsValue(s[b..e]);
      Some(if negative then -v else v)
  }

  /** int(str(n)) == n: the decimal rendering parses back to the number. */
  lemma ParseIntOfNatToStr(n: nat)
    ensures ParseInt(NatToStr(n)) == Some(n)
  {
    var s := NatToStr(n);
    assert !IsSpace(s[0]) && s[0] != '+' && s[0] != '-';
    assert SkipSpace(s, 0) == 0;
    assert SkipDigits(s, 0) == |s|;
    assert s[0..|s|] == s;
    DigitsValueOfNatToStr(n);
  }

  /** Distinct numbers have distinct decimal renderings. */
  lemma {:induction false} NatToStrInjective(m: nat, n: nat)
    requires NatToStr(m) == NatToStr(n)
    ensures m == n
  {
    DigitsValueOfNatToStr(m);
    DigitsValueOfNatToStr(n);
  }

  /** Joining two non-empty lists: the joins of each, with c between. */
  lemma {:induction false} JoinConcat(a: seq<string>, b: seq<string>, c: char)
    requires |a| > 0 && |b| > 0
    ensures Join(a + b, c) == Join(a, c) + [c] + Join(b, c)
    decreases |a|
  {
    assert (a + b)[0] == a[0];
    if |a| == 1 {
      assert (a + b)[1..] == b;
    } else {
      assert (a + b)[1..] == a[1..] + b;
      JoinConcat(a[1..], b, c);
    }
  }

  /** Extending the last item extends the join. */
  lemma {:induction false} JoinExtendLast(xs: seq<string>, t: string, c: char)
    requires |xs| > 0
    ensures Join(xs[..|xs| - 1] + [xs[|xs| - 1] + t], c) == Join(xs, c) + t
    decreases |xs|
  {
    var ys := xs[..|xs| - 1] + [xs[|xs| - 1] + t];
    if |xs| > 1 {
      var zs := xs[1..];
      assert ys[0] == xs[0];
      assert ys[1..] == zs[..|zs| - 1] + [zs[|zs| - 1] + t];
      JoinExtendLast(zs, t, c);
    } else {
      assert ys == [xs[0] + t];
    }
  }
}
