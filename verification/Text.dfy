// Text as the source compares it: by code point, the shorter first among equals so far.
module Text {

  predicate Less(a: string, b: string) {
    if b == [] then false
    else if a == [] then true
    else a[0] < b[0] || (a[0] == b[0] && Less(a[1..], b[1..]))
  }

  // The shorter of two that agree so far, or the lesser where they first differ.
  lemma {:induction false} LessExactlyWhen(a: string, b: string)
    ensures Less(a, b) <==>
              exists i :: 0 <= i <= |a| && i < |b| && FirstDiffer(a, b, i) && (i < |a| ==> a[i] < b[i])
    decreases |a|
  {
    if a != [] && b != [] {
      LessExactlyWhen(a[1..], b[1..]);
      if i :| 0 <= i <= |a| && i < |b| && FirstDiffer(a, b, i) && (i < |a| ==> a[i] < b[i]) {
        if i > 0 {
          assert a[0] == b[0] && FirstDiffer(a[1..], b[1..], i - 1);
        }
      }
      if i :| 0 <= i <= |a[1..]| && i < |b[1..]| && FirstDiffer(a[1..], b[1..], i)
              && (i < |a[1..]| ==> a[1..][i] < b[1..][i]) && a[0] == b[0] {
        assert FirstDiffer(a, b, i + 1);
      }
      assert FirstDiffer(a, b, 0);
    } else if b != [] {
      assert FirstDiffer(a, b, 0);
    }
  }

  ghost predicate FirstDiffer(a: string, b: string, i: nat)
    requires i <= |a| && i <= |b|
  {
    forall j :: 0 <= j < i ==> a[j] == b[j]
  }

  lemma {:induction false} LessTotal(a: string, b: string)
    ensures Less(a, b) || a == b || Less(b, a)
    ensures !(Less(a, b) && Less(b, a))
    decreases |a|
  {
    if a != [] {
      if b != [] {
        LessTotal(a[1..], b[1..]);
        assert a == [a[0]] + a[1..] && b == [b[0]] + b[1..];
      }
    }
  }

  lemma {:induction false} LessTransitive(a: string, b: string, c: string)
    requires Less(a, b) && Less(b, c)
    ensures Less(a, c)
    decreases |a|
  {
    if a != [] && a[0] == b[0] == c[0] {
      LessTransitive(a[1..], b[1..], c[1..]);
    }
  }

  // Texts that begin with equally long pieces compare by those pieces first.
  lemma {:induction false} LessOfConcat(p: string, a: string, q: string, b: string)
    requires |p| == |q|
    ensures Less(p + a, q + b) <==> Less(p, q) || (p == q && Less(a, b))
    decreases |p|
  {
    if p == [] {
      assert p + a == a && q + b == b;
    } else {
      assert (p + a)[1..] == p[1..] + a && (q + b)[1..] == q[1..] + b;
      assert p == [p[0]] + p[1..] && q == [q[0]] + q[1..];
      LessOfConcat(p[1..], a, q[1..], b);
    }
  }

  // --- Case ---

  // `to_ascii_lowercase`.
  function LowerChar(c: char): char {
    if 'A' <= c <= 'Z' then (c as int + 32) as char else c
  }

  function Lower(s: string): (r: string)
    ensures |r| == |s|
    ensures forall i :: 0 <= i < |s| ==> r[i] == LowerChar(s[i])
  {
    seq(|s|, i requires 0 <= i < |s| => LowerChar(s[i]))
  }

  // --- Decimal fields of a fixed width ---

  function Ten(width: nat): (r: nat)
    ensures r >= 1
  {
    if width == 0 then 1 else 10 * Ten(width - 1)
  }

  function Digit(n: nat): char
    requires n < 10
  {
    ['0', '1', '2', '3', '4', '5', '6', '7', '8', '9'][n]
  }

  // `{n:0width}` of a number with no more than `width` digits.
  function Fixed(n: nat, width: nat): (r: string)
    ensures |r| == width
  {
    if width == 0 then "" else Fixed(n / 10, width - 1) + [Digit(n % 10)]
  }

  lemma DigitsOrder(m: nat, n: nat)
    requires m < 10 && n < 10
    ensures m < n <==> Digit(m) < Digit(n)
    ensures m == n <==> Digit(m) == Digit(n)
  {
  }

  lemma {:induction false} FixedOrders(m: nat, n: nat, width: nat)
    requires m < Ten(width) && n < Ten(width)
    ensures Less(Fixed(m, width), Fixed(n, width)) <==> m < n
    ensures Fixed(m, width) == Fixed(n, width) <==> m == n
    decreases width
  {
    if width > 0 {
      FixedOrders(m / 10, n / 10, width - 1);
      DigitsOrder(m % 10, n % 10);
      var a, b := Fixed(m / 10, width - 1), Fixed(n / 10, width - 1);
      LessOfConcat(a, [Digit(m % 10)], b, [Digit(n % 10)]);
      assert Fixed(m, width)[..width - 1] == a && Fixed(n, width)[..width - 1] == b;
      assert Fixed(m, width)[width - 1] == Digit(m % 10) && Fixed(n, width)[width - 1] == Digit(n % 10);
    }
  }
}
