// `decimal`: a serial's hex digits to its decimal numeral, for hex of any length.
module Decimal {
  import opened Wrappers

  // `to_digit(16)`.
  function Nibble(c: char): (r: Option<nat>)
    ensures r.Some? ==> r.value < 16
  {
    if '0' <= c <= '9' then Some((c - '0') as nat)
    else if 'a' <= c <= 'f' then Some((c - 'a') as nat + 10)
    else if 'A' <= c <= 'F' then Some((c - 'A') as nat + 10)
    else None
  }

  // The number the hex digits of `hex` write, any other character passed over.
  function HexValue(hex: string): nat {
    if hex == [] then 0
    else
      var before := HexValue(hex[..|hex| - 1]);
      var last := Nibble(hex[|hex| - 1]);
      if last.Some? then before * 16 + last.value else before
  }

  // A hex digit, in either case, stands for its place in the list; nothing else is one.
  lemma NibbleIsHexDigit(c: char, v: nat)
    ensures Nibble(c) == Some(v) <==> v < 16 && (c == "0123456789abcdef"[v] || c == "0123456789ABCDEF"[v])
  {
  }

  predicate Digits(ds: seq<nat>) {
    forall i :: 0 <= i < |ds| ==> ds[i] < 10
  }

  // Least significant digit first.
  function Value(ds: seq<nat>): nat {
    if ds == [] then 0 else ds[0] + 10 * Value(ds[1..])
  }

  // Nothing to trim: a lone digit, or a nonzero most significant one.
  predicate Trimmed(ds: seq<nat>) {
    ds != [] && (|ds| == 1 || ds[|ds| - 1] != 0)
  }

  function Spread(carry: nat): seq<nat> {
    if carry == 0 then [] else [carry % 10] + Spread(carry / 10)
  }

  // What one nibble does to the digits: sixteen times them, plus it.
  function Absorbed(ds: seq<nat>, carry: nat): seq<nat> {
    if ds == [] then Spread(carry)
    else [(ds[0] * 16 + carry) % 10] + Absorbed(ds[1..], (ds[0] * 16 + carry) / 10)
  }

  lemma {:induction false} SpreadIs(carry: nat)
    ensures Digits(Spread(carry)) && Value(Spread(carry)) == carry
    ensures carry != 0 ==> Spread(carry) != [] && Spread(carry)[|Spread(carry)| - 1] != 0
    decreases carry
  {
    if carry != 0 {
      SpreadIs(carry / 10);
      assert Spread(carry)[1..] == Spread(carry / 10);
    }
  }

  lemma {:induction false} AbsorbedIs(ds: seq<nat>, carry: nat)
    requires Digits(ds)
    ensures Digits(Absorbed(ds, carry)) && Value(Absorbed(ds, carry)) == 16 * Value(ds) + carry
    decreases |ds|
  {
    if ds == [] {
      SpreadIs(carry);
    } else {
      var v := ds[0] * 16 + carry;
      AbsorbedIs(ds[1..], v / 10);
      assert Absorbed(ds, carry)[1..] == Absorbed(ds[1..], v / 10);
      assert v == 10 * (v / 10) + v % 10;
    }
  }

  // A nonzero top digit stays nonzero.
  lemma {:induction false} AbsorbedTop(ds: seq<nat>, carry: nat)
    requires ds != [] && ds[|ds| - 1] != 0
    ensures var r := Absorbed(ds, carry); |r| > 1 && r[|r| - 1] != 0
    decreases |ds|
  {
    var next := (ds[0] * 16 + carry) / 10;
    var rest := Absorbed(ds[1..], next);
    if |ds| == 1 {
      assert ds[1..] == [] && next >= 1;
      SpreadIs(next);
    } else {
      assert ds[1..][|ds| - 2] == ds[|ds| - 1];
      AbsorbedTop(ds[1..], next);
    }
    TopOfLonger((ds[0] * 16 + carry) % 10, rest);
  }

  lemma TopOfLonger(d: nat, rest: seq<nat>)
    requires rest != []
    ensures ([d] + rest)[|[d] + rest| - 1] == rest[|rest| - 1]
  {
  }

  lemma AbsorbedTrimmed(ds: seq<nat>, nibble: nat)
    requires Digits(ds) && Trimmed(ds) && nibble < 16
    ensures Trimmed(Absorbed(ds, nibble))
  {
    if ds[|ds| - 1] != 0 {
      AbsorbedTop(ds, nibble);
    } else {
      assert ds == [0] && ds[1..] == [];
      SpreadIs(nibble / 10);
    }
  }

  // --- Numerals ---

  function Written(ds: seq<nat>): (r: string)
    requires Digits(ds)
    ensures |r| == |ds|
  {
    if ds == [] then "" else Written(ds[1..]) + [Char(ds[0])]
  }

  function Char(d: nat): char
    requires d < 10
  {
    '0' + d as char
  }

  // The decimal numeral of `n`: "0", or digits without a leading zero.
  function Numeral(n: nat): string {
    SpreadIs(n);
    if n == 0 then "0" else Written(Spread(n))
  }

  predicate AllDecimal(text: string) {
    forall i :: 0 <= i < |text| ==> '0' <= text[i] <= '9'
  }

  predicate IsNumeral(text: string) {
    && text != []
    && AllDecimal(text)
    && (|text| > 1 ==> text[0] != '0')
  }

  // What a decimal numeral says, most significant digit first.
  function Read(text: string): int
    requires AllDecimal(text)
  {
    if text == [] then 0 else Read(text[..|text| - 1]) * 10 + (text[|text| - 1] - '0') as int
  }

  lemma {:induction false} WrittenReads(ds: seq<nat>)
    requires Digits(ds)
    ensures AllDecimal(Written(ds))
    ensures Read(Written(ds)) == Value(ds)
    ensures ds != [] ==> Written(ds)[0] == Char(ds[|ds| - 1])
    decreases |ds|
  {
    if ds != [] {
      var front := Written(ds[1..]);
      WrittenReads(ds[1..]);
      ReadOneMore(front, ds[0]);
      if |ds| > 1 {
        assert Written(ds)[0] == front[0] && ds[1..][|ds| - 2] == ds[|ds| - 1];
      }
    }
  }

  lemma ReadOneMore(front: string, d: nat)
    requires AllDecimal(front) && d < 10
    ensures AllDecimal(front + [Char(d)]) && Read(front + [Char(d)]) == Read(front) * 10 + d
  {
    assert (front + [Char(d)])[..|front|] == front;
  }

  // A numeral reads back as its number, so different numbers have different numerals.
  lemma NumeralReads(n: nat)
    ensures IsNumeral(Numeral(n)) && Read(Numeral(n)) == n
  {
    SpreadIs(n);
    WrittenReads(Spread(n));
    assert Read("0") == 0 by {
      assert "0"[..0] == "";
    }
  }

  lemma NumeralInjective(m: nat, n: nat)
    ensures Numeral(m) == Numeral(n) <==> m == n
  {
    NumeralReads(m);
    NumeralReads(n);
  }

  // Trimmed digits are determined by their value.
  lemma {:induction false} TrimmedIsSpread(ds: seq<nat>)
    requires Digits(ds) && Trimmed(ds)
    ensures if Value(ds) == 0 then ds == [0] else ds == Spread(Value(ds))
    decreases |ds|
  {
    if |ds| == 1 {
      assert ds == [ds[0]] && ds[1..] == [];
      assert Value(ds) == ds[0];
      assert ds[0] != 0 ==> Spread(ds[0]) == [ds[0]] + Spread(0);
    } else {
      assert ds == [ds[0]] + ds[1..];
      TrimmedIsSpread(ds[1..]);
      assert Value(ds) % 10 == ds[0] && Value(ds) / 10 == Value(ds[1..]);
      assert ds[1..] != [0];
    }
  }

  // --- The loops ---

  // One pass of the outer loop. Every value held on the way fits a byte: the carry
  // never exceeds 15, so nothing overflows a `u32`.
  method Absorb(before: seq<nat>, nibble: nat) returns (digits: seq<nat>)
    requires Digits(before) && nibble < 16
    ensures digits == Absorbed(before, nibble)
  {
    digits := before;
    var carry := nibble;
    for j := 0 to |digits|
      invariant |digits| == |before| && carry <= 15
      invariant digits[j..] == before[j..]
      invariant digits[..j] + Absorbed(before[j..], carry) == Absorbed(before, nibble)
    {
      var value := digits[j] * 16 + carry;
      assert digits[j] == before[j] && value <= 159;
      assert before[j..][1..] == before[j + 1..];
      ghost var rest := Absorbed(before[j + 1..], value / 10);
      assert digits[..j] + ([value % 10] + rest) == (digits[..j] + [value % 10]) + rest;
      digits, carry := digits[j := value % 10], value / 10;
      assert digits[..j + 1] == digits[..j] + [digits[j]];
    }
    assert before[|before|..] == [] && digits[..|digits|] == digits;
    while carry > 0
      invariant digits + Spread(carry) == Absorbed(before, nibble)
    {
      assert digits + ([carry % 10] + Spread(carry / 10)) == (digits + [carry % 10]) + Spread(carry / 10);
      digits, carry := digits + [carry % 10], carry / 10;
    }
    assert digits + [] == digits;
  }

  method Decimal(hex: string) returns (r: string)
    ensures r == Numeral(HexValue(hex))
    ensures IsNumeral(r) && Read(r) == HexValue(hex)
  {
    var digits := [0];
    for i := 0 to |hex|
      invariant Digits(digits) && Trimmed(digits)
      invariant Value(digits) == HexValue(hex[..i])
    {
      assert hex[..i + 1][..i] == hex[..i];
      var nibble := Nibble(hex[i]);
      if nibble.Some? {
        AbsorbedIs(digits, nibble.value);
        AbsorbedTrimmed(digits, nibble.value);
        digits := Absorb(digits, nibble.value);
      }
    }
    assert hex[..|hex|] == hex;
    digits := Trim(digits);
    TrimmedIsSpread(digits);
    NumeralReads(HexValue(hex));
    r := Render(digits);
    assert Written([0]) == "0" by {
      assert [0][1..] == [];
    }
  }

  // The trimming loop, which `Decimal` only gives digits it has nothing to take from.
  method Trim(untrimmed: seq<nat>) returns (digits: seq<nat>)
    requires untrimmed != []
    ensures Trimmed(untrimmed) <==> digits == untrimmed
    ensures Trimmed(digits) && digits <= untrimmed
    ensures forall i :: |digits| <= i < |untrimmed| ==> untrimmed[i] == 0
  {
    digits := untrimmed;
    while |digits| > 1 && digits[|digits| - 1] == 0
      invariant 0 < |digits| && digits <= untrimmed
      invariant forall i :: |digits| <= i < |untrimmed| ==> untrimmed[i] == 0
    {
      digits := digits[..|digits| - 1];
    }
  }

  // The closing `rev().map().collect()`.
  method Render(digits: seq<nat>) returns (r: string)
    requires Digits(digits)
    ensures r == Written(digits)
  {
    r := "";
    for i := 0 to |digits|
      invariant r == Written(digits[|digits| - i..])
    {
      assert digits[|digits| - i - 1..][1..] == digits[|digits| - i..];
      r := r + [Char(digits[|digits| - i - 1])];
    }
    assert digits[0..] == digits;
  }
}
