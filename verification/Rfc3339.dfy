// `rfc_3339`, and why its texts sort as the instants they stand for.
module Rfc3339 {
  import opened Text
  import opened Calendar
  import Decimal

  const DAY := 86_400
  // The first second of the year 10000.
  const YEAR_10000 := 253_402_300_800

  // A zero-padded number and the character after it.
  datatype Field = Field(n: nat, width: nat, mark: char)

  // A number wider than its field is written out whole.
  function Padded(n: nat, width: nat): string {
    if n < Ten(width) then Fixed(n, width) else Padded(n / 10, width) + [Digit(n % 10)]
  }

  function Render(fields: seq<Field>): string {
    if fields == [] then ""
    else Padded(fields[0].n, fields[0].width) + [fields[0].mark] + Render(fields[1..])
  }

  function Fields(seconds: nat): seq<Field> {
    var date := CivilFromDays(seconds / DAY);
    var time := seconds % DAY;
    DateFits(seconds);
    [Field(date.year, 4, '-'), Field(date.month, 2, '-'), Field(date.day, 2, 'T'),
     Field(time / 3600, 2, ':'), Field(time % 3600 / 60, 2, ':'), Field(time % 60, 2, 'Z')]
  }

  // The text for an instant, in seconds from the epoch; one before it reads as the epoch.
  function Rfc3339(at: int): string {
    Render(Fields(if at < 0 then 0 else at))
  }

  lemma DateFits(seconds: nat)
    ensures var date := CivilFromDays(seconds / DAY);
            && IsDate(date) && 1970 <= date.year && 0 <= date.month < 100 && 0 <= date.day < 100
            && (date.year < 10_000 <==> seconds < YEAR_10000)
  {
    var n := seconds / DAY;
    DaysOfCivil(n);
    var first, end := Date(1970, 1, 1), Date(10_000, 1, 1);
    assert DaysFromCivil(first) == 0 && DaysFromCivil(end) == YEAR_10000 / DAY;
    EarlierIsFewerDays(CivilFromDays(n), first);
    EarlierIsFewerDays(CivilFromDays(n), end);
  }

  // --- What a text says ---

  lemma {:induction false} FixedReads(n: nat, width: nat)
    requires n < Ten(width)
    ensures Decimal.AllDecimal(Fixed(n, width)) && Decimal.Read(Fixed(n, width)) == n
    decreases width
  {
    if width > 0 {
      var front := Fixed(n / 10, width - 1);
      FixedReads(n / 10, width - 1);
      assert Fixed(n, width) == front + [Decimal.Char(n % 10)];
      Decimal.ReadOneMore(front, n % 10);
    }
  }

  // Where part `k` of a text begins.
  ghost function Begin(parts: seq<string>, k: nat): nat
    requires k <= |parts|
    decreases k
  {
    if k == 0 then 0 else |parts[0]| + Begin(parts[1..], k - 1)
  }

  function Joined(parts: seq<string>): string {
    if parts == [] then "" else parts[0] + Joined(parts[1..])
  }

  ghost predicate HasAt(t: string, o: nat, part: string) {
    o + |part| <= |t| && t[o..o + |part|] == part
  }

  lemma {:induction false} PartAt(parts: seq<string>, k: nat)
    requires k < |parts|
    ensures HasAt(Joined(parts), Begin(parts, k), parts[k])
    ensures k == |parts| - 1 ==> |Joined(parts)| == Begin(parts, k) + |parts[k]|
    decreases k
  {
    if k == 0 {
      assert |parts| == 1 ==> Joined(parts[1..]) == "";
    } else {
      PartAt(parts[1..], k - 1);
      HasFurther(parts[0], Joined(parts[1..]), Begin(parts[1..], k - 1), parts[k]);
    }
  }

  lemma HasFurther(first: string, t: string, o: nat, part: string)
    requires HasAt(t, o, part)
    ensures HasAt(first + t, |first| + o, part)
  {
    assert (first + t)[|first| + o..|first| + o + |part|] == t[o..o + |part|];
  }

  lemma {:induction false} BeginOfEven(parts: seq<string>, width: nat, k: nat)
    requires k <= |parts| && forall i :: 0 <= i < |parts| ==> |parts[i]| == width
    ensures Begin(parts, k) == k * width
    decreases k
  {
    if k > 0 {
      BeginOfEven(parts[1..], width, k - 1);
    }
  }

  function Part(f: Field): string {
    Padded(f.n, f.width) + [f.mark]
  }

  function Parts(fields: seq<Field>): (parts: seq<string>)
    ensures |parts| == |fields| && forall i :: 0 <= i < |fields| ==> parts[i] == Part(fields[i])
  {
    seq(|fields|, i requires 0 <= i < |fields| => Part(fields[i]))
  }

  lemma {:induction false} RenderJoins(fields: seq<Field>)
    ensures Render(fields) == Joined(Parts(fields))
    decreases |fields|
  {
    if fields != [] {
      RenderJoins(fields[1..]);
      assert Parts(fields)[1..] == Parts(fields[1..]);
    }
  }

  ghost predicate Says(t: string, from: nat, to: nat, n: int) {
    from <= to <= |t| && Decimal.AllDecimal(t[from..to]) && Decimal.Read(t[from..to]) == n
  }

  // A field that fits is as wide as it should be, and reads as its number.
  lemma PartSays(f: Field, t: string, o: nat)
    requires f.n < Ten(f.width) && HasAt(t, o, Part(f))
    ensures |Part(f)| == f.width + 1
    ensures o + f.width < |t| && t[o + f.width] == f.mark && Says(t, o, o + f.width, f.n)
  {
    FixedReads(f.n, f.width);
    SlicesOf(t, o, Fixed(f.n, f.width), f.mark);
  }

  lemma SlicesOf(t: string, o: nat, text: string, mark: char)
    requires HasAt(t, o, text + [mark])
    ensures o + |text| < |t| && t[o..o + |text|] == text && t[o + |text|] == mark
  {
    assert t[o..o + |text|] == t[o..o + |text| + 1][..|text|] == text;
    assert t[o + |text|] == t[o..o + |text| + 1][|text|];
  }

  lemma BeginOf(seconds: nat, k: nat)
    requires seconds < YEAR_10000 && k < 6
    ensures Begin(Parts(Fields(seconds)), k) == if k == 0 then 0 else 2 + 3 * k
  {
    FieldsFit(seconds);
    if k > 0 {
      BeginOfEven(Parts(Fields(seconds))[1..], 3, k - 1);
    }
  }

  lemma FieldSays(seconds: nat, k: nat)
    requires seconds < YEAR_10000 && k < 6
    ensures var (f, t) := (Fields(seconds)[k], Render(Fields(seconds)));
      var (from, to) := (if k == 0 then 0 else 2 + 3 * k, 4 + 3 * k);
      && to < |t| && t[to] == f.mark && Says(t, from, to, f.n)
      && (k == 5 ==> |t| == 20)
  {
    var fields := Fields(seconds);
    FieldsFit(seconds);
    RenderJoins(fields);
    PartAt(Parts(fields), k);
    BeginOf(seconds, k);
    PartSays(fields[k], Render(fields), Begin(Parts(fields), k));
  }

  // Through the year 9999 a text is twenty characters that say a date of the calendar
  // and a time of day, and read back they are the instant (section 5.6 of RFC 3339).
  lemma TextSaysTheInstant(seconds: nat) returns (date: Date, hour: nat, minute: nat, second: nat)
    requires seconds < YEAR_10000
    ensures var t := Rfc3339(seconds);
      && |t| == 20 && t[4] == '-' && t[7] == '-' && t[10] == 'T' && t[13] == ':' && t[16] == ':' && t[19] == 'Z'
      && Says(t, 0, 4, date.year) && Says(t, 5, 7, date.month) && Says(t, 8, 10, date.day)
      && Says(t, 11, 13, hour) && Says(t, 14, 16, minute) && Says(t, 17, 19, second)
    ensures IsDate(date) && hour < 24 && minute < 60 && second < 60
    ensures seconds == DaysFromCivil(date) * DAY + hour * 3600 + minute * 60 + second
  {
    var time := seconds % DAY;
    date := CivilFromDays(seconds / DAY);
    hour, minute, second := time / 3600, time % 3600 / 60, time % 60;
    DaysOfCivil(seconds / DAY);
    Clock(time);
    FieldSays(seconds, 0);
    FieldSays(seconds, 1);
    FieldSays(seconds, 2);
    FieldSays(seconds, 3);
    FieldSays(seconds, 4);
    FieldSays(seconds, 5);
  }

  // --- Fields in order ---

  ghost predicate Alike(a: seq<Field>, b: seq<Field>) {
    |a| == |b| && forall i :: 0 <= i < |a| ==>
      a[i].width == b[i].width && a[i].mark == b[i].mark && a[i].n < Ten(a[i].width) && b[i].n < Ten(b[i].width)
  }

  ghost predicate FieldsLess(a: seq<Field>, b: seq<Field>)
    requires |a| == |b|
  {
    a != [] && (a[0].n < b[0].n || (a[0].n == b[0].n && FieldsLess(a[1..], b[1..])))
  }

  lemma MarkedOrder(p: string, a: string, q: string, b: string, mark: char)
    requires |p| == |q|
    ensures Less(p + [mark] + a, q + [mark] + b) <==> Less(p, q) || (p == q && Less(a, b))
  {
    LessOfConcat([mark], a, [mark], b);
    LessOfConcat(p, [mark] + a, q, [mark] + b);
    assert p + [mark] + a == p + ([mark] + a) && q + [mark] + b == q + ([mark] + b);
    LessTotal([mark], [mark]);
  }

  lemma {:induction false} RenderOrders(a: seq<Field>, b: seq<Field>)
    requires Alike(a, b)
    ensures Less(Render(a), Render(b)) <==> FieldsLess(a, b)
    decreases |a|
  {
    if a != [] {
      FixedOrders(a[0].n, b[0].n, a[0].width);
      RenderOrders(a[1..], b[1..]);
      MarkedOrder(Padded(a[0].n, a[0].width), Render(a[1..]), Padded(b[0].n, b[0].width), Render(b[1..]), a[0].mark);
    }
  }

  ghost predicate Six(a: seq<Field>, b: seq<Field>) {
    |a| == 6 && |b| == 6
  }

  lemma SixInOrder(a: seq<Field>, b: seq<Field>)
    requires Six(a, b)
    ensures FieldsLess(a, b) <==>
      || a[0].n < b[0].n
      || (a[0].n == b[0].n && (a[1].n < b[1].n
      || (a[1].n == b[1].n && (a[2].n < b[2].n
      || (a[2].n == b[2].n && (a[3].n < b[3].n
      || (a[3].n == b[3].n && (a[4].n < b[4].n
      || (a[4].n == b[4].n && a[5].n < b[5].n)))))))))
  {
    var a1, b1 := a[1..], b[1..];
    var a2, b2 := a1[1..], b1[1..];
    var a3, b3 := a2[1..], b2[1..];
    var a4, b4 := a3[1..], b3[1..];
    var a5, b5 := a4[1..], b4[1..];
    assert FieldsLess(a5, b5) <==> a[5].n < b[5].n by {
      assert a5[1..] == [] && b5[1..] == [];
    }
    assert FieldsLess(a4, b4) <==> a[4].n < b[4].n || (a[4].n == b[4].n && FieldsLess(a5, b5));
    assert FieldsLess(a3, b3) <==> a[3].n < b[3].n || (a[3].n == b[3].n && FieldsLess(a4, b4));
    assert FieldsLess(a2, b2) <==> a[2].n < b[2].n || (a[2].n == b[2].n && FieldsLess(a3, b3));
    assert FieldsLess(a1, b1) <==> a[1].n < b[1].n || (a[1].n == b[1].n && FieldsLess(a2, b2));
  }

  lemma TimeInOrder(s: nat, t: nat)
    requires s < DAY && t < DAY
    ensures s < t <==>
      || s / 3600 < t / 3600
      || (s / 3600 == t / 3600 && (s % 3600 / 60 < t % 3600 / 60
      || (s % 3600 / 60 == t % 3600 / 60 && s % 60 < t % 60)))
  {
    Clock(s);
    Clock(t);
  }

  lemma Clock(s: nat)
    requires s < DAY
    ensures s == 3600 * (s / 3600) + 60 * (s % 3600 / 60) + s % 60
    ensures s / 3600 < 24 && s % 3600 / 60 < 60
  {
    var h, r := s / 3600, s % 3600;
    var m := r / 60;
    assert s == 60 * (60 * h + m) + r % 60;
    assert s % 60 == r % 60;
  }

  lemma FieldsFit(s: nat)
    requires s < YEAR_10000
    ensures forall i :: 0 <= i < 6 ==> Fields(s)[i].n < Ten(Fields(s)[i].width)
    ensures forall i :: 0 <= i < 6 ==> Fields(s)[i].width == (if i == 0 then 4 else 2)
  {
    DateFits(s);
    Clock(s % DAY);
    assert Ten(2) == 100 && Ten(4) == 10_000 by {
      assert Ten(0) == 1 && Ten(1) == 10 && Ten(3) == 1000;
    }
  }

  // Through the year 9999 the texts sort as the instants do, and only equal
  // instants have equal texts (section 5.1 of RFC 3339).
  lemma TextsSortAsInstants(a: nat, b: nat)
    requires a < YEAR_10000 && b < YEAR_10000
    ensures a < b <==> Less(Rfc3339(a), Rfc3339(b))
    ensures Rfc3339(a) == Rfc3339(b) ==> a == b
  {
    FieldsFit(a);
    FieldsFit(b);
    SortsForward(a, b);
    SortsForward(b, a);
    LessTotal(Rfc3339(a), Rfc3339(b));
  }

  lemma SortsForward(a: nat, b: nat)
    requires a < YEAR_10000 && b < YEAR_10000
    ensures a < b <==> Less(Rfc3339(a), Rfc3339(b))
  {
    FieldsFit(a);
    FieldsFit(b);
    RenderOrders(Fields(a), Fields(b));
    FieldsInOrder(a, b);
  }

  lemma FieldsInOrder(a: nat, b: nat)
    ensures FieldsLess(Fields(a), Fields(b)) <==> a < b
  {
    SixInOrder(Fields(a), Fields(b));
    TimeInOrder(a % DAY, b % DAY);
    DatesInOrder(a / DAY, b / DAY);
    DaysThenTime(a, b);
  }

  lemma DaysThenTime(a: nat, b: nat)
    ensures a < b <==> a / DAY < b / DAY || (a / DAY == b / DAY && a % DAY < b % DAY)
  {
  }

  lemma DatesInOrder(m: nat, n: nat)
    ensures Earlier(CivilFromDays(m), CivilFromDays(n)) <==> m < n
    ensures CivilFromDays(m) == CivilFromDays(n) <==> m == n
  {
    DaysOfCivil(m);
    DaysOfCivil(n);
    EarlierIsFewerDays(CivilFromDays(m), CivilFromDays(n));
  }

  lemma HeadsDecide(a: seq<Field>, b: seq<Field>)
    requires a != [] && b != []
    requires var p, q := Padded(a[0].n, a[0].width), Padded(b[0].n, b[0].width);
             p != [] && q != [] && p[0] < q[0]
    ensures Less(Render(a), Render(b))
  {
  }

  lemma YearHeads()
    ensures Padded(10_000, 4) != [] && Padded(10_000, 4)[0] == '1'
    ensures Padded(9999, 4) != [] && Padded(9999, 4)[0] == '9'
  {
    assert Ten(1) == 10 && Ten(2) == 100 && Ten(3) == 1000 && Ten(4) == 10_000;
    assert Fixed(1, 1) == "1" && Fixed(10, 2)[0] == '1' && Fixed(100, 3)[0] == '1' && Fixed(1000, 4)[0] == '1';
    assert Fixed(9, 1) == "9" && Fixed(99, 2)[0] == '9' && Fixed(999, 3)[0] == '9' && Fixed(9999, 4)[0] == '9';
  }

  lemma YearOf(seconds: nat, date: Date)
    requires IsDate(date) && DaysFromCivil(date) == seconds / DAY
    ensures |Fields(seconds)| == 6 && Fields(seconds)[0].n == date.year && Fields(seconds)[0].width == 4
  {
    CivilOfDays(date);
  }

  // The first second of the year 10000 sorts before the second it follows.
  lemma TextsMissortPastYear9999()
    ensures Less(Rfc3339(YEAR_10000), Rfc3339(YEAR_10000 - 1))
  {
    YearOf(YEAR_10000, Date(10_000, 1, 1));
    MonthTable(9999);
    YearOf(YEAR_10000 - 1, Date(9999, 12, 31));
    YearHeads();
    HeadsDecide(Fields(YEAR_10000), Fields(YEAR_10000 - 1));
  }

  // So the texts below a limit sort as their instants exactly when it is at most the
  // start of the year 10000.
  lemma TextsSortExactlyThroughYear9999(limit: nat)
    ensures (forall a: nat, b: nat :: a < limit && b < limit ==> (a < b <==> Less(Rfc3339(a), Rfc3339(b))))
            <==> limit <= YEAR_10000
  {
    if limit <= YEAR_10000 {
      forall a: nat, b: nat | a < limit && b < limit ensures a < b <==> Less(Rfc3339(a), Rfc3339(b)) {
        TextsSortAsInstants(a, b);
      }
    } else {
      TextsMissortPastYear9999();
      LessTotal(Rfc3339(YEAR_10000), Rfc3339(YEAR_10000 - 1));
    }
  }
}
