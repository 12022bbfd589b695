// Base64url without padding (section 5 of RFC 4648), both ways. The source's shifts and
// masks are written as arithmetic on naturals: `<< n` multiplies by a power of two,
// `>> n` divides, `& 0xffff` is a remainder, and the fields it joins with `|` are disjoint.
module Base64Url {
  import opened Wrappers

  type Byte = x: nat | x < 256
  type Sextet = x: nat | x < 64

  // `ALPHABET[v]`: upper case, lower case, digits, '-' and '_'.
  function Symbol(v: Sextet): char {
    if v < 26 then 'A' + v as char
    else if v < 52 then 'a' + (v - 26) as char
    else if v < 62 then '0' + (v - 52) as char
    else if v == 62 then '-'
    else '_'
  }

  // The decoder's `match` on one character.
  function SextetOf(c: char): (r: Option<Sextet>) {
    if 'A' <= c <= 'Z' then Some((c - 'A') as nat)
    else if 'a' <= c <= 'z' then Some((c - 'a') as nat + 26)
    else if '0' <= c <= '9' then Some((c - '0') as nat + 52)
    else if c == '-' then Some(62)
    else if c == '_' then Some(63)
    else None
  }

  lemma SymbolsAreSextets(v: Sextet, c: char)
    ensures SextetOf(c) == Some(v) <==> c == Symbol(v)
  {
  }

  function Symbols(vs: seq<Sextet>): (t: string)
    ensures |t| == |vs|
  {
    if vs == [] then "" else [Symbol(vs[0])] + Symbols(vs[1..])
  }

  // --- Bytes cut into sextets ---

  // The four sextets of three bytes.
  function First(a: Byte): Sextet { a / 4 }
  function Second(a: Byte, b: Byte): Sextet { a % 4 * 16 + b / 16 }
  function Third(b: Byte, c: Byte): Sextet { b % 16 * 4 + c / 64 }
  function Fourth(c: Byte): Sextet { c % 64 }

  // One or two bytes over are padded with zero bits.
  function Sextets(bytes: seq<Byte>): seq<Sextet> {
    if |bytes| == 0 then []
    else if |bytes| == 1 then [First(bytes[0]), Second(bytes[0], 0)]
    else if |bytes| == 2 then [First(bytes[0]), Second(bytes[0], bytes[1]), Third(bytes[1], 0)]
    else
      [First(bytes[0]), Second(bytes[0], bytes[1]), Third(bytes[1], bytes[2]), Fourth(bytes[2])]
      + Sextets(bytes[3..])
  }

  function Encode(bytes: seq<Byte>): string {
    Symbols(Sextets(bytes))
  }

  // --- Sextets joined into bytes ---

  // The three bytes of four sextets.
  function High(s: Sextet, t: Sextet): Byte { s * 4 + t / 16 }
  function Middle(t: Sextet, u: Sextet): Byte { t % 16 * 16 + u / 4 }
  function Low(u: Sextet, v: Sextet): Byte { u % 4 * 64 + v }

  // The whole bytes `vs` hold: three in four sextets.
  function Emitted(vs: seq<Sextet>): seq<Byte> {
    Bytes(Pieces(vs))
  }

  // A byte and the two sextets it is made of.
  datatype Piece = HighPiece(s: Sextet, t: Sextet) | MiddlePiece(t: Sextet, u: Sextet) | LowPiece(u: Sextet, v: Sextet)

  function ByteOf(p: Piece): Byte {
    match p
    case HighPiece(s, t) => High(s, t)
    case MiddlePiece(t, u) => Middle(t, u)
    case LowPiece(u, v) => Low(u, v)
  }

  function Bytes(ps: seq<Piece>): (r: seq<Byte>)
    ensures |r| == |ps|
  {
    if ps == [] then [] else Bytes(ps[..|ps| - 1]) + [ByteOf(ps[|ps| - 1])]
  }

  // Every sextet but the first of a group of four completes a byte with the one before it.
  function Pieces(vs: seq<Sextet>): seq<Piece> {
    if vs == [] then []
    else
      var front, v := vs[..|vs| - 1], vs[|vs| - 1];
      Pieces(front) + if |front| % 4 == 0 then [] else [NextPiece(front, v)]
  }

  function NextPiece(vs: seq<Sextet>, v: Sextet): Piece
    requires |vs| % 4 != 0
  {
    var last := vs[|vs| - 1];
    if |vs| % 4 == 1 then HighPiece(last, v) else if |vs| % 4 == 2 then MiddlePiece(last, v) else LowPiece(last, v)
  }

  // How many bits `vs` hold beyond those bytes, and what they say.
  function BitsLeft(n: nat): nat {
    if n % 4 == 0 then 0 else 8 - 2 * (n % 4)
  }

  // `x >> bits`, and the low bits below that, for the widths that occur.
  function Above(x: nat, bits: nat): nat {
    if bits == 6 then x / 64 else if bits == 4 then x / 16 else if bits == 2 then x / 4 else x
  }

  function Below(x: nat, bits: nat): nat {
    if bits == 6 then x % 64 else if bits == 4 then x % 16 else if bits == 2 then x % 4 else 0
  }

  function Left(vs: seq<Sextet>): nat {
    if vs == [] then 0 else Below(vs[|vs| - 1], BitsLeft(|vs|))
  }

  function Joined(vs: seq<Sextet>): Option<seq<Byte>> {
    if BitsLeft(|vs|) < 6 && Left(vs) == 0 then Some(Emitted(vs)) else None
  }

  function Values(text: string): (r: Option<seq<Sextet>>)
    ensures r.Some? ==> |r.value| == |text|
  {
    if text == [] then Some([])
    else
      var first, rest := SextetOf(text[0]), Values(text[1..]);
      if first.Some? && rest.Some? then Some([first.value] + rest.value) else None
  }

  function Decode(text: string): Option<seq<Byte>> {
    var vs := Values(text);
    if vs.Some? then Joined(vs.value) else None
  }

  // --- The codecs undo each other ---

  lemma {:induction false} ValuesAreSymbols(text: string, vs: seq<Sextet>)
    ensures Values(text) == Some(vs) <==> text == Symbols(vs)
    decreases |text|
  {
    if text != [] && vs != [] {
      SymbolsAreSextets(vs[0], text[0]);
      ValuesAreSymbols(text[1..], vs[1..]);
      assert text == [text[0]] + text[1..] && vs == [vs[0]] + vs[1..];
      assert Symbols(vs)[1..] == Symbols(vs[1..]);
      if Values(text).Some? {
        assert Values(text).value[1..] == Values(text[1..]).value;
      }
    }
  }

  lemma LeftOfTail(vs: seq<Sextet>)
    requires |vs| >= 4
    ensures Left(vs) == Left(vs[4..]) && BitsLeft(|vs|) == BitsLeft(|vs[4..]|)
  {
    assert |vs[4..]| == |vs| - 4;
  }

  // `q` and `r` are what is left of and below a field of the width `unit`.
  lemma FieldOf(unit: nat, q: nat, r: nat)
    requires unit in {4, 16, 64} && r < unit
    ensures (q * unit + r) / unit == q && (q * unit + r) % unit == r
  {
    if unit == 4 {
      assert (q * 4 + r) / 4 == q;
    } else if unit == 16 {
      assert (q * 16 + r) / 16 == q;
    } else {
      assert (q * 64 + r) / 64 == q;
    }
  }

  lemma HighOfCut(a: Byte, b: Byte)
    ensures High(First(a), Second(a, b)) == a && Second(a, b) % 16 == b / 16
  {
    FieldOf(16, a % 4, b / 16);
  }

  lemma MiddleOfCut(a: Byte, b: Byte, c: Byte)
    ensures Middle(Second(a, b), Third(b, c)) == b && Third(b, c) % 4 == c / 64
  {
    HighOfCut(a, b);
    FieldOf(4, b % 16, c / 64);
  }

  lemma LowOfCut(b: Byte, c: Byte)
    ensures Low(Third(b, c), Fourth(c)) == c
  {
    FieldOf(4, b % 16, c / 64);
  }

  lemma CutThenJoined(a: Byte, b: Byte, c: Byte)
    ensures High(First(a), Second(a, b)) == a
    ensures Middle(Second(a, b), Third(b, c)) == b
    ensures Low(Third(b, c), Fourth(c)) == c
    ensures Second(a, 0) % 16 == 0 && Third(b, 0) % 4 == 0
  {
    HighOfCut(a, b);
    HighOfCut(a, 0);
    MiddleOfCut(a, b, c);
    MiddleOfCut(a, b, 0);
    LowOfCut(b, c);
  }

  lemma CutOfHigh(s: Sextet, t: Sextet)
    ensures First(High(s, t)) == s && High(s, t) % 4 == t / 16
  {
    FieldOf(4, s, t / 16);
  }

  lemma CutOfMiddle(t: Sextet, u: Sextet)
    ensures Middle(t, u) / 16 == t % 16 && Middle(t, u) % 16 == u / 4
  {
    FieldOf(16, t % 16, u / 4);
  }

  lemma CutOfLow(u: Sextet, v: Sextet)
    ensures Low(u, v) / 64 == u % 4 && Fourth(Low(u, v)) == v
  {
    FieldOf(64, u % 4, v);
  }

  lemma JoinedThenCut(s: Sextet, t: Sextet, u: Sextet, v: Sextet)
    ensures First(High(s, t)) == s && Second(High(s, t), Middle(t, u)) == t
    ensures Third(Middle(t, u), Low(u, v)) == u && Fourth(Low(u, v)) == v
    ensures t % 16 == 0 ==> Second(High(s, t), 0) == t
    ensures u % 4 == 0 ==> Third(Middle(t, u), 0) == u
  {
    CutOfHigh(s, t);
    CutOfMiddle(t, u);
    CutOfLow(u, v);
    SecondCut(High(s, t), Middle(t, u), t);
    ThirdCut(Middle(t, u), Low(u, v), u);
  }

  lemma SecondCut(a: Byte, b: Byte, t: Sextet)
    requires a % 4 == t / 16
    ensures b / 16 == t % 16 ==> Second(a, b) == t
    ensures t % 16 == 0 ==> Second(a, 0) == t
  {
    assert t == t / 16 * 16 + t % 16;
  }

  lemma ThirdCut(b: Byte, c: Byte, u: Sextet)
    requires b % 16 == u / 4
    ensures c / 64 == u % 4 ==> Third(b, c) == u
    ensures u % 4 == 0 ==> Third(b, 0) == u
  {
    assert u == u / 4 * 4 + u % 4;
  }

  lemma {:induction false} BytesConcat(ps: seq<Piece>, qs: seq<Piece>)
    ensures Bytes(ps + qs) == Bytes(ps) + Bytes(qs)
    decreases |qs|
  {
    if qs == [] {
      assert ps + qs == ps;
    } else {
      var front, last := qs[..|qs| - 1], qs[|qs| - 1];
      assert (ps + qs)[..|ps + qs| - 1] == ps + front;
      BytesConcat(ps, front);
    }
  }

  lemma BytesOfOne(p: Piece)
    ensures Bytes([p]) == [ByteOf(p)]
  {
    assert [p][..0] == [];
  }

  lemma BytesOfTwo(p: Piece, q: Piece)
    ensures Bytes([p, q]) == [ByteOf(p), ByteOf(q)]
  {
    BytesOfOne(p);
    assert [p, q][..1] == [p];
  }

  lemma BytesOfThree(p: Piece, q: Piece, r: Piece)
    ensures Bytes([p, q, r]) == [ByteOf(p), ByteOf(q), ByteOf(r)]
  {
    BytesOfTwo(p, q);
    assert [p, q, r][..2] == [p, q];
  }

  lemma PiecesByOneMore(vs: seq<Sextet>, v: Sextet)
    ensures Pieces(vs + [v]) == Pieces(vs) + if |vs| % 4 == 0 then [] else [NextPiece(vs, v)]
  {
    assert (vs + [v])[..|vs|] == vs;
  }

  lemma PiecesOfOne(s: Sextet)
    ensures Pieces([s]) == []
  {
    assert [s][..0] == [];
  }

  lemma PiecesOfTwo(s: Sextet, t: Sextet)
    ensures Pieces([s, t]) == [HighPiece(s, t)]
  {
    PiecesOfOne(s);
    assert [s, t][..1] == [s];
  }

  lemma PiecesOfThree(s: Sextet, t: Sextet, u: Sextet)
    ensures Pieces([s, t, u]) == [HighPiece(s, t), MiddlePiece(t, u)]
  {
    PiecesOfTwo(s, t);
    assert [s, t, u][..2] == [s, t];
  }

  lemma PiecesOfFour(s: Sextet, t: Sextet, u: Sextet, v: Sextet)
    ensures Pieces([s, t, u, v]) == [HighPiece(s, t), MiddlePiece(t, u), LowPiece(u, v)]
  {
    PiecesOfThree(s, t, u);
    assert [s, t, u, v][..3] == [s, t, u];
  }

  lemma {:induction false} PiecesAfterGroup(group: seq<Sextet>, rest: seq<Sextet>)
    requires |group| == 4
    ensures Pieces(group + rest) == Pieces(group) + Pieces(rest)
    decreases |rest|
  {
    if rest == [] {
      assert group + rest == group;
    } else {
      var front, v := rest[..|rest| - 1], rest[|rest| - 1];
      PiecesAfterGroup(group, front);
      PiecesByOneMore(group + front, v);
      assert group + rest == (group + front) + [v] && rest == front + [v];
      NextPieceAfterGroup(group, front, v);
    }
  }

  lemma NextPieceAfterGroup(group: seq<Sextet>, front: seq<Sextet>, v: Sextet)
    requires |group| == 4
    ensures |group + front| % 4 == |front| % 4
    ensures |front| % 4 != 0 ==> NextPiece(group + front, v) == NextPiece(front, v)
  {
  }

  lemma EmittedOfGroup(s: Sextet, t: Sextet, u: Sextet, v: Sextet, rest: seq<Sextet>)
    ensures Emitted([s, t, u, v] + rest) == [High(s, t), Middle(t, u), Low(u, v)] + Emitted(rest)
  {
    PiecesAfterGroup([s, t, u, v], rest);
    PiecesOfFour(s, t, u, v);
    BytesConcat([HighPiece(s, t), MiddlePiece(t, u), LowPiece(u, v)], Pieces(rest));
    BytesOfThree(HighPiece(s, t), MiddlePiece(t, u), LowPiece(u, v));
  }

  lemma JoinedOfGroup(s: Sextet, t: Sextet, u: Sextet, v: Sextet, rest: seq<Sextet>)
    ensures Joined([s, t, u, v] + rest) ==
      if Joined(rest).Some? then Some([High(s, t), Middle(t, u), Low(u, v)] + Joined(rest).value) else None
  {
    var vs := [s, t, u, v] + rest;
    assert vs[4..] == rest;
    LeftOfTail(vs);
    EmittedOfGroup(s, t, u, v, rest);
  }

  lemma JoinedOfTwo(s: Sextet, t: Sextet)
    requires t % 16 == 0
    ensures Joined([s, t]) == Some([High(s, t)])
  {
    PiecesOfTwo(s, t);
    BytesOfOne(HighPiece(s, t));
  }

  lemma JoinedOfThree(s: Sextet, t: Sextet, u: Sextet)
    requires u % 4 == 0
    ensures Joined([s, t, u]) == Some([High(s, t), Middle(t, u)])
  {
    PiecesOfThree(s, t, u);
    BytesOfTwo(HighPiece(s, t), MiddlePiece(t, u));
  }

  lemma GroupJoins(bytes: seq<Byte>)
    requires |bytes| >= 3 && Joined(Sextets(bytes[3..])) == Some(bytes[3..])
    ensures Joined(Sextets(bytes)) == Some([bytes[0], bytes[1], bytes[2]] + bytes[3..])
  {
    var a, b, c := bytes[0], bytes[1], bytes[2];
    CutThenJoined(a, b, c);
    JoinedOfGroup(First(a), Second(a, b), Third(b, c), Fourth(c), Sextets(bytes[3..]));
  }

  lemma OneJoins(a: Byte)
    ensures Joined([First(a), Second(a, 0)]) == Some([a])
  {
    CutThenJoined(a, 0, 0);
    JoinedOfTwo(First(a), Second(a, 0));
  }

  lemma TwoJoin(a: Byte, b: Byte)
    ensures Joined([First(a), Second(a, b), Third(b, 0)]) == Some([a, b])
  {
    CutThenJoined(a, b, 0);
    JoinedOfThree(First(a), Second(a, b), Third(b, 0));
  }

  lemma {:induction false} SextetsJoin(bytes: seq<Byte>)
    ensures Joined(Sextets(bytes)) == Some(bytes)
    decreases |bytes|
  {
    if |bytes| >= 3 {
      SextetsJoin(bytes[3..]);
      GroupJoins(bytes);
      assert bytes == [bytes[0], bytes[1], bytes[2]] + bytes[3..];
    } else if |bytes| == 2 {
      TwoJoin(bytes[0], bytes[1]);
      assert bytes == [bytes[0], bytes[1]];
    } else if |bytes| == 1 {
      OneJoins(bytes[0]);
      assert bytes == [bytes[0]];
    }
  }

  lemma GroupIsCutBack(s: Sextet, t: Sextet, u: Sextet, v: Sextet, rest: seq<Sextet>)
    requires Joined([s, t, u, v] + rest).Some?
    requires Joined(rest).Some? ==> Sextets(Joined(rest).value) == rest
    ensures Sextets(Joined([s, t, u, v] + rest).value) == [s, t, u, v] + rest
  {
    JoinedOfGroup(s, t, u, v, rest);
    JoinedThenCut(s, t, u, v);
    SextetsOfGroup(High(s, t), Middle(t, u), Low(u, v), Joined(rest).value);
  }

  lemma SextetsOfGroup(a: Byte, b: Byte, c: Byte, rest: seq<Byte>)
    ensures Sextets([a, b, c] + rest) == [First(a), Second(a, b), Third(b, c), Fourth(c)] + Sextets(rest)
  {
    assert ([a, b, c] + rest)[3..] == rest;
  }

  lemma TailIsCutBack(vs: seq<Sextet>)
    requires |vs| < 4 && Joined(vs).Some?
    ensures Sextets(Joined(vs).value) == vs
  {
    if |vs| == 3 {
      assert vs == [vs[0], vs[1], vs[2]];
      ThreeAreCutBack(vs[0], vs[1], vs[2]);
    } else if |vs| == 2 {
      assert vs == [vs[0], vs[1]];
      TwoAreCutBack(vs[0], vs[1]);
    }
  }

  lemma TwoAreCutBack(s: Sextet, t: Sextet)
    requires Joined([s, t]).Some?
    ensures Sextets(Joined([s, t]).value) == [s, t]
  {
    assert t % 16 == 0;
    JoinedOfTwo(s, t);
    JoinedThenCut(s, t, 0, 0);
    SextetsOfOne(High(s, t));
  }

  lemma SextetsOfOne(a: Byte)
    ensures Sextets([a]) == [First(a), Second(a, 0)]
  {
  }

  lemma SextetsOfTwo(a: Byte, b: Byte)
    ensures Sextets([a, b]) == [First(a), Second(a, b), Third(b, 0)]
  {
  }

  lemma ThreeAreCutBack(s: Sextet, t: Sextet, u: Sextet)
    requires Joined([s, t, u]).Some?
    ensures Sextets(Joined([s, t, u]).value) == [s, t, u]
  {
    assert u % 4 == 0;
    JoinedOfThree(s, t, u);
    JoinedThenCut(s, t, u, 0);
    SextetsOfTwo(High(s, t), Middle(t, u));
  }

  lemma {:induction false} JoinedIsCutBack(vs: seq<Sextet>)
    requires Joined(vs).Some?
    ensures Sextets(Joined(vs).value) == vs
    decreases |vs|
  {
    if |vs| >= 4 {
      var rest := vs[4..];
      assert vs == [vs[0], vs[1], vs[2], vs[3]] + rest;
      JoinedOfGroup(vs[0], vs[1], vs[2], vs[3], rest);
      JoinedIsCutBack(rest);
      GroupIsCutBack(vs[0], vs[1], vs[2], vs[3], rest);
    } else {
      TailIsCutBack(vs);
    }
  }

  // The text decodes to `bytes` exactly when it is their encoding.
  lemma DecodeExactlyInvertsEncode(text: string, bytes: seq<Byte>)
    ensures Decode(text) == Some(bytes) <==> text == Encode(bytes)
  {
    ValuesAreSymbols(text, Sextets(bytes));
    SextetsJoin(bytes);
    if Values(text).Some? {
      ValuesAreSymbols(text, Values(text).value);
      if Decode(text) == Some(bytes) {
        JoinedIsCutBack(Values(text).value);
      }
    }
  }

  // --- What the encoding is ---

  const ALPHABET := "ABCDEFGHIJKLMNOPQRSTUVWXYZ" + "abcdefghijklmnopqrstuvwxyz" + "0123456789-_"

  lemma UpperIsAlphabet(v: Sextet)
    requires v < 26
    ensures Symbol(v) == ALPHABET[v]
  {
    assert v == 0 || v == 1 || v == 2 || v == 3 || v == 4 || v == 5 || v == 6 || v == 7 || v == 8 || v == 9 || v
           == 10 || v == 11 || v == 12 || v == 13 || v == 14 || v == 15 || v == 16 || v == 17 || v == 18 || v ==
           19 || v == 20 || v == 21 || v == 22 || v == 23 || v == 24 || v == 25;
  }

  lemma LowerIsAlphabet(v: Sextet)
    requires 26 <= v < 52
    ensures Symbol(v) == ALPHABET[v]
  {
    assert v == 26 || v == 27 || v == 28 || v == 29 || v == 30 || v == 31 || v == 32 || v == 33 || v == 34 || v
           == 35 || v == 36 || v == 37 || v == 38 || v == 39 || v == 40 || v == 41 || v == 42 || v == 43 || v ==
           44 || v == 45 || v == 46 || v == 47 || v == 48 || v == 49 || v == 50 || v == 51;
  }

  lemma SymbolIsAlphabet(v: Sextet)
    ensures |ALPHABET| == 64 && Symbol(v) == ALPHABET[v]
  {
    if v < 26 {
      UpperIsAlphabet(v);
    } else if v < 52 {
      LowerIsAlphabet(v);
    }
  }

  // The six bits of `bytes` from bit `6 * i` on, most significant first; beyond the end
  // they are zeros.
  function SixBits(bytes: seq<Byte>, i: nat): Sextet {
    Window(At(bytes, 6 * i / 8), At(bytes, 6 * i / 8 + 1), i % 4)
  }

  // Of two bytes, the six bits from bit `6 * k % 8` on.
  function Window(a: Byte, b: Byte, k: nat): Sextet {
    if k == 0 then (a * 256 + b) / 1024 % 64
    else if k == 1 then (a * 256 + b) / 16 % 64
    else if k == 2 then (a * 256 + b) / 64 % 64
    else (a * 256 + b) / 256 % 64
  }

  lemma CutFirst(a: Byte, b: Byte)
    ensures Window(a, b, 0) == First(a)
  {
    assert (a * 256 + b) / 1024 == a / 4;
  }

  lemma CutSecond(a: Byte, b: Byte)
    ensures Window(a, b, 1) == Second(a, b)
  {
    assert a * 256 + b == (a / 4 * 64 + Second(a, b)) * 16 + b % 16;
    FieldOf(16, a / 4 * 64 + Second(a, b), b % 16);
    FieldOf(64, a / 4, Second(a, b));
  }

  lemma CutThird(a: Byte, b: Byte)
    ensures Window(a, b, 2) == Third(a, b)
  {
    assert a * 256 + b == (a / 16 * 64 + Third(a, b)) * 64 + b % 64;
    FieldOf(64, a / 16 * 64 + Third(a, b), b % 64);
    FieldOf(64, a / 16, Third(a, b));
  }

  lemma CutFourth(a: Byte, b: Byte)
    ensures Window(a, b, 3) == Fourth(a)
  {
    assert (a * 256 + b) / 256 == a;
  }

  lemma FirstFour(bytes: seq<Byte>)
    ensures var (vs, a, b, c) := (Sextets(bytes), At(bytes, 0), At(bytes, 1), At(bytes, 2));
      && (|vs| > 0 ==> |vs| > 1 && vs[0] == First(a) && vs[1] == Second(a, b))
      && (|vs| > 2 ==> vs[2] == Third(b, c))
      && (|vs| > 3 ==> vs[3] == Fourth(c))
  {
  }

  lemma SixBitsOfFour(bytes: seq<Byte>)
    ensures SixBits(bytes, 0) == Window(At(bytes, 0), At(bytes, 1), 0)
    ensures SixBits(bytes, 1) == Window(At(bytes, 0), At(bytes, 1), 1)
    ensures SixBits(bytes, 2) == Window(At(bytes, 1), At(bytes, 2), 2)
    ensures SixBits(bytes, 3) == Window(At(bytes, 2), At(bytes, 3), 3)
  {
  }

  lemma SextetIsSixBits(bytes: seq<Byte>, i: nat)
    requires i < |Sextets(bytes)| && i < 4
    ensures Sextets(bytes)[i] == SixBits(bytes, i)
  {
    FirstFour(bytes);
    SixBitsOfFour(bytes);
    CutFirst(At(bytes, 0), At(bytes, 1));
    CutSecond(At(bytes, 0), At(bytes, 1));
    CutThird(At(bytes, 1), At(bytes, 2));
    CutFourth(At(bytes, 2), At(bytes, 3));
    assert i == 0 || i == 1 || i == 2 || i == 3;
  }

  lemma SixBitsOfRest(bytes: seq<Byte>, i: nat)
    requires i >= 4 && |bytes| >= 3
    ensures SixBits(bytes, i) == SixBits(bytes[3..], i - 4)
  {
    var rest := bytes[3..];
    assert 6 * (i - 4) / 8 == 6 * i / 8 - 3;
    assert forall k: nat :: At(rest, k) == At(bytes, k + 3);
  }

  lemma {:induction false} SextetsAreSixBits(bytes: seq<Byte>)
    ensures |Sextets(bytes)| == (4 * |bytes| + 2) / 3
    ensures forall i :: 0 <= i < |Sextets(bytes)| ==> Sextets(bytes)[i] == SixBits(bytes, i)
    decreases |bytes|
  {
    if |bytes| >= 3 {
      SextetsAreSixBits(bytes[3..]);
    }
    forall i | 0 <= i < |Sextets(bytes)| ensures Sextets(bytes)[i] == SixBits(bytes, i) {
      if i < 4 {
        SextetIsSixBits(bytes, i);
      } else {
        SixBitsOfRest(bytes, i);
      }
    }
  }

  lemma {:induction false} SymbolsAt(vs: seq<Sextet>, i: nat)
    requires i < |vs|
    ensures Symbols(vs)[i] == Symbol(vs[i])
    decreases |vs|
  {
    if i > 0 {
      SymbolsAt(vs[1..], i - 1);
    }
  }

  // Symbol by symbol: the encoding has one for every six bits, rounded up, each the
  // letter the alphabet has for those six, and nothing after (section 5 of RFC 4648).
  lemma EncodesSixBitsEach(bytes: seq<Byte>)
    ensures |Encode(bytes)| == (4 * |bytes| + 2) / 3
    ensures forall i :: 0 <= i < |Encode(bytes)| ==> Encode(bytes)[i] == ALPHABET[SixBits(bytes, i)]
  {
    SextetsAreSixBits(bytes);
    forall i | 0 <= i < |Encode(bytes)| ensures Encode(bytes)[i] == ALPHABET[SixBits(bytes, i)] {
      SymbolsAt(Sextets(bytes), i);
      SymbolIsAlphabet(SixBits(bytes, i));
    }
  }

  // --- The encoder's loops ---

  // `1 << (18 - 6 * i)`, and the triple of a chunk of one to three bytes.
  function Shift(i: nat): nat
    requires i <= 3
  {
    if i == 0 then 262144 else if i == 1 then 4096 else if i == 2 then 64 else 1
  }

  // `byte << (16 - 8 * i)`.
  function Placed(byte: Byte, i: nat): nat {
    if i == 0 then byte * 65536 else if i == 1 then byte * 256 else byte
  }

  function Triple(a: Byte, b: Byte, c: Byte): nat {
    Placed(a, 0) + Placed(b, 1) + Placed(c, 2)
  }

  lemma TripleIsFourSextets(a: Byte, b: Byte, c: Byte)
    ensures Triple(a, b, c) == First(a) * 262144 + Second(a, b) * 4096 + Third(b, c) * 64 + Fourth(c)
  {
    assert a == a / 4 * 4 + a % 4 && b == b / 16 * 16 + b % 16 && c == c / 64 * 64 + c % 64;
  }

  lemma FieldsOf(n: nat, s: Sextet, t: Sextet, u: Sextet, v: Sextet)
    requires n == s * 262144 + t * 4096 + u * 64 + v
    ensures n / 262144 % 64 == s && n / 4096 % 64 == t && n / 64 % 64 == u && n / 1 % 64 == v
  {
    assert n / 64 == s * 4096 + t * 64 + u;
    assert n / 4096 == s * 64 + t;
    assert n / 262144 == s;
  }

  // What the shifts and the mask pick from a triple.
  lemma ShiftsPickSextets(a: Byte, b: Byte, c: Byte)
    ensures Triple(a, b, c) / Shift(0) % 64 == First(a)
    ensures Triple(a, b, c) / Shift(1) % 64 == Second(a, b)
    ensures Triple(a, b, c) / Shift(2) % 64 == Third(b, c)
    ensures Triple(a, b, c) / Shift(3) % 64 == Fourth(c)
  {
    TripleIsFourSextets(a, b, c);
    FieldsOf(Triple(a, b, c), First(a), Second(a, b), Third(b, c), Fourth(c));
  }

  // So the inner loop pushes the chunk's sextets, one more than its bytes.
  lemma ChunkPicksSextets(chunk: seq<Byte>)
    requires 1 <= |chunk| <= 3
    ensures var n := Triple(At(chunk, 0), At(chunk, 1), At(chunk, 2));
      && |Sextets(chunk)| == |chunk| + 1
      && n / Shift(0) % 64 == Sextets(chunk)[0] && n / Shift(1) % 64 == Sextets(chunk)[1]
      && (|chunk| >= 2 ==> n / Shift(2) % 64 == Sextets(chunk)[2])
      && (|chunk| >= 3 ==> n / Shift(3) % 64 == Sextets(chunk)[3])
  {
    var a, b, c := At(chunk, 0), At(chunk, 1), At(chunk, 2);
    ShiftsPickSextets(a, b, c);
    if |chunk| == 3 {
      assert chunk[3..] == [];
      assert Sextets(chunk) == [First(a), Second(a, b), Third(b, c), Fourth(c)];
    } else if |chunk| == 2 {
      assert Sextets(chunk) == [First(a), Second(a, b), Third(b, c)];
    } else {
      assert Sextets(chunk) == [First(a), Second(a, b)];
    }
  }

  function At(chunk: seq<Byte>, i: nat): Byte {
    if i < |chunk| then chunk[i] else 0
  }

  lemma {:induction false} SymbolsConcat(us: seq<Sextet>, vs: seq<Sextet>)
    ensures Symbols(us + vs) == Symbols(us) + Symbols(vs)
    decreases |us|
  {
    if us == [] {
      assert us + vs == vs;
    } else {
      assert (us + vs)[1..] == us[1..] + vs;
      SymbolsConcat(us[1..], vs);
    }
  }

  method EncodeChunk(chunk: seq<Byte>) returns (out: string)
    requires 1 <= |chunk| <= 3
    ensures out == Encode(chunk)
  {
    var triple: nat := 0;
    for i := 0 to |chunk|
      invariant triple == Folded(chunk, i)
    {
      triple := triple + Placed(chunk[i], i);
    }
    FoldedIsTriple(chunk);
    ghost var vs := Sextets(chunk);
    ChunkPicksSextets(chunk);
    out := "";
    for i := 0 to |chunk| + 1
      invariant out == Symbols(vs[..i])
    {
      assert triple / Shift(i) % 64 == vs[i];
      assert vs[..i + 1] == vs[..i] + [vs[i]];
      SymbolsConcat(vs[..i], [vs[i]]);
      out := out + [Symbol(triple / Shift(i) % 64)];
    }
    assert vs[..|vs|] == vs;
  }

  function Folded(chunk: seq<Byte>, n: nat): nat
    requires n <= |chunk|
  {
    if n == 0 then 0 else Folded(chunk, n - 1) + Placed(chunk[n - 1], n - 1)
  }

  lemma FoldedIsTriple(chunk: seq<Byte>)
    requires 1 <= |chunk| <= 3
    ensures Folded(chunk, |chunk|) == Triple(At(chunk, 0), At(chunk, 1), At(chunk, 2))
  {
    assert Folded(chunk, 1) == Folded(chunk, 0) + Placed(chunk[0], 0);
    if |chunk| >= 2 {
      assert Folded(chunk, 2) == Folded(chunk, 1) + Placed(chunk[1], 1);
    }
  }

  method Base64url(bytes: seq<Byte>) returns (out: string)
    ensures out == Encode(bytes)
  {
    out := "";
    var at := 0;
    while at < |bytes|
      invariant at <= |bytes| && out + Encode(bytes[at..]) == Encode(bytes)
    {
      var next := if at + 3 <= |bytes| then at + 3 else |bytes|;
      ghost var rest := bytes[at..];
      var chunk := EncodeChunk(bytes[at..next]);
      SextetsOfChunk(rest, bytes[at..next], bytes[next..]);
      assert out + (chunk + Encode(bytes[next..])) == (out + chunk) + Encode(bytes[next..]);
      out, at := out + chunk, next;
    }
    assert out + "" == out;
  }

  lemma SextetsOfChunk(all: seq<Byte>, chunk: seq<Byte>, rest: seq<Byte>)
    requires all == chunk + rest && (|chunk| == 3 || (1 <= |chunk| <= 3 && rest == []))
    ensures Encode(all) == Encode(chunk) + Encode(rest)
  {
    if |chunk| == 3 {
      assert all[3..] == rest && chunk[3..] == [];
      assert Sextets(all) == Sextets(chunk) + Sextets(rest);
    } else {
      assert all == chunk;
      assert Sextets(all) == Sextets(chunk) + Sextets(rest);
    }
    SymbolsConcat(Sextets(chunk), Sextets(rest));
  }

  // --- The decoder's loop ---

  // One more sextet completes a byte unless it starts a group of four.
  lemma EmittedByOneMore(vs: seq<Sextet>, v: Sextet)
    ensures Emitted(vs + [v]) == Emitted(vs) + if |vs| % 4 == 0 then [] else [ByteOf(NextPiece(vs, v))]
  {
    PiecesByOneMore(vs, v);
    if |vs| % 4 == 0 {
      assert Pieces(vs) + [] == Pieces(vs) && Emitted(vs) + [] == Emitted(vs);
    } else {
      BytesConcat(Pieces(vs), [NextPiece(vs, v)]);
      BytesOfOne(NextPiece(vs, v));
    }
  }

  // The bits waiting are all the decoder needs of the sextet before.
  lemma CompletedIs(vs: seq<Sextet>, v: Sextet)
    requires |vs| % 4 != 0
    ensures ByteOf(NextPiece(vs, v)) == Completed(BitsLeft(|vs|), Left(vs), v)
  {
    var last := vs[|vs| - 1];
    if |vs| % 4 == 1 {
      SixWaiting(last, v);
    } else if |vs| % 4 == 2 {
      FourWaiting(last, v);
    } else {
      TwoWaiting(last, v);
    }
  }

  lemma SixWaiting(last: Sextet, v: Sextet)
    ensures Completed(6, Below(last, 6), v) == High(last, v)
  {
    assert (last * 64 + v) / 16 == last * 4 + v / 16;
  }

  lemma FourWaiting(last: Sextet, v: Sextet)
    ensures Completed(4, Below(last, 4), v) == Middle(last, v)
  {
    assert (last % 16 * 64 + v) / 4 == last % 16 * 16 + v / 4;
  }

  lemma TwoWaiting(last: Sextet, v: Sextet)
    ensures Completed(2, Below(last, 2), v) == Low(last, v)
  {
  }

  // The byte that `v` completes when `bits` bits, saying `left`, were waiting for it.
  function Completed(bits: nat, left: nat, v: Sextet): Byte
    requires (bits == 6 && left < 64) || (bits == 4 && left < 16) || (bits == 2 && left < 4)
  {
    Above(left * 64 + v, bits - 2)
  }

  lemma PicksFour(k: int, y: nat)
    requires y < 1024
    ensures (1024 * k + y) / 4 % 256 == y / 4 && (1024 * k + y) % 4 == y % 4
  {
    assert (1024 * k + y) / 4 == 256 * k + y / 4;
  }

  lemma PicksSix(k: int, y: nat)
    requires y < 4096
    ensures (4096 * k + y) / 16 % 256 == y / 16 && (4096 * k + y) % 16 == y % 16
  {
    assert (4096 * k + y) / 16 == 256 * k + y / 16;
  }

  // Masking to sixteen bits keeps every bit the next bytes still need: what is lost are
  // whole multiples of 2^16.
  lemma RemainderIs(x: nat, k: nat, rest: nat)
    requires x == 65536 * k + rest && rest < 65536
    ensures x % 65536 == rest
  {
  }

  lemma MaskedSix(q: nat, y: nat)
    requires y < 4096
    ensures (4096 * q + y) % 65536 == 4096 * (q % 16) + y
  {
    assert q == 16 * (q / 16) + q % 16;
    RemainderIs(4096 * q + y, q / 16, 4096 * (q % 16) + y);
  }

  lemma MaskedFour(q: nat, y: nat)
    requires y < 1024
    ensures (1024 * q + y) % 65536 == 1024 * (q % 64) + y
  {
    assert q == 64 * (q / 64) + q % 64;
    RemainderIs(1024 * q + y, q / 64, 1024 * (q % 64) + y);
  }

  lemma MaskedTwo(q: nat, y: nat)
    requires y < 256
    ensures (256 * q + y) % 65536 == 256 * (q % 256) + y
  {
    assert q == 256 * (q / 256) + q % 256;
    RemainderIs(256 * q + y, q / 256, 256 * (q % 256) + y);
  }

  lemma BufferKeepsSix(buffer: nat, v: Sextet)
    ensures var next := (buffer * 64 + v) % 65536;
      next / 16 % 256 == (buffer % 64 * 64 + v) / 16 && next % 16 == v % 16
  {
    var q, left := buffer / 64, buffer % 64;
    var y := left * 64 + v;
    assert buffer * 64 + v == 4096 * q + y;
    MaskedSix(q, y);
    PicksSix(q % 16, y);
    SixteensOf(4 * left, v);
  }

  lemma SixteensOf(k: nat, v: Sextet)
    ensures (16 * k + v) % 16 == v % 16
  {
    assert 16 * k + v == 16 * (k + v / 16) + v % 16;
  }

  lemma FoursOf(k: nat, v: Sextet)
    ensures (4 * k + v) % 4 == v % 4
  {
    assert 4 * k + v == 4 * (k + v / 4) + v % 4;
  }

  lemma BufferKeepsFour(buffer: nat, v: Sextet)
    ensures var next := (buffer * 64 + v) % 65536;
      next / 4 % 256 == (buffer % 16 * 64 + v) / 4 && next % 4 == v % 4
  {
    var q, left := buffer / 16, buffer % 16;
    var y := left * 64 + v;
    assert buffer * 64 + v == 1024 * q + y;
    MaskedFour(q, y);
    PicksFour(q % 64, y);
    FoursOf(16 * left, v);
  }

  lemma BufferKeepsTwo(buffer: nat, v: Sextet)
    ensures (buffer * 64 + v) % 65536 % 256 == buffer % 4 * 64 + v
  {
    var q := buffer / 4;
    var y := buffer % 4 * 64 + v;
    assert buffer * 64 + v == 256 * q + y;
    MaskedTwo(q, y);
    PicksTwo(q % 256, y);
  }

  lemma PicksTwo(k: nat, y: nat)
    requires y < 256
    ensures (256 * k + y) % 256 == y
  {
  }

  lemma BufferKeepsLeft(buffer: nat, bits: nat, v: Sextet)
    requires bits in {2, 4, 6}
    ensures var next := (buffer * 64 + v) % 65536;
      && Above(next, bits - 2) % 256 == Completed(bits, Below(buffer, bits), v)
      && Below(next, bits - 2) == Below(v, bits - 2)
  {
    if bits == 6 {
      BufferKeepsSix(buffer, v);
    } else if bits == 4 {
      BufferKeepsFour(buffer, v);
    } else {
      BufferKeepsTwo(buffer, v);
    }
  }

  lemma BufferStartsGroup(buffer: nat, v: Sextet)
    ensures (buffer * 64 + v) % 65536 % 64 == v
  {
    var m := (buffer * 64 + v) / 65536;
    assert (buffer * 64 + v) % 65536 == (buffer - 1024 * m) * 64 + v;
  }

  // What the loop keeps: the bytes pushed so far, and in the buffer's low bits the rest.
  ghost predicate Holds(vs: seq<Sextet>, out: seq<Byte>, buffer: nat, bits: nat) {
    out == Emitted(vs) && bits == BitsLeft(|vs|) && Below(buffer, bits) == Left(vs)
  }

  lemma LeftOfOneMore(vs: seq<Sextet>, v: Sextet)
    ensures Left(vs + [v]) == Below(v, BitsLeft(|vs| + 1))
    ensures BitsLeft(|vs| + 1) == if BitsLeft(|vs|) == 0 then 6 else BitsLeft(|vs|) - 2
  {
  }

  lemma PushStartsGroup(vs: seq<Sextet>, out: seq<Byte>, buffer: nat, v: Sextet)
    requires Holds(vs, out, buffer, 0)
    ensures Holds(vs + [v], out, (buffer * 64 + v) % 65536, 6)
  {
    EmittedByOneMore(vs, v);
    GroupStarts(vs, v, buffer);
  }

  lemma GroupStarts(vs: seq<Sextet>, v: Sextet, buffer: nat)
    requires BitsLeft(|vs|) == 0
    ensures BitsLeft(|vs + [v]|) == 6 && |vs| % 4 == 0
    ensures Below((buffer * 64 + v) % 65536, 6) == Left(vs + [v])
  {
    LeftOfOneMore(vs, v);
    BufferStartsGroup(buffer, v);
  }

  lemma PushCompletesByte(vs: seq<Sextet>, out: seq<Byte>, buffer: nat, bits: nat, v: Sextet)
    requires bits in {2, 4, 6} && Holds(vs, out, buffer, bits)
    ensures var next := (buffer * 64 + v) % 65536;
      Holds(vs + [v], out + [Above(next, bits - 2) % 256], next, bits - 2)
  {
    LeftOfOneMore(vs, v);
    EmittedByOneMore(vs, v);
    CompletedIs(vs, v);
    BufferKeepsLeft(buffer, bits, v);
  }

  method Push(out: seq<Byte>, buffer: nat, bits: nat, v: Sextet, ghost vs: seq<Sextet>)
    returns (out': seq<Byte>, buffer': nat, bits': nat)
    requires Holds(vs, out, buffer, bits)
    ensures Holds(vs + [v], out', buffer', bits') && buffer' < 65536
  {
    if bits == 0 {
      PushStartsGroup(vs, out, buffer, v);
    } else {
      PushCompletesByte(vs, out, buffer, bits, v);
    }
    out', buffer', bits' := out, (buffer * 64 + v) % 65536, bits + 6;
    if bits' >= 8 {
      bits' := bits' - 8;
      out' := out' + [Above(buffer', bits') % 256];
    }
  }

  method FromBase64url(text: string) returns (r: Option<seq<Byte>>)
    ensures r == Decode(text)
  {
    var out: seq<Byte> := [];
    var buffer: nat, bits: nat := 0, 0;
    ghost var vs: seq<Sextet> := [];
    for i := 0 to |text|
      invariant Values(text[..i]) == Some(vs) && Holds(vs, out, buffer, bits)
    {
      var value := SextetOf(text[i]);
      ValuesOfOneMore(text, i);
      if value == None {
        return None;
      }
      out, buffer, bits := Push(out, buffer, bits, value.value, vs);
      vs := vs + [value.value];
    }
    assert text[..|text|] == text;
    r := if bits < 6 && Below(buffer, bits) == 0 then Some(out) else None;
  }

  lemma {:induction false} ValuesOfOneMore(text: string, i: nat)
    requires i < |text|
    ensures Values(text[..i + 1]) ==
      if Values(text[..i]).Some? && SextetOf(text[i]).Some?
      then Some(Values(text[..i]).value + [SextetOf(text[i]).value]) else None
    ensures SextetOf(text[i]) == None ==> Values(text) == None
    decreases |text|
  {
    if i == 0 {
      assert text[..1] == [text[0]] && text[..1][1..] == [] && Values([]) == Some([]);
      if SextetOf(text[0]).Some? {
        assert [SextetOf(text[0]).value] + [] == [] + [SextetOf(text[0]).value];
      }
    } else {
      ValuesOfOneMore(text[1..], i - 1);
      var front, tail := text[..i + 1], text[1..][..i];
      assert text[1..][i - 1] == text[i] && front[0] == text[0] == text[..i][0];
      assert front[1..] == tail;
      assert text[..i][1..] == text[1..][..i - 1];
      if Values(text[..i]).Some? && SextetOf(text[i]).Some? {
        var v, vs, w := SextetOf(text[0]).value, Values(text[1..][..i - 1]).value, SextetOf(text[i]).value;
        assert [v] + (vs + [w]) == ([v] + vs) + [w];
      }
    }
  }
}
