/**
 The generator of rand.c: MT19937, refilled in place, against its recurrence.
 */
module Mt {
  const N: nat := 624
  const M: nat := 397
  const MATRIX_A: bv32 := 0x9908b0df
  const UPPER_MASK: bv32 := 0x80000000
  const LOWER_MASK: bv32 := 0x7fffffff
  const MASK_B: bv32 := 0x9d2c5680
  const MASK_C: bv32 := 0xefc60000
  const RAND_MAX: bv32 := 0x7fffffff
  const DEFAULT_SEED: bv32 := 4357

  /** The top bit of u, and the others of v. */
  function Row(u: bv32, v: bv32): bv32 {
    (u & UPPER_MASK) | (v & LOWER_MASK)
  }

  function Half(y: bv32): bv32 {
    y >> 1
  }

  /** mag01. */
  function Vector(y: bv32): bv32 {
    if y & 1 == 0 then 0 else MATRIX_A
  }

  function Twist(u: bv32, v: bv32): bv32 {
    Xor(Half(Row(u, v)), Vector(Row(u, v)))
  }

  /** x[k + 624] = x[k + 397] ^ twist(x[k], x[k + 1]) */
  ghost predicate Follows(xs: seq<bv32>, k: nat)
    requires k + N < |xs|
  {
    xs[k + N] == xs[k + M] ^ Twist(xs[k], xs[k + 1])
  }

  ghost predicate Recurrent(xs: seq<bv32>) {
    forall k: nat :: k + N < |xs| ==> Follows(xs, k)
  }

  lemma Snoc(xs: seq<bv32>, x: bv32)
    requires Recurrent(xs) && |xs| >= N
    requires x == xs[|xs| - N + M] ^ Twist(xs[|xs| - N], xs[|xs| - N + 1])
    ensures Recurrent(xs + [x])
  {
    var ys := xs + [x];
    forall k: nat | k + N < |ys|
      ensures Follows(ys, k)
    {
      if k + N < |xs| {
        assert Follows(xs, k);
      }
    }
  }

  // ---- tempering ----

  /** The four statements of tempering: each adds to y, bit by bit, a shifted and masked copy of it. */
  datatype Stage = U | S | T | L

  function Xor(x: bv32, y: bv32): bv32 {
    x ^ y
  }

  function PartU(y: bv32): bv32 { y >> 11 }

  function PartS(y: bv32): bv32 { (y << 7) & MASK_B }

  function PartT(y: bv32): bv32 { (y << 15) & MASK_C }

  function PartL(y: bv32): bv32 { y >> 18 }

  function Part(g: Stage, y: bv32): bv32 {
    match g
    case U => PartU(y)
    case S => PartS(y)
    case T => PartT(y)
    case L => PartL(y)
  }

  function Shift(g: Stage, y: bv32): bv32 {
    Xor(y, Part(g, y))
  }

  function Temper(y: bv32): bv32 {
    Shift(L, Shift(T, Shift(S, Shift(U, y))))
  }

  lemma XorAssociates(x: bv32, y: bv32, z: bv32)
    ensures Xor(Xor(x, y), z) == Xor(x, Xor(y, z))
  {
  }

  lemma XorCancels(x: bv32, y: bv32)
    ensures Xor(x, Xor(x, y)) == y
  {
  }

  lemma XorCommutes(x: bv32, y: bv32)
    ensures Xor(x, y) == Xor(y, x)
  {
  }

  lemma XorZero(x: bv32)
    ensures Xor(x, 0) == x
  {
  }

  lemma XorU(x: bv32, y: bv32)
    ensures PartU(Xor(x, y)) == Xor(PartU(x), PartU(y))
  {
  }

  lemma XorS(x: bv32, y: bv32)
    ensures PartS(Xor(x, y)) == Xor(PartS(x), PartS(y))
  {
  }

  lemma XorT(x: bv32, y: bv32)
    ensures PartT(Xor(x, y)) == Xor(PartT(x), PartT(y))
  {
  }

  lemma XorL(x: bv32, y: bv32)
    ensures PartL(Xor(x, y)) == Xor(PartL(x), PartL(y))
  {
  }

  lemma PartXor(g: Stage, x: bv32, y: bv32)
    ensures Part(g, Xor(x, y)) == Xor(Part(g, x), Part(g, y))
  {
    hide Xor, PartU, PartS, PartT, PartL;
    match g
    case U => XorU(x, y);
    case S => XorS(x, y);
    case T => XorT(x, y);
    case L => XorL(x, y);
  }

  /** n times the shifted copy of the shifted copy. */
  function Power(g: Stage, n: nat, y: bv32): bv32 {
    if n == 0 then y else Part(g, Power(g, n - 1, y))
  }

  lemma GoneU(y: bv32)
    ensures PartU(PartU(PartU(y))) == 0 && PartU(0) == 0
  {
  }

  /** Each shift by seven clears seven more bits. */
  lemma ClearsS(y: bv32, m: bv32)
    requires y & m == 0
    ensures PartS(y) & ((m << 7) | 0x7f) == 0
  {
  }

  lemma GoneT(y: bv32)
    ensures PartT(PartT(y)) == 0 && PartT(0) == 0
  {
  }

  lemma GoneL(y: bv32)
    ensures PartL(PartL(y)) == 0 && PartL(0) == 0
  {
  }

  lemma GoneS(y: bv32)
    ensures PartS(PartS(PartS(PartS(PartS(y))))) == 0
  {
    hide PartS;
    var a := PartS(y);
    var b := PartS(a);
    var c := PartS(b);
    var d := PartS(c);
    ClearsS(y, 0);
    ClearsS(a, 0x7f);
    ClearsS(b, 0x3fff);
    ClearsS(c, 0x1fffff);
    ClearsS(d, 0xfffffff);
  }

  lemma FiveTimes(g: Stage, y: bv32)
    ensures Power(g, 5, y) == Part(g, Part(g, Part(g, Part(g, Part(g, y)))))
  {
    hide Part;
    assert Power(g, 3, y) == Part(g, Power(g, 2, y)) && Power(g, 2, y) == Part(g, Power(g, 1, y));
    assert Power(g, 1, y) == Part(g, Power(g, 0, y));
  }

  /** Five times shifted, nothing is left of 32 bits. */
  lemma Gone(g: Stage, y: bv32)
    ensures Power(g, 5, y) == 0
  {
    hide PartU, PartS, PartT, PartL, Power;
    FiveTimes(g, y);
    match g
    case U => GoneU(y);
    case S => GoneS(y);
    case T => GoneT(y);
    case L => GoneL(y);
  }

  /** To undo a stage, take the result as a first guess, and correct it n times. */
  function Unshift(g: Stage, n: nat, z: bv32): bv32 {
    if n == 0 then z else Xor(z, Part(g, Unshift(g, n - 1, z)))
  }

  function Untemper(z: bv32): bv32 {
    Unshift(U, 4, Unshift(S, 4, Unshift(T, 4, Unshift(L, 4, z))))
  }

  /** After n corrections the error is the copy shifted n + 1 times. */
  lemma {:induction false} UnshiftShift(g: Stage, n: nat, y: bv32)
    ensures Unshift(g, n, Shift(g, y)) == Xor(y, Power(g, n + 1, y))
  {
    hide Xor, Part;
    if n == 0 {
      assert Power(g, 1, y) == Part(g, Power(g, 0, y)) == Part(g, y);
    } else {
      var p, e := Part(g, y), Power(g, n, y);
      UnshiftShift(g, n - 1, y);
      PartXor(g, y, e);
      XorAssociates(y, p, Xor(p, Part(g, e)));
      XorCancels(p, Part(g, e));
    }
  }

  lemma {:induction false} ShiftUnshift(g: Stage, n: nat, z: bv32)
    ensures Shift(g, Unshift(g, n, z)) == Xor(z, Power(g, n + 1, z))
  {
    hide Xor, Part;
    if n == 0 {
      assert Power(g, 1, z) == Part(g, Power(g, 0, z)) == Part(g, z);
    } else {
      var u, e := Unshift(g, n - 1, z), Power(g, n, z);
      var p := Part(g, u);
      ShiftUnshift(g, n - 1, z);
      // z + p + part(z + p), where u + p = z + e, and so part(u) + part(p) = part(z) + part(e)
      PartXor(g, z, p);
      PartXor(g, u, p);
      PartXor(g, z, e);
      Regroup(z, p, Part(g, z), Part(g, p), Part(g, e));
    }
  }

  lemma Regroup(z: bv32, p: bv32, pz: bv32, pp: bv32, pe: bv32)
    requires Xor(p, pp) == Xor(pz, pe)
    ensures Xor(Xor(z, p), Xor(pz, pp)) == Xor(z, pe)
  {
    hide Xor;
    XorAssociates(z, p, Xor(pz, pp));
    XorCommutes(pz, pp);
    XorAssociates(p, pp, pz);
    XorCommutes(Xor(pz, pe), pz);
    XorCancels(pz, pe);
  }

  lemma Undo(g: Stage, y: bv32)
    ensures Unshift(g, 4, Shift(g, y)) == y && Shift(g, Unshift(g, 4, y)) == y
  {
    hide Xor, Part, Power;
    UnshiftShift(g, 4, y);
    ShiftUnshift(g, 4, y);
    Gone(g, y);
    XorZero(y);
  }

  /** Tempering is a bijection on 32-bit words. */
  lemma Bijection(y: bv32)
    ensures Untemper(Temper(y)) == y && Temper(Untemper(y)) == y
  {
    hide Shift, Unshift;
    Undo(U, y);
    Undo(S, Shift(U, y));
    Undo(T, Shift(S, Shift(U, y)));
    Undo(L, Shift(T, Shift(S, Shift(U, y))));
    Undo(L, y);
    Undo(T, Unshift(L, 4, y));
    Undo(S, Unshift(T, 4, Unshift(L, 4, y)));
    Undo(U, Unshift(S, 4, Unshift(T, 4, Unshift(L, 4, y))));
  }

  // ---- bit by bit ----

  /** p is one bit, or none; p << n is the bit n above it, if there is one, and p >> n the bit n below. */
  predicate Single(p: bv32) {
    p & (p - 1) == 0
  }

  function And(x: bv32, p: bv32): bv32 {
    x & p
  }

  predicate Has(x: bv32, p: bv32) {
    And(x, p) != 0
  }

  lemma OneOrNone(x: bv32, p: bv32)
    requires Single(p)
    ensures And(x, p) == 0 || And(x, p) == p
  {
  }

  lemma XorMask(x: bv32, y: bv32, p: bv32)
    ensures And(Xor(x, y), p) == Xor(And(x, p), And(y, p))
  {
  }

  lemma XorSame(x: bv32)
    ensures Xor(x, x) == 0 && Xor(x, 0) == x == Xor(0, x)
  {
  }

  lemma XorBit(x: bv32, y: bv32, p: bv32)
    requires Single(p)
    ensures Has(Xor(x, y), p) <==> Has(x, p) != Has(y, p)
  {
    hide Single, Xor, And;
    OneOrNone(x, p);
    OneOrNone(y, p);
    XorMask(x, y, p);
    XorSame(p);
    XorSame(0);
  }

  lemma AndBit(x: bv32, m: bv32, p: bv32)
    requires Single(p)
    ensures Has(x & m, p) <==> Has(x, p) && Has(m, p)
  {
  }

  /** What is bit p of a word shifted to the right is the bit above in the word; to the left, the one below. */
  lemma RightBit(x: bv32, p: bv32)
    ensures Has(x >> 11, p) <==> Has(x, p << 11)
    ensures Has(x >> 18, p) <==> Has(x, p << 18)
    ensures Has(x >> 1, p) <==> Has(x, p << 1)
  {
  }

  lemma LeftBit(x: bv32, p: bv32)
    ensures Has(x << 7, p) <==> Has(x, p >> 7)
    ensures Has(x << 15, p) <==> Has(x, p >> 15)
  {
  }

  lemma SingleShifts(p: bv32)
    requires Single(p)
    ensures Single(p << 11) && Single(p << 18) && Single(p << 1) && Single(p >> 7) && Single(p >> 15)
  {
  }

  /** Bit p of a word after the first tempering statement is that bit and the one eleven above it, ... */
  predicate AfterU(y: bv32, p: bv32) {
    Has(y, p) != Has(y, p << 11)
  }

  /** ... after the second, that and the one seven below, where the mask has a one, ... */
  predicate AfterS(y: bv32, p: bv32) {
    AfterU(y, p) != (AfterU(y, p >> 7) && Has(0x9d2c5680, p))
  }

  /** ... after the third, that and the one fifteen below, where the mask has a one, ... */
  predicate AfterT(y: bv32, p: bv32) {
    AfterS(y, p) != (AfterS(y, p >> 15) && Has(0xefc60000, p))
  }

  /** ... and after the fourth, that and the one eighteen above. */
  predicate AfterL(y: bv32, p: bv32) {
    AfterT(y, p) != AfterT(y, p << 18)
  }

  /** Every bit of the tempered word. */
  lemma TemperBits(y: bv32, p: bv32)
    requires Single(p)
    ensures Has(Temper(y), p) <==> AfterL(y, p)
  {
    hide Xor, PartU, PartS, PartT, PartL, Has, Single, AfterU, AfterS, AfterT;
    var a := Shift(U, y);
    var b := Shift(S, a);
    var c := Shift(T, b);
    SingleShifts(p);
    BitsT(y, a, b, p);
    BitsT(y, a, b, p << 18);
    BitL(c, p);
  }

  lemma Low31Bits(y: bv32, p: bv32)
    requires Single(p)
    ensures Has(Low31(y), p) <==> p != 0x80000000 && Has(y, p)
  {
    AndBit(y, RAND_MAX, p);
    LowBits(p);
    hide Single;
  }

  lemma LowBits(p: bv32)
    requires Single(p)
    ensures Has(RAND_MAX, p) <==> p != 0 && p != 0x80000000
  {
  }

  lemma BitU(y: bv32, p: bv32)
    requires Single(p)
    ensures Has(Shift(U, y), p) <==> AfterU(y, p)
  {
    hide Xor, Has, Single;
    XorBit(y, y >> 11, p);
    RightBit(y, p);
  }

  lemma PartSBit(y: bv32, p: bv32)
    requires Single(p)
    ensures Has(PartS(y), p) <==> Has(y, p >> 7) && Has(0x9d2c5680, p)
  {
    hide Has, Single;
    AndBit(y << 7, MASK_B, p);
    LeftBit(y, p);
  }

  lemma PartTBit(y: bv32, p: bv32)
    requires Single(p)
    ensures Has(PartT(y), p) <==> Has(y, p >> 15) && Has(0xefc60000, p)
  {
    hide Has, Single;
    AndBit(y << 15, MASK_C, p);
    LeftBit(y, p);
  }

  lemma BitS(y: bv32, p: bv32)
    requires Single(p)
    ensures Has(Shift(S, y), p) <==> Has(y, p) != (Has(y, p >> 7) && Has(0x9d2c5680, p))
  {
    hide Xor, Has, Single, PartS;
    XorBit(y, PartS(y), p);
    PartSBit(y, p);
  }

  lemma BitT(y: bv32, p: bv32)
    requires Single(p)
    ensures Has(Shift(T, y), p) <==> Has(y, p) != (Has(y, p >> 15) && Has(0xefc60000, p))
  {
    hide Xor, Has, Single, PartT;
    XorBit(y, PartT(y), p);
    PartTBit(y, p);
  }

  lemma BitL(y: bv32, p: bv32)
    requires Single(p)
    ensures Has(Shift(L, y), p) <==> Has(y, p) != Has(y, p << 18)
  {
    hide Xor, Has, Single;
    XorBit(y, y >> 18, p);
    RightBit(y, p);
  }

  lemma BitsS(y: bv32, a: bv32, p: bv32)
    requires Single(p) && a == Shift(U, y)
    ensures Has(Shift(S, a), p) <==> AfterS(y, p)
  {
    hide Xor, PartU, PartS, Has, Single, AfterU;
    SingleShifts(p);
    BitU(y, p);
    BitU(y, p >> 7);
    BitS(a, p);
  }

  lemma BitsT(y: bv32, a: bv32, b: bv32, p: bv32)
    requires Single(p) && a == Shift(U, y) && b == Shift(S, a)
    ensures Has(Shift(T, b), p) <==> AfterT(y, p)
  {
    hide Xor, PartU, PartS, PartT, Has, Single, AfterU, AfterS;
    SingleShifts(p);
    BitsS(y, a, p);
    BitsS(y, a, p >> 15);
    BitT(b, p);
  }

  /** Bit p of the word y of the recurrence: the top bit of u, and below it the bits of v. */
  predicate Mixed(u: bv32, v: bv32, p: bv32) {
    if p == 0x80000000 then Has(u, p) else Has(v, p)
  }

  /** Every bit of twist(u, v): the bit above it in that word, and, if v is odd, that of the constant vector. */
  lemma TwistBits(u: bv32, v: bv32, p: bv32)
    requires Single(p)
    ensures Has(Twist(u, v), p) <==> Mixed(u, v, p << 1) != (Has(v, 1) && Has(0x9908b0df, p))
  {
    hide Has, Single, Mixed, Xor, Row, Half, Vector;
    XorBit(Half(Row(u, v)), Vector(Row(u, v)), p);
    HalfBit(Row(u, v), p);
    SingleShifts(p);
    RowBit(u, v, p << 1);
    VectorBit(u, v, p);
  }

  lemma HalfBit(y: bv32, p: bv32)
    ensures Has(Half(y), p) <==> Has(y, p << 1)
  {
    hide Has;
    RightBit(y, p);
  }

  lemma RowBit(u: bv32, v: bv32, p: bv32)
    requires Single(p)
    ensures Has(Row(u, v), p) <==> Mixed(u, v, p)
  {
    OrBit(u & UPPER_MASK, v & LOWER_MASK, p);
    AndBit(u, UPPER_MASK, p);
    AndBit(v, LOWER_MASK, p);
    LowBits(p);
    TopBit(u, p);
    NoBit(p);
    hide Has, Single;
  }

  lemma OrBit(x: bv32, y: bv32, p: bv32)
    ensures Has(x | y, p) <==> Has(x, p) || Has(y, p)
  {
    OrMask(x, y, p);
    OrZero(And(x, p), And(y, p));
    hide And;
  }

  lemma OrMask(x: bv32, y: bv32, p: bv32)
    ensures And(x | y, p) == And(x, p) | And(y, p)
  {
  }

  lemma OrZero(x: bv32, y: bv32)
    ensures x | y == 0 <==> x == 0 && y == 0
  {
  }

  lemma TopBit(x: bv32, p: bv32)
    requires Single(p)
    ensures Has(UPPER_MASK, p) <==> p == 0x80000000
  {
  }

  lemma VectorBit(u: bv32, v: bv32, p: bv32)
    ensures Has(Vector(Row(u, v)), p) <==> Has(v, 1) && Has(0x9908b0df, p)
  {
    OddBit(u, v);
    NoBit(p);
    hide Has, Row;
  }

  lemma OddBit(u: bv32, v: bv32)
    ensures Row(u, v) & 1 == v & 1
    ensures Has(v, 1) <==> v & 1 != 0
  {
  }

  lemma NoBit(p: bv32)
    ensures !Has(0, p) && !Has(p, 0)
  {
  }

  // ---- the seed's words ----

  function Plus(x: bv32, y: bv32): bv32 {
    x + y
  }

  lemma PlusAssociates(x: bv32, y: bv32, z: bv32)
    ensures Plus(Plus(x, y), z) == Plus(x, Plus(y, z))
    ensures Plus(x, 0) == x
  {
  }

  /** A number modulo 2^32, counted up from 0. */
  function Word32(n: nat): bv32 {
    if n == 0 then 0 else Plus(Word32(n - 1), 1)
  }

  lemma {:induction false} Word32Sum(a: nat, b: nat)
    ensures Word32(a + b) == Plus(Word32(a), Word32(b))
  {
    hide Plus;
    PlusAssociates(Word32(a), 0, 0);
    if b > 0 {
      Word32Sum(a, b - 1);
      assert Word32(a + b) == Plus(Word32(a + (b - 1)), 1);
      PlusAssociates(Word32(a), Word32(b - 1), 1);
    }
  }

  lemma Doubled(n: nat, x: bv32)
    requires Word32(n) == x
    ensures Word32(2 * n) == Plus(x, x)
    ensures Word32(2 * n + 1) == Plus(Plus(x, x), 1)
  {
    hide Plus, Word32;
    Word32Sum(n, n);
    NextWord(2 * n);
  }

  lemma NextWord(n: nat)
    ensures Word32(n + 1) == Plus(Word32(n), 1)
  {
  }

  /** 69069 is the sum of its binary digits. */
  lemma Factor()
    ensures Word32(69069) == 69069
  {
    hide Word32;
    assert Word32(1) == 1 by { Units(); }
    Doubled(1, 1);
    Doubled(2, 2);
    Doubled(4, 4);
    Doubled(8, 8);
    Doubled(16, 16);
    Doubled(33, 33);
    Doubled(67, 67);
    Doubled(134, 134);
    Doubled(269, 269);
    Doubled(539, 539);
    Doubled(1079, 1079);
    Doubled(2158, 2158);
    Doubled(4316, 4316);
    Doubled(8633, 8633);
    Doubled(17267, 17267);
    Doubled(34534, 34534);
  }

  lemma Units()
    ensures Word32(0) == 0 && Word32(1) == 1
  {
  }

  lemma KnuthNext(x: bv32)
    ensures Knuth(x + 1) == Knuth(x) + 69069
  {
  }

  lemma KnuthPlus(x: bv32)
    ensures Knuth(Plus(x, 1)) == Plus(Knuth(x), 69069)
  {
    hide Knuth;
    KnuthNext(x);
  }

  lemma KnuthZero()
    ensures Knuth(0) == 0
  {
  }

  /** Knuth's step multiplies by 69069, modulo 2^32. */
  lemma {:induction false} KnuthIs(n: nat)
    ensures Knuth(Word32(n)) == Word32(69069 * n)
  {
    hide Word32, Knuth, Plus;
    Units();
    KnuthZero();
    if n > 0 {
      KnuthIs(n - 1);
      NextWord(n - 1);
      KnuthPlus(Word32(n - 1));
      Factor();
      Word32Sum(69069 * (n - 1), 69069);
      assert 69069 * (n - 1) + 69069 == 69069 * n;
    }
  }

  // ---- the generator ----

  function Low31(y: bv32): bv32 {
    y & RAND_MAX
  }

  function Knuth(x: bv32): bv32 {
    69069 * x
  }

  /** The first N words, which sgenrand makes out of the seed. */
  function Seeded(seed: bv32, n: nat): (xs: seq<bv32>)
    requires n > 0
    ensures |xs| == n
  {
    if n == 1 then [seed]
    else
      var xs := Seeded(seed, n - 1);
      xs + [Knuth(xs[n - 2])]
  }

  function Scaled(s: nat, k: nat): nat {
    if k == 0 then s else 69069 * Scaled(s, k - 1)
  }

  /** The k-th word that the seed determines is 69069 to the power of k times the seed, modulo 2^32. */
  lemma {:induction false} SeededWord(s: nat, n: nat, k: nat)
    requires k < n
    ensures Seeded(Word32(s), n)[k] == Word32(Scaled(s, k))
  {
    hide Knuth, Word32;
    if n > 1 {
      if k < n - 1 {
        SeededWord(s, n - 1, k);
      } else {
        SeededWord(s, n - 1, k - 1);
        KnuthIs(Scaled(s, k - 1));
      }
    }
  }

  class Generator {
    const mt: array<bv32>
    var mti: nat
    // the recurrence so far, whose last N words are in mt, and the place of the next word to return
    ghost var xs: seq<bv32>
    ghost var next: nat

    ghost predicate Block()
      reads this, mt
    {
      && mt.Length == N && |xs| >= N && Recurrent(xs)
      && forall j :: 0 <= j < N ==> mt[j] == xs[|xs| - N + j]
    }

    /** mti == N + 1 means that nobody has called sgenrand. */
    ghost predicate Valid()
      reads this, mt
    {
      && mt.Length == N
      && if mti == N + 1 then xs == [] && next == 0 else mti <= N && Block() && next == |xs| - N + mti
    }

    constructor ()
      ensures Valid() && mti == N + 1 && fresh(mt)
    {
      mt := new bv32[N](_ => 0);
      mti, next := N + 1, 0;
      xs := [];
    }

    method Sgenrand(seed: bv32)
      requires mt.Length == N
      modifies this, mt
      ensures Valid() && mti == N && xs == Seeded(seed, N) && next == N
    {
      hide Knuth, Twist;
      mt[0] := seed;
      mti := 1;
      ghost var ys := Seeded(seed, 1);
      while mti < N
        invariant 1 <= mti <= N && ys == Seeded(seed, mti) && mt[..mti] == ys
      {
        mt[mti] := Knuth(mt[mti - 1]);
        mti := mti + 1;
        ys := Seeded(seed, mti);
      }
      xs, next := ys, N;
    }

    /** The two statements that make a word out of its predecessors u and v, and m. */
    method Word(u: bv32, v: bv32, m: bv32) returns (x: bv32)
      ensures x == m ^ Twist(u, v)
    {
      var y := (u & UPPER_MASK) | (v & LOWER_MASK);
      var mag := if y & 1 == 0 then 0 else MATRIX_A;
      x := m ^ (y >> 1) ^ mag;
    }

    /** kk words of the array have been replaced by the words that follow the block `was`. */
    ghost predicate Midway(was: seq<bv32>, kk: nat)
      reads this`xs, mt
    {
      && mt.Length == N && |was| >= N && kk <= N && |xs| == |was| + kk && was <= xs && Recurrent(xs)
      && (forall j :: 0 <= j < kk ==> mt[j] == xs[|was| + j])
      && forall j :: kk <= j < N ==> mt[j] == xs[|was| - N + j]
    }

    /** One word is replaced. */
    method Replace(kk: nat, v: bv32, m: bv32, ghost was: seq<bv32>)
      requires Midway(was, kk) && kk < N
      requires v == xs[|was| - N + kk + 1] && m == xs[|was| - N + kk + M]
      modifies this`xs, mt
      ensures Midway(was, kk + 1)
    {
      hide Twist;
      var x := Word(mt[kk], v, m);
      Snoc(xs, x);
      mt[kk] := x;
      xs := xs + [x];
    }

    /** The refill: its loops and its last statement read words of the old block and of the new one. */
    method Refill()
      requires Block()
      modifies this`xs, mt
      ensures Block() && |xs| == |old(xs)| + N && old(xs) <= xs
    {
      hide Twist, Recurrent;
      ghost var was := xs;
      var kk := 0;
      while kk < N - M
        invariant kk <= N - M && Midway(was, kk)
      {
        Replace(kk, mt[kk + 1], mt[kk + M], was);
        kk := kk + 1;
      }
      while kk < N - 1
        invariant N - M <= kk <= N - 1 && Midway(was, kk)
      {
        Replace(kk, mt[kk + 1], mt[kk + M - N], was);
        kk := kk + 1;
      }
      Replace(N - 1, mt[0], mt[M - 1], was);
    }

    /** genrand: the next word of the recurrence, tempered, without its top bit. */
    method Genrand() returns (r: bv32)
      requires Valid()
      modifies this, mt
      ensures Valid() && Recurrent(xs)
      ensures old(mti) == N + 1 ==> Seeded(DEFAULT_SEED, N) <= xs && next == N + 1
      ensures old(mti) != N + 1 ==> old(xs) <= xs && next == old(next) + 1
      ensures 0 < next <= |xs| && r == Low31(Temper(xs[next - 1]))
      ensures forall p :: Single(p) ==> (Has(r, p) <==> p != 0x80000000 && AfterL(xs[next - 1], p))
    {
      hide Twist, Temper, Recurrent, Knuth, Low31, AfterL, Has, Single;
      if mti >= N {
        if mti == N + 1 {
          Sgenrand(DEFAULT_SEED);
        }
        Refill();
        mti := 0;
      }
      var y := Tempered(mt[mti]);
      mti := mti + 1;
      next := next + 1;
      r := Low31(y);
      forall p | Single(p)
        ensures Has(r, p) <==> p != 0x80000000 && AfterL(xs[next - 1], p)
      {
        TemperBits(xs[next - 1], p);
        Low31Bits(y, p);
      }
    }

    method Tempered(y: bv32) returns (z: bv32)
      ensures z == Temper(y)
    {
      hide Xor, PartU, PartS, PartT, PartL;
      z := y;
      z := Xor(z, PartU(z));
      z := Xor(z, PartS(z));
      z := Xor(z, PartT(z));
      z := Xor(z, PartL(z));
    }
  }
}
