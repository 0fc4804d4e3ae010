/** FNV-1a on 64 bits (section 2 of draft-eastlake-fnv) and the rendezvous score built on it. */
module Fnv {

  const MODULUS: nat := 0x1_0000_0000_0000_0000
  const OFFSET_BASIS: Word := 14695981039346656037
  const PRIME: nat := 1099511628211
  const PRIME_INVERSE: nat := 14886173955864302971

  type Word = h: nat | h < 0x1_0000_0000_0000_0000

  type Octet = b: nat | b < 256
  type Bytes = seq<Octet>

  function Xor(a: nat, b: nat, bits: nat): nat {
    if bits == 0 then 0 else 2 * Xor(a / 2, b / 2, bits - 1) + (a + b) % 2
  }

  function Pow2(bits: nat): nat {
    if bits == 0 then 1 else 2 * Pow2(bits - 1)
  }

  lemma {:induction false} XorBounded(a: nat, b: nat, bits: nat)
    ensures Xor(a, b, bits) < Pow2(bits)
  {
    if bits > 0 { XorBounded(a / 2, b / 2, bits - 1); }
  }

  lemma HalfAndParity(y: nat, bit: nat)
    requires bit < 2
    ensures (2 * y + bit) / 2 == y && (2 * y + bit) % 2 == bit
  {
  }

  lemma ParityTwice(x: nat, a: nat, b: nat)
    requires x % 2 == (a + b) % 2
    ensures (x + b) % 2 == a % 2
  {
  }

  lemma {:induction false} XorInvolutive(a: nat, b: nat, bits: nat)
    requires a < Pow2(bits)
    ensures Xor(Xor(a, b, bits), b, bits) == a
  {
    if bits > 0 {
      var x := Xor(a, b, bits);
      HalfAndParity(Xor(a / 2, b / 2, bits - 1), (a + b) % 2);
      XorInvolutive(a / 2, b / 2, bits - 1);
      ParityTwice(x, a, b);
    }
  }

  function XorOctet(a: Octet, b: Octet): Octet {
    XorBounded(a, b, 8);
    assert Pow2(4) == 16 && Pow2(8) == 16 * Pow2(4);
    Xor(a, b, 8)
  }

  /** Exclusive-or with an octet changes the low eight bits only. */
  function Mix(h: Word, b: Octet): Word {
    h / 256 * 256 + XorOctet(h % 256, b)
  }

  function Step(h: Word, b: Octet): Word {
    Mix(h, b) * PRIME % MODULUS
  }

  function Fold(h: Word, s: Bytes): Word
    decreases |s|
  {
    if s == [] then h else Fold(Step(h, s[0]), s[1..])
  }

  function Hash(s: Bytes): Word {
    Fold(OFFSET_BASIS, s)
  }

  /** The octets of ASCII text. */
  function Octets(s: string): Bytes {
    seq(|s|, i requires 0 <= i < |s| => (s[i] as int) % 256)
  }

  /** What the hash object's successive Write calls compute: the state after one more slice. */
  method Write(h: Word, s: Bytes) returns (r: Word)
    ensures r == Fold(h, s)
  {
    r := h;
    for i := 0 to |s|
      invariant Fold(r, s[i..]) == Fold(h, s)
    {
      assert s[i..][0] == s[i] && s[i..][1..] == s[i + 1..];
      r := Mix(r, s[i]);
      r := r * PRIME % MODULUS;
    }
    assert s[|s|..] == [];
  }

  /** The score of a backend for a client and a destination. */
  method HrwScore(backend: Bytes, client: Bytes, dest: Bytes) returns (score: Word)
    ensures score == Score(backend, client, dest)
  {
    score := Write(OFFSET_BASIS, backend);
    score := Write(score, [0]);
    score := Write(score, client);
    score := Write(score, [0]);
    score := Write(score, dest);
    FoldAppend(OFFSET_BASIS, backend, [0]);
    FoldAppend(OFFSET_BASIS, backend + [0], client);
    FoldAppend(OFFSET_BASIS, backend + [0] + client, [0]);
    FoldAppend(OFFSET_BASIS, backend + [0] + client + [0], dest);
  }

  /** Reference: the hash of the three names joined by zero bytes. */
  function Score(backend: Bytes, client: Bytes, dest: Bytes): Word {
    Hash(backend + [0] + client + [0] + dest)
  }

  lemma {:induction false} FoldAppend(h: Word, a: Bytes, b: Bytes)
    ensures Fold(h, a + b) == Fold(Fold(h, a), b)
    decreases |a|
  {
    if a == [] {
      assert a + b == b;
    } else {
      assert (a + b)[0] == a[0] && (a + b)[1..] == a[1..] + b;
      FoldAppend(Step(h, a[0]), a[1..], b);
    }
  }

  lemma MixInvolutive(h: Word, b: Octet)
    ensures Mix(Mix(h, b), b) == h
  {
    var hi, low := h / 256, XorOctet(h % 256, b);
    assert Mix(h, b) == hi * 256 + low;
    assert (hi * 256 + low) / 256 == hi && (hi * 256 + low) % 256 == low;
    assert Pow2(4) == 16 && Pow2(8) == 16 * Pow2(4);
    XorInvolutive(h % 256, b, 8);
  }

  lemma RemainderOf(v: int, k: int, x: Word)
    requires v == x + k * MODULUS
    ensures v % MODULUS == x
  {
  }

  /** Multiplying by the prime is undone by its inverse modulo 2^64. */
  lemma MultiplyInvertible(x: Word)
    ensures (x * PRIME % MODULUS) * PRIME_INVERSE % MODULUS == x
  {
    var k, r := x * PRIME / MODULUS, x * PRIME % MODULUS;
    var t := PRIME * PRIME_INVERSE / MODULUS;
    assert PRIME * PRIME_INVERSE == 1 + t * MODULUS;
    assert r == x * PRIME - k * MODULUS;
    RemainderOf(r * PRIME_INVERSE, x * t - k * PRIME_INVERSE, x);
  }

  /** One step is undone by the inverse multiplication and a second exclusive-or. */
  lemma StepInvertible(h: Word, b: Octet)
    ensures Mix(Step(h, b) * PRIME_INVERSE % MODULUS, b) == h
  {
    MultiplyInvertible(Mix(h, b));
    MixInvolutive(h, b);
  }

  /** Each input acts as a bijection on the hash state, so it can neither merge nor split states. */
  lemma {:induction false} FoldInjective(h1: Word, h2: Word, s: Bytes)
    ensures Fold(h1, s) == Fold(h2, s) <==> h1 == h2
    decreases |s|
  {
    if s != [] {
      FoldInjective(Step(h1, s[0]), Step(h2, s[0]), s[1..]);
      StepInvertible(h1, s[0]);
      StepInvertible(h2, s[0]);
    }
  }

  lemma TieIsBackendTie(b1: Bytes, b2: Bytes, client: Bytes, dest: Bytes)
    ensures Score(b1, client, dest) == Score(b2, client, dest) <==> Hash(b1) == Hash(b2)
  {
    var suffix := [0] + client + [0] + dest;
    assert b1 + [0] + client + [0] + dest == b1 + suffix;
    assert b2 + [0] + client + [0] + dest == b2 + suffix;
    FoldAppend(OFFSET_BASIS, b1, suffix);
    FoldAppend(OFFSET_BASIS, b2, suffix);
    FoldInjective(Hash(b1), Hash(b2), suffix);
  }

  /** Whether two backends tie does not depend on the client or the destination: a tie for one
      pair is a tie for all pairs, and it happens exactly when the backend names collide. */
  lemma TiesIgnoreClientAndDestination(b1: Bytes, b2: Bytes)
    ensures (exists c, d :: Score(b1, c, d) == Score(b2, c, d)) <==> Hash(b1) == Hash(b2)
    ensures (forall c, d :: Score(b1, c, d) == Score(b2, c, d)) <==> Hash(b1) == Hash(b2)
  {
    forall c, d ensures Score(b1, c, d) == Score(b2, c, d) <==> Hash(b1) == Hash(b2) {
      TieIsBackendTie(b1, b2, c, d);
    }
    assert Score(b1, [], []) == Score(b2, [], []) <==> Hash(b1) == Hash(b2);
  }

  // The score depends on every octet of its three names.

  lemma {:induction false} XorSymmetric(a: nat, b: nat, bits: nat)
    ensures Xor(a, b, bits) == Xor(b, a, bits)
  {
    if bits > 0 { XorSymmetric(a / 2, b / 2, bits - 1); }
  }

  lemma MixTells(h: Word, x: Octet, y: Octet)
    ensures Mix(h, x) == Mix(h, y) <==> x == y
  {
    var a := h % 256;
    assert Pow2(4) == 16 && Pow2(8) == 16 * Pow2(4);
    XorSymmetric(a, x, 8);
    XorSymmetric(a, y, 8);
    XorInvolutive(x, a, 8);
    XorInvolutive(y, a, 8);
  }

  /** One step tells any two octets apart. */
  lemma StepTells(h: Word, x: Octet, y: Octet)
    ensures Step(h, x) == Step(h, y) <==> x == y
  {
    MixTells(h, x, y);
    MultiplyInvertible(Mix(h, x));
    MultiplyInvertible(Mix(h, y));
  }

  /** Changing one octet anywhere changes the hash. */
  lemma OctetTells(h: Word, front: Bytes, x: Octet, y: Octet, back: Bytes)
    ensures Fold(h, front + [x] + back) == Fold(h, front + [y] + back) <==> x == y
  {
    var mid := Fold(h, front);
    FoldAppend(h, front + [x], back);
    FoldAppend(h, front + [y], back);
    FoldAppend(h, front, [x]);
    FoldAppend(h, front, [y]);
    assert Fold(mid, [x]) == Step(mid, x) && Fold(mid, [y]) == Step(mid, y);
    FoldInjective(Step(mid, x), Step(mid, y), back);
    StepTells(mid, x, y);
  }

  /** Names that differ in one octet never score alike: not as destination, not as client, not as backend. */
  lemma ScoreTellsOctets(b: Bytes, c: Bytes, d: Bytes, front: Bytes, x: Octet, y: Octet, back: Bytes)
    ensures Score(b, c, front + [x] + back) == Score(b, c, front + [y] + back) <==> x == y
    ensures Score(b, front + [x] + back, d) == Score(b, front + [y] + back, d) <==> x == y
    ensures Score(front + [x] + back, c, d) == Score(front + [y] + back, c, d) <==> x == y
  {
    forall z: Octet
      ensures b + [0] + c + [0] + (front + [z] + back) == (b + [0] + c + [0] + front) + [z] + back
      ensures b + [0] + (front + [z] + back) + [0] + d == (b + [0] + front) + [z] + (back + [0] + d)
      ensures (front + [z] + back) + [0] + c + [0] + d == front + [z] + (back + [0] + c + [0] + d)
    {
    }
    OctetTells(OFFSET_BASIS, b + [0] + c + [0] + front, x, y, back);
    OctetTells(OFFSET_BASIS, b + [0] + front, x, y, back + [0] + d);
    OctetTells(OFFSET_BASIS, front, x, y, back + [0] + c + [0] + d);
  }

  // Values.

  /** One more low bit. */
  lemma XorBit(a: nat, b: nat, bits: nat, x: nat, y: nat, r: nat)
    requires Xor(a, b, bits) == r && x < 2 && y < 2
    ensures Xor(2 * a + x, 2 * b + y, bits + 1) == 2 * r + (x + y) % 2
  {
    HalfAndParity(a, x);
    HalfAndParity(b, y);
    if x + y == 2 {
      HalfAndParity(a + b + 1, 0);
    } else {
      HalfAndParity(a + b, x + y);
    }
    XorUnfolds(2 * a + x, 2 * b + y, bits);
  }

  lemma XorUnfolds(p: nat, q: nat, bits: nat)
    ensures Xor(p, q, bits + 1) == 2 * Xor(p / 2, q / 2, bits) + (p + q) % 2
  {
  }

  lemma XorOfA(h: Octet, b: Octet)
    requires h == 37 && b == 97
    ensures XorOctet(h, b) == 68
  {
    XorBit(0, 0, 0, 0, 0, 0);
    XorBit(0, 0, 1, 0, 1, 0);
    XorBit(0, 1, 2, 1, 1, 1);
    XorBit(1, 3, 3, 0, 0, 2);
    XorBit(2, 6, 4, 0, 0, 4);
    XorBit(4, 12, 5, 1, 0, 8);
    XorBit(9, 24, 6, 0, 0, 17);
    XorBit(18, 48, 7, 1, 1, 34);
  }

  /** The draft's values for the empty text and for "a". */
  lemma DraftValues()
    ensures Hash(Octets("")) == 0xcbf29ce484222325
    ensures Hash(Octets("a")) == 0xaf63dc4c8601ec8c
  {
    assert Octets("") == [] && Octets("a") == [97];
    XorOfA(14695981039346656037 % 256, 97);
    assert Hash([97]) == Step(14695981039346656037, 97);
  }

  /** The three names are joined by single zero bytes: a zero byte in a name moves the boundary, and empty
      names leave the two zero bytes. */
  lemma ZeroBytesJoin(b: Bytes, c: Bytes, d: Bytes, e: Bytes)
    ensures Score(b + [0] + c, d, e) == Score(b, c, d + [0] + e) == Score(b, c + [0] + d, e)
    ensures Score([], [], []) == Hash([0, 0])
  {
    assert (b + [0] + c) + [0] + d + [0] + e == b + [0] + c + [0] + (d + [0] + e) == b + [0] + (c + [0] + d) + [0] + e;
    assert [] + [0] + [] + [0] + [] == [0, 0];
  }
}
