/** The SHA-256 block function on 32-bit words: nested rotations, rewritten selections and 64-bit
    state words against section 6.2.2 of FIPS 180-4. */
module Sha256 {
  import opened Sha256Rounds

  type word = bv32

  // ----- The functions of section 4.1.2 -----

  function BigSigma0(x: word): word { x.RotateRight(2) ^ x.RotateRight(13) ^ x.RotateRight(22) }
  function BigSigma1(x: word): word { x.RotateRight(6) ^ x.RotateRight(11) ^ x.RotateRight(25) }
  function SmallSigma0(x: word): word { x.RotateRight(7) ^ x.RotateRight(18) ^ (x >> 3) }
  function SmallSigma1(x: word): word { x.RotateRight(17) ^ x.RotateRight(19) ^ (x >> 10) }
  function Choose(x: word, y: word, z: word): word { (x & y) ^ (!x & z) }
  function Majority(x: word, y: word, z: word): word { (x & y) ^ (x & z) ^ (y & z) }

  // ----- The same functions as the code writes them -----

  function S0(x: word): word { ((x.RotateRight(9) ^ x).RotateRight(11) ^ x).RotateRight(2) }
  function S1(x: word): word { ((x.RotateRight(14) ^ x).RotateRight(5) ^ x).RotateRight(6) }
  function SmallS0(x: word): word { (x.RotateRight(11) ^ x).RotateRight(7) ^ (x >> 3) }
  function SmallS1(x: word): word { (x.RotateRight(2) ^ x).RotateRight(17) ^ (x >> 10) }
  function Ch(x: word, y: word, z: word): word { z ^ (x & (y ^ z)) }
  function Ma(x: word, y: word, z: word): word { (x & y) | (z & (x | y)) }

  lemma NestedS0(x: word) ensures S0(x) == BigSigma0(x) {}
  lemma NestedS1(x: word) ensures S1(x) == BigSigma1(x) {}
  lemma NestedSmallS0(x: word) ensures SmallS0(x) == SmallSigma0(x) {}
  lemma NestedSmallS1(x: word) ensures SmallS1(x) == SmallSigma1(x) {}

  lemma AndXor(x: word, y: word, z: word) ensures x & (y ^ z) == (x & y) ^ (x & z) {}
  lemma XorAnd(x: word, z: word) ensures z ^ (x & z) == !x & z {}
  lemma XorSwap(a: word, b: word, c: word) ensures a ^ (b ^ c) == b ^ (a ^ c) {}
  lemma OrXor(x: word, y: word) ensures x | y == x ^ y ^ (x & y) {}
  lemma AndInside(x: word, y: word, z: word) ensures (x & y) & (z & (x | y)) == z & (x & y) {}
  lemma XorCancel(a: word, b: word, c: word, d: word) ensures a ^ (b ^ c ^ d) ^ d == a ^ b ^ c {}

  lemma SelectCh(x: word, y: word, z: word)
    ensures Ch(x, y, z) == Choose(x, y, z)
  {
    AndXor(x, y, z);
    XorSwap(z, x & y, x & z);
    XorAnd(x, z);
  }

  lemma AndOr(x: word, y: word, z: word)
    ensures z & (x | y) == (x & z) ^ (y & z) ^ (z & (x & y))
  {
    OrXor(x, y);
    AndXor(z, x ^ y, x & y);
    AndXor(z, x, y);
  }

  lemma OrSplits(a: word, w: word, b: word, c: word, d: word)
    requires w == b ^ c ^ d && a & w == d
    ensures a | w == a ^ b ^ c
  {
    OrXor(a, w);
    XorCancel(a, b, c, d);
  }

  lemma SelectMa(x: word, y: word, z: word)
    ensures Ma(x, y, z) == Majority(x, y, z)
  {
    hide Ma, Majority;
    var a, w, b, c, d := x & y, z & (x | y), x & z, y & z, z & (x & y);
    assert w == b ^ c ^ d by { AndOr(x, y, z); }
    assert a & w == d by { AndInside(x, y, z); }
    OrSplits(a, w, b, c, d);
    MaIs(x, y, z, a, w);
    MajorityIs(x, y, z, a, b, c);
  }

  lemma MaIs(x: word, y: word, z: word, a: word, w: word)
    requires a == x & y && w == z & (x | y)
    ensures Ma(x, y, z) == a | w
  {
  }

  lemma MajorityIs(x: word, y: word, z: word, a: word, b: word, c: word)
    requires a == x & y && b == x & z && c == y & z
    ensures Majority(x, y, z) == a ^ b ^ c
  {
  }

  // ----- The block function -----

  function Plus(x: word, y: word): word { x + y }

  lemma SumSwaps(x: word, y: word) ensures x + y == y + x {}
  lemma SumRegroups(x: word, y: word, z: word) ensures (x + y) + z == x + (y + z) {}

  lemma PlusIs(x: word, y: word, a: word)
    requires a == x + y
    ensures Plus(x, y) == a
  {
  }

  lemma PlusSwaps(x: word, y: word)
    ensures Plus(x, y) == Plus(y, x)
  {
    hide Plus;
    var a, b := x + y, y + x;
    assert a == b by { SumSwaps(x, y); }
    PlusIs(x, y, a);
    PlusIs(y, x, b);
  }

  lemma PlusRegroups(x: word, y: word, z: word)
    ensures Plus(Plus(x, y), z) == Plus(x, Plus(y, z))
  {
    hide Plus;
    var a := x + y;
    var b := y + z;
    PlusIs(x, y, a);
    PlusIs(y, z, b);
    PlusBoth(x, y, z, a, b);
  }

  lemma PlusBoth(x: word, y: word, z: word, a: word, b: word)
    requires a == x + y && b == y + z
    ensures Plus(a, z) == Plus(x, b)
  {
    SumRegroups(x, y, z);
  }

  lemma PlusLaws(x: word, y: word, z: word)
    ensures Plus(x, y) == Plus(y, x) && Plus(Plus(x, y), z) == Plus(x, Plus(y, z))
  {
    hide Plus;
    PlusSwaps(x, y);
    PlusRegroups(x, y, z);
  }

  const FIPS: Ops<word> := Ops(
    (x: word, y: word) => Plus(x, y),
    (x: word) => BigSigma0(x), (x: word) => BigSigma1(x), (x: word) => SmallSigma0(x), (x: word) => SmallSigma1(x),
    (x: word, y: word, z: word) => Choose(x, y, z), (x: word, y: word, z: word) => Majority(x, y, z))

  const CODE: Ops<word> := Ops(
    (x: word, y: word) => Plus(x, y),
    (x: word) => S0(x), (x: word) => S1(x), (x: word) => SmallS0(x), (x: word) => SmallS1(x),
    (x: word, y: word, z: word) => Ch(x, y, z), (x: word, y: word, z: word) => Ma(x, y, z))

  lemma SigmasAgree(x: word)
    ensures CODE.bigSigma0(x) == FIPS.bigSigma0(x) && CODE.bigSigma1(x) == FIPS.bigSigma1(x)
    ensures CODE.smallSigma0(x) == FIPS.smallSigma0(x) && CODE.smallSigma1(x) == FIPS.smallSigma1(x)
  {
    hide S0, S1, SmallS0, SmallS1, BigSigma0, BigSigma1, SmallSigma0, SmallSigma1;
    NestedS0(x);
    NestedS1(x);
    NestedSmallS0(x);
    NestedSmallS1(x);
  }

  lemma SelectionsAgree(x: word, y: word, z: word)
    ensures CODE.choose(x, y, z) == FIPS.choose(x, y, z) && CODE.majority(x, y, z) == FIPS.majority(x, y, z)
  {
    hide Ch, Ma, Choose, Majority;
    SelectCh(x, y, z);
    SelectMa(x, y, z);
  }

  lemma SumsAgree(x: word, y: word, z: word)
    ensures CODE.add(x, y) == FIPS.add(x, y) == FIPS.add(y, x)
    ensures FIPS.add(FIPS.add(x, y), z) == FIPS.add(x, FIPS.add(y, z))
  {
    hide Plus;
    PlusLaws(x, y, z);
  }

  lemma OpsAgree()
    ensures Agree(FIPS, CODE)
  {
    hide S0, S1, SmallS0, SmallS1, Ch, Ma, BigSigma0, BigSigma1, SmallSigma0, SmallSigma1, Choose, Majority;
    forall x: word
      ensures CODE.bigSigma0(x) == FIPS.bigSigma0(x) && CODE.bigSigma1(x) == FIPS.bigSigma1(x)
      ensures CODE.smallSigma0(x) == FIPS.smallSigma0(x) && CODE.smallSigma1(x) == FIPS.smallSigma1(x)
    { SigmasAgree(x); }
    forall x: word, y: word, z: word
      ensures CODE.choose(x, y, z) == FIPS.choose(x, y, z) && CODE.majority(x, y, z) == FIPS.majority(x, y, z)
    { SelectionsAgree(x, y, z); }
    forall x: word, y: word, z: word
      ensures CODE.add(x, y) == FIPS.add(x, y) == FIPS.add(y, x)
      ensures FIPS.add(FIPS.add(x, y), z) == FIPS.add(x, FIPS.add(y, z))
    { SumsAgree(x, y, z); }
  }

  // ----- The words of a block -----

  type octet = bv8

  /** A word from four bytes, the first the most significant: section 3.1 of FIPS 180-4. */
  function WordOf(a: octet, b: octet, c: octet, d: octet): word
  {
    (a as word << 24) | (b as word << 16) | (c as word << 8) | d as word
  }

  /** The same bytes loaded on a machine that takes the first as the least significant. */
  function Loaded(a: octet, b: octet, c: octet, d: octet): word
  {
    a as word | (b as word << 8) | (c as word << 16) | (d as word << 24)
  }

  /** bswap_uint32 */
  function Swapped(x: word): word
  {
    (x << 24) | ((x & 0xFF00) << 8) | ((x >> 8) & 0xFF00) | (x >> 24)
  }

  lemma SwappedLoad(a: octet, b: octet, c: octet, d: octet)
    ensures Swapped(Loaded(a, b, c, d)) == WordOf(a, b, c, d)
  {
  }

  /** Word `t` of a block. */
  function WordAt(data: seq<octet>, t: nat): word
    requires |data| == 64 && t < 16
  {
    WordOf(data[4 * t], data[4 * t + 1], data[4 * t + 2], data[4 * t + 3])
  }

  function Words(data: seq<octet>): (r: seq<word>)
    requires |data| == 64
    ensures |r| == 16
  {
    seq(16, t requires 0 <= t < 16 => WordAt(data, t))
  }

  /** read_swap32 */
  method ReadSwapped(data: seq<octet>, t: nat) returns (w: word)
    requires |data| == 64 && t < 16
    ensures w == WordAt(data, t)
  {
    hide WordOf, Loaded, Swapped;
    var at := 4 * t;
    SwappedLoad(data[at], data[at + 1], data[at + 2], data[at + 3]);
    w := Swapped(Loaded(data[at], data[at + 1], data[at + 2], data[at + 3]));
  }

  /** The loop that loads the block, four words at a time. */
  method LoadBlock(data: seq<octet>) returns (x: array<word>)
    requires |data| == 64
    ensures fresh(x) && x[..] == Words(data)
  {
    hide WordAt;
    x := new word[16];
    var k := 0;
    while k < 16
      invariant k == 0 || k == 4 || k == 8 || k == 12 || k == 16
      invariant forall t :: 0 <= t < k ==> x[t] == WordAt(data, t)
    {
      x[k] := ReadSwapped(data, k);
      x[k + 1] := ReadSwapped(data, k + 1);
      x[k + 2] := ReadSwapped(data, k + 2);
      x[k + 3] := ReadSwapped(data, k + 3);
      k := k + 4;
    }
  }

  /** A 64-bit state word, as its two halves. */
  datatype Wide = Wide(hi: word, lo: word)

  /** Adding a 32-bit word to a 64-bit one. */
  function AddWord(s: Wide, x: word): (r: Wide)
    ensures r.lo == Plus(s.lo, x)
  {
    Wide(if s.lo + x < s.lo then s.hi + 1 else s.hi, Plus(s.lo, x))
  }

  function Low(s: seq<Wide>): Registers<word>
    requires |s| == 8
  {
    Registers(s[0].lo, s[1].lo, s[2].lo, s[3].lo, s[4].lo, s[5].lo, s[6].lo, s[7].lo)
  }

  function Sum(r: Registers<word>, q: Registers<word>): Registers<word>
  {
    Registers(Plus(r.a, q.a), Plus(r.b, q.b), Plus(r.c, q.c), Plus(r.d, q.d),
              Plus(r.e, q.e), Plus(r.f, q.f), Plus(r.g, q.g), Plus(r.h, q.h))
  }

  /** The eight final additions. */
  method AddState(state: array<Wide>, v: seq<word>)
    requires state.Length == 8 == |v|
    modifies state
    ensures forall q :: 0 <= q < 8 ==> state[q].lo == Plus(old(state[q]).lo, v[q])
  {
    hide Plus;
    for i := 0 to 8
      invariant forall q :: 0 <= q < 8 ==>
        state[q].lo == if q < i then Plus(old(state[q]).lo, v[q]) else old(state[q]).lo
    {
      state[i] := AddWord(state[i], v[i]);
    }
  }

  lemma StateSum(before: seq<Wide>, v: seq<word>, after: seq<Wide>)
    requires |before| == 8 == |v| == |after|
    requires forall q :: 0 <= q < 8 ==> after[q].lo == Plus(before[q].lo, v[q])
    ensures Low(after) == Sum(Low(before), Roles(v, 0))
  {
    hide Plus, Role;
    RolesStart(v);
  }

  /** sha256_transform_cc: in the low halves of the state words, the hash value of section 6.2.2 for
      every block and every state. */
  method Transform(state: array<Wide>, data: seq<octet>, k: seq<word>)
    requires state.Length == 8 && |data| == 64 && |k| == 64
    modifies state
    ensures Low(state[..]) == Sum(old(Low(state[..])), Rounds(FIPS, Words(data), k, old(Low(state[..])), 64))
  {
    hide Rounds, Agree, Plus, Role, Roles, Sum, Low, Words;
    OpsAgree();
    ghost var before := state[..];
    var v := new word[8](i requires 0 <= i < 8 reads state => state[i].lo);
    var x := LoadBlock(data);
    LowStart(before, v[..]);
    AllRounds(FIPS, CODE, v, x, k);
    AddState(state, v[..]);
    StateSum(before, v[..], state[..]);
  }

  lemma LowStart(s: seq<Wide>, v: seq<word>)
    requires |s| == 8 == |v| && forall q :: 0 <= q < 8 ==> v[q] == s[q].lo
    ensures Roles(v, 0) == Low(s)
  {
    hide Role;
    RolesStart(v);
  }

  lemma RolesStart(v: seq<word>)
    requires |v| == 8
    ensures Roles(v, 0) == Registers(v[0], v[1], v[2], v[3], v[4], v[5], v[6], v[7])
  {
  }
}
