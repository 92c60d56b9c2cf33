/** The 32-bit mixing function and the frame ids made of it. */
module FrameIds {

  // The seven steps of the mixing function and their inverses: an xor-shift is undone by
  // repeating its shift, a product with an odd factor by the inverse factor mod 2^32.

  function Step1(x: bv32): bv32 { x ^ (x >> 17) }
  function Undo1(x: bv32): bv32 { x ^ (x >> 17) }
  function Step2(x: bv32): bv32 { x * 0xED5AD4BB }
  function Undo2(x: bv32): bv32 { x * 0x79A85073 }
  function Step3(x: bv32): bv32 { x ^ (x >> 11) }
  function Undo3(x: bv32): bv32 { x ^ (x >> 11) ^ (x >> 22) }
  function Step4(x: bv32): bv32 { x * 0xAC4C1B51 }
  function Undo4(x: bv32): bv32 { x * 0x469E0DB1 }
  function Step5(x: bv32): bv32 { x ^ (x >> 15) }
  function Undo5(x: bv32): bv32 { x ^ (x >> 15) ^ (x >> 30) }
  function Step6(x: bv32): bv32 { x * 0x31848BAB }
  function Undo6(x: bv32): bv32 { x * 0x32B21703 }
  function Step7(x: bv32): bv32 { x ^ (x >> 14) }
  function Undo7(x: bv32): bv32 { x ^ (x >> 14) ^ (x >> 28) }

  // What each step computes, as rewriting facts: the proofs below only chain equalities and
  // leave the bit-level simplification to one term at a time.

  lemma Does1(x: bv32) ensures Step1(x) == x ^ (x >> 17) && Undo1(x) == x ^ (x >> 17) {}
  lemma Does2(x: bv32) ensures Step2(x) == x * 0xED5AD4BB && Undo2(x) == x * 0x79A85073 {}
  lemma Does3(x: bv32) ensures Step3(x) == x ^ (x >> 11) && Undo3(x) == x ^ (x >> 11) ^ (x >> 22) {}
  lemma Does4(x: bv32) ensures Step4(x) == x * 0xAC4C1B51 && Undo4(x) == x * 0x469E0DB1 {}
  lemma Does5(x: bv32) ensures Step5(x) == x ^ (x >> 15) && Undo5(x) == x ^ (x >> 15) ^ (x >> 30) {}
  lemma Does6(x: bv32) ensures Step6(x) == x * 0x31848BAB && Undo6(x) == x * 0x32B21703 {}
  lemma Does7(x: bv32) ensures Step7(x) == x ^ (x >> 14) && Undo7(x) == x ^ (x >> 14) ^ (x >> 28) {}

  lemma Inverse1(x: bv32)
    ensures Undo1(Step1(x)) == x && Step1(Undo1(x)) == x
  {
    Does1(x);
    Does1(x ^ (x >> 17));
  }

  lemma Inverse2(x: bv32)
    ensures Undo2(Step2(x)) == x && Step2(Undo2(x)) == x
  {
    Does2(x);
    Does2(x * 0xED5AD4BB);
    Does2(x * 0x79A85073);
  }

  lemma Inverse3(x: bv32)
    ensures Undo3(Step3(x)) == x && Step3(Undo3(x)) == x
  {
    Does3(x);
    Does3(x ^ (x >> 11));
    Does3(x ^ (x >> 11) ^ (x >> 22));
  }

  lemma Inverse4(x: bv32)
    ensures Undo4(Step4(x)) == x && Step4(Undo4(x)) == x
  {
    Does4(x);
    Does4(x * 0xAC4C1B51);
    Does4(x * 0x469E0DB1);
  }

  lemma Inverse5(x: bv32)
    ensures Undo5(Step5(x)) == x && Step5(Undo5(x)) == x
  {
    Does5(x);
    Does5(x ^ (x >> 15));
    Does5(x ^ (x >> 15) ^ (x >> 30));
  }

  lemma Inverse6(x: bv32)
    ensures Undo6(Step6(x)) == x && Step6(Undo6(x)) == x
  {
    Does6(x);
    Does6(x * 0x31848BAB);
    Does6(x * 0x32B21703);
  }

  lemma Inverse7(x: bv32)
    ensures Undo7(Step7(x)) == x && Step7(Undo7(x)) == x
  {
    Does7(x);
    Does7(x ^ (x >> 14));
    Does7(x ^ (x >> 14) ^ (x >> 28));
  }

  /** us_triple_u32 */
  function Triple(x: bv32): bv32 {
    Step7(Step6(Step5(Step4(Step3(Step2(Step1(x)))))))
  }

  function Untriple(y: bv32): bv32 {
    Undo1(Undo2(Undo3(Undo4(Undo5(Undo6(Undo7(y)))))))
  }

  /** Triple is a bijection on 32-bit words that fixes 0. */
  lemma TripleBijective(x: bv32)
    ensures Untriple(Triple(x)) == x
    ensures Triple(Untriple(x)) == x
    ensures Triple(0) == 0
  {
    var x1 := Step1(x);
    var x2 := Step2(x1);
    var x3 := Step3(x2);
    var x4 := Step4(x3);
    var x5 := Step5(x4);
    var x6 := Step6(x5);
    var x7 := Step7(x6);
    Inverse1(x);
    Inverse2(x1);
    Inverse3(x2);
    Inverse4(x3);
    Inverse5(x4);
    Inverse6(x5);
    Inverse7(x6);
    var y7 := Undo7(x);
    var y6 := Undo6(y7);
    var y5 := Undo5(y6);
    var y4 := Undo4(y5);
    var y3 := Undo3(y4);
    var y2 := Undo2(y3);
    var y1 := Undo1(y2);
    Inverse7(x);
    Inverse6(y7);
    Inverse5(y6);
    Inverse4(y5);
    Inverse3(y4);
    Inverse2(y3);
    Inverse1(y2);
  }

  function Low(id: bv64): bv32 {
    (id & 0xFFFF_FFFF) as bv32
  }

  function High(id: bv64): bv32 {
    (id >> 32) as bv32
  }

  function Join(lo: bv32, hi: bv32): bv64 {
    (lo as bv64) | ((hi as bv64) << 32)
  }

  /** us_get_now_id for a reading of the microsecond clock */
  function NowId(now: bv64): bv64 {
    Join(Triple(Low(now)), Triple(Low(now + 12345)))
  }

  lemma DoesLow(id: bv64) ensures Low(id) == (id & 0xFFFF_FFFF) as bv32 {}
  lemma DoesHigh(id: bv64) ensures High(id) == (id >> 32) as bv32 {}
  lemma DoesJoin(lo: bv32, hi: bv32) ensures Join(lo, hi) == (lo as bv64) | ((hi as bv64) << 32) {}

  lemma Halves(lo: bv32, hi: bv32)
    ensures Low(Join(lo, hi)) == lo && High(Join(lo, hi)) == hi
  {
    DoesJoin(lo, hi);
    DoesLow((lo as bv64) | ((hi as bv64) << 32));
    DoesHigh((lo as bv64) | ((hi as bv64) << 32));
  }

  lemma NotBothZero(now: bv64)
    ensures Low(now) != 0 || Low(now + 12345) != 0
  {
  }

  /** Readings that differ mod 2^32 give different ids, and no reading gives the id 0. */
  lemma NowIdDistinct(a: bv64, b: bv64)
    ensures Low(a) != Low(b) ==> NowId(a) != NowId(b)
    ensures NowId(a) != 0
  {
    TripleBijective(Low(a));
    TripleBijective(Low(b));
    Halves(Triple(Low(a)), Triple(Low(a + 12345)));
    Halves(Triple(Low(b)), Triple(Low(b + 12345)));
    if NowId(a) == 0 {
      TripleBijective(0);
      TripleBijective(Low(a + 12345));
      DoesLow(0);
      DoesHigh(0);
      NotBothZero(a);
    }
  }
}
