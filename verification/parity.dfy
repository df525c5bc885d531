/** The parity bit of packet headers, as the driver computes it, what it is, and the headers that come of it. */
module Parity {
  import opened Pm4

  function Xor(a: nat, b: nat): nat
    decreases a + b
  {
    if a == 0 && b == 0 then 0 else (a % 2 + b % 2) % 2 + 2 * Xor(a / 2, b / 2)
  }

  function Shr(v: nat, k: nat): nat {
    if k == 0 then v else Shr(v / 2, k - 1)
  }

  /** The nibbles of a word up to the k-th, one over the other, in the lowest. */
  function Fold(v: nat, k: nat): nat {
    if k == 0 then v else Xor(Fold(v, k - 1), Shr(v, 4 * k))
  }

  /** A constant holds the parity bits of the sixteen values of a nibble. */
  function ParityBit(v: u32): nat { Shr(0x9669, Fold(v, 7) % 0x10) % 2 }

  /** The number of bits that are set. */
  function Ones(v: nat): nat {
    if v == 0 then 0 else v % 2 + Ones(v / 2)
  }

  /** The number of bits that are set among the lowest k. */
  function LowOnes(v: nat, k: nat): nat {
    if k == 0 then 0 else v % 2 + LowOnes(v / 2, k - 1)
  }

  lemma EvenSplit(r: nat, x: nat)
    requires r <= 1
    ensures (r + 2 * x) % 2 == r && (r + 2 * x) / 2 == x
  {
  }

  lemma XorStep(a: nat, b: nat)
    ensures Xor(a, b) % 2 == (a % 2 + b % 2) % 2 && Xor(a, b) / 2 == Xor(a / 2, b / 2)
  {
    if a != 0 || b != 0 {
      var x := Xor(a / 2, b / 2);
      assert Xor(a, b) == (a % 2 + b % 2) % 2 + 2 * x;
      hide Xor;
      EvenSplit((a % 2 + b % 2) % 2, x);
    }
  }

  lemma SumParity(x: nat, y: nat, a: nat, b: nat)
    requires x % 2 == a % 2 && y % 2 == b % 2
    ensures (x + y) % 2 == (a + b) % 2
  {
  }

  lemma {:induction false} LowXor(a: nat, b: nat, k: nat)
    ensures LowOnes(Xor(a, b), k) % 2 == (LowOnes(a, k) + LowOnes(b, k)) % 2
    decreases k
  {
    hide Xor;
    if k > 0 {
      var x, y := a % 2 + b % 2, LowOnes(a / 2, k - 1) + LowOnes(b / 2, k - 1);
      LowXor(a / 2, b / 2, k - 1);
      XorStep(a, b);
      SumParity(x % 2, LowOnes(Xor(a, b) / 2, k - 1), x, y);
      assert LowOnes(a, k) + LowOnes(b, k) == x + y;
    }
  }

  lemma OnesStep(v: nat)
    ensures Ones(v) == v % 2 + Ones(v / 2)
  {
  }

  lemma {:induction false} OnesLow(v: nat, k: nat)
    ensures Ones(v) == LowOnes(v, k) + Ones(Shr(v, k))
    decreases k
  {
    if k > 0 {
      OnesStep(v);
      OnesLow(v / 2, k - 1);
    }
  }

  lemma {:induction false} ShrShr(v: nat, j: nat, k: nat)
    ensures Shr(Shr(v, j), k) == Shr(v, j + k)
    decreases j
  {
    if j > 0 { ShrShr(v / 2, j - 1, k); }
  }

  lemma Halves(v: nat)
    ensures v / 4 == v / 2 / 2 && v / 8 == v / 4 / 2 && v / 16 == v / 8 / 2
  {
  }

  lemma ShrNibble(v: nat)
    ensures Shr(v, 4) == v / 16
  {
    Halves(v);
    assert Shr(v, 4) == Shr(v / 2, 3) == Shr(v / 2 / 2, 2) == Shr(v / 2 / 2 / 2, 1) == Shr(v / 2 / 2 / 2 / 2, 0);
  }

  /** The bits of a word are those of the nibbles that are folded and those above them. */
  lemma {:induction false} FoldParity(v: nat, k: nat)
    ensures Ones(v) % 2 == (LowOnes(Fold(v, k), 4) + Ones(Shr(v, 4 * k + 4))) % 2
  {
    hide Xor, LowOnes, Ones;
    var w := Shr(v, 4 * k);
    OnesLow(w, 4);
    ShrShr(v, 4 * k, 4);
    hide Shr;
    if k == 0 {
      ShrNothing(v);
    } else {
      FoldParity(v, k - 1);
      LowXor(Fold(v, k - 1), w, 4);
      SumParity(LowOnes(Fold(v, k), 4), Ones(Shr(v, 4 * k + 4)), LowOnes(Fold(v, k - 1), 4) + LowOnes(w, 4),
                Ones(Shr(v, 4 * k + 4)));
    }
  }

  lemma ShrNothing(v: nat)
    ensures Shr(v, 0) == v
  {
  }

  lemma NothingAbove(v: u32)
    ensures Shr(v, 32) == 0
  {
    hide Shr;
    Down(v, 28);
    Down(v / 0x10, 24);
    Down(v / 0x100, 20);
    Down(v / 0x1000, 16);
    Down(v / 0x1_0000, 12);
    Down(v / 0x10_0000, 8);
    Down(v / 0x100_0000, 4);
    Down(v / 0x1000_0000, 0);
    ShrNothing(v / 0x1_0000_0000);
  }

  lemma Down(v: nat, k: nat)
    ensures Shr(v, k + 4) == Shr(v / 16, k)
  {
    ShrShr(v, 4, k);
    ShrNibble(v);
  }

  lemma NibbleTable(m: nat)
    requires m < 16
    ensures Shr(0x9669, m) % 2 == (1 + LowOnes(m, 4)) % 2
  {
    LowTable();
    HighTable();
    hide Shr, LowOnes;
  }

  lemma LowTable()
    ensures Shr(0x9669, 0) % 2 == (1 + LowOnes(0, 4)) % 2 && Shr(0x9669, 1) % 2 == (1 + LowOnes(1, 4)) % 2
    ensures Shr(0x9669, 2) % 2 == (1 + LowOnes(2, 4)) % 2 && Shr(0x9669, 3) % 2 == (1 + LowOnes(3, 4)) % 2
    ensures Shr(0x9669, 4) % 2 == (1 + LowOnes(4, 4)) % 2 && Shr(0x9669, 5) % 2 == (1 + LowOnes(5, 4)) % 2
    ensures Shr(0x9669, 6) % 2 == (1 + LowOnes(6, 4)) % 2 && Shr(0x9669, 7) % 2 == (1 + LowOnes(7, 4)) % 2
  {
  }

  lemma HighTable()
    ensures Shr(0x9669, 8) % 2 == (1 + LowOnes(8, 4)) % 2 && Shr(0x9669, 9) % 2 == (1 + LowOnes(9, 4)) % 2
    ensures Shr(0x9669, 10) % 2 == (1 + LowOnes(10, 4)) % 2 && Shr(0x9669, 11) % 2 == (1 + LowOnes(11, 4)) % 2
    ensures Shr(0x9669, 12) % 2 == (1 + LowOnes(12, 4)) % 2 && Shr(0x9669, 13) % 2 == (1 + LowOnes(13, 4)) % 2
    ensures Shr(0x9669, 14) % 2 == (1 + LowOnes(14, 4)) % 2 && Shr(0x9669, 15) % 2 == (1 + LowOnes(15, 4)) % 2
  {
    assert Shr(0x9669, 8) == 0x96 && Shr(0x9669, 9) == 0x4B && Shr(0x9669, 10) == 0x25 && Shr(0x9669, 11) == 0x12;
    assert Shr(0x9669, 12) == 0x9 && Shr(0x9669, 13) == 0x4 && Shr(0x9669, 14) == 0x2 && Shr(0x9669, 15) == 0x1;
  }

  lemma {:induction false} LowOnesMod(v: nat, k: nat, n: nat)
    requires n == if k == 0 then 1 else if k == 1 then 2 else if k == 2 then 4 else if k == 3 then 8 else 16
    requires k <= 4
    ensures LowOnes(v, k) == LowOnes(v % n, k)
    decreases k
  {
    if k > 0 {
      ModHalf(v, n);
      LowOnesMod(v / 2, k - 1, n / 2);
    }
  }

  lemma ModHalf(v: nat, n: nat)
    requires n == 2 || n == 4 || n == 8 || n == 16
    ensures v % n / 2 == v / 2 % (n / 2) && v % n % 2 == v % 2
  {
    var q, r := v / n, v % n;
    assert v == n * q + r;
    if n == 2 {
    } else if n == 4 {
      assert v / 2 == 2 * q + r / 2;
    } else if n == 8 {
      assert v / 2 == 4 * q + r / 2;
    } else {
      assert v / 2 == 8 * q + r / 2;
    }
  }

  lemma {:induction false} OddParityIs(v: nat)
    ensures OddParity(v) == (1 + Ones(v)) % 2
  {
    if v > 0 { OddParityIs(v / 2); }
  }

  /** Folding a word and looking the nibble up gives the bit that makes the number of set bits odd, itself
      included. */
  lemma ParityBitIsOdd(v: u32)
    ensures ParityBit(v) == OddParity(v) && (Ones(v) + ParityBit(v)) % 2 == 1
  {
    hide Ones, LowOnes, Fold, Shr, OddParity, Xor;
    FoldParity(v, 7);
    NothingAbove(v);
    NoOnes();
    LowOnesMod(Fold(v, 7), 4, 16);
    NibbleTable(Fold(v, 7) % 16);
    OddParityIs(v);
  }

  lemma NoOnes()
    ensures Ones(0) == 0
  {
  }

  lemma ParityStep(v: nat)
    ensures OddParity(v) == (v % 2 + OddParity(v / 2)) % 2
  {
  }

  lemma SmallParities()
    ensures OddParity(0) == 1 && OddParity(1) == 0 && OddParity(2) == 0 && OddParity(3) == 1 && OddParity(4) == 0
    ensures OddParity(5) == 1 && OddParity(6) == 1 && OddParity(7) == 0
  {
    hide OddParity;
    NoParity();
    ParityStep(1);
    ParityStep(2);
    ParityStep(3);
    ParityStep(4);
    ParityStep(5);
    ParityStep(6);
    ParityStep(7);
  }

  lemma NoParity()
    ensures OddParity(0) == 1
  {
  }

  /** The header words themselves, of the packets that are used. */
  lemma KnownHeaders()
    ensures Type7(CP_NOP, 1) == 0x7010_0001
    ensures Type7(CP_WAIT_MEM_WRITES, 0) == 0x7092_8000
    ensures Type7(CP_WAIT_FOR_ME, 0) == 0x7013_8000
    ensures Type7(CP_YIELD_ENABLE, 1) == 0x701C_0001
    ensures Type7(CP_WAIT_FOR_IDLE, 0) == 0x7026_8000
    ensures Type7(CP_MEM_WRITE, 3) == 0x703D_8003
  {
    hide OddParity;
    SmallParities();
    ParityStep(0x8);
    ParityStep(0x10);
    ParityStep(0x9);
    ParityStep(0x12);
    ParityStep(0x13);
    ParityStep(0xE);
    ParityStep(0x1C);
    ParityStep(0x26);
    ParityStep(0xF);
    ParityStep(0x1E);
    ParityStep(0x3D);
  }

  lemma MoreHeaders()
    ensures Type7(CP_REG_TO_MEM, 3) == 0x703E_8003
    ensures Type7(CP_INDIRECT_BUFFER_PFE, 3) == 0x70BF_8003
    ensures Type7(CP_EVENT_WRITE, 4) == 0x7046_0004
    ensures Type7(CP_SMMU_TABLE_UPDATE, 3) == 0x70D3_8003
    ensures Type7(CP_SET_PROTECTED_MODE, 1) == 0x70DF_0001
    ensures Type7(CP_WHERE_AM_I, 2) == 0x7062_0002
  {
    hide OddParity;
    SmallParities();
    ParityStep(0xF);
    ParityStep(0x1F);
    ParityStep(0x3E);
    ParityStep(0x3F);
    ParityStep(0x8);
    ParityStep(0x11);
    ParityStep(0x23);
    ParityStep(0x46);
    ParityStep(0xA);
    ParityStep(0x14);
    ParityStep(0x29);
    ParityStep(0x53);
    ParityStep(0xB);
    ParityStep(0x17);
    ParityStep(0x2F);
    ParityStep(0x5F);
    ParityStep(0xC);
    ParityStep(0x18);
    ParityStep(0x31);
    ParityStep(0x62);
  }

  lemma PreemptHeaders()
    ensures Type7(CP_SET_SECURE_MODE, 1) == 0x70E6_0001
    ensures Type7(CP_PREEMPT_ENABLE_GLOBAL, 1) == 0x70E9_0001
    ensures Type7(CP_PREEMPT_ENABLE_LOCAL, 1) == 0x70EA_0001
    ensures Type7(CP_CONTEXT_SWITCH_YIELD, 4) == 0x706B_0004
    ensures Type7(CP_SET_RENDER_MODE, 5) == 0x70EC_8005
  {
    hide OddParity;
    SmallParities();
    ParityStep(0xC);
    ParityStep(0x19);
    ParityStep(0x33);
    ParityStep(0x66);
    ParityStep(0xD);
    ParityStep(0x1A);
    ParityStep(0x34);
    ParityStep(0x69);
    ParityStep(0x35);
    ParityStep(0x6A);
    ParityStep(0x6B);
    ParityStep(0x1B);
    ParityStep(0x36);
    ParityStep(0x6C);
  }

  lemma OlderHeaders()
    ensures Type4(0x831, 1) == 0x4808_3101 && Type0(0xEA0, 2) == 0x1_0EA0
    ensures Type3(CP_WAIT_REG_EQ, 4) == 0xC003_5200 && Type3(CP_REG_RMW, 3) == 0xC002_2100
    ensures Type3(CP_REG_WR_NO_CTXT, 3) == 0xC002_7800 && Type3(CP_INVALIDATE_STATE, 1) == 0xC000_3B00
    ensures Type3(CP_SET_CONSTANT, 2) == 0xC001_2D00
  {
    hide OddParity;
    SmallParities();
    ParityStep(0x8);
    ParityStep(0x10);
    ParityStep(0x20);
    ParityStep(0x41);
    ParityStep(0x83);
    ParityStep(0x106);
    ParityStep(0x20C);
    ParityStep(0x418);
    ParityStep(0x831);
  }
}
