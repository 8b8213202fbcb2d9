/** The bitmap of physical page frames: words of 32 bits that stand for a set of frames. */
module FrameBitmaps {
  const PAGE_SIZE := 0x1000
  const NFRAMES := 16384
  const FRAME_BIT := 32
  const WORDS := 512

  // ----- One word -----

  function Mask(j: nat): bv32
    requires j < FRAME_BIT
  {
    1 << (j as bv32)
  }

  predicate Bit(w: bv32, j: nat)
    requires j < FRAME_BIT
  {
    w & Mask(j) != 0
  }

  lemma Tested(w: bv32, j: nat)
    requires j < FRAME_BIT
    ensures Bit(w, j) <==> w & Mask(j) != 0
  {
  }

  lemma ToWord(j: nat)
    requires j < FRAME_BIT
    ensures j as bv32 as int == j && j as bv32 < 32
  {
    if j < 8 {
      ToWordLow(j);
    } else if j < 16 {
      ToWordMid(j);
    } else {
      ToWordHigh(j);
    }
  }

  lemma ToWordLow(j: nat)
    requires j < 8
    ensures j as bv32 as int == j
  {
  }

  lemma ToWordMid(j: nat)
    requires 8 <= j < 16
    ensures j as bv32 as int == j
  {
  }

  lemma ToWordHigh(j: nat)
    requires 16 <= j < FRAME_BIT
    ensures j as bv32 as int == j
  {
  }

  lemma ShiftedBits(w: bv32, i: bv32, j: bv32)
    requires i < 32 && j < 32
    ensures ((w | (1 << i)) & (1 << j) != 0) == (i == j || w & (1 << j) != 0)
  {
  }

  /** Setting one bit sets that bit only. */
  lemma SetOneBit(w: bv32, i: nat, j: nat)
    requires i < FRAME_BIT && j < FRAME_BIT
    ensures Bit(w | Mask(i), j) == (i == j || Bit(w, j))
  {
    hide Mask;
    var a, b := Shifts(i, j);
    ShiftedBits(w, a, b);
  }

  lemma Shifts(i: nat, j: nat) returns (a: bv32, b: bv32)
    requires i < FRAME_BIT && j < FRAME_BIT
    ensures a < 32 && b < 32 && (a == b <==> i == j)
    ensures Mask(i) == 1 << a && Mask(j) == 1 << b
  {
    a, b := i as bv32, j as bv32;
    ToWord(i);
    ToWord(j);
  }

  lemma FullHasAll(w: bv32, j: bv32)
    requires w == 0xFFFFFFFF && j < 32
    ensures w & (1 << j) != 0
  {
  }

  lemma AllBitsFull(w: bv32)
    requires w & 0x1 != 0 && w & 0x2 != 0 && w & 0x4 != 0 && w & 0x8 != 0
    requires w & 0x10 != 0 && w & 0x20 != 0 && w & 0x40 != 0 && w & 0x80 != 0
    requires w & 0x100 != 0 && w & 0x200 != 0 && w & 0x400 != 0 && w & 0x800 != 0
    requires w & 0x1000 != 0 && w & 0x2000 != 0 && w & 0x4000 != 0 && w & 0x8000 != 0
    requires w & 0x1_0000 != 0 && w & 0x2_0000 != 0 && w & 0x4_0000 != 0 && w & 0x8_0000 != 0
    requires w & 0x10_0000 != 0 && w & 0x20_0000 != 0 && w & 0x40_0000 != 0 && w & 0x80_0000 != 0
    requires w & 0x100_0000 != 0 && w & 0x200_0000 != 0 && w & 0x400_0000 != 0 && w & 0x800_0000 != 0
    requires w & 0x1000_0000 != 0 && w & 0x2000_0000 != 0 && w & 0x4000_0000 != 0 && w & 0x8000_0000 != 0
    ensures w == 0xFFFFFFFF
  {
  }

  lemma LowMasks()
    ensures Mask(0) == 0x1 && Mask(1) == 0x2 && Mask(2) == 0x4 && Mask(3) == 0x8
    ensures Mask(4) == 0x10 && Mask(5) == 0x20 && Mask(6) == 0x40 && Mask(7) == 0x80
    ensures Mask(8) == 0x100 && Mask(9) == 0x200 && Mask(10) == 0x400 && Mask(11) == 0x800
    ensures Mask(12) == 0x1000 && Mask(13) == 0x2000 && Mask(14) == 0x4000 && Mask(15) == 0x8000
  {
  }

  lemma HighMasks()
    ensures Mask(16) == 0x1_0000 && Mask(17) == 0x2_0000 && Mask(18) == 0x4_0000 && Mask(19) == 0x8_0000
    ensures Mask(20) == 0x10_0000 && Mask(21) == 0x20_0000 && Mask(22) == 0x40_0000 && Mask(23) == 0x80_0000
    ensures Mask(24) == 0x100_0000 && Mask(25) == 0x200_0000 && Mask(26) == 0x400_0000 && Mask(27) == 0x800_0000
    ensures Mask(28) == 0x1000_0000 && Mask(29) == 0x2000_0000 && Mask(30) == 0x4000_0000 && Mask(31) == 0x8000_0000
  {
  }

  /** A word is all ones exactly when each of its 32 bits is set. */
  lemma FullWord(w: bv32)
    ensures w == 0xFFFFFFFF <==> forall j: nat :: j < FRAME_BIT ==> Bit(w, j)
  {
    if w == 0xFFFFFFFF {
      forall j: nat | j < FRAME_BIT ensures Bit(w, j) { FullBit(w, j); }
    } else if forall j: nat :: j < FRAME_BIT ==> Bit(w, j) {
      BitsFull(w);
    }
  }

  lemma FullBit(w: bv32, j: nat)
    requires w == 0xFFFFFFFF && j < FRAME_BIT
    ensures Bit(w, j)
  {
    hide Mask;
    var a, _ := Shifts(j, j);
    FullHasAll(w, a);
  }

  lemma BitsFull(w: bv32)
    requires forall j: nat :: j < FRAME_BIT ==> Bit(w, j)
    ensures w == 0xFFFFFFFF
  {
    hide Mask;
    LowMasks();
    HighMasks();
    assert Bit(w, 0) && Bit(w, 1) && Bit(w, 2) && Bit(w, 3) && Bit(w, 4) && Bit(w, 5) && Bit(w, 6) && Bit(w, 7);
    assert Bit(w, 8) && Bit(w, 9) && Bit(w, 10) && Bit(w, 11) && Bit(w, 12) && Bit(w, 13) && Bit(w, 14) && Bit(w, 15);
    assert Bit(w, 16) && Bit(w, 17) && Bit(w, 18) && Bit(w, 19) && Bit(w, 20) && Bit(w, 21) && Bit(w, 22) && Bit(w, 23);
    assert Bit(w, 24) && Bit(w, 25) && Bit(w, 26) && Bit(w, 27) && Bit(w, 28) && Bit(w, 29) && Bit(w, 30) && Bit(w, 31);
    AllBitsFull(w);
  }

  // ----- Sets of frames -----

  /** The least frame from `i` on that is not used, or -1. */
  function LeastFree(used: set<int>, i: nat): int
    requires i <= NFRAMES
    decreases NFRAMES - i
  {
    if i == NFRAMES then -1 else if i !in used then i else LeastFree(used, i + 1)
  }

  lemma {:induction false} LeastFreeIs(used: set<int>, i: nat, r: int)
    requires i <= NFRAMES
    requires forall n :: i <= n < NFRAMES && (n < r || r == -1) ==> n in used
    requires r == -1 || (i <= r < NFRAMES && r !in used)
    ensures LeastFree(used, i) == r
    decreases NFRAMES - i
  {
    if i < NFRAMES && i != r { LeastFreeIs(used, i + 1, r); }
  }

  /** The frames that successive requests get. */
  function HandedOut(used: set<int>, requests: nat): (r: seq<int>)
    ensures |r| == requests
    decreases requests
  {
    if requests == 0 then []
    else
      var f := LeastFree(used, 0);
      [f] + HandedOut(if f == -1 then used else used + {f}, requests - 1)
  }

  function Below(k: nat): (r: set<int>)
    ensures forall n :: n in r <==> 0 <= n < k
  {
    if k == 0 then {} else Below(k - 1) + {k - 1}
  }

  lemma LeastAbove(k: nat)
    requires k <= NFRAMES
    ensures LeastFree(Below(k), 0) == if k < NFRAMES then k else -1
    ensures Below(k) + {k} == Below(k + 1)
  {
    LeastFreeIs(Below(k), 0, if k < NFRAMES then k else -1);
  }

  lemma HandedStep(k: nat, requests: nat)
    requires k <= NFRAMES && requests > 0
    ensures HandedOut(Below(k), requests)
         == [if k < NFRAMES then k else -1] + HandedOut(Below(if k < NFRAMES then k + 1 else k), requests - 1)
  {
    hide LeastFree, Below;
    LeastAbove(k);
  }

  /** From an empty bitmap frames come out in order without repeats, and then no more. */
  lemma {:induction false} HandsOutInOrder(k: nat, requests: nat)
    requires k <= NFRAMES
    ensures forall i :: 0 <= i < requests ==>
      HandedOut(Below(k), requests)[i] == if k + i < NFRAMES then k + i else -1
    decreases requests
  {
    hide HandedOut, Below;
    if requests > 0 {
      HandedStep(k, requests);
      HandsOutInOrder(if k < NFRAMES then k + 1 else k, requests - 1);
    } else {
      assert HandedOut(Below(k), 0) == [] by { NoneHandedOut(Below(k)); }
    }
  }

  lemma NoneHandedOut(used: set<int>)
    ensures HandedOut(used, 0) == []
  {
  }

  // ----- The bitmap -----

  class Bitmap {
    const words: array<bv32>

    ghost predicate Valid() {
      words.Length == WORDS
    }

    ghost predicate Used(n: int)
      requires Valid() && 0 <= n < NFRAMES
      reads words
    {
      Bit(words[n / FRAME_BIT], n % FRAME_BIT)
    }

    /** The set of frames that the bitmap stands for. */
    ghost function Frames(): set<int>
      requires Valid()
      reads words
    {
      set n | 0 <= n < NFRAMES && Used(n)
    }

    constructor ()
      ensures Valid() && Frames() == {} && fresh(words)
    {
      words := new bv32[WORDS](i => 0);
      new;
      hide Mask;
    }

    method FindFree() returns (r: int)
      requires Valid()
      ensures r == LeastFree(Frames(), 0)
      ensures r == -1 <==> forall n :: 0 <= n < NFRAMES ==> n in Frames()
      ensures r != -1 ==> 0 <= r < NFRAMES && r !in Frames() && forall n :: 0 <= n < r ==> n in Frames()
    {
      hide Mask, Bit, LeastFree;
      var i := 0;
      while i < WORDS
        invariant 0 <= i <= WORDS
        invariant forall n :: 0 <= n < i * FRAME_BIT ==> Used(n)
      {
        FullWord(words[i]);
        if words[i] != 0xFFFFFFFF {
          var j := 0;
          while j < FRAME_BIT
            invariant 0 <= j <= FRAME_BIT
            invariant forall k :: 0 <= k < j ==> Bit(words[i], k)
          {
            Tested(words[i], j);
            if words[i] & Mask(j) == 0 {
              r := i * FRAME_BIT + j;
              Position(i, j);
              forall n | i * FRAME_BIT <= n < r ensures Used(n) { Position(i, n - i * FRAME_BIT); }
              LeastFreeIs(Frames(), 0, r);
              return;
            }
            j := j + 1;
          }
        }
        forall n | i * FRAME_BIT <= n < (i + 1) * FRAME_BIT ensures Used(n) { Position(i, n - i * FRAME_BIT); }
        i := i + 1;
      }
      r := -1;
      LeastFreeIs(Frames(), 0, r);
    }

    method SetBit(addr: int)
      requires Valid() && 0 <= addr < NFRAMES * PAGE_SIZE
      modifies words
      ensures Frames() == old(Frames()) + {addr / PAGE_SIZE}
    {
      hide Mask, Bit;
      var frame := addr / PAGE_SIZE;
      var index := frame / FRAME_BIT;
      var offset := frame % FRAME_BIT;
      ghost var w := words[index];
      words[index] := words[index] | Mask(offset);
      forall n | 0 <= n < NFRAMES ensures Used(n) == (n == frame || old(Used(n))) {
        if n / FRAME_BIT == index { SetOneBit(w, offset, n % FRAME_BIT); }
      }
    }
  }

  lemma Position(i: int, j: int)
    requires 0 <= j < FRAME_BIT
    ensures (i * FRAME_BIT + j) / FRAME_BIT == i && (i * FRAME_BIT + j) % FRAME_BIT == j
  {
  }
}
