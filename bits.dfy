/** One byte of the configuration frame, seen two ways.

    Datasheet order numbers the bits 7 (most significant) down to 0, so bit p
    of a byte has the mask 1 << p.  The bit vector the driver builds from a
    byte stores them the other way round: its index 0 holds the most
    significant bit, so datasheet bit p lives at storage index 7 - p. */
module Bits {

  type Byte = bv8

  /** Mask of datasheet bit p, that is 1 << p. */
  function Mask(p: nat): Byte
    requires p < 8
  {
    match p
    case 0 => 0x01
    case 1 => 0x02
    case 2 => 0x04
    case 3 => 0x08
    case 4 => 0x10
    case 5 => 0x20
    case 6 => 0x40
    case _ => 0x80
  }

  /** x shifted left by k places, spelled out per k so that every shift
      amount is a constant. */
  function ShiftLeft(x: Byte, k: nat): Byte
    requires k < 8
  {
    match k
    case 0 => x
    case 1 => x << 1
    case 2 => x << 2
    case 3 => x << 3
    case 4 => x << 4
    case 5 => x << 5
    case 6 => x << 6
    case _ => x << 7
  }

  /** x shifted right by k places, one constant shift amount per k. */
  function ShiftRight(x: Byte, k: nat): Byte
    requires k < 8
  {
    match k
    case 0 => x
    case 1 => x >> 1
    case 2 => x >> 2
    case 3 => x >> 3
    case 4 => x >> 4
    case 5 => x >> 5
    case 6 => x >> 6
    case _ => x >> 7
  }

  /** Datasheet bit p of b. */
  predicate BitAt(b: Byte, p: nat)
    requires p < 8
  {
    b & Mask(p) != 0
  }

  /** b with datasheet bit p forced to v. */
  function MaskWrite(b: Byte, p: nat, v: bool): (r: Byte)
    requires p < 8
    ensures BitAt(r, p) == v
  {
    if v then b | Mask(p) else b & !Mask(p)
  }

  /** A mask write leaves bit q alone when q is not the bit written. */
  lemma MaskWriteKeeps(b: Byte, p: nat, v: bool, q: nat)
    requires p < 8 && q < 8 && q != p
    ensures BitAt(MaskWrite(b, p, v), q) == BitAt(b, q)
  {
  }

  /** Exactly bit p changes: it reads v afterwards, and every other bit of
      the byte is what it was. */
  lemma MaskWriteExact(b: Byte, p: nat, v: bool)
    requires p < 8
    ensures BitAt(MaskWrite(b, p, v), p) == v
    ensures forall q :: 0 <= q < 8 && q != p ==> BitAt(MaskWrite(b, p, v), q) == BitAt(b, q)
  {
    forall q | 0 <= q < 8 && q != p
      ensures BitAt(MaskWrite(b, p, v), q) == BitAt(b, q)
    {
      MaskWriteKeeps(b, p, v, q);
    }
  }

  /** Two bytes that agree on all eight bits are equal. */
  lemma BitsDetermineByte(a: Byte, b: Byte)
    requires forall p :: 0 <= p < 8 ==> BitAt(a, p) == BitAt(b, p)
    ensures a == b
  {
    assert BitAt(a, 0) == BitAt(b, 0) && BitAt(a, 1) == BitAt(b, 1);
    assert BitAt(a, 2) == BitAt(b, 2) && BitAt(a, 3) == BitAt(b, 3);
    assert BitAt(a, 4) == BitAt(b, 4) && BitAt(a, 5) == BitAt(b, 5);
    assert BitAt(a, 6) == BitAt(b, 6) && BitAt(a, 7) == BitAt(b, 7);
  }

  /** The storage-order bit vector of b (BitVec::from_bytes of one byte). */
  function ToStorage(b: Byte): (s: seq<bool>)
    ensures |s| == 8
  {
    [BitAt(b, 7), BitAt(b, 6), BitAt(b, 5), BitAt(b, 4),
     BitAt(b, 3), BitAt(b, 2), BitAt(b, 1), BitAt(b, 0)]
  }

  /** The byte an eight-bit storage-order vector stands for
      (BitVec::to_bytes): each bit shifts in below the ones before it.
      Shorter prefixes are defined only to carry the induction; they are
      not what to_bytes makes of a short vector. */
  function FromStorage(s: seq<bool>): Byte
    requires |s| <= 8
    decreases |s|
  {
    if |s| == 0 then 0
    else (FromStorage(s[..|s| - 1]) << 1) | (if s[|s| - 1] then 1 else 0)
  }

  /** Shifting a byte left and setting bit 0 to c moves every bit up one
      place and leaves c at the bottom. */
  lemma ShiftInBit(x: Byte, c: bool, j: nat)
    requires j < 8
    ensures BitAt((x << 1) | (if c then 1 else 0), j) == if j == 0 then c else BitAt(x, j - 1)
  {
    var y := (x << 1) | (if c then 1 else 0);
    match j
    case 0 => assert BitAt(y, 0) == (y & 1 != 0);
    case 1 => assert BitAt(y, 1) == (y & 2 != 0) && BitAt(x, 0) == (x & 1 != 0);
    case 2 => assert BitAt(y, 2) == (y & 4 != 0) && BitAt(x, 1) == (x & 2 != 0);
    case 3 => assert BitAt(y, 3) == (y & 8 != 0) && BitAt(x, 2) == (x & 4 != 0);
    case 4 => assert BitAt(y, 4) == (y & 16 != 0) && BitAt(x, 3) == (x & 8 != 0);
    case 5 => assert BitAt(y, 5) == (y & 32 != 0) && BitAt(x, 4) == (x & 16 != 0);
    case 6 => assert BitAt(y, 6) == (y & 64 != 0) && BitAt(x, 5) == (x & 32 != 0);
    case _ => assert BitAt(y, 7) == (y & 128 != 0) && BitAt(x, 6) == (x & 64 != 0);
  }

  /** Storage index i of a bit vector is datasheet bit |s| - 1 - i of its
      byte: 7 - i for a full byte. */
  lemma {:induction false} StorageBit(s: seq<bool>, i: nat)
    requires |s| <= 8 && i < |s|
    ensures BitAt(FromStorage(s), |s| - 1 - i) == s[i]
    decreases |s|
  {
    var front := s[..|s| - 1];
    ShiftInBit(FromStorage(front), s[|s| - 1], |s| - 1 - i);
    if i < |s| - 1 {
      StorageBit(front, i);
      assert front[i] == s[i];
    }
  }

  /** Building the bit vector of a byte and reading it back gives the byte. */
  lemma StorageRoundTrip(b: Byte)
    ensures FromStorage(ToStorage(b)) == b
  {
    var s := ToStorage(b);
    forall p | 0 <= p < 8
      ensures BitAt(FromStorage(s), p) == BitAt(b, p)
    {
      StorageBit(s, 7 - p);
    }
    BitsDetermineByte(FromStorage(s), b);
  }

  /** One bit of the equation below. */
  lemma StorageWriteBit(s: seq<bool>, k: nat, v: bool, p: nat)
    requires |s| == 8 && k < 8 && p < 8
    ensures BitAt(FromStorage(s[k := v]), p) == BitAt(MaskWrite(FromStorage(s), 7 - k, v), p)
  {
    StorageBit(s[k := v], 7 - p);
    if p != 7 - k {
      StorageBit(s, 7 - p);
      MaskWriteKeeps(FromStorage(s), 7 - k, v, p);
    }
  }

  /** Setting storage index k of the bit vector is the mask write of
      datasheet bit 7 - k: the reversed-index write and the mask arithmetic
      agree. */
  lemma StorageWrite(s: seq<bool>, k: nat, v: bool)
    requires |s| == 8 && k < 8
    ensures FromStorage(s[k := v]) == MaskWrite(FromStorage(s), 7 - k, v)
  {
    var x := FromStorage(s[k := v]);
    var y := MaskWrite(FromStorage(s), 7 - k, v);
    forall p | 0 <= p < 8
      ensures BitAt(x, p) == BitAt(y, p)
    {
      StorageWriteBit(s, k, v, p);
    }
    BitsDetermineByte(x, y);
  }

  /** The mask of a three-bit field whose lowest datasheet bit is low. */
  function FieldMask(low: nat): Byte
    requires low <= 5
  {
    ShiftLeft(7, low)
  }

  /** The three-bit code held in datasheet bits low + 2 .. low of b. */
  function Field(b: Byte, low: nat): (c: Byte)
    requires low <= 5
    ensures c < 8
  {
    ShiftRight(b, low) & 7
  }

  /** b with the three-bit field at low replaced by code. */
  function PlaceField(b: Byte, low: nat, code: Byte): Byte
    requires low <= 5 && code < 8
  {
    (b & !FieldMask(low)) | ShiftLeft(code, low)
  }

  /** Placing a field sets bits low .. low + 2 to the code's bits and keeps
      every other bit of the byte. */
  lemma PlaceFieldBits(b: Byte, low: nat, code: Byte, q: nat)
    requires low <= 5 && code < 8 && q < 8
    ensures BitAt(PlaceField(b, low, code), q) ==
            if low <= q < low + 3 then BitAt(code, q - low) else BitAt(b, q)
  {
    match low
    case 0 =>
    case 1 =>
    case 2 =>
    case 3 =>
    case 4 =>
    case _ =>
  }

  /** Reading a field back gives the code placed there. */
  lemma FieldReadBack(b: Byte, low: nat, code: Byte)
    requires low <= 5 && code < 8
    ensures Field(PlaceField(b, low, code), low) == code
  {
  }

  /** Placing the code a byte already holds leaves the byte unchanged. */
  lemma FieldRewrite(b: Byte, low: nat)
    requires low <= 5
    ensures PlaceField(b, low, Field(b, low)) == b
  {
  }

  /** Fields that do not overlap can be placed in either order. */
  lemma PlaceFieldsCommute(b: Byte, low1: nat, code1: Byte, low2: nat, code2: Byte)
    requires low1 <= 5 && low2 <= 5 && code1 < 8 && code2 < 8
    requires low1 + 3 <= low2 || low2 + 3 <= low1
    ensures PlaceField(PlaceField(b, low1, code1), low2, code2) ==
            PlaceField(PlaceField(b, low2, code2), low1, code1)
  {
    var x := PlaceField(PlaceField(b, low1, code1), low2, code2);
    var y := PlaceField(PlaceField(b, low2, code2), low1, code1);
    forall q | 0 <= q < 8
      ensures BitAt(x, q) == BitAt(y, q)
    {
      PlaceFieldBits(b, low1, code1, q);
      PlaceFieldBits(b, low2, code2, q);
      PlaceFieldBits(PlaceField(b, low1, code1), low2, code2, q);
      PlaceFieldBits(PlaceField(b, low2, code2), low1, code1, q);
    }
    BitsDetermineByte(x, y);
  }
}
