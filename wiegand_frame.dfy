/** The Wiegand frame buffer at bit level: where one data edge stores its bit,
    what the buffer holds after a run of bits, and how the timeout handler
    slices the keypad digit, facility code and card number out of it.
    Bytes are unsigned (`char` on the ARM target), hence `bv8`; the decoded
    fields are `unsigned int`, hence `bv32`. */
module WiegandFrame {

  /** MAX_WIEGAND_BYTES: the frame buffer's size in bytes. */
  const MaxWiegandBytes: nat := 6

  /** Number of frame bits the buffer can store. */
  const MaxBits: nat := MaxWiegandBytes * 8

  /** The contents of the frame buffer. */
  type Buffer = s: seq<bv8> | |s| == MaxWiegandBytes witness [0, 0, 0, 0, 0, 0]

  /** The buffer as wiegand_clear leaves it. */
  const Cleared: Buffer := [0, 0, 0, 0, 0, 0]

  // ---------------------------------------------------------------------------
  // Bit positions

  /** Mask of frame bit `i` within its byte: bits fill each byte MSB first. */
  function BitMask(i: nat): bv8
  {
    0x80 >> (i % 8)
  }

  /** Frame bit `i`: the bit under BitMask(i) in byte i / 8. */
  predicate BitAt(buf: Buffer, i: nat)
    requires i < MaxBits
  {
    ByteBit(buf[i / 8], i % 8)
  }

  /** Bit j of a byte, counting from the most significant: the bit under
      BitMask(8 * k + j) when the byte is byte k of the buffer. */
  predicate ByteBit(b: bv8, j: nat)
    requires j < 8
  {
    b & (0x80 >> j) != 0
  }

  /** Frame bit 8 * k + j is bit j of byte k. */
  lemma FrameBitOfByte(buf: Buffer, k: nat, j: nat)
    requires k < MaxWiegandBytes && j < 8
    ensures FrameBits(buf)[8 * k + j] == ByteBit(buf[k], j)
  {
    assert (8 * k + j) / 8 == k && (8 * k + j) % 8 == j;
  }

  /** All stored frame bits, in arrival order. */
  function FrameBits(buf: Buffer): (bits: seq<bool>)
    ensures |bits| == MaxBits
    ensures forall i :: 0 <= i < MaxBits ==> bits[i] == BitAt(buf, i)
  {
    seq(MaxBits, i requires 0 <= i < MaxBits => BitAt(buf, i))
  }

  // ---------------------------------------------------------------------------
  // One edge

  /** Both lines high: a return-to-idle edge, which the interrupt handler ignores. */
  predicate IsIdleEdge(data0: int, data1: int)
  {
    data0 == 1 && data1 == 1
  }

  /** The bit a data edge carries: 1 exactly when W0 reads high and W1 low. */
  predicate EdgeBit(data0: int, data1: int)
  {
    data0 == 1 && data1 == 0
  }

  /** The byte the handler shifts into place: 0x80 for a 1 bit, 0 for a 0 bit. */
  function EdgeValue(bit: bool): bv8
  {
    if bit then 0x80 else 0
  }

  /** A stored edge: EdgeValue(bit), shifted right by pos % 8, ORed into byte pos / 8. */
  function StoreBit(buf: Buffer, pos: nat, bit: bool): Buffer
    requires pos < MaxBits
  {
    buf[pos / 8 := buf[pos / 8] | (EdgeValue(bit) >> (pos % 8))]
  }

  /** Within one byte: ORing the shifted edge value in at offset p changes the
      bit at offset q only when p == q and the edge carries a 1. */
  lemma OrEdgeValue(b: bv8, bit: bool, p: nat, q: nat)
    requires p < 8 && q < 8
    ensures ((b | (EdgeValue(bit) >> p)) & (0x80 >> q) != 0) == (b & (0x80 >> q) != 0 || (p == q && bit))
  {
  }

  /** Storing a bit at `pos` sets frame bit `pos` when the bit is 1 and leaves
      every other frame bit, and bit `pos` itself for a 0, as it was. */
  lemma StoreBitEffect(buf: Buffer, pos: nat, bit: bool, i: nat)
    requires pos < MaxBits && i < MaxBits
    ensures BitAt(StoreBit(buf, pos, bit), i) == (BitAt(buf, i) || (i == pos && bit))
  {
    if i / 8 == pos / 8 {
      OrEdgeValue(buf[pos / 8], bit, pos % 8, i % 8);
      assert i == pos <==> i % 8 == pos % 8;
    }
  }

  /** Storing a bit touches byte pos / 8 only, and ORs into it BitMask(pos) for a 1
      and nothing for a 0. */
  lemma StoreBitFrame(buf: Buffer, pos: nat, bit: bool)
    requires pos < MaxBits
    ensures forall k :: 0 <= k < MaxWiegandBytes && k != pos / 8 ==> StoreBit(buf, pos, bit)[k] == buf[k]
    ensures StoreBit(buf, pos, bit)[pos / 8] == buf[pos / 8] | (if bit then BitMask(pos) else 0)
  {
  }

  // ---------------------------------------------------------------------------
  // A run of edges

  /** The buffer after the data bits `bits`, oldest first, were fed to a cleared
      frame: bits past the capacity are counted by the caller but not stored. */
  function Feed(bits: seq<bool>): Buffer
  {
    if |bits| == 0 then Cleared
    else
      var n := |bits| - 1;
      if n < MaxBits then StoreBit(Feed(bits[..n]), n, bits[n]) else Feed(bits[..n])
  }

  /** One more edge: feeding a further bit stores it at the next position
      while there is room, and leaves the buffer as it was after that. */
  lemma FeedAppend(bits: seq<bool>, bit: bool)
    ensures Feed(bits + [bit]) == if |bits| < MaxBits then StoreBit(Feed(bits), |bits|, bit) else Feed(bits)
  {
    assert (bits + [bit])[..|bits|] == bits;
  }

  /** The frame a run of bits should leave: the bits themselves, then zeros,
      cut at the capacity. */
  function FrameOf(bits: seq<bool>): (frame: seq<bool>)
    ensures |frame| == MaxBits
  {
    seq(MaxBits, i requires 0 <= i < MaxBits => i < |bits| && bits[i])
  }

  /** Frame bit i after feeding `bits` into a cleared frame: bit i of the input
      while there is one, zero after it. */
  lemma {:induction false} FeedBit(bits: seq<bool>, i: nat)
    requires i < MaxBits
    ensures BitAt(Feed(bits), i) == (i < |bits| && bits[i])
  {
    if |bits| == 0 {
      assert Cleared[i / 8] == 0;
    } else {
      var n := |bits| - 1;
      FeedBit(bits[..n], i);
      if n < MaxBits {
        StoreBitEffect(Feed(bits[..n]), n, bits[n], i);
      }
    }
  }

  /** Round trip: feeding bits into a cleared frame stores bit i at frame
      position i for every i below the capacity, and leaves every later
      position zero. */
  lemma FeedRoundTrip(bits: seq<bool>)
    ensures FrameBits(Feed(bits)) == FrameOf(bits)
  {
    forall i | 0 <= i < MaxBits ensures FrameBits(Feed(bits))[i] == FrameOf(bits)[i] {
      FeedBit(bits, i);
    }
  }

  // ---------------------------------------------------------------------------
  // Binary values

  /** Appending one bit below the bits read so far. */
  function Push(acc: bv32, bit: bool): bv32
  {
    (acc << 1) | (if bit then 1 else 0)
  }

  /** Up to 32 bits read as an unsigned number, most significant bit first. */
  function BinaryValue(bits: seq<bool>): bv32
    requires |bits| <= 32
  {
    if |bits| == 0 then 0 else Push(BinaryValue(bits[..|bits| - 1]), bits[|bits| - 1])
  }

  /** Reading one more bit of a prefix. */
  lemma PrefixStep(bits: seq<bool>, k: nat)
    requires k < |bits| && k < 32
    ensures BinaryValue(bits[..k + 1]) == Push(BinaryValue(bits[..k]), bits[k])
  {
    assert bits[..k + 1][..k] == bits[..k];
  }

  /** The first four bits of a byte read as its high nibble. */
  lemma PushHighNibble(b: bv8)
    ensures Push(Push(Push(Push(0, ByteBit(b, 0)), ByteBit(b, 1)), ByteBit(b, 2)), ByteBit(b, 3)) == (b >> 4) as bv32
  {
  }

  /** The last seven bits of a byte read as the byte masked with 0x7F. */
  lemma PushLow7(b: bv8)
    ensures Push(Push(Push(Push(Push(Push(Push(0, ByteBit(b, 1)), ByteBit(b, 2)), ByteBit(b, 3)), ByteBit(b, 4)), ByteBit(b, 5)), ByteBit(b, 6)), ByteBit(b, 7))
            == (b & 0x7F) as bv32
  {
  }

  /** Reading all eight bits of a byte after `acc` appends the byte to it. */
  lemma PushByte(acc: bv32, b: bv8)
    ensures Push(Push(Push(Push(Push(Push(Push(Push(acc, ByteBit(b, 0)), ByteBit(b, 1)), ByteBit(b, 2)), ByteBit(b, 3)), ByteBit(b, 4)), ByteBit(b, 5)), ByteBit(b, 6)), ByteBit(b, 7))
            == (acc << 8) | (b as bv32)
  {
  }

  // ---------------------------------------------------------------------------
  // Decoded fields (the timeout handler's formulas, with C's promotion to int)

  /** last_keypad: the high nibble of byte 0. */
  function Keypad(buf: Buffer): (r: bv32)
    ensures r < 16
  {
    ((buf[0] as bv32) >> 4) & 0xF
  }

  /** last_facility_code: byte 0 shifted up one place, with the top bit of byte 1 below it. */
  function Facility(buf: Buffer): (r: bv32)
    ensures r < 512
  {
    ((buf[0] as bv32) << 1) | ((buf[1] as bv32) >> 7)
  }

  /** last_card_number: the low seven bits of byte 1, byte 2, then the LOWEST bit of byte 3. */
  function CardNumber(buf: Buffer): (r: bv32)
    ensures r < 65536
  {
    (((buf[1] & 0x7F) as bv32) << 9) | ((buf[2] as bv32) << 1) | ((buf[3] & 1) as bv32)
  }

  /** The keypad digit is frame bits 0-3 read as a number. */
  lemma KeypadBits(buf: Buffer)
    ensures Keypad(buf) == BinaryValue(FrameBits(buf)[..4])
  {
    var s := FrameBits(buf)[..4];
    forall j | 0 <= j < 4 ensures s[j] == ByteBit(buf[0], j) {
      FrameBitOfByte(buf, 0, j);
    }
    assert s[..0] == [];
    PrefixStep(s, 0);
    PrefixStep(s, 1);
    PrefixStep(s, 2);
    PrefixStep(s, 3);
    assert s[..4] == s;
    PushHighNibble(buf[0]);
  }

  /** Reading eight bits that spell byte b after a prefix worth acc appends b to acc. */
  lemma ReadByte(s: seq<bool>, k: nat, acc: bv32, b: bv8)
    requires k + 8 <= |s| <= 32
    requires BinaryValue(s[..k]) == acc
    requires forall j :: 0 <= j < 8 ==> s[k + j] == ByteBit(b, j)
    ensures BinaryValue(s[..k + 8]) == (acc << 8) | (b as bv32)
  {
    PrefixStep(s, k + 0);
    PrefixStep(s, k + 1);
    PrefixStep(s, k + 2);
    PrefixStep(s, k + 3);
    PrefixStep(s, k + 4);
    PrefixStep(s, k + 5);
    PrefixStep(s, k + 6);
    PrefixStep(s, k + 7);
    PushByte(acc, b);
  }

  /** Reading the seven bits below the top bit of byte b, from the start, gives b & 0x7F. */
  lemma ReadLow7(s: seq<bool>, b: bv8)
    requires 7 <= |s| <= 32
    requires forall j :: 0 <= j < 7 ==> s[j] == ByteBit(b, j + 1)
    ensures BinaryValue(s[..7]) == (b & 0x7F) as bv32
  {
    assert s[..0] == [];
    PrefixStep(s, 0);
    PrefixStep(s, 1);
    PrefixStep(s, 2);
    PrefixStep(s, 3);
    PrefixStep(s, 4);
    PrefixStep(s, 5);
    PrefixStep(s, 6);
    PushLow7(b);
  }

  /** The facility code is frame bits 0-8 read as a number: the leading parity
      bit of a 26-bit frame becomes its most significant bit. */
  lemma FacilityBits(buf: Buffer)
    ensures Facility(buf) == BinaryValue(FrameBits(buf)[..9])
  {
    var s := FrameBits(buf)[..9];
    forall j | 0 <= j < 8 ensures s[j] == ByteBit(buf[0], j) {
      FrameBitOfByte(buf, 0, j);
    }
    FrameBitOfByte(buf, 1, 0);
    ReadFacility(s, buf[0], buf[1]);
  }

  /** Nine bits spelling b0 and then the top bit of b1 read as the facility formula. */
  lemma ReadFacility(s: seq<bool>, b0: bv8, b1: bv8)
    requires |s| == 9
    requires forall j :: 0 <= j < 8 ==> s[j] == ByteBit(b0, j)
    requires s[8] == ByteBit(b1, 0)
    ensures BinaryValue(s) == ((b0 as bv32) << 1) | ((b1 as bv32) >> 7)
  {
    assert s[..0] == [];
    ReadByte(s, 0, 0, b0);
    PrefixStep(s, 8);
    assert s[..9] == s;
    assert BinaryValue(s) == Push(((0 as bv32) << 8) | (b0 as bv32), ByteBit(b1, 0));
    FacilityAssembly(b0, b1);
  }

  /** The last step of FacilityBits: appending the top bit of byte 1. */
  lemma FacilityAssembly(b0: bv8, b1: bv8)
    ensures Push(((0 as bv32) << 8) | (b0 as bv32), ByteBit(b1, 0))
            == ((b0 as bv32) << 1) | ((b1 as bv32) >> 7)
  {
  }

  /** The card number is frame bits 9-23 followed by frame bit 31, read as a number. */
  lemma CardNumberBits(buf: Buffer)
    ensures CardNumber(buf) == BinaryValue(FrameBits(buf)[9..24] + [FrameBits(buf)[31]])
  {
    var s := FrameBits(buf)[9..24] + [FrameBits(buf)[31]];
    forall j | 0 <= j < 7 ensures s[j] == ByteBit(buf[1], j + 1) {
      FrameBitOfByte(buf, 1, j + 1);
    }
    forall j | 0 <= j < 8 ensures s[7 + j] == ByteBit(buf[2], j) {
      FrameBitOfByte(buf, 2, j);
    }
    FrameBitOfByte(buf, 3, 7);
    ReadNumber(s, buf[1], buf[2], buf[3]);
  }

  /** Sixteen bits spelling the low seven bits of b1, all of b2 and the low bit
      of b3 read as the card-number formula. */
  lemma ReadNumber(s: seq<bool>, b1: bv8, b2: bv8, b3: bv8)
    requires |s| == 16
    requires forall j :: 0 <= j < 7 ==> s[j] == ByteBit(b1, j + 1)
    requires forall j :: 0 <= j < 8 ==> s[7 + j] == ByteBit(b2, j)
    requires s[15] == ByteBit(b3, 7)
    ensures BinaryValue(s) == (((b1 & 0x7F) as bv32) << 9) | ((b2 as bv32) << 1) | ((b3 & 1) as bv32)
  {
    var high := (((b1 & 0x7F) as bv32) << 8) | (b2 as bv32);
    ReadNumberHigh(s, b1, b2);
    PrefixStep(s, 15);
    assert s[..16] == s;
    assert BinaryValue(s) == Push(high, ByteBit(b3, 7));
    NumberAssembly(b1, b2, b3);
  }

  /** The first fifteen bits of ReadNumber: the low seven bits of b1, then b2. */
  lemma ReadNumberHigh(s: seq<bool>, b1: bv8, b2: bv8)
    requires |s| == 16
    requires forall j :: 0 <= j < 7 ==> s[j] == ByteBit(b1, j + 1)
    requires forall j :: 0 <= j < 8 ==> s[7 + j] == ByteBit(b2, j)
    ensures BinaryValue(s[..15]) == (((b1 & 0x7F) as bv32) << 8) | (b2 as bv32)
  {
    ReadLow7(s, b1);
    ReadByte(s, 7, (b1 & 0x7F) as bv32, b2);
  }

  /** The last step of ReadNumber: appending the low bit of byte 3. */
  lemma NumberAssembly(b1: bv8, b2: bv8, b3: bv8)
    ensures Push((((b1 & 0x7F) as bv32) << 8) | (b2 as bv32), ByteBit(b3, 7))
            == (((b1 & 0x7F) as bv32) << 9) | ((b2 as bv32) << 1) | ((b3 & 1) as bv32)
  {
  }

  // ---------------------------------------------------------------------------
  // Decoded fields of a received frame

  /** The fields decoded from a received frame, whatever its length, are
      slices of the bits received (zeros where none arrived) read as numbers. */
  lemma FedFields(bits: seq<bool>)
    ensures Keypad(Feed(bits)) == BinaryValue(FrameOf(bits)[..4])
    ensures Facility(Feed(bits)) == BinaryValue(FrameOf(bits)[..9])
    ensures CardNumber(Feed(bits)) == BinaryValue(FrameOf(bits)[9..24] + [FrameOf(bits)[31]])
  {
    FeedRoundTrip(bits);
    KeypadBits(Feed(bits));
    FacilityBits(Feed(bits));
    CardNumberBits(Feed(bits));
  }

  /** A keypad press: the digit is the first four bits received, read as a number. */
  lemma FedKeypad(bits: seq<bool>)
    requires |bits| >= 4
    ensures Keypad(Feed(bits)) == BinaryValue(bits[..4])
  {
    var frame := FrameBits(Feed(bits));
    FeedRoundTrip(bits);
    assert frame == FrameOf(bits);
    assert frame[..4] == bits[..4];
    KeypadBits(Feed(bits));
  }

  /** A card frame: the facility code is the first nine bits received and the
      card number is bits 9-23 followed by bit 31 (0 when the frame is shorter
      than 32 bits), each read as a number. */
  lemma FedCard(bits: seq<bool>)
    requires |bits| >= 24
    ensures Facility(Feed(bits)) == BinaryValue(bits[..9])
    ensures CardNumber(Feed(bits)) == BinaryValue(bits[9..24] + [|bits| > 31 && bits[31]])
  {
    FedFacility(bits);
    FedCardNumber(bits);
  }

  /** The facility half of FedCard. */
  lemma FedFacility(bits: seq<bool>)
    requires |bits| >= 9
    ensures Facility(Feed(bits)) == BinaryValue(bits[..9])
  {
    var frame := FrameBits(Feed(bits));
    FeedRoundTrip(bits);
    assert frame == FrameOf(bits);
    assert frame[..9] == bits[..9];
    FacilityBits(Feed(bits));
  }

  /** The card-number half of FedCard. */
  lemma FedCardNumber(bits: seq<bool>)
    requires |bits| >= 24
    ensures CardNumber(Feed(bits)) == BinaryValue(bits[9..24] + [|bits| > 31 && bits[31]])
  {
    CardNumberBits(Feed(bits));
    CardSlice(FrameBits(Feed(bits)), bits);
  }

  /** The bits CardNumberBits reads from a received frame are the bits received
      at those positions. */
  lemma CardSlice(frame: seq<bool>, bits: seq<bool>)
    requires |bits| >= 24 && frame == FrameBits(Feed(bits))
    ensures frame[9..24] + [frame[31]] == bits[9..24] + [|bits| > 31 && bits[31]]
  {
    FeedRoundTrip(bits);
    assert frame[9..24] == bits[9..24];
  }

  /** In a 26-bit frame the card number's lowest bit is frame bit 31, which
      never arrives: every 26-bit card decodes to an even number. */
  lemma Card26NumberEven(bits: seq<bool>)
    requires |bits| == 26
    ensures CardNumber(Feed(bits)) & 1 == 0
    ensures CardNumber(Feed(bits)) == BinaryValue(bits[9..24]) << 1
  {
    FedCard(bits);
    var s := bits[9..24] + [false];
    PrefixStep(s, 15);
    assert s[..15] == bits[9..24] && s[..16] == s;
  }

  /** Bits 24 and 25 of a 26-bit frame (its trailing parity bit included) are
      never read: frames that agree on bits 0-23 decode to the same fields. */
  lemma TrailingBitsIgnored(bits: seq<bool>, other: seq<bool>)
    requires |bits| == 26 && |other| == 26
    requires bits[..24] == other[..24]
    ensures Keypad(Feed(bits)) == Keypad(Feed(other))
    ensures Facility(Feed(bits)) == Facility(Feed(other))
    ensures CardNumber(Feed(bits)) == CardNumber(Feed(other))
  {
    FedKeypad(bits);
    FedKeypad(other);
    FedCard(bits);
    FedCard(other);
    assert bits[..4] == bits[..24][..4] && other[..4] == other[..24][..4];
    assert bits[..9] == bits[..24][..9] && other[..9] == other[..24][..9];
    assert bits[9..24] == bits[..24][9..] && other[9..24] == other[..24][9..];
  }
}
