/** The driver's global `struct wiegand` and the routines that change it:
    wiegand_init and wiegand_clear, the data-line interrupt handler
    (wiegand_data_isr) and the end-of-frame timer handler
    (wiegand_timer_handler), plus the read view (wiegand_read_show).
    The handler's two GPIO reads become parameters, and the 50 ms timer
    firing becomes an explicit call of Decode. */
module WiegandReader {
  import opened WiegandFrame
  import opened WiegandView

  class Reader {
    /** read_count: frames decoded since Init. */
    var readCount: nat
    /** buffer[MAX_WIEGAND_BYTES]: the frame received so far, MSB first. */
    var buffer: array<bv8>
    /** current_bit: data edges seen in this frame, counted past the capacity too. */
    var currentBit: nat
    /** last_read_size: the bit count of the last decoded frame. */
    var lastReadSize: nat
    /** last_keypad, last_facility_code, last_card_number: the last decoded fields. */
    var lastKeypad: bv32
    var lastFacilityCode: bv32
    var lastCardNumber: bv32

    /** The data bits received since the frame was last cleared, oldest first. */
    ghost var Received: seq<bool>

    /** The buffer always holds what feeding the received bits into a cleared
        frame leaves, the bit counter counts them, and the last decoded fields
        are within the ranges the decoder can produce. */
    ghost predicate Valid()
      reads this, buffer
    {
      && buffer.Length == MaxWiegandBytes
      && currentBit == |Received|
      && buffer[..] == Feed(Received)
      && lastKeypad < 16 && lastFacilityCode < 512 && lastCardNumber < 65536
    }

    /** The driver's state block, initialised as init_module does before any edge. */
    constructor ()
      ensures Valid() && fresh(buffer)
      ensures readCount == 0 && currentBit == 0 && lastReadSize == 0
      ensures lastKeypad == 0 && lastFacilityCode == 0 && lastCardNumber == 0
      ensures Received == [] && buffer[..] == Cleared
      ensures ReadView() == ""
    {
      buffer := new bv8[MaxWiegandBytes];
      new;
      Init();
    }

    /** wiegand_init: forget the last read and clear the frame. */
    method Init()
      requires buffer.Length == MaxWiegandBytes
      modifies this, buffer
      ensures Valid() && buffer == old(buffer)
      ensures readCount == 0 && currentBit == 0 && lastReadSize == 0
      ensures lastKeypad == 0 && lastFacilityCode == 0 && lastCardNumber == 0
      ensures Received == [] && buffer[..] == Cleared
      ensures ReadView() == ""
    {
      lastFacilityCode := 0;
      lastCardNumber := 0;
      lastReadSize := 0;
      lastKeypad := 0;
      readCount := 0;
      Clear();
    }

    /** wiegand_clear: empty the frame (bit counter and every buffer byte);
        the last read and the read counter stay as they were. */
    method Clear()
      requires buffer.Length == MaxWiegandBytes
      modifies this`currentBit, this`Received, buffer
      ensures currentBit == 0 && Received == [] && buffer[..] == Cleared
    {
      currentBit := 0;
      forall i | 0 <= i < buffer.Length {
        buffer[i] := 0;
      }
      Received := [];
    }

    /** wiegand_data_isr, given the levels of W0 and W1 it reads. Both high is
        a return to idle and changes nothing; any other edge stores its bit
        while the buffer has room and counts it in any case. */
    method DataEdge(data0: int, data1: int)
      requires Valid()
      modifies this`currentBit, this`Received, buffer
      ensures Valid()
      ensures IsIdleEdge(data0, data1) ==>
        && currentBit == old(currentBit)
        && Received == old(Received)
        && buffer[..] == old(buffer[..])
      ensures !IsIdleEdge(data0, data1) ==>
        && currentBit == old(currentBit) + 1
        && Received == old(Received) + [EdgeBit(data0, data1)]
        && buffer[..] == if old(currentBit) < MaxBits
                         then StoreBit(old(buffer[..]), old(currentBit), EdgeBit(data0, data1))
                         else old(buffer[..])
    {
      var value: bv8 := if data0 == 1 && data1 == 0 then 0x80 else 0;
      if data0 == 1 && data1 == 1 {
        return;
      }
      ghost var bit := EdgeBit(data0, data1);
      ghost var before := buffer[..];
      assert value == EdgeValue(bit);
      if currentBit < MaxWiegandBytes * 8 {
        buffer[currentBit / 8] := buffer[currentBit / 8] | (value >> (currentBit % 8));
        assert buffer[..] == StoreBit(before, currentBit, bit);
      }
      FeedAppend(Received, bit);
      currentBit := currentBit + 1;
      Received := Received + [bit];
    }

    /** wiegand_timer_handler: decode the buffer into the last-read fields
        whatever the bit count, count the read, record the bit count and clear
        the frame. */
    method Decode()
      requires Valid()
      modifies this, buffer
      ensures Valid() && buffer == old(buffer)
      ensures lastFacilityCode == Facility(old(buffer[..]))
      ensures lastCardNumber == CardNumber(old(buffer[..]))
      ensures lastKeypad == Keypad(old(buffer[..]))
      ensures lastKeypad == BinaryValue(FrameOf(old(Received))[..4])
      ensures lastFacilityCode == BinaryValue(FrameOf(old(Received))[..9])
      ensures lastCardNumber == BinaryValue(FrameOf(old(Received))[9..24] + [FrameOf(old(Received))[31]])
      ensures readCount == old(readCount) + 1
      ensures lastReadSize == old(currentBit)
      ensures currentBit == 0 && Received == [] && buffer[..] == Cleared
    {
      FedFields(Received);
      lastFacilityCode := Facility(buffer[..]);
      lastCardNumber := CardNumber(buffer[..]);
      readCount := readCount + 1;
      lastKeypad := Keypad(buffer[..]);
      lastReadSize := currentBit;
      Clear();
    }

    /** What the buffer holds, bit by bit: the bits received since the frame
        was cleared, in arrival order, up to the capacity, and zeros after. */
    lemma StoredFrame()
      requires Valid()
      ensures FrameBits(buffer[..]) == FrameOf(Received)
      ensures forall i :: 0 <= i < MaxBits ==> (BitAt(buffer[..], i) <==> i < currentBit && Received[i])
    {
      FeedRoundTrip(Received);
    }

    /** wiegand_read_show: the text a read of the attribute returns. */
    function ReadView(): string
      reads this
    {
      Show(lastReadSize, lastKeypad as nat, lastFacilityCode as nat, lastCardNumber as nat)
    }
  }

  // ---------------------------------------------------------------------------
  // From received bits to the text a read shows

  /** After a 4-bit frame, a read shows `PAD:` and one hex digit worth the four
      bits received. */
  lemma KeypadFrameRead(bits: seq<bool>, facility: nat, number: nat)
    requires |bits| == 4
    ensures var out := Show(|bits|, Keypad(Feed(bits)) as nat, facility, number);
      && |out| == 6 && out[..4] == PadToken && out[5] == '\n'
      && DigitValue(out[4]) == BinaryValue(bits) as nat
  {
    FedKeypad(bits);
    assert bits[..4] == bits;
    ShowKeypad(Keypad(Feed(bits)) as nat, facility, number);
  }

  /** After a 26- or 34-bit frame, a read shows `TAG:`, three digits worth
      received bits 0-8 and five digits worth received bits 9-23 followed by
      bit 31 (0 in a 26-bit frame). */
  lemma CardFrameRead(bits: seq<bool>, keypad: nat)
    requires |bits| == 26 || |bits| == 34
    ensures var out := Show(|bits|, keypad, Facility(Feed(bits)) as nat, CardNumber(Feed(bits)) as nat);
      && |out| == 14 && out[..4] == TagToken && out[7] == ':' && out[13] == '\n'
      && IsDigits(out[4..7], 10) && ValueOf(out[4..7], 10) == BinaryValue(bits[..9]) as nat
      && IsDigits(out[8..13], 10)
      && ValueOf(out[8..13], 10) == BinaryValue(bits[9..24] + [|bits| == 34 && bits[31]]) as nat
  {
    FedCard(bits);
    ShowCard(|bits|, keypad, Facility(Feed(bits)) as nat, CardNumber(Feed(bits)) as nat);
  }
}
