# Wiegand GPIO reader: frame accumulator, decoder and read view

This project models the logic of a Linux kernel module that reads a Wiegand
card reader or keypad on two GPIO lines (W0 and W1) of a Raspberry Pi.

- Each data edge calls an interrupt handler.
- The handler stores one bit, most significant first, into a 6-byte frame
  buffer, as long as the buffer has room. It counts every bit, including
  those past the capacity.
- When no edge has arrived for 50 ms, a timer handler decodes the buffer.
  It always extracts the same three fields:
  - a keypad digit;
  - a facility code;
  - a card number.

  It then counts the read, records the frame's bit count and clears the
  frame.
- A read of the sysfs attribute `read` turns the last decode into text:
  - `PAD:` and one hex digit after a 4-bit frame;
  - `TAG:fff:nnnnn` after a 26- or 34-bit frame;
  - nothing after a frame of any other length.

The project has three modules:

- `WiegandFrame` (`wiegand_frame.dfy`) is the bit-level specification:
  - where one edge stores its bit (`StoreBit`);
  - what the buffer holds after a run of bits (`Feed`);
  - the three decode formulas, written literally on bytes (`Keypad`,
    `Facility`, `CardNumber`);
  - lemmas reading each formula back as a slice of the received bits,
    interpreted as a binary number (`BinaryValue`).
- `WiegandView` (`wiegand_view.dfy`) covers the read view:
  - `Show`, the switch on `last_read_size`;
  - the printf conversions it uses (`%1X`, `%.3d`, `%.5d`) as digit-string
    functions;
  - round-trip lemmas that read the printed digits back as numbers.
- `WiegandReader` (`wiegand_reader.dfy`) holds the driver state `struct
  wiegand` as the class `Reader`:
  - Its byte buffer is an `array<bv8>`.
  - Its methods are `Init`, `Clear`, `DataEdge` (the interrupt handler) and
    `Decode` (the timer handler).
  - A ghost sequence `Received` holds the bits of the current frame.
  - The invariant `Valid` ties the array to `Feed(Received)`.

The two GPIO levels the interrupt handler reads become the parameters of
`DataEdge`. The timer firing becomes an explicit call of `Decode`.

Bytes are `bv8`, because `char` is unsigned on the ARM target. The decoded
fields are `bv32` (`unsigned int`).

Notes on what the code does, as modelled:

- The timer handler never looks at the bit count. It decodes every frame
  with the same formulas and increments `read_count` on every timeout,
  whatever the frame length. Only the read view selects on the length.
- The facility code is frame bits 0-8, leading parity bit included, so it
  is below 512.
- The card number is frame bits 9-23 followed by frame bit 31, so it is
  below 65536.
- A 26-bit frame never writes frame bit 31. Every 26-bit card therefore
  decodes to an even number: twice the value of bits 9-23 (lemma
  `Card26NumberEven`). In the common 26-bit card format, by contrast, the
  facility code is bits 1-8 and the number is bits 9-24. A 26-bit frame
  carrying number 34567 can therefore never be shown as such.
- Frame bits 24 and 25 of a 26-bit frame are never read
  (`TrailingBitsIgnored`).

## Model

| member | source | states |
|---|---|---|
| WiegandFrame.StoreBitEffect | wiegand-gpio.c:260-271 | After an edge is stored at position `pos`, frame bit `i` is set iff it was set before, or `i == pos` and the edge carries a 1 (W0 high, W1 low). Every other bit is unchanged. |
| WiegandFrame.StoreBitFrame | wiegand-gpio.c:269-272 | A stored edge changes byte `pos / 8` only. It ORs in mask `0x80 >> (pos % 8)` for a 1 and nothing for a 0. All other bytes keep their value. |
| WiegandFrame.FeedAppend | wiegand-gpio.c:269-273 | One more edge: the bit is stored at the next position while that position is below 48. At or past 48 the buffer is unchanged. |
| WiegandFrame.FeedBit | wiegand-gpio.c:269-273 | Bits fed into a cleared frame: for every position below 48, frame bit `i` equals the `i`-th bit fed. Every position at or past the number of bits fed is zero. |
| WiegandFrame.FeedRoundTrip | wiegand-gpio.c:116-120 | Round trip: the frame bits of `Feed(bits)` are exactly the bits fed, cut at 48 and padded with zeros. |
| WiegandFrame.Keypad | wiegand-gpio.c:152 | The keypad digit (high nibble of byte 0) is below 16. |
| WiegandFrame.Facility | wiegand-gpio.c:145-146 | The facility code (byte 0 shifted left by one, with the top bit of byte 1) is below 512. |
| WiegandFrame.CardNumber | wiegand-gpio.c:148-150 | The card number (low 7 bits of byte 1, then byte 2, then the low bit of byte 3) is below 65536. |
| WiegandFrame.KeypadBits | wiegand-gpio.c:152 | The keypad formula is frame bits 0-3, read as a binary number. |
| WiegandFrame.FacilityBits | wiegand-gpio.c:145-146 | The facility formula is frame bits 0-8, read as a binary number. |
| WiegandFrame.CardNumberBits | wiegand-gpio.c:148-150 | The card-number formula is frame bits 9-23 followed by frame bit 31, read as a binary number. |
| WiegandFrame.FedFields | wiegand-gpio.c:145-152 | For a frame of any length, each decoded field is its slice of the received bits, zero-padded to 48, read as a number. |
| WiegandFrame.FedKeypad | wiegand-gpio.c:152 | Once at least 4 bits have arrived, the keypad digit is the first four bits received. |
| WiegandFrame.FedCard | wiegand-gpio.c:145-150 | Once at least 24 bits have arrived, the facility code is received bits 0-8. The card number is received bits 9-23, followed by bit 31, or by 0 if the frame is shorter than 32 bits. |
| WiegandFrame.FedFacility | wiegand-gpio.c:145-146 | Once at least 9 bits have arrived, the facility code is received bits 0-8. |
| WiegandFrame.FedCardNumber | wiegand-gpio.c:148-150 | Once at least 24 bits have arrived, the card number is received bits 9-23 followed by bit 31, or by 0 if the frame is shorter than 32 bits. |
| WiegandFrame.Card26NumberEven | wiegand-gpio.c:148-150 | Every 26-bit frame decodes to an even card number: twice the value of bits 9-23. |
| WiegandFrame.TrailingBitsIgnored | wiegand-gpio.c:145-152 | Two 26-bit frames that agree on bits 0-23 decode to the same keypad digit, facility code and card number. |
| WiegandView.DigitsRoundTrip | wiegand-gpio.c:59 | The digits printf writes for a value read back as that value, in any base from 2 to 16. |
| WiegandView.PadZerosValue | wiegand-gpio.c:66 | Zero-padding to a precision keeps a digit string's digits and its value. |
| WiegandView.DecimalPrecisionExact | wiegand-gpio.c:66 | `%.<p>d` of a value below 10^p is exactly `p` decimal digits that read back as the value. |
| WiegandView.Show | wiegand-gpio.c:56-74 | The read view is empty iff `last_read_size` is none of 4, 26 and 34. |
| WiegandView.ShowKeypad | wiegand-gpio.c:57-62 | For size 4 the view is six characters: `PAD:`, one hex digit worth the keypad digit, and a newline. |
| WiegandView.ShowCard | wiegand-gpio.c:63-70 | For size 26 or 34 the view is fourteen characters: `TAG:`, three decimal digits worth the facility code, `:`, five decimal digits worth the card number, and a newline. |
| WiegandReader.Reader.constructor | wiegand-gpio.c:122-130 | A fresh driver state, as module initialisation leaves it: every counter and field is zero, the frame is cleared and the read view is empty. |
| WiegandReader.Reader.Init | wiegand-gpio.c:122-130 | `wiegand_init` sets the last-read fields and `read_count` to zero and clears the frame, so the read view is empty. It keeps the invariant. |
| WiegandReader.Reader.Clear | wiegand-gpio.c:116-120 | `wiegand_clear` sets the bit counter to zero and all six buffer bytes to zero. It changes nothing else. |
| WiegandReader.Reader.DataEdge | wiegand-gpio.c:254-280 | Both lines high leaves the counter, the buffer and the received bits unchanged. Any other edge appends its bit to the received bits and adds exactly 1 to `current_bit`, past 48 too. It stores the bit with `StoreBit` while `current_bit < 48`; at or past 48 the buffer is unchanged. It keeps the invariant. |
| WiegandReader.Reader.Decode | wiegand-gpio.c:140-156 | The three fields are the literal formulas of the old buffer, and equal the slices of the received bits read as numbers. `read_count` goes up by exactly 1 and `last_read_size` is the old bit count, whatever the frame length. The frame is fully cleared and the invariant kept. |
| WiegandReader.Reader.StoredFrame | wiegand-gpio.c:269-273 | In any valid state, buffer bit `i` (below 48) is set iff `i < current_bit` and the `i`-th received bit is a 1. |
| WiegandReader.KeypadFrameRead | wiegand-gpio.c:57-62 | After a 4-bit frame, the read shows `PAD:`, a hex digit worth the four received bits, and a newline. |
| WiegandReader.CardFrameRead | wiegand-gpio.c:63-70 | After a 26- or 34-bit frame, the read shows `TAG:`, three digits worth received bits 0-8, `:`, and five digits worth received bits 9-23 followed by bit 31 (0 in a 26-bit frame). |

## Left out

- GPIO pin requests and directions, LED and beeper outputs, IRQ registration,
  sysfs setup, module init failure paths and module cleanup
  (wiegand-gpio.c:158-252, 282-299). These are kernel I/O. The two line
  levels are parameters of `DataEdge`; `init_module`'s call of
  `wiegand_init` is the `Reader` constructor.
- The end-of-frame timer (`del_timer`, `mod_timer`, `timer_setup`). Timing
  cannot be expressed here. The timeout firing is an explicit call of
  `Decode`, so a frame is whatever edges arrive between two such calls.
- `wiegand_start_pattern` and `pattern_timer_handler`: empty in the source,
  so there is nothing to model.
- `wiegand_control_show` and `wiegand_control_store`: no frame state is
  involved. The store side only compares tokens, parses hex with `kstrtol`
  and calls the empty pattern stub.
- Concurrency between the interrupt handler, the timer handler and sysfs
  reads. The source takes no lock; the model treats each handler as atomic.
- `printk` logging.
- WiegandReader.Reader.DataEdge: `current_bit` and `read_count` are C `int`.
  The model counts them as unbounded naturals, so the overflow after 2^31 - 1
  edges without a timeout, or 2^31 - 1 reads, is not modelled.
- WiegandFrame.Facility: bytes are unsigned, as `char` is on the ARM target.
  A signed `char` (e.g. on x86) would sign-extend bytes 0-3 and give
  different fields.
- WiegandView.Show: only the text is modelled. `sprintf`'s return value is
  that text's length, and 0 for the empty view. `%d` is given `unsigned int`
  values; this prints the same digits because the decoded fields are below
  2^31.
