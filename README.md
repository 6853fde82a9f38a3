# E32-TTL-100 LoRa driver, modelled in Dafny

This project models `src/lib.rs` of the `lora_driver` crate, a driver for the
E32-TTL-100 LoRa radio. The module is programmed over a UART link and steered
through three GPIO lines: M0 and M1 choose one of four operating modes, and AUX
reports when the module is ready.

The model has three parts.

- **The configuration frame** (`radio_config.dfy`, module `ConfigFrame`, built
  on `bits.dfy`, module `Bits`). The six-byte record is a class with its
  factory defaults and its wire order. The address setter parses two
  hexadecimal bytes the way `u8::from_str_radix` does. The three label setters
  map each label to a three-bit code through a table and write it with
  `change_bits`. `change_bits` is a method over a storage-order bit vector. It
  stores index 0 as the most significant bit and reaches datasheet position `p`
  at storage index `|p - 7|`. The method is proved equal to a specification
  made of mask writes (`b | 1 << p`, `b & !(1 << p)`), and the "this bit set,
  every other bit kept" lemmas are proved about that specification.
- **The AUX line and the mode machine** (`driver.dfy`, module `Radio`). Every
  wait on AUX sees one window of observations from an oracle: the first read,
  whether the armed edge arrived before the poll timed out, and the re-read
  after a timeout. `wait_for_aux` becomes a method whose result and events are
  fixed by that window. `set_mode` drives the pin pair of the mode. It records
  the mode only after both waits succeed.
- **The serial exchanges** (`driver.dfy`). The receive side of the port is a
  queue of read results. `serial_read` is a loop that appends chunks until a
  read timeout. It is proved equal to a recursive specification, `Drain`.
  `send_packet`, `receive_packet` and `write_config` are methods on the driver.
  Their contracts give the result and the ordered event log (pin drives, edge
  arming, polls, baud changes, writes, reads) for every path through
  `send_packet` and `receive_packet`. For `write_config` they do so on the two
  paths that reach the echo comparison. Its earlier aborts state only the
  abort.

The source's two kinds of failure are kept apart. `Err(TimedOut)` and
`Err(InvalidInput)` are errors the driver returns to its caller. `Err(Abort(c))`
marks a point where the driver panics (an `unwrap`, an `expect` or a
`panic!`), and `c` names the reason.

Points of the code that a reader could easily get wrong:

- `set_address` accepts any string of at least four characters whose first two
  and next two characters each parse as a hexadecimal byte. It ignores the
  rest. A `+` before a digit is accepted, because `from_str_radix` allows one.
- `serial_read`'s `Vec::with_capacity(256)` is not a bound. The vector grows
  with every chunk.
- `write_config` restores the baud rate only when the echo matches. On a
  mismatch the driver panics while the port is still at 9600 baud. The previous
  mode has already been restored at that point, provided reading the echo did
  not fail.
- Invalid labels, bad addresses and a wrong echo are panics, not returned
  errors.
- Bit positions 8 to 14 pass `change_bits`' range check, because `|p - 7| < 8`.
  They write datasheet bit `14 - p`. The setters only pass positions 0 to 5.

## Model

| member | source | states |
|---|---|---|
| Bits.MaskWrite | src/lib.rs:157-159 | after a mask write, datasheet bit p holds the written value |
| Bits.MaskWriteExact | src/lib.rs:157-159 | a mask write changes exactly bit p: it reads v and every other bit is unchanged |
| Bits.StorageBit | src/lib.rs:161 | storage index i of a bit vector is datasheet bit 7 - i of the byte FromStorage (to_bytes) makes of it |
| Bits.StorageRoundTrip | src/lib.rs:139-161 | ToStorage (from_bytes) of a byte, read back with FromStorage (to_bytes), gives the same byte |
| Bits.StorageWrite | src/lib.rs:157-159 | setting storage index k is the mask write of datasheet bit 7 - k |
| Bits.PlaceFieldBits | src/lib.rs:70-88 | placing a three-bit code at low sets bits low..low+2 to the code's bits and keeps every other bit |
| Bits.FieldReadBack | src/lib.rs:70-88 | the field read back after placing a code is that code |
| Bits.FieldRewrite | src/lib.rs:70-88 | placing the code a byte already holds leaves the byte unchanged |
| Bits.PlaceFieldsCommute | src/lib.rs:70-110 | fields that do not overlap, like serial rate and air rate in sped, can be written in either order |
| ConfigFrame.SerialRateTable | src/lib.rs:75-84 | SerialRateCode, the serial-rate lookup, is a bijection between its eight labels and codes 0..7: a code's label maps back to it, and a recognised label is the label of its code |
| ConfigFrame.AirRateTable | src/lib.rs:96-105 | AirRateCode, the air-rate lookup, is a bijection between its eight labels and codes 0..7: a code's label maps back to it, and a recognised label is the label of its code |
| ConfigFrame.TransmitPowerTable | src/lib.rs:117-126 | TransmitPowerCode, the transmit-power lookup, is a bijection between its eight labels and codes 0..7: a code's label maps back to it, and a recognised label is the label of its code |
| ConfigFrame.StorageIndexReversal | src/lib.rs:153-155 | storage index of position p is 7 - p for 0..7; positions 8..14 land on bit 14 - p; all other positions fall outside the byte |
| ConfigFrame.StorageWritesAreMaskWrites | src/lib.rs:153-159 | writing at storage index abs(p - 7) on the bit vector and mask-writing datasheet bits give the same outcome, error for error |
| ConfigFrame.ChangeBitsInStorage | src/lib.rs:136-162 | with 0/1 values, change_bits on the bit vector read back as a byte equals the mask specification |
| ConfigFrame.ChangeBitsOne | src/lib.rs:136-162 | writing one position p in 0..7 sets bit p to the value and keeps the rest; a value other than 0 or 1 aborts |
| ConfigFrame.ChangeBitsDistinct | src/lib.rs:136-162 | for distinct positions in 0..7 and 0/1 values, each position holds its value and every position not written keeps its bit |
| ConfigFrame.FieldWrite | src/lib.rs:71-88 | writing a code's three bits at low+2, low+1, low places the code in that field |
| ConfigFrame.HexDigit | src/lib.rs:64-65 | a hexadecimal digit's value is below 16 |
| ConfigFrame.HexChar | src/lib.rs:64-65 | the digit spelling d parses back to d |
| ConfigFrame.HexValueDigits | src/lib.rs:64-65 | a digit string has a value exactly when every character is a hexadecimal digit; one or two digits stay below 256 |
| ConfigFrame.ParseHexByteShape | src/lib.rs:64-65 | ParseHexByte (from_str_radix base 16 into a u8) accepts only an optional '+' followed by at least one hexadecimal digit, and returns their value; one or two digits, signed or not, always parse |
| ConfigFrame.ParseAddressOutcome | src/lib.rs:61-65 | ParseAddress accepts any address whose first four characters are hexadecimal digits; an accepted address has at least four characters, each a digit or '+'; every failure is the bad-address abort |
| ConfigFrame.HexPairRoundTrip | src/lib.rs:64-65 | two hexadecimal digits spelling a byte value parse back to that byte |
| ConfigFrame.AddressRoundTrip | src/lib.rs:59-68 | an address spelled as two hexadecimal bytes followed by anything parses to those two bytes |
| ConfigFrame.AddressIgnoresTail | src/lib.rs:61-62 | characters after the fourth never change how an address parses |
| ConfigFrame.AddressExamples | src/lib.rs:59-68 | "1A2B" gives 0x1A and 0x2B; "+A+B" gives 0x0A and 0x0B; a three-character address aborts |
| ConfigFrame.RadioConfig.constructor | src/lib.rs:44-52 | a new record holds the factory frame C0 12 34 18 50 40 |
| ConfigFrame.RadioConfig.Raw | src/lib.rs:55-57 | the wire frame has six bytes; its body lists them in the order head, addh, addl, sped, chan, option |
| ConfigFrame.RawDeterminesFields | src/lib.rs:55-57 | two records have the same wire frame exactly when head, addh, addl, sped, chan and option are all equal, so the frame loses no field |
| ConfigFrame.RadioConfig.SetAddress | src/lib.rs:59-68 | addh and addl take the two parsed bytes and nothing else changes; an unparsable address aborts and changes nothing |
| ConfigFrame.RadioConfig.SetSerialRate | src/lib.rs:70-89 | a known label places its code in sped bits 5-3 and nothing else changes; an unknown label aborts and changes nothing |
| ConfigFrame.RadioConfig.SetAirRate | src/lib.rs:91-110 | a known label places its code in sped bits 2-0 and nothing else changes; an unknown label aborts and changes nothing |
| ConfigFrame.RadioConfig.SetTransmitPower | src/lib.rs:112-131 | a known label places its code in option bits 2-0 and nothing else changes; an unknown label aborts and changes nothing |
| ConfigFrame.RadioConfig.ChangeBits | src/lib.rs:136-162 | the three loops of change_bits compute exactly the mask specification, including which abort comes first for positions from -120 up |
| ConfigFrame.DefaultSpedAfterRates | src/lib.rs:70-110 | from the defaults, serial rate 1200 then air rate 25k leave sped at 0x07 |
| Radio.Pins | src/lib.rs:283-286 | M0 is high exactly for power saving and sleep, M1 exactly for wake-up and sleep |
| Radio.PinsSelectMode | src/lib.rs:283-286 | every mode has its own pin pair and every pin pair selects one mode |
| Radio.WaitPollsUnlessThere | src/lib.rs:226-265 | a wait that finds the value at once never arms an edge or polls; otherwise it arms the edge towards the value and polls once, and it re-reads only when the poll timed out |
| Radio.ModeEventsDrivePins | src/lib.rs:277-290 | set_mode drives M0 and M1 exactly when its first wait succeeds, and only after sampling AUX |
| Radio.DrainShape | src/lib.rs:371-393 | one Drain (the serial_read loop's specification) leaves a suffix of the queue, shorter unless it was empty; every read call but the last returned data, and the last returned the timeout or, exactly when it failed, the failure |
| Radio.DrainUntilStop | src/lib.rs:366-396 | data chunks followed by a timeout or failure are returned concatenated in order; the stop is consumed, the rest stays queued, and only a failure counts as failed |
| Radio.DrainAll | src/lib.rs:366-396 | a queue of only data chunks is read completely, then the empty port times out |
| Radio.Driver.constructor | src/lib.rs:214-220 | a new driver records its mode as Sleep |
| Radio.Driver.WaitForAux | src/lib.rs:224-270 | succeeds exactly when the first read, the edge or the re-read shows the value, else TimedOut; consumes one window; logs the reads, the arming and the poll in order |
| Radio.Driver.SetMode | src/lib.rs:277-296 | a failed first wait aborts with the pins untouched; otherwise the pins take the mode's pair; the mode is recorded only when the second wait also succeeds |
| Radio.Driver.SerialWrite | src/lib.rs:356-361 | the bytes are handed to the port |
| Radio.Driver.SerialRead | src/lib.rs:366-396 | the loop returns exactly what Drain specifies: the chunks up to the first timeout, or an abort at a failure; the queue and log advance accordingly |
| Radio.Driver.SendPacket | src/lib.rs:414-428 | more than 58 bytes gives InvalidInput with no wait and no write; a failed first wait gives TimedOut with no write; a failed wait after the write aborts |
| Radio.Driver.ReceivePacket | src/lib.rs:430-446 | waits for AUX high, low, high in turn; only the low wait's timeout is returned, the others abort; then returns what serial_read returns |
| Radio.Driver.WriteConfig | src/lib.rs:317-354 | sleep, 9600 baud, frame written, echo read, previous mode restored, then the echo compared; on both paths AUX was waited on four times and the pins and the recorded mode are back at the previous mode; a match restores the baud rate, a mismatch aborts with the port left at 9600 |

## Left out

- GPIO and serial primitives are abstract. Failures of `get_value`, `set_value`, `set_edge`, `get_poller`, `poll` and `write`, each unwrapped in the source, are not modelled.
- The port may accept only part of the bytes written; `serial_write` ignores the count and so does the model.
- Real polling, edge interrupts and timing are left out. Each AUX wait is one window from an oracle, and the timeouts appear only as values in the event log. The `sleep` settling delays are not modelled.
- `Driver::new` (GPIO directions, opening the port, the 100 ms read timeout), `get_control_gpio_pins`, `get_mode`, `set_tty_baud`, `get_tty_baud` and `set_tty_params` are not modelled. They are setup and foreign-crate calls. The baud rate is an abstract number that `write_config` saves, sets and restores, with each change logged.
- Logging with `println!` and the text of panic messages are not modelled.
- Radio.Driver.SerialRead: matching the raw OS error code of the read timeout is abstracted to a read result that is either data, the timeout or another failure. Chunks are not limited to 58 bytes, because the queue of read results is arbitrary.
- Radio.Driver.WriteConfig: on an abort before the echo comparison, the contract states only the abort, not the state left behind. The process panics there.
- ConfigFrame.RadioConfig.ChangeBits: a position below -120 overflows the `i8` arithmetic `(p - 7).abs()`, in the subtraction below -121 and in `abs` at -121. The model treats such a position as BitIndexOutOfRange, met in the third loop. That is how a release build behaves, where the overflow wraps to an index of at least 8. A debug build panics on the overflow in the second loop, before the third loop's checks, so the abort's cause can differ. For example, positions `[0, -122]` with values `[0]` give MissingBitValue in the model and an overflow panic in a debug build.
- ConfigFrame.ParseAddress works on characters where the source slices bytes. Both outcomes agree: a multi-byte character in the first four positions fails to parse or fails the slice, and both abort.
- Concurrency is not modelled; the driver assumes a single owner.
