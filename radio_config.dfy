/** The six-byte configuration frame of the E32-TTL-100 module and the
    setters that fill it in from human-readable settings. */
module ConfigFrame {
  import opened Bits
  import opened Outcomes

  /** The frame: head, address high, address low, sped, channel, option. */
  const FrameSize := 6

  /** The module's factory defaults, in wire order. */
  const DefaultFrame: seq<Byte> := [0xC0, 0x12, 0x34, 0x18, 0x50, 0x40]

  /** Bit positions are signed 8-bit integers in the driver. */
  type I8 = x: int | -128 <= x < 128

  /** Where each setting lives, as datasheet positions, most significant
      first, and as the lowest position of its three-bit field. */
  const SerialRateBits: seq<I8> := [5, 4, 3]
  const AirRateBits: seq<I8> := [2, 1, 0]
  const TransmitPowerBits: seq<I8> := [2, 1, 0]
  const SerialRateLow := 3
  const AirRateLow := 0
  const TransmitPowerLow := 0

  // ---------------------------------------------------------------------
  // Label tables: each label names a three-bit code; the three bit values
  // the driver writes are the binary digits of that code.

  /** Serial baud-rate labels (sped bits 5-3). */
  function SerialRateCode(name: string): Option<Byte>
  {
    match name
    case "1200" => Some(0)
    case "2400" => Some(1)
    case "4800" => Some(2)
    case "9600" => Some(3)
    case "19200" => Some(4)
    case "38400" => Some(5)
    case "57600" => Some(6)
    case "115200" => Some(7)
    case _ => None
  }

  /** The label of each serial-rate code. */
  function SerialRateLabel(code: Byte): string
    requires code < 8
  {
    match code
    case 0 => "1200"
    case 1 => "2400"
    case 2 => "4800"
    case 3 => "9600"
    case 4 => "19200"
    case 5 => "38400"
    case 6 => "57600"
    case _ => "115200"
  }

  /** Air data-rate labels (sped bits 2-0). */
  function AirRateCode(name: string): Option<Byte>
  {
    match name
    case "1k" => Some(0)
    case "2k" => Some(1)
    case "5k" => Some(2)
    case "10k" => Some(3)
    case "12k" => Some(4)
    case "15k" => Some(5)
    case "20k" => Some(6)
    case "25k" => Some(7)
    case _ => None
  }

  /** The label of each air-rate code. */
  function AirRateLabel(code: Byte): string
    requires code < 8
  {
    match code
    case 0 => "1k"
    case 1 => "2k"
    case 2 => "5k"
    case 3 => "10k"
    case 4 => "12k"
    case 5 => "15k"
    case 6 => "20k"
    case _ => "25k"
  }

  /** Transmit-power labels (option bits 2-0); higher codes mean less power. */
  function TransmitPowerCode(name: string): Option<Byte>
  {
    match name
    case "20dBm" => Some(0)
    case "17dBm" => Some(1)
    case "14dBm" => Some(2)
    case "11dBm" => Some(3)
    case "8dBm" => Some(4)
    case "5dBm" => Some(5)
    case "2.5dBm" => Some(6)
    case "0dBm" => Some(7)
    case _ => None
  }

  /** The label of each transmit-power code. */
  function TransmitPowerLabel(code: Byte): string
    requires code < 8
  {
    match code
    case 0 => "20dBm"
    case 1 => "17dBm"
    case 2 => "14dBm"
    case 3 => "11dBm"
    case 4 => "8dBm"
    case 5 => "5dBm"
    case 6 => "2.5dBm"
    case _ => "0dBm"
  }

  /** Each serial-rate table is a bijection between its eight labels and the
      codes 0..7: a code's label maps back to it, and a recognised label is
      the label of its code. */
  lemma SerialRateTable(code: Byte, name: string)
    requires code < 8
    ensures SerialRateCode(SerialRateLabel(code)) == Some(code)
    ensures SerialRateCode(name).Some? ==> SerialRateLabel(SerialRateCode(name).value) == name
  {
  }

  /** The air-rate table is a bijection between its labels and 0..7. */
  lemma AirRateTable(code: Byte, name: string)
    requires code < 8
    ensures AirRateCode(AirRateLabel(code)) == Some(code)
    ensures AirRateCode(name).Some? ==> AirRateLabel(AirRateCode(name).value) == name
  {
  }

  /** The transmit-power table is a bijection between its labels and 0..7. */
  lemma TransmitPowerTable(code: Byte, name: string)
    requires code < 8
    ensures TransmitPowerCode(TransmitPowerLabel(code)) == Some(code)
    ensures TransmitPowerCode(name).Some? ==> TransmitPowerLabel(TransmitPowerCode(name).value) == name
  {
  }

  /** The three bit values written for a code, most significant first. */
  function CodeBits(code: Byte): (vs: seq<Byte>)
    requires code < 8
    ensures |vs| == 3
  {
    [(code >> 2) & 1, (code >> 1) & 1, code & 1]
  }

  // ---------------------------------------------------------------------
  // The bit writer (change_bits), specified with masks.

  /** The storage index the driver computes for datasheet position p: |p - 7|. */
  function StorageIndex(p: int): nat
  {
    if p < 7 then 7 - p else p - 7
  }

  /** Positions 0..7 land on their own datasheet bit; positions 8..14 also
      pass the driver's range check and land on bit 14 - p; every other
      position is out of range. */
  lemma StorageIndexReversal(p: int)
    ensures 0 <= p < 8 ==> StorageIndex(p) == 7 - p
    ensures 8 <= p < 15 ==> StorageIndex(p) < 8 && 7 - StorageIndex(p) == 14 - p
    ensures (p < 0 || 15 <= p) ==> StorageIndex(p) >= 8
  {
  }

  /** Every value is 0 or 1. */
  predicate AllBits(values: seq<Byte>)
  {
    forall i :: 0 <= i < |values| ==> values[i] <= 1
  }

  /** Writing the values at the positions one after the other, each as a
      mask write of the datasheet bit its storage index stands for. */
  function WriteBits(b: Byte, targets: seq<I8>, values: seq<Byte>): Result<Byte>
    decreases |targets|
  {
    if |targets| == 0 then Ok(b)
    else if |values| == 0 then Err(Abort(MissingBitValue))
    else if StorageIndex(targets[0]) >= 8 then Err(Abort(BitIndexOutOfRange))
    else WriteBits(MaskWrite(b, 7 - StorageIndex(targets[0]), values[0] == 1), targets[1..], values[1..])
  }

  /** One step of WriteBits: the first position is written, the rest follow. */
  lemma WriteBitsStep(b: Byte, targets: seq<I8>, values: seq<Byte>, i: nat)
    requires i < |targets| && i < |values| && StorageIndex(targets[i]) < 8
    ensures WriteBits(b, targets[i..], values[i..]) ==
            WriteBits(MaskWrite(b, 7 - StorageIndex(targets[i]), values[i] == 1), targets[i + 1..], values[i + 1..])
  {
    assert targets[i..][0] == targets[i] && targets[i..][1..] == targets[i + 1..];
    assert values[i..][0] == values[i] && values[i..][1..] == values[i + 1..];
  }

  /** The same writes done the way the driver does them: on the
      storage-order bit vector, at storage index |p - 7|. */
  function StorageWriteBits(bits: seq<bool>, targets: seq<I8>, values: seq<Byte>): (r: Result<seq<bool>>)
    requires |bits| == 8
    ensures r.Ok? ==> |r.value| == 8
    decreases |targets|
  {
    if |targets| == 0 then Ok(bits)
    else if |values| == 0 then Err(Abort(MissingBitValue))
    else if StorageIndex(targets[0]) >= 8 then Err(Abort(BitIndexOutOfRange))
    else StorageWriteBits(bits[StorageIndex(targets[0]) := values[0] == 1], targets[1..], values[1..])
  }

  /** One step of StorageWriteBits: the first position is written, the rest follow. */
  lemma StorageWriteBitsStep(bits: seq<bool>, targets: seq<I8>, values: seq<Byte>, i: nat)
    requires |bits| == 8 && i < |targets| && i < |values| && StorageIndex(targets[i]) < 8
    ensures StorageWriteBits(bits, targets[i..], values[i..]) ==
            StorageWriteBits(bits[StorageIndex(targets[i]) := values[i] == 1], targets[i + 1..], values[i + 1..])
  {
    assert targets[i..][0] == targets[i] && targets[i..][1..] == targets[i + 1..];
    assert values[i..][0] == values[i] && values[i..][1..] == values[i + 1..];
  }

  /** The byte a storage-level outcome stands for. */
  function ToByteResult(r: Result<seq<bool>>): Result<Byte>
    requires r.Ok? ==> |r.value| == 8
  {
    match r
    case Ok(bits) => Ok(FromStorage(bits))
    case Err(e) => Err(e)
  }

  /** One step of both write sequences: the storage-order write of the first
      position and its mask write leave the same byte to continue from. */
  lemma WritesStep(bits: seq<bool>, targets: seq<I8>, values: seq<Byte>)
    requires |bits| == 8 && |targets| > 0 && |values| > 0 && StorageIndex(targets[0]) < 8
    ensures StorageWriteBits(bits, targets, values) ==
            StorageWriteBits(bits[StorageIndex(targets[0]) := values[0] == 1], targets[1..], values[1..])
    ensures WriteBits(FromStorage(bits), targets, values) ==
            WriteBits(FromStorage(bits[StorageIndex(targets[0]) := values[0] == 1]), targets[1..], values[1..])
  {
    StorageWrite(bits, StorageIndex(targets[0]), values[0] == 1);
  }

  /** The reversed-index writes on the bit vector and the mask writes on
      the byte agree, outcome for outcome. */
  lemma {:induction false} StorageWritesAreMaskWrites(bits: seq<bool>, targets: seq<I8>, values: seq<Byte>)
    requires |bits| == 8
    ensures ToByteResult(StorageWriteBits(bits, targets, values)) == WriteBits(FromStorage(bits), targets, values)
    decreases |targets|
  {
    if |targets| > 0 && |values| > 0 && StorageIndex(targets[0]) < 8 {
      WritesStep(bits, targets, values);
      StorageWritesAreMaskWrites(bits[StorageIndex(targets[0]) := values[0] == 1], targets[1..], values[1..]);
    }
  }

  /** With every value 0 or 1, change_bits is the storage-order writes on
      the byte's bit vector, read back as a byte. */
  lemma ChangeBitsInStorage(b: Byte, targets: seq<I8>, values: seq<Byte>)
    requires AllBits(values)
    ensures ToByteResult(StorageWriteBits(ToStorage(b), targets, values)) == ChangeBitsSpec(b, targets, values)
  {
    StorageRoundTrip(b);
    StorageWritesAreMaskWrites(ToStorage(b), targets, values);
  }

  /** change_bits: all values are checked first, then the bits are written. */
  function ChangeBitsSpec(b: Byte, targets: seq<I8>, values: seq<Byte>): Result<Byte>
  {
    if !AllBits(values) then Err(Abort(BadBitValue)) else WriteBits(b, targets, values)
  }

  /** Writing one datasheet position p in 0..7: bit p takes the value and
      every other bit is kept; a value other than 0 or 1 is refused. */
  lemma ChangeBitsOne(b: Byte, p: I8, v: Byte)
    requires 0 <= p < 8
    ensures v <= 1 ==> ChangeBitsSpec(b, [p], [v]).Ok?
    ensures v <= 1 ==> BitAt(ChangeBitsSpec(b, [p], [v]).value, p) == (v == 1)
    ensures v <= 1 ==> forall q :: 0 <= q < 8 && q != p ==>
              BitAt(ChangeBitsSpec(b, [p], [v]).value, q) == BitAt(b, q)
    ensures v > 1 ==> ChangeBitsSpec(b, [p], [v]) == Err(Abort(BadBitValue))
  {
    if v <= 1 {
      assert [p][0..] == [p] && [v][0..] == [v] && [p][1..] == [] && [v][1..] == [];
      assert AllBits([v]);
      WriteBitsStep(b, [p], [v], 0);
      assert ChangeBitsSpec(b, [p], [v]) == Ok(MaskWrite(b, p, v == 1));
      MaskWriteExact(b, p, v == 1);
    } else {
      assert [v][0] == v;
    }
  }

  /** Positions that are distinct datasheet bits in 0..7, each with a 0/1
      value: the written byte holds each value at its position and the
      original bit everywhere else. */
  lemma {:induction false} ChangeBitsDistinct(b: Byte, targets: seq<I8>, values: seq<Byte>)
    requires forall j :: 0 <= j < |targets| ==> 0 <= targets[j] < 8
    requires forall j, k :: 0 <= j < k < |targets| ==> targets[j] != targets[k]
    requires |targets| <= |values| && AllBits(values)
    ensures ChangeBitsSpec(b, targets, values).Ok?
    ensures forall j :: 0 <= j < |targets| ==>
              BitAt(ChangeBitsSpec(b, targets, values).value, targets[j]) == (values[j] == 1)
    ensures forall q: I8 :: 0 <= q < 8 && q !in targets ==>
              BitAt(ChangeBitsSpec(b, targets, values).value, q) == BitAt(b, q)
    decreases |targets|
  {
    if |targets| > 0 {
      var p := targets[0];
      var b' := MaskWrite(b, p, values[0] == 1);
      assert AllBits(values[1..]) by {
        forall i | 0 <= i < |values[1..]| ensures values[1..][i] <= 1 {
          assert values[1..][i] == values[i + 1];
        }
      }
      ChangeBitsDistinct(b', targets[1..], values[1..]);
      assert ChangeBitsSpec(b, targets, values) == ChangeBitsSpec(b', targets[1..], values[1..]);
      var r := ChangeBitsSpec(b, targets, values).value;
      MaskWriteExact(b, p, values[0] == 1);
      forall j | 0 <= j < |targets|
        ensures BitAt(r, targets[j]) == (values[j] == 1)
      {
        if j > 0 {
          assert targets[1..][j - 1] == targets[j] && values[1..][j - 1] == values[j];
        } else {
          assert p !in targets[1..] by {
            forall k | 0 <= k < |targets[1..]| ensures targets[1..][k] != p {
              assert targets[1..][k] == targets[k + 1];
            }
          }
        }
      }
      forall q: I8 | 0 <= q < 8 && q !in targets
        ensures BitAt(r, q) == BitAt(b, q)
      {
        assert q !in targets[1..] by {
          forall k | 0 <= k < |targets[1..]| ensures targets[1..][k] != q {
            assert targets[1..][k] == targets[k + 1];
          }
        }
        assert q != p;
      }
    }
  }

  /** Writing a code's three bits at positions low + 2, low + 1, low places
      the code in that three-bit field and nothing else. */
  lemma FieldWrite(b: Byte, low: nat, code: Byte)
    requires low <= 5 && code < 8
    ensures ChangeBitsSpec(b, [low + 2, low + 1, low], CodeBits(code)) == Ok(PlaceField(b, low, code))
  {
    var targets: seq<I8> := [low + 2, low + 1, low];
    var values := CodeBits(code);
    ChangeBitsDistinct(b, targets, values);
    var r := ChangeBitsSpec(b, targets, values).value;
    forall q | 0 <= q < 8
      ensures BitAt(r, q) == BitAt(PlaceField(b, low, code), q)
    {
      PlaceFieldBits(b, low, code, q);
      if q == low + 2 {
        assert targets[0] == q;
      } else if q == low + 1 {
        assert targets[1] == q;
      } else if q == low {
        assert targets[2] == q;
      } else {
        assert (q as I8) !in targets;
      }
    }
    BitsDetermineByte(r, PlaceField(b, low, code));
  }

  // ---------------------------------------------------------------------
  // The address: two hexadecimal bytes.

  /** The value of one hexadecimal digit, either case. */
  function HexDigit(c: char): (d: Option<nat>)
    ensures d.Some? ==> d.value < 16
  {
    if '0' <= c <= '9' then Some(c as int - '0' as int)
    else if 'a' <= c <= 'f' then Some(c as int - 'a' as int + 10)
    else if 'A' <= c <= 'F' then Some(c as int - 'A' as int + 10)
    else None
  }

  /** The value of a string of hexadecimal digits, most significant first. */
  function HexValue(digits: string): Option<nat>
    decreases |digits|
  {
    if |digits| == 0 then Some(0)
    else match (HexValue(digits[..|digits| - 1]), HexDigit(digits[|digits| - 1]))
      case (Some(v), Some(d)) => Some(v * 16 + d)
      case _ => None
  }

  /** The digits of s once an optional leading '+' is dropped. */
  function Unsigned(s: string): string
  {
    if |s| > 0 && s[0] == '+' then s[1..] else s
  }

  /** u8::from_str_radix(s, 16): an optional leading '+', then at least one
      hexadecimal digit, with a value that fits in a byte. */
  function ParseHexByte(s: string): Option<Byte>
  {
    var digits := Unsigned(s);
    if |digits| == 0 then None
    else match HexValue(digits)
      case Some(v) => if v < 256 then Some(v as Byte) else None
      case None => None
  }

  /** set_address: the first two characters are the high byte and the next
      two the low byte; anything after the fourth is not looked at. */
  function ParseAddress(address: string): Result<(Byte, Byte)>
  {
    if |address| < 4 then Err(Abort(BadHexAddress))
    else match (ParseHexByte(address[..2]), ParseHexByte(address[2..4]))
      case (Some(h), Some(l)) => Ok((h, l))
      case _ => Err(Abort(BadHexAddress))
  }

  /** A string of digits has a value exactly when every character is a
      hexadecimal digit; one or two digits always fit in a byte. */
  lemma {:induction false} HexValueDigits(digits: string)
    ensures HexValue(digits).Some? <==> forall i :: 0 <= i < |digits| ==> HexDigit(digits[i]).Some?
    ensures HexValue(digits).Some? && |digits| <= 1 ==> HexValue(digits).value < 16
    ensures HexValue(digits).Some? && |digits| <= 2 ==> HexValue(digits).value < 256
    decreases |digits|
  {
    if |digits| > 0 {
      var front := digits[..|digits| - 1];
      HexValueDigits(front);
      assert forall i :: 0 <= i < |front| ==> front[i] == digits[i];
    }
  }

  /** from_str_radix on a byte: a parsed string is an optional '+' and then
      at least one hexadecimal digit, spelling the value parsed; one or two
      hexadecimal digits, with or without the '+', always parse. */
  lemma ParseHexByteShape(s: string)
    ensures ParseHexByte(s).Some? ==>
              |Unsigned(s)| > 0 && HexValue(Unsigned(s)) == Some(ParseHexByte(s).value as nat) &&
              forall i :: 0 <= i < |Unsigned(s)| ==> HexDigit(Unsigned(s)[i]).Some?
    ensures (0 < |Unsigned(s)| <= 2 && forall i :: 0 <= i < |Unsigned(s)| ==> HexDigit(Unsigned(s)[i]).Some?) ==>
              ParseHexByte(s).Some?
  {
    HexValueDigits(Unsigned(s));
  }

  /** set_address's outcome: an address parses when its first four
      characters are hexadecimal digits, a parsed address has at least four
      characters each of which is a digit or the sign '+', and every
      failure is the bad-address abort. */
  lemma ParseAddressOutcome(address: string)
    ensures ParseAddress(address).Err? ==> ParseAddress(address).error == Abort(BadHexAddress)
    ensures |address| < 4 ==> ParseAddress(address).Err?
    ensures (|address| >= 4 && forall i :: 0 <= i < 4 ==> HexDigit(address[i]).Some?) ==>
              ParseAddress(address).Ok?
    ensures ParseAddress(address).Ok? ==>
              |address| >= 4 && forall i :: 0 <= i < 4 ==> HexDigit(address[i]).Some? || address[i] == '+'
  {
    if |address| >= 4 {
      var high, low := address[..2], address[2..4];
      ParseHexByteShape(high);
      ParseHexByteShape(low);
      assert forall i :: 0 <= i < 2 ==> high[i] == address[i] && low[i] == address[i + 2];
    }
  }

  /** The upper-case hexadecimal digit of d. */
  function HexChar(d: nat): (c: char)
    requires d < 16
    ensures HexDigit(c) == Some(d)
  {
    if d < 10 then ('0' as int + d) as char else ('A' as int + d - 10) as char
  }

  /** Two upper-case hexadecimal digits spelling the byte value n. */
  function HexPair(n: nat): (s: string)
    requires n < 256
    ensures |s| == 2
  {
    [HexChar(n / 16), HexChar(n % 16)]
  }

  /** Spelling a byte value in hexadecimal and parsing it back gives the
      byte. */
  lemma HexPairRoundTrip(n: nat)
    requires n < 256
    ensures ParseHexByte(HexPair(n)) == Some(n as Byte)
  {
    var s := HexPair(n);
    assert s[..1][..0] == [];
    assert HexValue(s[..1]) == Some(n / 16);
    assert s[..2][..1] == s[..1] && s[..2] == s;
    assert HexValue(s) == Some(n);
  }

  /** Two spelled byte values followed by anything parse as that address. */
  lemma AddressRoundTrip(h: nat, l: nat, rest: string)
    requires h < 256 && l < 256
    ensures ParseAddress(HexPair(h) + HexPair(l) + rest) == Ok((h as Byte, l as Byte))
  {
    var a := HexPair(h) + HexPair(l) + rest;
    assert a[..2] == HexPair(h) && a[2..4] == HexPair(l);
    HexPairRoundTrip(h);
    HexPairRoundTrip(l);
  }

  /** Characters after the fourth never change the outcome. */
  lemma AddressIgnoresTail(address: string, rest: string)
    requires |address| >= 4
    ensures ParseAddress(address + rest) == ParseAddress(address)
  {
    assert (address + rest)[..2] == address[..2];
    assert (address + rest)[2..4] == address[2..4];
  }

  /** "1A2B" is address 0x1A/0x2B; the '+' that from_str_radix accepts makes
      "+A+B" the address 0x0A/0x0B; three characters are refused. */
  lemma AddressExamples()
    ensures ParseAddress("1A2B") == Ok((0x1A, 0x2B))
    ensures ParseAddress("+A+B") == Ok((0x0A, 0x0B))
    ensures ParseAddress("1A2") == Err(Abort(BadHexAddress))
  {
    assert "1A2B"[..2] == "1A" && "1A2B"[2..4] == "2B";
    assert "1A"[..1] == "1" && "1"[..0] == "";
    assert "2B"[..1] == "2" && "2"[..0] == "";
    assert "+A+B"[..2] == "+A" && "+A+B"[2..4] == "+B";
    assert Unsigned("1A") == "1A" && Unsigned("2B") == "2B";
    assert Unsigned("+A") == "A" && Unsigned("+B") == "B";
    assert "A"[..0] == "" && "B"[..0] == "";
  }

  // ---------------------------------------------------------------------
  // The configuration record.

  /** RadioConfig: the six fields of the frame, updated in place by the
      setters. */
  class RadioConfig {
    var head: Byte
    var addh: Byte
    var addl: Byte
    var sped: Byte
    var chan: Byte
    var option: Byte

    /** RadioConfig::new: the factory defaults. */
    constructor ()
      ensures Raw() == DefaultFrame
    {
      head, addh, addl, sped, chan, option := 0xC0, 0x12, 0x34, 0x18, 0x50, 0x40;
    }

    /** The bytes sent over the serial link, head first. */
    function Raw(): (r: seq<Byte>)
      reads this
      ensures |r| == FrameSize
    {
      [head, addh, addl, sped, chan, option]
    }

    /** set_address: both bytes are parsed before either field is written,
        so a refused address leaves the record as it was. */
    method SetAddress(address: string) returns (r: Result<()>)
      modifies this`addh, this`addl
      ensures ParseAddress(address).Ok? ==> r == Ok(()) && (addh, addl) == ParseAddress(address).value
      ensures ParseAddress(address).Err? ==>
                r == Err(Abort(BadHexAddress)) && addh == old(addh) && addl == old(addl)
    {
      var parsed := ParseAddress(address);
      if parsed.Err? {
        return Err(Abort(BadHexAddress));
      }
      addh, addl := parsed.value.0, parsed.value.1;
      r := Ok(());
    }

    /** set_serial_rate: the name's code goes into sped bits 5-3. */
    method SetSerialRate(name: string) returns (r: Result<()>)
      modifies this`sped
      ensures SerialRateCode(name).Some? ==>
                r == Ok(()) && sped == PlaceField(old(sped), SerialRateLow, SerialRateCode(name).value)
      ensures SerialRateCode(name).None? ==> r == Err(Abort(UnknownLabel)) && sped == old(sped)
    {
      var code := SerialRateCode(name);
      if code.None? {
        return Err(Abort(UnknownLabel));
      }
      var written := ChangeBits(sped, SerialRateBits, CodeBits(code.value));
      FieldWrite(sped, SerialRateLow, code.value);
      sped := written.value;
      r := Ok(());
    }

    /** set_air_rate: the name's code goes into sped bits 2-0. */
    method SetAirRate(name: string) returns (r: Result<()>)
      modifies this`sped
      ensures AirRateCode(name).Some? ==>
                r == Ok(()) && sped == PlaceField(old(sped), AirRateLow, AirRateCode(name).value)
      ensures AirRateCode(name).None? ==> r == Err(Abort(UnknownLabel)) && sped == old(sped)
    {
      var code := AirRateCode(name);
      if code.None? {
        return Err(Abort(UnknownLabel));
      }
      var written := ChangeBits(sped, AirRateBits, CodeBits(code.value));
      FieldWrite(sped, AirRateLow, code.value);
      sped := written.value;
      r := Ok(());
    }

    /** set_transmit_power: the name's code goes into option bits 2-0. */
    method SetTransmitPower(name: string) returns (r: Result<()>)
      modifies this`option
      ensures TransmitPowerCode(name).Some? ==>
                r == Ok(()) && option == PlaceField(old(option), TransmitPowerLow, TransmitPowerCode(name).value)
      ensures TransmitPowerCode(name).None? ==> r == Err(Abort(UnknownLabel)) && option == old(option)
    {
      var code := TransmitPowerCode(name);
      if code.None? {
        return Err(Abort(UnknownLabel));
      }
      var written := ChangeBits(option, TransmitPowerBits, CodeBits(code.value));
      FieldWrite(option, TransmitPowerLow, code.value);
      option := written.value;
      r := Ok(());
    }

    /** change_bits: the byte is unpacked into a storage-order bit vector, the
        values are checked and converted, the positions are flipped to
        storage indexes |p - 7|, and the bits are set one by one. */
    method ChangeBits(original: Byte, targetBits: seq<I8>, bitsToWrite: seq<Byte>) returns (r: Result<Byte>)
      ensures r == ChangeBitsSpec(original, targetBits, bitsToWrite)
    {
      var bv := new bool[8](i requires 0 <= i < 8 => ToStorage(original)[i]);
      assert bv[..] == ToStorage(original);

      var writeVec := new bool[|bitsToWrite|];
      for i := 0 to |bitsToWrite|
        modifies writeVec
        invariant forall k :: 0 <= k < i ==> bitsToWrite[k] <= 1 && writeVec[k] == (bitsToWrite[k] == 1)
      {
        if bitsToWrite[i] == 0 {
          writeVec[i] := false;
        } else if bitsToWrite[i] == 1 {
          writeVec[i] := true;
        } else {
          return Err(Abort(BadBitValue));
        }
      }

      var targets := new int[|targetBits|](i requires 0 <= i < |targetBits| => targetBits[i]);
      for i := 0 to targets.Length
        modifies targets
        invariant forall k :: 0 <= k < i ==> targets[k] == StorageIndex(targetBits[k])
        invariant forall k :: i <= k < targets.Length ==> targets[k] == targetBits[k]
      {
        targets[i] := if targets[i] - 7 < 0 then 7 - targets[i] else targets[i] - 7;
      }

      ghost var bits := bv[..];
      assert bits == ToStorage(original);
      ghost var expected := StorageWriteBits(bits, targetBits, bitsToWrite);
      assert AllBits(bitsToWrite);
      ChangeBitsInStorage(original, targetBits, bitsToWrite);
      assert ToByteResult(expected) == ChangeBitsSpec(original, targetBits, bitsToWrite);
      assert targetBits[0..] == targetBits && bitsToWrite[0..] == bitsToWrite;
      for i := 0 to targets.Length
        modifies bv
        invariant i <= |bitsToWrite|
        invariant |bits| == 8 && bv[..] == bits
        invariant StorageWriteBits(bits, targetBits[i..], bitsToWrite[i..]) == expected
      {
        if i >= writeVec.Length {
          assert |bitsToWrite[i..]| == 0 && |targetBits[i..]| > 0;
          assert expected == Err(Abort(MissingBitValue));
          return Err(Abort(MissingBitValue));
        }
        if targets[i] >= 8 {
          assert targetBits[i..][0] == targetBits[i] && |bitsToWrite[i..]| > 0;
          return Err(Abort(BitIndexOutOfRange));
        }
        StorageWriteBitsStep(bits, targetBits, bitsToWrite, i);
        bv[targets[i]] := writeVec[i];
        bits := bits[targets[i] := writeVec[i]];
      }
      assert targetBits[targets.Length..] == [];
      assert expected == Ok(bits);
      r := Ok(FromStorage(bv[..]));
    }
  }

  /** Two records have the same frame exactly when all six fields agree, so
      comparing frames compares every field. */
  lemma RawDeterminesFields(a: RadioConfig, b: RadioConfig)
    ensures a.Raw() == b.Raw() <==>
              a.head == b.head && a.addh == b.addh && a.addl == b.addl &&
              a.sped == b.sped && a.chan == b.chan && a.option == b.option
  {
    if a.Raw() == b.Raw() {
      assert a.Raw()[0] == b.Raw()[0] && a.Raw()[1] == b.Raw()[1] && a.Raw()[2] == b.Raw()[2];
      assert a.Raw()[3] == b.Raw()[3] && a.Raw()[4] == b.Raw()[4] && a.Raw()[5] == b.Raw()[5];
    }
  }

  /** From the defaults, serial rate "1200" then air rate "25k" leaves sped
      at 0b00000111: the two setters write disjoint fields. */
  method DefaultSpedAfterRates() returns (sped: Byte)
    ensures sped == 0x07
  {
    var config := new RadioConfig();
    var _ := config.SetSerialRate("1200");
    var _ := config.SetAirRate("25k");
    sped := config.sped;
  }
}
