/** WebSocket frames as RFC 6455, section 5.2, lays them out: the client's printer, which masks every
    frame (section 5.3), and the parser for either side's. */
module Frames {
  import opened Options

  type Bytes = seq<bv8>
  type Mask = m: Bytes | |m| == 4 witness [0, 0, 0, 0]

  const OP_CONT: bv8 := 0x0
  const OP_TEXT: bv8 := 0x1
  const OP_CLOSE: bv8 := 0x8
  const OP_PING: bv8 := 0x9
  const OP_PONG: bv8 := 0xA
  const LEN_16: bv8 := 126
  const LEN_64: bv8 := 127
  const MAX_SHORT := 125
  const MAX_16 := 0xFFFF
  const MAX_64 := 0xFFFF_FFFF_FFFF_FFFF

  datatype Frame = Frame(fin: bool, opcode: bv8, payload: Bytes, used: nat)

  // ---- numbers, most significant byte first ----

  function ToBytes(n: nat, width: nat): Bytes {
    if width == 0 then [] else ToBytes(n / 256, width - 1) + [(n % 256) as bv8]
  }

  function FromBytes(s: Bytes): nat {
    if |s| == 0 then 0 else FromBytes(s[..|s| - 1]) * 256 + s[|s| - 1] as int
  }

  // ---- the printer and the parser ----

  function Masked(payload: Bytes, mask: Mask): Bytes {
    seq(|payload|, i requires 0 <= i < |payload| => payload[i] ^ mask[i % 4])
  }

  /** The length as the second header byte and, for the longer forms, the bytes after it. `bit`: the
      mask bit. */
  function LengthField(n: nat, bit: bv8): Bytes {
    if n <= MAX_SHORT then [bit | n as bv8]
    else if n <= MAX_16 then [bit | LEN_16] + ToBytes(n, 2)
    else [bit | LEN_64] + ToBytes(n, 8)
  }

  /** A client frame: FIN set, masked. */
  function EncodeFrame(opcode: bv8, payload: Bytes, mask: Mask): Bytes
    requires |payload| <= MAX_64
  {
    [0x80 | opcode] + LengthField(|payload|, 0x80) + mask + Masked(payload, mask)
  }

  /** A server frame, unmasked: what section 5.2 has the other side send. */
  function ServerFrame(fin: bool, opcode: bv8, payload: Bytes): Bytes
    requires |payload| <= MAX_64
  {
    [(if fin then 0x80 else 0) | opcode] + LengthField(|payload|, 0) + payload
  }

  /** One frame at the start of the data; None while it isn't whole. */
  function DecodeFrame(data: Bytes): Option<Frame> {
    if |data| < 2 then None
    else
      var fin, opcode := data[0] & 0x80 != 0, data[0] & 0x0F;
      var masked, short := data[1] & 0x80 != 0, data[1] & 0x7F;
      if short == LEN_16 then
        if |data| < 4 then None else DecodeRest(data, fin, opcode, masked, FromBytes(data[2..4]), 4)
      else if short == LEN_64 then
        if |data| < 10 then None else DecodeRest(data, fin, opcode, masked, FromBytes(data[2..10]), 10)
      else DecodeRest(data, fin, opcode, masked, short as int, 2)
  }

  /** The masking key, if any, and the payload. */
  function DecodeRest(data: Bytes, fin: bool, opcode: bv8, masked: bool, length: nat, offset: nat): Option<Frame>
    requires offset <= |data|
  {
    if masked then
      if |data| < offset + 4 || |data| < offset + 4 + length then None
      else
        var mask := data[offset..offset + 4];
        var at := offset + 4;
        Some(Frame(fin, opcode, Masked(data[at..at + length], mask), at + length))
    else if |data| < offset + length then None
    else Some(Frame(fin, opcode, data[offset..offset + length], offset + length))
  }

  // ---- numbers ----

  function Power256(width: nat): nat {
    if width == 0 then 1 else 256 * Power256(width - 1)
  }

  /** Every number below 256 is some byte. */
  lemma {:induction false} ByteAt(n: nat) returns (b: bv8)
    requires n < 256
    ensures b as int == n
  {
    if n == 0 {
      b := 0;
    } else {
      b := ByteAt(n - 1);
      b := NextByte(b);
    }
  }

  lemma NextByte(b: bv8) returns (c: bv8)
    requires b as int < 255
    ensures c as int == b as int + 1
  {
    assert b != 255;
    c := b + 1;
  }

  lemma ByteRoundTrip(n: nat)
    requires n < 256
    ensures (n as bv8) as int == n
  {
    var b := ByteAt(n);
    assert (b as int) as bv8 == b;
  }

  lemma {:induction false} NumberRoundTrip(n: nat, width: nat)
    requires n < Power256(width)
    ensures |ToBytes(n, width)| == width && FromBytes(ToBytes(n, width)) == n
  {
    if width > 0 {
      NumberRoundTrip(n / 256, width - 1);
      ByteRoundTrip(n % 256);
      var s := ToBytes(n, width);
      assert s[..|s| - 1] == ToBytes(n / 256, width - 1);
    }
  }

  lemma Widths()
    ensures Power256(2) == MAX_16 + 1 && Power256(8) == MAX_64 + 1
  {
    assert Power256(4) == 0x1_0000_0000;
  }

  // ---- what the parser reads ----

  /** The frame's header, as far as its length: how long it is, and the payload's length. */
  function HeaderOf(data: Bytes): Option<(nat, nat)> {
    if |data| < 2 then None
    else if data[1] & 0x7F == LEN_16 then if |data| < 4 then None else Some((4, FromBytes(data[2..4])))
    else if data[1] & 0x7F == LEN_64 then if |data| < 10 then None else Some((10, FromBytes(data[2..10])))
    else Some((2, (data[1] & 0x7F) as int))
  }

  lemma DecodeByHeader(data: Bytes)
    ensures DecodeFrame(data) == match HeaderOf(data)
            case None => None
            case Some((offset, length)) =>
              DecodeRest(data, data[0] & 0x80 != 0, data[0] & 0x0F, data[1] & 0x80 != 0, length, offset)
  {
    hide FromBytes, DecodeRest;
  }

  /** Bytes that follow a whole header change nothing in it. */
  lemma HeaderStays(data: Bytes, more: Bytes)
    requires HeaderOf(data).Some?
    ensures HeaderOf(data + more) == HeaderOf(data)
  {
    hide FromBytes;
    var all := data + more;
    assert all[0] == data[0] && all[1] == data[1];
    if |data| >= 4 { assert all[2..4] == data[2..4]; }
    if |data| >= 10 { assert all[2..10] == data[2..10]; }
  }

  lemma RestStays(data: Bytes, more: Bytes, fin: bool, opcode: bv8, masked: bool, length: nat, offset: nat)
    requires offset <= |data| && DecodeRest(data, fin, opcode, masked, length, offset).Some?
    ensures DecodeRest(data + more, fin, opcode, masked, length, offset) == DecodeRest(data, fin, opcode, masked, length, offset)
  {
    var all := data + more;
    if masked {
      assert all[offset..offset + 4] == data[offset..offset + 4];
      assert all[offset + 4..offset + 4 + length] == data[offset + 4..offset + 4 + length];
    } else {
      assert all[offset..offset + length] == data[offset..offset + length];
    }
  }

  /** A frame, once whole, reads the same whatever bytes arrive after it. */
  lemma MoreChangesNothing(data: Bytes, more: Bytes)
    requires DecodeFrame(data).Some?
    ensures DecodeFrame(data + more) == DecodeFrame(data)
  {
    hide DecodeFrame, DecodeRest, HeaderOf;
    DecodeByHeader(data);
    DecodeByHeader(data + more);
    HeaderStays(data, more);
    LongEnough(data);
    var (offset, length) := HeaderOf(data).value;
    RestStays(data, more, data[0] & 0x80 != 0, data[0] & 0x0F, data[1] & 0x80 != 0, length, offset);
  }

  lemma LongEnough(data: Bytes)
    requires HeaderOf(data).Some?
    ensures 2 <= HeaderOf(data).value.0 <= |data|
  {
  }

  lemma UsedFits(data: Bytes)
    requires DecodeFrame(data).Some?
    ensures 2 <= DecodeFrame(data).value.used <= |data|
  {
    hide FromBytes, Masked;
  }

  /** A frame is read exactly when all its bytes are there: from any fewer, none is. */
  lemma WholeOrNone(data: Bytes, k: nat)
    requires DecodeFrame(data).Some? && k <= |data|
    ensures 2 <= DecodeFrame(data).value.used <= |data|
    ensures DecodeFrame(data[..k]) == if k < DecodeFrame(data).value.used then None else DecodeFrame(data)
  {
    hide DecodeFrame;
    var cut := data[..k];
    assert cut + data[k..] == data;
    UsedFits(data);
    if DecodeFrame(cut).Some? {
      UsedFits(cut);
      MoreChangesNothing(cut, data[k..]);
    } else if k >= DecodeFrame(data).value.used {
      CutAfter(data, k);
    }
  }

  lemma CutAfter(data: Bytes, k: nat)
    requires DecodeFrame(data).Some? && DecodeFrame(data).value.used <= k <= |data|
    ensures DecodeFrame(data[..k]).Some?
  {
    hide FromBytes, Masked, DecodeFrame;
    var cut := data[..k];
    DecodeByHeader(data);
    DecodeByHeader(cut);
    if |data| >= 4 && k >= 4 { assert cut[2..4] == data[2..4]; }
    if |data| >= 10 && k >= 10 { assert cut[2..10] == data[2..10]; }
  }

  // ---- round trips ----

  lemma HeaderBits(first: bv8, n: bv8)
    ensures first < 16 ==> (0x80 | first) & 0x80 != 0 && (0x80 | first) & 0x0F == first
    ensures first < 16 ==> (0 | first) & 0x80 == 0 && (0 | first) & 0x0F == first
    ensures n < 128 ==> (0x80 | n) & 0x80 != 0 && (0x80 | n) & 0x7F == n
    ensures n < 128 ==> (0 | n) & 0x80 == 0 && (0 | n) & 0x7F == n
  {
  }

  lemma ShortLength(n: nat)
    requires n <= MAX_SHORT
    ensures n as bv8 < 128 && n as bv8 != LEN_16 && n as bv8 != LEN_64
  {
    ByteRoundTrip(n);
  }

  lemma MaskTwice(payload: Bytes, mask: Mask)
    ensures |Masked(payload, mask)| == |payload|
    ensures Masked(Masked(payload, mask), mask) == payload
  {
    var twice := Masked(Masked(payload, mask), mask);
    forall i | 0 <= i < |payload| ensures twice[i] == payload[i] {
      XorTwice(payload[i], mask[i % 4]);
    }
  }

  lemma XorTwice(x: bv8, y: bv8)
    ensures (x ^ y) ^ y == x
  {
  }

  /** The parser reads a header back: its length, and where it ends. */
  lemma HeaderRoundTrip(first: bv8, n: nat, bit: bv8, rest: Bytes)
    requires n <= MAX_64 && (bit == 0x80 || bit == 0)
    ensures var data := [first] + LengthField(n, bit) + rest;
            && HeaderOf(data) == Some((1 + |LengthField(n, bit)|, n))
            && data[0] == first && |data| >= 2 && data[1] & 0x80 == bit
  {
    hide FromBytes, ToBytes;
    var field := LengthField(n, bit);
    var data := [first] + field + rest;
    Widths();
    HeaderBits(0, LEN_16);
    HeaderBits(0, LEN_64);
    if n <= MAX_SHORT {
      ShortLength(n);
      HeaderBits(0, n as bv8);
      ByteRoundTrip(n);
    } else if n <= MAX_16 {
      NumberRoundTrip(n, 2);
      assert data[2..4] == ToBytes(n, 2);
    } else {
      NumberRoundTrip(n, 8);
      assert data[2..10] == ToBytes(n, 8);
    }
  }

  lemma RestRead(head: Bytes, mask: Bytes, payload: Bytes, rest: Bytes, fin: bool, opcode: bv8)
    requires |mask| == 0 || |mask| == 4
    ensures DecodeRest(head + mask + payload + rest, fin, opcode, |mask| == 4, |payload|, |head|)
         == Some(Frame(fin, opcode, if |mask| == 4 then Masked(payload, mask) else payload, |head| + |mask| + |payload|))
  {
    hide Masked;
    var data, at := head + mask + payload + rest, |head| + |mask|;
    assert data[|head|..at] == mask;
    assert data[at..at + |payload|] == payload;
  }

  /** Whatever follows it, a client's frame is read back: FIN, opcode, payload, and its length. */
  lemma RoundTrip(opcode: bv8, payload: Bytes, mask: Mask, rest: Bytes)
    requires opcode < 16 && |payload| <= MAX_64
    ensures DecodeFrame(EncodeFrame(opcode, payload, mask) + rest)
         == Some(Frame(true, opcode, payload, |EncodeFrame(opcode, payload, mask)|))
  {
    hide DecodeFrame, DecodeRest, LengthField, Masked, HeaderOf;
    var head, cipher := [0x80 | opcode] + LengthField(|payload|, 0x80), Masked(payload, mask);
    var data := EncodeFrame(opcode, payload, mask) + rest;
    HeaderRoundTrip(0x80 | opcode, |payload|, 0x80, mask + cipher + rest);
    assert data == head + (mask + cipher + rest) == head + mask + cipher + rest;
    HeaderBits(opcode, 0);
    DecodeByHeader(data);
    MaskTwice(payload, mask);
    RestRead(head, mask, cipher, rest, true, opcode);
  }

  /** A server's frame, a fragment too, is read back. */
  lemma ServerRoundTrip(fin: bool, opcode: bv8, payload: Bytes, rest: Bytes)
    requires opcode < 16 && |payload| <= MAX_64
    ensures DecodeFrame(ServerFrame(fin, opcode, payload) + rest)
         == Some(Frame(fin, opcode, payload, |ServerFrame(fin, opcode, payload)|))
  {
    hide DecodeFrame, DecodeRest, LengthField, HeaderOf;
    var first := (if fin then 0x80 else 0) | opcode;
    var head := [first] + LengthField(|payload|, 0);
    var data := ServerFrame(fin, opcode, payload) + rest;
    HeaderRoundTrip(first, |payload|, 0, payload + rest);
    assert data == head + (payload + rest) == head + [] + payload + rest;
    HeaderBits(opcode, 0);
    DecodeByHeader(data);
    RestRead(head, [], payload, rest, fin, opcode);
  }

  lemma {:induction false} NumberBounds(s: Bytes)
    ensures FromBytes(s) < Power256(|s|)
  {
    if |s| > 0 {
      NumberBounds(s[..|s| - 1]);
    }
  }

  function FieldSize(n: nat): nat {
    if n <= MAX_SHORT then 1 else if n <= MAX_16 then 3 else 9
  }

  lemma LengthFieldSize(n: nat, bit: bv8)
    requires n <= MAX_64
    ensures |LengthField(n, bit)| == FieldSize(n)
  {
    Widths();
    if n > MAX_SHORT { NumberRoundTrip(n, if n <= MAX_16 then 2 else 8); }
  }

  lemma HeaderSize(data: Bytes)
    requires HeaderOf(data).Some?
    ensures HeaderOf(data).value.1 <= MAX_64 && 1 + FieldSize(HeaderOf(data).value.1) <= HeaderOf(data).value.0
  {
    hide FromBytes, Power256;
    Widths();
    SevenBits(data[1]);
    if |data| >= 4 { NumberBounds(data[2..4]); }
    if |data| >= 10 { NumberBounds(data[2..10]); }
  }

  /** A client frame byte by byte, as section 5.2 lays it out: FIN and opcode; the mask bit and the
      length, in one byte, or big-endian in the two or eight after it; the key; the payload, each byte
      masked with the key's byte whose turn it is. */
  lemma FrameLayout(opcode: bv8, payload: Bytes, mask: Mask)
    requires |payload| <= MAX_64
    ensures var e, n, h := EncodeFrame(opcode, payload, mask), |payload|, 1 + FieldSize(|payload|);
            && |e| == h + 4 + n && e[0] == 0x80 | opcode && e[h..h + 4] == mask
            && (forall i | 0 <= i < n :: e[h + 4 + i] == payload[i] ^ mask[i % 4])
            && (if n <= 125 then e[1] == 0x80 | n as bv8
                else if n <= 65_535 then e[1] == 0x80 | 126 && e[2] as int * 256 + e[3] as int == n
                else e[1] == 0x80 | 127 && BigEndian(e[2..10]) == n)
  {
    hide FieldSize;
    var e, n, field := EncodeFrame(opcode, payload, mask), |payload|, LengthField(|payload|, 0x80);
    var h := 1 + |field|;
    LengthFieldSize(n, 0x80);
    assert e[1..h] == field && e[h..h + 4] == mask && e[h + 4..] == Masked(payload, mask);
    forall i | 0 <= i < n ensures e[h + 4 + i] == payload[i] ^ mask[i % 4] {
      assert e[h + 4 + i] == e[h + 4..][i];
    }
    assert e[1] == field[0];
    FieldBytes(n, e, field);
  }

  /** The last byte weighs one, each before it 256 times the one after. */
  function BigEndian(s: Bytes): nat {
    if |s| == 0 then 0 else s[0] as int * Power256(|s| - 1) + BigEndian(s[1..])
  }

  lemma {:induction false} BigEndianIs(s: Bytes)
    ensures FromBytes(s) == BigEndian(s)
  {
    if |s| > 0 {
      BigEndianIs(s[..|s| - 1]);
      OneMoreByte(s[..|s| - 1], s[|s| - 1]);
      assert s == s[..|s| - 1] + [s[|s| - 1]];
    }
  }

  lemma {:induction false} OneMoreByte(s: Bytes, x: bv8)
    ensures BigEndian(s + [x]) == BigEndian(s) * 256 + x as int
  {
    if |s| > 0 {
      OneMoreByte(s[1..], x);
      assert (s + [x])[1..] == s[1..] + [x] && (s + [x])[0] == s[0];
      TimesPower(s[0] as int, |s|);
    } else {
      assert (s + [x])[1..] == [];
    }
  }

  lemma TimesPower(x: int, width: nat)
    requires width > 0
    ensures x * Power256(width) == 256 * (x * Power256(width - 1))
  {
  }

  lemma FieldBytes(n: nat, e: Bytes, field: Bytes)
    requires n <= MAX_64 && field == LengthField(n, 0x80) && |e| >= 1 + |field| && e[1..1 + |field|] == field
    ensures if n <= MAX_SHORT then e[1] == 0x80 | n as bv8
            else if n <= MAX_16 then |e| >= 4 && e[1] == 0x80 | LEN_16 && e[2] as int * 256 + e[3] as int == n
            else |e| >= 10 && e[1] == 0x80 | LEN_64 && BigEndian(e[2..10]) == n
  {
    hide BigEndian, FromBytes, ToBytes;
    Widths();
    assert e[1] == e[1..1 + |field|][0];
    if MAX_SHORT < n <= MAX_16 {
      NumberRoundTrip(n, 2);
      assert field[1..] == ToBytes(n, 2) == e[2..4];
      TwoBytes(e[2..4]);
    } else if n > MAX_16 {
      NumberRoundTrip(n, 8);
      assert field[1..] == ToBytes(n, 8) == e[2..10];
      BigEndianIs(e[2..10]);
    }
  }

  lemma TwoBytes(s: Bytes)
    requires |s| == 2
    ensures FromBytes(s) == s[0] as int * 256 + s[1] as int
  {
    assert s[..1][..0] == [];
    assert FromBytes(s) == FromBytes(s[..1]) * 256 + s[1] as int;
  }

  /** Where the length ends, in data that has its first two bytes. */
  function LengthEnd(data: Bytes): nat
    requires |data| >= 2
  {
    if data[1] & 0x7F == 126 then 4 else if data[1] & 0x7F == 127 then 10 else 2
  }

  function LengthRead(data: Bytes): nat
    requires |data| >= 2 && |data| >= LengthEnd(data)
  {
    if LengthEnd(data) == 2 then (data[1] & 0x7F) as int else BigEndian(data[2..LengthEnd(data)])
  }

  /** What the parser reads of any bytes: a frame exactly if header, key and payload are all there; its
      bits, its payload unmasked if the mask bit is set, and how many bytes it took. */
  lemma FrameRead(data: Bytes)
    ensures |data| < 2 || |data| < LengthEnd(data) ==> DecodeFrame(data).None?
    ensures |data| >= 2 && |data| >= LengthEnd(data) ==>
              var key, n := LengthEnd(data), LengthRead(data);
              var at := if data[1] & 0x80 != 0 then key + 4 else key;
              && (DecodeFrame(data).Some? <==> at + n <= |data|)
              && (DecodeFrame(data).Some? ==>
                    var f := DecodeFrame(data).value;
                    && f.fin == (data[0] & 0x80 != 0) && f.opcode == data[0] & 0x0F && f.used == at + n && |f.payload| == n
                    && forall i | 0 <= i < n :: f.payload[i] == if at == key then data[at + i] else data[at + i] ^ data[key + i % 4])
  {
    hide BigEndian, FromBytes, DecodeFrame;
    DecodeByHeader(data);
    if |data| >= 2 && |data| >= LengthEnd(data) { BigEndianIs(data[2..LengthEnd(data)]); }
    if DecodeFrame(data).Some? {
      PayloadRead(data, data[0] & 0x80 != 0, data[0] & 0x0F, data[1] & 0x80 != 0, LengthRead(data), LengthEnd(data));
    }
  }

  lemma PayloadRead(data: Bytes, fin: bool, opcode: bv8, masked: bool, n: nat, key: nat)
    requires key <= |data| && DecodeRest(data, fin, opcode, masked, n, key).Some?
    ensures var payload, at := DecodeRest(data, fin, opcode, masked, n, key).value.payload, if masked then key + 4 else key;
            && |payload| == n && at + n <= |data|
            && forall i | 0 <= i < n :: payload[i] == if masked then data[at + i] ^ data[key + i % 4] else data[at + i]
  {
  }

  /** The length takes its shortest form: no masked frame with as long a payload is shorter. */
  lemma ShortestForm(opcode: bv8, mask: Mask, data: Bytes)
    requires DecodeFrame(data).Some? && data[1] & 0x80 != 0
    ensures |DecodeFrame(data).value.payload| <= MAX_64
    ensures |EncodeFrame(opcode, DecodeFrame(data).value.payload, mask)| <= DecodeFrame(data).value.used
  {
    hide DecodeFrame, LengthField, HeaderOf, FieldSize;
    DecodeByHeader(data);
    HeaderSize(data);
    LengthFieldSize(|DecodeFrame(data).value.payload|, 0x80);
  }

  lemma SevenBits(x: bv8)
    ensures x & 0x7F != LEN_16 && x & 0x7F != LEN_64 ==> (x & 0x7F) as int <= MAX_SHORT
  {
  }
}
