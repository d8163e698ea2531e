/** RLPx framing: what one end writes and what the other end reads. */
module Frames {
  import opened RlpFormat
  import opened Sm3
  import opened Bytes

  const MAX_UINT24: nat := 0xFF_FFFF
  const WORD32: nat := 0x1_0000_0000

  /** The shared secrets: the hash, the key stream of the cipher in counter mode, and
      the block cipher used on MACs. */
  datatype Secrets<!D(!new)> = Secrets(core: Core<D>, stream: nat -> u8, block: seq<u8> -> seq<u8>)

  ghost predicate Sound<D(!new)>(k: Secrets<D>) {
    && (forall d :: |k.core.bytes(d)| == 32)
    && (forall b :: |k.block(b)| == 16)
  }

  datatype Message = Message(code: nat, size: nat, payload: seq<u8>)

  /** One direction of a connection: bytes enciphered so far and the MAC hash. */
  datatype Channel<!D(!new)> = Channel(pos: nat, mac: State<D>)

  // ---- the cipher

  function Cipher<D(!new)>(k: Secrets<D>, pos: nat, m: seq<u8>): (c: seq<u8>)
    ensures |c| == |m|
    ensures forall i :: 0 <= i < |m| ==> c[i] == Xor(m[i], k.stream(pos + i))
  {
    seq(|m|, i requires 0 <= i < |m| => Xor(m[i], k.stream(pos + i)))
  }

  /** Deciphering at the same position gives the text back. */
  lemma CipherTwice<D(!new)>(k: Secrets<D>, pos: nat, m: seq<u8>)
    ensures Cipher(k, pos, Cipher(k, pos, m)) == m
  {
    hide Xor;
    forall i | 0 <= i < |m|
      ensures Xor(Xor(m[i], k.stream(pos + i)), k.stream(pos + i)) == m[i]
    {
      XorTwice(m[i], k.stream(pos + i));
    }
  }

  /** The key stream runs on from one call to the next. */
  lemma CipherConcat<D(!new)>(k: Secrets<D>, pos: nat, a: seq<u8>, b: seq<u8>)
    ensures Cipher(k, pos, a + b) == Cipher(k, pos, a) + Cipher(k, pos + |a|, b)
  {
    hide Xor;
    var c, d := Cipher(k, pos, a + b), Cipher(k, pos, a) + Cipher(k, pos + |a|, b);
    forall i | 0 <= i < |c|
      ensures c[i] == d[i]
    {
      if i >= |a| {
        assert pos + |a| + (i - |a|) == pos + i;
      }
    }
  }

  // ---- MACs

  function XorSeq(a: seq<u8>, b: seq<u8>): (r: seq<u8>)
    requires |a| <= |b|
    ensures |r| == |a|
    ensures forall i :: 0 <= i < |r| ==> r[i] == Xor(a[i], b[i])
  {
    seq(|a|, i requires 0 <= i < |a| => Xor(a[i], b[i]))
  }

  lemma XorSeqTwice(a: seq<u8>, b: seq<u8>)
    requires |a| <= |b|
    ensures XorSeq(XorSeq(a, b), b) == a
  {
    hide Xor;
    forall i | 0 <= i < |a|
      ensures Xor(Xor(a[i], b[i]), b[i]) == a[i]
    {
      XorTwice(a[i], b[i]);
    }
  }

  /** What the hash is reseeded with. */
  function Reseed<D(!new)>(k: Secrets<D>, mac: State<D>, seed: seq<u8>): (s: State<D>)
    requires Sound(k) && Ready(mac) && |seed| >= 16
    ensures Ready(s)
  {
    Written(k.core, SumState(k.core, mac), XorSeq(k.block(SumBytes(k.core, mac)[..16]), seed))
  }

  function MacState<D(!new)>(k: Secrets<D>, mac: State<D>, seed: seq<u8>): (s: State<D>)
    requires Sound(k) && Ready(mac) && |seed| >= 16
    ensures Ready(s)
  {
    SumState(k.core, Reseed(k, mac, seed))
  }

  function MacBytes<D(!new)>(k: Secrets<D>, mac: State<D>, seed: seq<u8>): (m: seq<u8>)
    requires Sound(k) && Ready(mac) && |seed| >= 16
    ensures |m| == 16
  {
    SumBytes(k.core, Reseed(k, mac, seed))[..16]
  }

  /** A MAC as the protocol has it: the first half of the sum, enciphered and xored with
      the seed, is hashed, and the first half of the new sum is sent. Sums move the hash. */
  ghost predicate Macs<D(!new)>(k: Secrets<D>, mac: State<D>, seed: seq<u8>, after: State<D>, sent: seq<u8>)
    requires Sound(k) && Ready(mac) && |seed| >= 16
  {
    exists x: seq<u8> :: |x| == 16 && XorSeq(x, seed) == k.block(SumBytes(k.core, mac)[..16])
      && after == SumState(k.core, Written(k.core, SumState(k.core, mac), x))
      && sent == SumBytes(k.core, Written(k.core, SumState(k.core, mac), x))[..16]
  }

  lemma MacIsMac<D(!new)>(k: Secrets<D>, mac: State<D>, seed: seq<u8>)
    requires Sound(k) && Ready(mac) && |seed| >= 16
    ensures Macs(k, mac, seed, MacState(k, mac, seed), MacBytes(k, mac, seed))
  {
    hide Written, Absorb, Padded;
    XorSeqTwice(k.block(SumBytes(k.core, mac)[..16]), seed);
  }

  // ---- frames

  function Int24(v: nat): (b: seq<u8>)
    ensures |b| == 3
  { [v / 0x1_0000 % 256, v / 0x100 % 256, v % 256] }

  function FromInt24(b: seq<u8>): (v: nat)
    requires |b| >= 3
    ensures v <= MAX_UINT24
  { b[2] as nat + 0x100 * (b[1] as nat) + 0x1_0000 * (b[0] as nat) }

  lemma Int24RoundTrip(v: nat)
    requires v <= MAX_UINT24
    ensures FromInt24(Int24(v)) == v
  {}

  function HeaderText(fsize: nat): (h: seq<u8>)
    ensures |h| == 16
  { Int24(fsize) + [0xC2, 0x80, 0x80] + Zeros(10) }

  /** Zero bytes that fill a frame up to a multiple of sixteen. */
  function Padding(n: nat): (k: nat)
    ensures (n + k) % 16 == 0 && k < 16
  { if n % 16 > 0 then 16 - n % 16 else 0 }

  /** The frame size the writer announces: 32-bit addition. */
  function FrameSize(m: Message): (n: nat) { (|EncodeUint(m.code)| + m.size) % WORD32 }

  predicate Accepted(m: Message) { FrameSize(m) <= MAX_UINT24 }

  /** Code, payload and padding, in the clear. */
  function FrameText(m: Message): (t: seq<u8>) {
    EncodeUint(m.code) + m.payload + Zeros(Padding(FrameSize(m)))
  }

  function HeaderCipher<D(!new)>(k: Secrets<D>, ch: Channel<D>, m: Message): (c: seq<u8>)
    ensures |c| == 16
  { Cipher(k, ch.pos, HeaderText(FrameSize(m))) }

  function FrameCipher<D(!new)>(k: Secrets<D>, ch: Channel<D>, m: Message): (c: seq<u8>)
    ensures |c| == |FrameText(m)|
  { Cipher(k, ch.pos + 16, FrameText(m)) }

  /** The MAC hash after the header and the frame data. */
  function MacAfterData<D(!new)>(k: Secrets<D>, ch: Channel<D>, header: seq<u8>, data: seq<u8>): (s: State<D>)
    requires Sound(k) && Ready(ch.mac) && |header| == 16
    ensures Ready(s)
  {
    Written(k.core, MacState(k, ch.mac, header), data)
  }

  /** The frame MAC and the hash after it. */
  function FrameMac<D(!new)>(k: Secrets<D>, s: State<D>): (m: seq<u8>)
    requires Sound(k) && Ready(s)
    ensures |m| == 16
  { MacBytes(k, SumState(k.core, s), SumBytes(k.core, s)) }

  function FrameMacState<D(!new)>(k: Secrets<D>, s: State<D>): (r: State<D>)
    requires Sound(k) && Ready(s)
    ensures Ready(r)
  { MacState(k, SumState(k.core, s), SumBytes(k.core, s)) }

  /** The bytes of a message on the wire. */
  function Wire<D(!new)>(k: Secrets<D>, ch: Channel<D>, m: Message): (w: seq<u8>)
    requires Sound(k) && Ready(ch.mac)
  {
    var h, c := HeaderCipher(k, ch, m), FrameCipher(k, ch, m);
    h + MacBytes(k, ch.mac, h) + c + FrameMac(k, MacAfterData(k, ch, h, c))
  }

  /** The channel after a frame with this header and data. */
  function After<D(!new)>(k: Secrets<D>, ch: Channel<D>, header: seq<u8>, data: seq<u8>): (r: Channel<D>)
    requires Sound(k) && Ready(ch.mac) && |header| == 16
    ensures Ready(r.mac)
  {
    Channel(ch.pos + 16 + |data|, FrameMacState(k, MacAfterData(k, ch, header, data)))
  }

  function AfterMessage<D(!new)>(k: Secrets<D>, ch: Channel<D>, m: Message): (r: Channel<D>)
    requires Sound(k) && Ready(ch.mac)
    ensures Ready(r.mac)
  {
    After(k, ch, HeaderCipher(k, ch, m), FrameCipher(k, ch, m))
  }

  // ---- what is on the wire

  /** The header in the clear: the frame size in three bytes, a list of two empty strings
      in RLP, and zeros. */
  predicate HeaderFor(h: seq<u8>, size: nat) {
    && |h| == 16 && FromBigEndian(h[..3]) == size
    && h[3..6] == Encode(List([Str([]), Str([])]))
    && forall i :: 6 <= i < 16 ==> h[i] == 0
  }

  /** The frame in the clear: the content and fewer than sixteen zeros. */
  predicate FrameFor(t: seq<u8>, content: seq<u8>) {
    && content <= t && |t| % 16 == 0 && |t| < |content| + 16
    && forall i :: |content| <= i < |t| ==> t[i] == 0
  }

  /** The frame of m: header, its MAC, data, its MAC, and where the writer then stands. */
  ghost predicate OnWire<D(!new)>(k: Secrets<D>, ch: Channel<D>, m: Message, w: seq<u8>, after: Channel<D>)
    requires Sound(k) && Ready(ch.mac)
  {
    var content, n := EncodeUint(m.code) + m.payload, |w| - 48;
    && n >= 0 && after.pos == ch.pos + 16 + n
    && HeaderFor(Cipher(k, ch.pos, w[..16]), |content|)
    && FrameFor(Cipher(k, ch.pos + 16, w[32..32 + n]), content)
    && exists mid: State<D> ::
      && Ready(mid) && Macs(k, ch.mac, w[..16], mid, w[16..32])
      && FrameMacs(k, Written(k.core, mid, w[32..32 + n]), after.mac, w[32 + n..])
  }

  /** The frame MAC is seeded with the sum over the data. */
  ghost predicate FrameMacs<D(!new)>(k: Secrets<D>, s: State<D>, after: State<D>, sent: seq<u8>)
    requires Sound(k) && Ready(s)
  {
    Macs(k, SumState(k.core, s), SumBytes(k.core, s), after, sent)
  }

  lemma HeaderIs(size: nat)
    requires size <= MAX_UINT24
    ensures HeaderFor(HeaderText(size), size)
  {
    TwoEmptyStrings();
    var h, b := HeaderText(size), Int24(size);
    assert h[..3] == b && h[3..6] == [0xC2, 0x80, 0x80];
    assert b[..2][..1] == b[..1] && b[..1][..0] == [];
    assert FromBigEndian(b[..1]) == size / 0x1_0000 % 256;
    assert FromBigEndian(b[..2]) == size / 0x100;
  }

  lemma TwoEmptyStrings()
    ensures Encode(List([Str([]), Str([])])) == [0xC2, 0x80, 0x80]
  {
    var e, items := Str([]), [Str([]), Str([])];
    assert Encode(e) == [0x80];
    assert items[1..] == [e] && items[1..][1..] == [];
    assert EncodeAll([e]) == [0x80];
    assert EncodeAll(items) == [0x80] + [0x80];
  }

  lemma FrameIs(m: Message)
    requires Proper(m)
    ensures FrameFor(FrameText(m), EncodeUint(m.code) + m.payload)
  {
    hide EncodeUint;
    ProperFrame(m);
  }

  lemma WireIs<D(!new)>(k: Secrets<D>, ch: Channel<D>, m: Message)
    requires Sound(k) && Ready(ch.mac) && Proper(m)
    ensures OnWire(k, ch, m, Wire(k, ch, m), AfterMessage(k, ch, m))
  {
    hide EncodeUint, Sound, Ready, HeaderText, FrameText, MacBytes, MacState, Written, SumState, SumBytes, Macs, HeaderFor, FrameFor, FrameSize;
    var h, c := HeaderCipher(k, ch, m), FrameCipher(k, ch, m);
    var mid := MacState(k, ch.mac, h);
    var s := Written(k.core, mid, c);
    ProperFrame(m);
    HeaderIs(FrameSize(m));
    FrameIs(m);
    CipherTwice(k, ch.pos, HeaderText(FrameSize(m)));
    CipherTwice(k, ch.pos + 16, FrameText(m));
    MacIsMac(k, ch.mac, h);
    FrameMacIs(k, s);
    WireParts(h, MacBytes(k, ch.mac, h), c, FrameMac(k, s), []);
    assert Wire(k, ch, m) + [] == Wire(k, ch, m);
  }

  lemma FrameMacIs<D(!new)>(k: Secrets<D>, s: State<D>)
    requires Sound(k) && Ready(s)
    ensures FrameMacs(k, s, FrameMacState(k, s), FrameMac(k, s))
  {
    hide MacState, MacBytes, Macs, Absorb, Padded;
    MacIsMac(k, SumState(k.core, s), SumBytes(k.core, s));
  }

  // ---- reading

  datatype Failure = ShortRead | BadHeaderMac | BadFrameMac | BadCode(error: RlpFormat.Error)
  datatype Received<!D(!new)> =
    | Got(message: Message, channel: Channel<D>, rest: seq<u8>)
    | Failed(failure: Failure)

  /** What the reader makes of the bytes on the wire. */
  function Receive<D(!new)>(k: Secrets<D>, ch: Channel<D>, wire: seq<u8>): (r: Received<D>)
    requires Sound(k) && Ready(ch.mac)
    ensures r.Got? ==> Ready(r.channel.mac)
  {
    if |wire| < 32 then Failed(ShortRead)
    else
      var h := wire[..16];
      if MacBytes(k, ch.mac, h) != wire[16..32] then Failed(BadHeaderMac)
      else
        var fsize := FromInt24(Cipher(k, ch.pos, h));
        var rsize := fsize + Padding(fsize);
        if |wire| < 32 + rsize + 16 then Failed(ShortRead)
        else
          var data := wire[32..32 + rsize];
          if FrameMac(k, MacAfterData(k, ch, h, data)) != wire[32 + rsize..48 + rsize] then Failed(BadFrameMac)
          else
            var content := Cipher(k, ch.pos + 16, data)[..fsize];
            var code := ParseUint(content, false, 64);
            if code.Err? then Failed(BadCode(code.error))
            else
              var payload := content[code.value.1..];
              Got(Message(code.value.0, |payload|, payload), After(k, ch, h, data), wire[48 + rsize..])
  }

  /** A message whose size field is its payload's length, small enough to announce. */
  predicate Proper(m: Message) {
    m.code < MAX_SIZE && m.size == |m.payload| && |EncodeUint(m.code)| + m.size <= MAX_UINT24
  }

  lemma ProperFrame(m: Message)
    requires Proper(m)
    ensures Accepted(m) && FrameSize(m) == |EncodeUint(m.code)| + |m.payload|
    ensures FrameText(m)[..FrameSize(m)] == EncodeUint(m.code) + m.payload
    ensures |FrameText(m)| == FrameSize(m) + Padding(FrameSize(m))
  {
    hide EncodeUint;
  }

  lemma ReadCode(m: Message)
    requires Proper(m)
    ensures ParseUint(EncodeUint(m.code) + m.payload, false, 64) == Ok((m.code, |EncodeUint(m.code)|))
  {
    hide EncodeUint, ParseUint, Pow256;
    Pow8();
    UintAccepted(m.code, m.payload, false, 64);
  }

  /** Both ends in step before a message are in step after it, and the message comes
      through. */
  lemma MessageDelivered<D(!new)>(k: Secrets<D>, ch: Channel<D>, m: Message, rest: seq<u8>)
    requires Sound(k) && Ready(ch.mac) && Proper(m)
    ensures Receive(k, ch, Wire(k, ch, m) + rest) == Got(m, AfterMessage(k, ch, m), rest)
  {
    hide EncodeUint, ParseUint, MacBytes, FrameMac, MacAfterData, After, FrameSize, FrameText, Padding, Sound, Ready, HeaderText;
    var h, c := HeaderCipher(k, ch, m), FrameCipher(k, ch, m);
    var hm, fm := MacBytes(k, ch.mac, h), FrameMac(k, MacAfterData(k, ch, h, c));
    var wire := Wire(k, ch, m) + rest;
    var fsize := FrameSize(m);
    var rsize := fsize + Padding(fsize);
    ProperFrame(m);
    WireParts(h, hm, c, fm, rest);
    CipherTwice(k, ch.pos, HeaderText(fsize));
    AnnouncedSize(fsize);
    CipherTwice(k, ch.pos + 16, FrameText(m));
    ReadCode(m);
    var content := EncodeUint(m.code) + m.payload;
    assert content[|EncodeUint(m.code)|..] == m.payload;
  }

  lemma AnnouncedSize(fsize: nat)
    requires fsize <= MAX_UINT24
    ensures FromInt24(HeaderText(fsize)) == fsize
  {
    Int24RoundTrip(fsize);
  }

  lemma WireParts(h: seq<u8>, hm: seq<u8>, c: seq<u8>, fm: seq<u8>, rest: seq<u8>)
    requires |h| == 16 && |hm| == 16 && |fm| == 16
    ensures var w := h + hm + c + fm + rest; var n := |c|;
      && w[..16] == h && w[16..32] == hm && w[32..32 + n] == c && w[32 + n..48 + n] == fm && w[48 + n..] == rest
  {}

  /** The size check adds in 32 bits. A message it lets through arrives if and only if
      that addition does not wrap around. */
  lemma DeliveredIff<D(!new)>(k: Secrets<D>, ch: Channel<D>, m: Message, rest: seq<u8>)
    requires Sound(k) && Ready(ch.mac)
    requires m.code < MAX_SIZE && m.size == |m.payload| < WORD32 && Accepted(m)
    ensures var r := Receive(k, ch, Wire(k, ch, m) + rest);
      (r.Got? && r.message == m) <==> |EncodeUint(m.code)| + m.size < WORD32
  {
    hide EncodeUint, Receive, Wire, Sound, Ready;
    if |EncodeUint(m.code)| + m.size < WORD32 {
      MessageDelivered(k, ch, m, rest);
    } else {
      ReceivedSize(k, ch, Wire(k, ch, m) + rest);
      CodeLength(m.code);
      WireHeader(k, ch, m, rest);
    }
  }

  lemma CodeLength(code: nat)
    requires code < MAX_SIZE
    ensures 1 <= |EncodeUint(code)| <= 9
  {
    hide BigEndian, Pow256;
    Pow8();
    BigEndianLength(code, 8);
  }

  /** The first sixteen bytes announce the frame size. */
  lemma WireHeader<D(!new)>(k: Secrets<D>, ch: Channel<D>, m: Message, rest: seq<u8>)
    requires Sound(k) && Ready(ch.mac) && Accepted(m)
    ensures var w := Wire(k, ch, m) + rest;
      |w| >= 16 && FromInt24(Cipher(k, ch.pos, w[..16])) == FrameSize(m)
  {
    hide FrameMac, MacBytes, MacAfterData, FrameText, FrameSize, Sound, Ready;
    CipherTwice(k, ch.pos, HeaderText(FrameSize(m)));
    AnnouncedSize(FrameSize(m));
    assert (Wire(k, ch, m) + rest)[..16] == HeaderCipher(k, ch, m);
  }

  lemma ReceivedSize<D(!new)>(k: Secrets<D>, ch: Channel<D>, wire: seq<u8>)
    requires Sound(k) && Ready(ch.mac)
    ensures var r := Receive(k, ch, wire);
      r.Got? ==> |wire| >= 16 && |r.message.payload| < FromInt24(Cipher(k, ch.pos, wire[..16]))
  {
    hide FrameMac, MacBytes, MacAfterData, Sound, Ready, NextHead, Number;
  }

  // ---- what is read

  lemma MacsOnce<D(!new)>(k: Secrets<D>, mac: State<D>, seed: seq<u8>, after: State<D>, sent: seq<u8>)
    requires Sound(k) && Ready(mac) && |seed| >= 16 && Macs(k, mac, seed, after, sent)
    ensures after == MacState(k, mac, seed) && sent == MacBytes(k, mac, seed)
  {
    hide Written, Absorb, Padded, XorSeq;
    var x: seq<u8> :| |x| == 16 && XorSeq(x, seed) == k.block(SumBytes(k.core, mac)[..16])
      && after == SumState(k.core, Written(k.core, SumState(k.core, mac), x))
      && sent == SumBytes(k.core, Written(k.core, SumState(k.core, mac), x))[..16];
    XorSeqTwice(x, seed);
  }

  /** The sixteen bytes in front of the next sixteen are not what the keys give for them. */
  ghost predicate HeaderForged<D(!new)>(k: Secrets<D>, ch: Channel<D>, wire: seq<u8>)
    requires Sound(k) && Ready(ch.mac) && |wire| >= 32
  {
    forall mid: State<D> :: !Macs(k, ch.mac, wire[..16], mid, wire[16..32])
  }

  ghost predicate DataForged<D(!new)>(k: Secrets<D>, ch: Channel<D>, wire: seq<u8>, n: nat)
    requires Sound(k) && Ready(ch.mac) && |wire| >= 48 + n
  {
    var h, mac, data, sent := wire[..16], wire[16..32], wire[32..32 + n], wire[32 + n..48 + n];
    forall mid: State<D>, after: State<D> ::
      Ready(mid) && Macs(k, ch.mac, h, mid, mac) ==> !FrameMacs(k, Written(k.core, mid, data), after, sent)
  }

  /** How long the frame is that the header announces, with its padding. */
  function Announced<D(!new)>(k: Secrets<D>, ch: Channel<D>, wire: seq<u8>): (n: nat)
    requires |wire| >= 16
  {
    FromBigEndian(Cipher(k, ch.pos, wire[..16])[..3])
  }

  function RoundUp(n: nat): (r: nat)
    ensures n <= r < n + 16 && r % 16 == 0
  { (n + 15) / 16 * 16 }

  /** A frame that passes: both MACs are right and the content is a message. What the
      header holds besides the size, and what the padding is, does not matter. */
  ghost predicate Passes<D(!new)>(k: Secrets<D>, ch: Channel<D>, w: seq<u8>, m: Message, after: Channel<D>)
    requires Sound(k) && Ready(ch.mac)
  {
    && |w| >= 48 && |w| == 48 + RoundUp(Announced(k, ch, w)) && after.pos == ch.pos + |w| - 32
    && m.code < MAX_SIZE && m.size == |m.payload|
    && Cipher(k, ch.pos + 16, w[32..|w| - 16])[..Announced(k, ch, w)] == EncodeUint(m.code) + m.payload
    && exists mid: State<D> ::
      && Ready(mid) && Macs(k, ch.mac, w[..16], mid, w[16..32])
      && FrameMacs(k, Written(k.core, mid, w[32..|w| - 16]), after.mac, w[|w| - 16..])
  }

  lemma SizeRead(b: seq<u8>)
    requires |b| >= 3
    ensures FromInt24(b) == FromBigEndian(b[..3])
    ensures var n := FromInt24(b); n + Padding(n) == RoundUp(n)
  {
    var h := b[..3];
    assert h[..2][..1] == h[..1] && h[..1][..0] == [];
    assert FromBigEndian(h[..1]) == b[0];
    assert FromBigEndian(h[..2]) == 256 * (b[0] as nat) + b[1];
  }

  /** Cut off the front of the wire, the parts of a frame of n data bytes. */
  lemma Parts(wire: seq<u8>, n: nat)
    requires |wire| >= 48 + n
    ensures var w := wire[..48 + n];
      && w[..16] == wire[..16] && w[16..32] == wire[16..32] && w[32..|w| - 16] == wire[32..32 + n]
      && w[|w| - 16..] == wire[32 + n..48 + n] && wire == w + wire[48 + n..]
  {}

  /** Every message the reader delivers came in a frame with both MACs right. */
  lemma ReceivedPasses<D(!new)>(k: Secrets<D>, ch: Channel<D>, wire: seq<u8>)
    requires Sound(k) && Ready(ch.mac) && Receive(k, ch, wire).Got?
    ensures var r := Receive(k, ch, wire);
      exists w :: wire == w + r.rest && Passes(k, ch, w, r.message, r.channel)
  {
    hide Sound, Ready, MacBytes, MacState, Written, SumState, SumBytes, Macs, ParseUint, EncodeUint, Padding, RoundUp, FromBigEndian;
    var h := wire[..16];
    var fsize := FromInt24(Cipher(k, ch.pos, h));
    var rsize := fsize + Padding(fsize);
    SizeRead(Cipher(k, ch.pos, h));
    Parts(wire, rsize);
    var data := wire[32..32 + rsize];
    MacIsMac(k, ch.mac, h);
    FrameMacIs(k, Written(k.core, MacState(k, ch.mac, h), data));
    CodeRead(Cipher(k, ch.pos + 16, data)[..fsize]);
    assert Passes(k, ch, wire[..48 + rsize], Receive(k, ch, wire).message, Receive(k, ch, wire).channel);
  }

  lemma CodeRead(content: seq<u8>)
    ensures var code := ParseUint(content, false, 64);
      code.Ok? ==> code.value.0 < MAX_SIZE && content == EncodeUint(code.value.0) + content[code.value.1..]
  {
    hide ParseUint, EncodeUint, Pow256;
    Pow8();
    var code := ParseUint(content, false, 64);
    if code.Ok? {
      UintInverse(content, false, 64, code.value.0, code.value.1);
    }
  }

  /** And every such frame is delivered: the reader refuses nothing else. */
  lemma PassingReceived<D(!new)>(k: Secrets<D>, ch: Channel<D>, w: seq<u8>, rest: seq<u8>, m: Message, after: Channel<D>)
    requires Sound(k) && Ready(ch.mac) && Passes(k, ch, w, m, after)
    ensures Receive(k, ch, w + rest) == Got(m, after, rest)
  {
    hide Sound, Ready, MacBytes, MacState, Written, SumState, SumBytes, Macs, ParseUint, EncodeUint, Padding, RoundUp, FromBigEndian;
    var wire, h, n := w + rest, w[..16], |w| - 48;
    assert wire[..|w|] == w && wire[|w|..] == rest;
    Parts(wire, n);
    SizeRead(Cipher(k, ch.pos, h));
    var data := w[32..|w| - 16];
    var mid: State<D> :| Ready(mid) && Macs(k, ch.mac, w[..16], mid, w[16..32])
      && FrameMacs(k, Written(k.core, mid, data), after.mac, w[|w| - 16..]);
    MacsOnce(k, ch.mac, h, mid, w[16..32]);
    FrameMacsOnce(k, Written(k.core, mid, data), after.mac, w[|w| - 16..]);
    CodeAccepted(m.code, m.payload);
  }

  lemma FrameMacsOnce<D(!new)>(k: Secrets<D>, s: State<D>, after: State<D>, sent: seq<u8>)
    requires Sound(k) && Ready(s) && FrameMacs(k, s, after, sent)
    ensures after == FrameMacState(k, s) && sent == FrameMac(k, s)
  {
    hide Macs, MacState, MacBytes, Absorb, Padded;
    MacsOnce(k, SumState(k.core, s), SumBytes(k.core, s), after, sent);
  }

  lemma CodeAccepted(code: nat, payload: seq<u8>)
    requires code < MAX_SIZE
    ensures ParseUint(EncodeUint(code) + payload, false, 64) == Ok((code, |EncodeUint(code)|))
    ensures (EncodeUint(code) + payload)[|EncodeUint(code)|..] == payload
  {
    hide ParseUint, EncodeUint, Pow256;
    Pow8();
    UintAccepted(code, payload, false, 64);
  }

  /** What the reader complains of, and in which order it looks. */
  lemma ReceiveFailures<D(!new)>(k: Secrets<D>, ch: Channel<D>, wire: seq<u8>)
    requires Sound(k) && Ready(ch.mac)
    ensures Receive(k, ch, wire) == Failed(BadHeaderMac) <==> |wire| >= 32 && HeaderForged(k, ch, wire)
    ensures Receive(k, ch, wire) == Failed(ShortRead) <==>
      |wire| < 32 || (!HeaderForged(k, ch, wire) && |wire| < 48 + RoundUp(Announced(k, ch, wire)))
    ensures Receive(k, ch, wire) == Failed(BadFrameMac) <==>
      && |wire| >= 32 && !HeaderForged(k, ch, wire) && |wire| >= 48 + RoundUp(Announced(k, ch, wire))
      && DataForged(k, ch, wire, RoundUp(Announced(k, ch, wire)))
  {
    hide Sound, Ready, MacBytes, MacState, Written, SumState, SumBytes, Macs, ParseUint, Padding, RoundUp, FrameMac, FromBigEndian;
    if |wire| >= 32 {
      var h := wire[..16];
      SizeRead(Cipher(k, ch.pos, h));
      MacIsMac(k, ch.mac, h);
      forall mid: State<D> | Macs(k, ch.mac, h, mid, wire[16..32])
        ensures wire[16..32] == MacBytes(k, ch.mac, h)
      {
        MacsOnce(k, ch.mac, h, mid, wire[16..32]);
      }
      var n := RoundUp(Announced(k, ch, wire));
      if |wire| >= 48 + n && MacBytes(k, ch.mac, h) == wire[16..32] {
        DataForgedIff(k, ch, wire, n);
      }
    }
  }

  lemma DataForgedIff<D(!new)>(k: Secrets<D>, ch: Channel<D>, wire: seq<u8>, n: nat)
    requires Sound(k) && Ready(ch.mac) && |wire| >= 48 + n && MacBytes(k, ch.mac, wire[..16]) == wire[16..32]
    ensures DataForged(k, ch, wire, n) <==>
      FrameMac(k, MacAfterData(k, ch, wire[..16], wire[32..32 + n])) != wire[32 + n..48 + n]
  {
    hide Sound, Ready, MacBytes, MacState, Written, SumState, SumBytes, Macs, FrameMac, FrameMacState, FrameMacs;
    var h, data, sent := wire[..16], wire[32..32 + n], wire[32 + n..48 + n];
    MacIsMac(k, ch.mac, h);
    FrameMacIs(k, MacAfterData(k, ch, h, data));
    forall mid: State<D>, after: State<D> | Ready(mid) && Macs(k, ch.mac, h, mid, wire[16..32])
      ensures FrameMacs(k, Written(k.core, mid, data), after, sent) ==> sent == FrameMac(k, MacAfterData(k, ch, h, data))
    {
      MacsOnce(k, ch.mac, h, mid, wire[16..32]);
      if FrameMacs(k, Written(k.core, mid, data), after, sent) {
        FrameMacsOnce(k, Written(k.core, mid, data), after, sent);
      }
    }
  }

  // ---- whole runs

  /** The bytes of a run of messages. */
  function Sent<D(!new)>(k: Secrets<D>, ch: Channel<D>, ms: seq<Message>): (w: seq<u8>)
    requires Sound(k) && Ready(ch.mac)
    decreases |ms|
  {
    if ms == [] then [] else Wire(k, ch, ms[0]) + Sent(k, AfterMessage(k, ch, ms[0]), ms[1..])
  }

  /** The writer's state after a run. */
  function SentState<D(!new)>(k: Secrets<D>, ch: Channel<D>, ms: seq<Message>): (r: Channel<D>)
    requires Sound(k) && Ready(ch.mac)
    ensures Ready(r.mac)
    decreases |ms|
  {
    if ms == [] then ch else SentState(k, AfterMessage(k, ch, ms[0]), ms[1..])
  }

  /** The reader's run over n frames: the messages and the state after them. */
  datatype Run<!D(!new)> = Read(messages: seq<Message>, channel: Channel<D>, rest: seq<u8>) | Stopped(failure: Failure)

  function ReceiveRun<D(!new)>(k: Secrets<D>, ch: Channel<D>, wire: seq<u8>, n: nat): (r: Run<D>)
    requires Sound(k) && Ready(ch.mac)
    decreases n
  {
    if n == 0 then Read([], ch, wire)
    else
      var first := Receive(k, ch, wire);
      if first.Failed? then Stopped(first.failure)
      else
        var later := ReceiveRun(k, first.channel, first.rest, n - 1);
        if later.Stopped? then later
        else later.(messages := [first.message] + later.messages)
  }

  /** Lockstep: any run of messages written by one end is read by the other as the same
      messages in order, no check fails, and both ends finish in the same state. */
  lemma {:induction false} Lockstep<D(!new)>(k: Secrets<D>, ch: Channel<D>, ms: seq<Message>, rest: seq<u8>)
    requires Sound(k) && Ready(ch.mac)
    requires forall i :: 0 <= i < |ms| ==> Proper(ms[i])
    ensures ReceiveRun(k, ch, Sent(k, ch, ms) + rest, |ms|) == Read(ms, SentState(k, ch, ms), rest)
    decreases |ms|
  {
    hide Receive, Wire, AfterMessage, Sound, Ready, Proper;
    if ms == [] {
      assert Sent(k, ch, ms) + rest == rest;
    } else {
      var w, ch1 := Wire(k, ch, ms[0]), AfterMessage(k, ch, ms[0]);
      var later := Sent(k, ch1, ms[1..]);
      assert Sent(k, ch, ms) + rest == w + (later + rest);
      MessageDelivered(k, ch, ms[0], later + rest);
      Lockstep(k, ch1, ms[1..], rest);
      assert [ms[0]] + ms[1..] == ms;
    }
  }
}
