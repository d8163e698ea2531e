/** The frame reader and writer of one end of a connection. */
module FrameRW {
  import opened RlpFormat
  import opened Sm3
  import opened Frames
  import opened Bytes
  import opened Text
  import RlpStream

  /** One direction of a byte connection. */
  class Pipe {
    var data: seq<u8>

    constructor ()
      ensures data == []
    {
      data := [];
    }

    method Write(p: seq<u8>)
      modifies this
      ensures data == old(data) + p
    {
      data := data + p;
    }

    /** Exactly n bytes, or None when fewer have arrived. */
    method ReadFull(n: nat) returns (r: Option<seq<u8>>)
      modifies this
      ensures if |old(data)| < n then r.None? && data == old(data)
              else r == Some(old(data)[..n]) && data == old(data)[n..]
    {
      if |data| < n { return None; }
      r := Some(data[..n]);
      data := data[n..];
    }
  }

  /** The enciphered sum xored with the seed, byte by byte. */
  method Mask(buf: seq<u8>, seed: seq<u8>) returns (mixed: seq<u8>)
    requires |buf| <= |seed|
    ensures mixed == XorSeq(buf, seed)
  {
    hide Xor;
    mixed := [];
    for i := 0 to |buf|
      invariant mixed == XorSeq(buf, seed)[..i]
    {
      mixed := mixed + [Xor(buf[i], seed[i])];
    }
  }

  /** updateMAC: reseeds the hash with the enciphered seed; the first half of the sum. */
  method UpdateMac<D(!new)>(k: Secrets<D>, mac: Hash<D>, seed: seq<u8>) returns (m: seq<u8>)
    requires Sound(k) && mac.core == k.core && Ready(mac.Abs()) && |seed| >= 16
    modifies mac
    ensures mac.Abs() == MacState(k, old(mac.Abs()), seed)
    ensures m == MacBytes(k, old(mac.Abs()), seed)
    ensures Macs(k, old(mac.Abs()), seed, mac.Abs(), m)
  {
    hide Xor, Absorb, Padded, Written, SumState, SumBytes, XorSeq, Macs;
    MacIsMac(k, mac.Abs(), seed);
    ghost var s := mac.Abs();
    WriteNothing(k.core, s);
    SeedLength(k, s);
    var sum := mac.Sum([]);
    var buf := k.block(sum[..16]);
    var mixed := Mask(buf, seed);
    var n := mac.Write(mixed);
    SeedLength(k, mac.Abs());
    WriteNothing(k.core, mac.Abs());
    sum := mac.Sum([]);
    m := sum[..16];
  }

  class Endpoint<D(!new)> {
    const keys: Secrets<D>
    const egress: Hash<D>
    const ingress: Hash<D>
    const output: Pipe
    const input: Pipe
    var encPos: nat
    var decPos: nat

    constructor (k: Secrets<D>, egress: Hash<D>, ingress: Hash<D>, output: Pipe, input: Pipe)
      requires Sound(k) && egress != ingress && output != input
      requires egress.core == k.core && ingress.core == k.core && Ready(egress.Abs()) && Ready(ingress.Abs())
      ensures Valid() && keys == k && this.egress == egress && this.ingress == ingress
      ensures this.output == output && this.input == input && encPos == 0 && decPos == 0
    {
      keys, this.egress, this.ingress, this.output, this.input := k, egress, ingress, output, input;
      encPos, decPos := 0, 0;
    }

    ghost predicate Valid()
      reads this, egress, ingress
    {
      && Sound(keys) && egress != ingress && output != input
      && egress.core == keys.core && ingress.core == keys.core
      && Ready(egress.Abs()) && Ready(ingress.Abs())
    }

    ghost function Sending(): (c: Channel<D>)
      reads this, egress
    {
      Channel(encPos, egress.Abs())
    }

    ghost function Receiving(): (c: Channel<D>)
      reads this, ingress
    {
      Channel(decPos, ingress.Abs())
    }

    /** The frame writer's tee: enciphers, and sends and hashes what comes out. */
    method Tee(p: seq<u8>)
      requires Valid()
      modifies `encPos, egress, output
      ensures Valid() && encPos == old(encPos) + |p|
      ensures output.data == old(output.data) + Cipher(keys, old(encPos), p)
      ensures egress.Abs() == Written(keys.core, old(egress.Abs()), Cipher(keys, old(encPos), p))
    {
      hide Xor, Absorb, Sound;
      var c := Cipher(keys, encPos, p);
      encPos := encPos + |p|;
      output.Write(c);
      var n := egress.Write(c);
    }

    /** Tee after some text has gone through it from the given state. */
    method TeeMore(p: seq<u8>, ghost pos: nat, ghost sent: seq<u8>, ghost mac: State<D>, ghost text: seq<u8>)
      requires Valid() && encPos == pos + |text|
      requires output.data == sent + Cipher(keys, pos, text)
      requires egress.Abs() == Written(keys.core, mac, Cipher(keys, pos, text))
      modifies `encPos, egress, output
      ensures Valid() && encPos == pos + |text + p|
      ensures output.data == sent + Cipher(keys, pos, text + p)
      ensures egress.Abs() == Written(keys.core, mac, Cipher(keys, pos, text + p))
    {
      hide Xor, Absorb, Sound, Written;
      Tee(p);
      CipherConcat(keys, pos, text, p);
      WriteTwice(keys.core, mac, Cipher(keys, pos, text), Cipher(keys, pos + |text|, p));
    }

    /** The enciphered header and its MAC. */
    method WriteHeader(fsize: nat)
      requires Valid() && fsize <= MAX_UINT24
      modifies `encPos, egress, output
      ensures Valid() && encPos == old(encPos) + 16
      ensures var h := Cipher(keys, old(encPos), HeaderText(fsize));
        && output.data == old(output.data) + h + MacBytes(keys, old(egress.Abs()), h)
        && egress.Abs() == MacState(keys, old(egress.Abs()), h)
    {
      hide Xor, MacBytes, MacState, Sound, Ready;
      var h := Cipher(keys, encPos, HeaderText(fsize));
      encPos := encPos + 16;
      var mac := UpdateMac(keys, egress, h);
      output.Write(h + mac);
      assert old(output.data) + h + mac == old(output.data) + (h + mac);
    }

    /** Code, payload as it arrives, and padding. */
    method WriteData(ptype: seq<u8>, chunks: seq<seq<u8>>, padding: nat)
      requires Valid()
      modifies `encPos, egress, output
      ensures Valid()
      ensures var text := ptype + Joined(chunks) + Zeros(padding); var c := Cipher(keys, old(encPos), text);
        && encPos == old(encPos) + |text|
        && output.data == old(output.data) + c && egress.Abs() == Written(keys.core, old(egress.Abs()), c)
    {
      hide Xor, Written, Sound, Ready, Cipher;
      ghost var pos, sent, mac := encPos, output.data, egress.Abs();
      Tee(ptype);
      ghost var text := ptype;
      assert chunks[..0] == [];
      for i := 0 to |chunks|
        invariant Valid() && encPos == pos + |text| && text == ptype + Joined(chunks[..i])
        invariant output.data == sent + Cipher(keys, pos, text)
        invariant egress.Abs() == Written(keys.core, mac, Cipher(keys, pos, text))
      {
        TeeMore(chunks[i], pos, sent, mac, text);
        assert chunks[..i + 1][..i] == chunks[..i];
        assert text + chunks[i] == ptype + (Joined(chunks[..i]) + chunks[i]);
        text := text + chunks[i];
      }
      assert chunks[..|chunks|] == chunks;
      if padding > 0 {
        TeeMore(Zeros(padding), pos, sent, mac, text);
      } else {
        assert text + Zeros(padding) == text;
      }
    }

    method WriteFrameMac()
      requires Valid()
      modifies egress, output
      ensures Valid() && output.data == old(output.data) + FrameMac(keys, old(egress.Abs()))
      ensures egress.Abs() == FrameMacState(keys, old(egress.Abs()))
    {
      hide Sound, MacBytes, MacState, Absorb, Padded;
      WriteNothing(keys.core, egress.Abs());
      var seed := egress.Sum([]);
      SeedLength(keys, old(egress.Abs()));
      var mac := UpdateMac(keys, egress, seed);
      output.Write(mac);
    }

    /** The frame of a message that fits. */
    method WriteFrame(m: Message, chunks: seq<seq<u8>>, ptype: seq<u8>, fsize: nat)
      requires Valid() && Joined(chunks) == m.payload && Accepted(m)
      requires ptype == EncodeUint(m.code) && fsize == FrameSize(m)
      modifies `encPos, egress, output
      ensures Valid() && output.data == old(output.data) + Wire(keys, old(Sending()), m)
      ensures Sending() == AfterMessage(keys, old(Sending()), m)
    {
      hide Xor, EncodeUint, MacBytes, MacState, FrameMac, FrameMacState, Written, Sound, Ready;
      ghost var ch, sent := Sending(), output.data;
      WriteHeader(fsize);
      WriteData(ptype, chunks, Padding(fsize));
      WriteFrameMac();
      ghost var h, c := HeaderCipher(keys, ch, m), FrameCipher(keys, ch, m);
      Associate4(sent, h, MacBytes(keys, ch.mac, h), c, FrameMac(keys, MacAfterData(keys, ch, h, c)));
    }

    /** WriteMsg: refuses an oversized frame untouched, or sends the message, whatever
        chunks its payload comes in. */
    method WriteMsg(m: Message, chunks: seq<seq<u8>>) returns (ok: bool)
      requires Valid() && Joined(chunks) == m.payload
      modifies `encPos, egress, output
      ensures Valid() && (ok <==> Accepted(m))
      ensures ok ==> output.data == old(output.data) + Wire(keys, old(Sending()), m)
      ensures ok ==> Sending() == AfterMessage(keys, old(Sending()), m)
      ensures !ok ==> output.data == old(output.data) && Sending() == old(Sending())
      ensures Proper(m) ==>
        ok && old(output.data) <= output.data
        && OnWire(keys, old(Sending()), m, output.data[|old(output.data)|..], Sending())
    {
      hide EncodeUint, Sound, Ready, Wire, AfterMessage, OnWire, Proper;
      var ptype := EncodeUint(m.code);
      var fsize := (|ptype| + m.size) % WORD32;
      if Proper(m) {
        ProperFrame(m);
        WireIs(keys, Sending(), m);
      }
      if fsize > MAX_UINT24 { return false; }
      WriteFrame(m, chunks, ptype, fsize);
      assert output.data[|old(output.data)|..] == Wire(keys, old(Sending()), m);
      return true;
    }

    /** The header of the next frame, checked and deciphered: the size it announces. */
    method ReadHeader() returns (r: Checked<nat>)
      requires Valid()
      modifies `decPos, ingress, input
      ensures Valid()
      ensures var w := old(input.data);
        if |w| < 32 then r == Rejected(ShortRead)
        else if MacBytes(keys, old(ingress.Abs()), w[..16]) != w[16..32] then r == Rejected(BadHeaderMac)
        else
          && r == Passed(FromInt24(Cipher(keys, old(decPos), w[..16]))) && input.data == w[32..]
          && decPos == old(decPos) + 16 && ingress.Abs() == MacState(keys, old(ingress.Abs()), w[..16])
    {
      hide Xor, MacBytes, MacState, Sound, Ready;
      var head := input.ReadFull(32);
      if head.None? { return Rejected(ShortRead); }
      var first := head.value[..16];
      assert first == old(input.data)[..16];
      assert head.value[16..] == old(input.data)[16..32];
      var should := UpdateMac(keys, ingress, first);
      if should != head.value[16..] { return Rejected(BadHeaderMac); }
      var plain := Cipher(keys, decPos, first);
      decPos := decPos + 16;
      r := Passed(FromInt24(plain));
    }

    /** The rest of a frame of rsize bytes, checked and deciphered. */
    method ReadData(rsize: nat) returns (r: Checked<seq<u8>>)
      requires Valid()
      modifies `decPos, ingress, input
      ensures Valid()
      ensures var w := old(input.data);
        if |w| < rsize + 16 then r == Rejected(ShortRead)
        else
          var s := Written(keys.core, old(ingress.Abs()), w[..rsize]);
          if FrameMac(keys, s) != w[rsize..rsize + 16] then r == Rejected(BadFrameMac)
          else
            && r == Passed(Cipher(keys, old(decPos), w[..rsize])) && input.data == w[rsize + 16..]
            && decPos == old(decPos) + rsize && ingress.Abs() == FrameMacState(keys, s)
    {
      hide Xor, MacBytes, MacState, Sound, Absorb, Padded;
      var frame := input.ReadFull(rsize);
      if frame.None? { return Rejected(ShortRead); }
      var n := ingress.Write(frame.value);
      ghost var s := ingress.Abs();
      WriteNothing(keys.core, s);
      var seed := ingress.Sum([]);
      SeedLength(keys, s);
      var mac := input.ReadFull(16);
      if mac.None? { return Rejected(ShortRead); }
      assert mac.value == old(input.data)[rsize..rsize + 16];
      var should := UpdateMac(keys, ingress, seed);
      if should != mac.value { return Rejected(BadFrameMac); }
      r := Passed(Cipher(keys, decPos, frame.value));
      decPos := decPos + rsize;
    }

    /** ReadMsg: the next message, or why there is none. */
    method ReadMsg() returns (r: Checked<Message>)
      requires Valid()
      modifies `decPos, ingress, input
      ensures Valid()
      ensures match Receive(keys, old(Receiving()), old(input.data))
        case Failed(f) => r == Rejected(f)
        case Got(m, ch, rest) => r == Passed(m) && Receiving() == ch && input.data == rest
    {
      hide Xor, ParseUint, MacBytes, MacState, FrameMac, FrameMacState, Written, Sound, Ready;
      ghost var w, ch := input.data, Receiving();
      var size := ReadHeader();
      if size.Rejected? { return Rejected(size.failure); }
      var fsize := size.value;
      var rsize := fsize + Padding(fsize);
      Shift(w, rsize);
      var frame := ReadData(rsize);
      if frame.Rejected? { return Rejected(frame.failure); }
      var content := frame.value[..fsize];
      var code, rest := RlpStream.DecodeUintPrefix(content, 64);
      if code.Err? { return Rejected(BadCode(code.error)); }
      r := Passed(Message(code.value, |rest|, rest));
    }
  }

  // ---- two ends of one connection

  /** One direction from x to y: same keys, x's output is y's input, hashes apart. */
  ghost predicate Linked<D(!new)>(x: Endpoint<D>, y: Endpoint<D>)
    reads x, y, x.egress, x.ingress, y.egress, y.ingress
  {
    && x.Valid() && y.Valid() && x != y && x.keys == y.keys && x.output == y.input
    && {x.egress, x.ingress} !! {y.egress, y.ingress}
  }

  /** What x said and y got since both were in state ch: y has a prefix, each end is in
      the state those messages lead to, and the rest is on the way. */
  ghost predicate InStep<D(!new)>(x: Endpoint<D>, y: Endpoint<D>, ch: Channel<D>, said: seq<Message>, got: seq<Message>)
    requires Linked(x, y) && Ready(ch.mac)
    reads x, y, x.egress, x.ingress, y.egress, y.ingress, x.output
  {
    Transit(x.keys, ch, x.Sending(), y.Receiving(), x.output.data, said, got)
  }

  ghost predicate Transit<D(!new)>(k: Secrets<D>, ch: Channel<D>, writer: Channel<D>, reader: Channel<D>,
                                   wire: seq<u8>, said: seq<Message>, got: seq<Message>)
    requires Sound(k) && Ready(ch.mac) && Ready(reader.mac)
  {
    && got <= said && writer == SentState(k, ch, said) && reader == SentState(k, ch, got)
    && wire == Sent(k, reader, said[|got|..]) && writer == SentState(k, reader, said[|got|..])
  }

  lemma {:induction false} SentMore<D(!new)>(k: Secrets<D>, ch: Channel<D>, ms: seq<Message>, m: Message)
    requires Sound(k) && Ready(ch.mac)
    ensures Sent(k, ch, ms + [m]) == Sent(k, ch, ms) + Wire(k, SentState(k, ch, ms), m)
    ensures SentState(k, ch, ms + [m]) == AfterMessage(k, SentState(k, ch, ms), m)
    decreases |ms|
  {
    hide Wire, AfterMessage, Sound, Ready;
    if ms == [] {
      assert ms + [m] == [m];
      assert Sent(k, AfterMessage(k, ch, m), []) == [];
    } else {
      assert (ms + [m])[1..] == ms[1..] + [m];
      SentMore(k, AfterMessage(k, ch, ms[0]), ms[1..], m);
    }
  }

  lemma TransitSend<D(!new)>(k: Secrets<D>, ch: Channel<D>, writer: Channel<D>, reader: Channel<D>,
                             wire: seq<u8>, said: seq<Message>, got: seq<Message>, m: Message)
    requires Sound(k) && Ready(ch.mac) && Ready(reader.mac) && Ready(writer.mac)
    requires Transit(k, ch, writer, reader, wire, said, got)
    ensures Transit(k, ch, AfterMessage(k, writer, m), reader, wire + Wire(k, writer, m), said + [m], got)
  {
    hide Wire, AfterMessage, Sound, Ready, Sent, SentState;
    SentMore(k, ch, said, m);
    SentMore(k, reader, said[|got|..], m);
    assert (said + [m])[|got|..] == said[|got|..] + [m];
  }

  lemma TransitFetch<D(!new)>(k: Secrets<D>, ch: Channel<D>, writer: Channel<D>, reader: Channel<D>,
                              wire: seq<u8>, said: seq<Message>, got: seq<Message>)
    requires Sound(k) && Ready(ch.mac) && Ready(reader.mac)
    requires Transit(k, ch, writer, reader, wire, said, got) && |got| < |said| && Proper(said[|got|])
    ensures var r := Receive(k, reader, wire);
      && r.Got? && r.message == said[|got|] && Ready(r.channel.mac)
      && Transit(k, ch, writer, r.channel, r.rest, said, got + [r.message])
  {
    hide Wire, AfterMessage, Sound, Ready, Receive, Proper;
    var m, left := said[|got|], said[|got|..];
    assert left[0] == m && left[1..] == said[|got| + 1..];
    MessageDelivered(k, reader, m, Sent(k, AfterMessage(k, reader, m), left[1..]));
    SentMore(k, ch, got, m);
  }

  /** One frame written keeps the two ends in step. */
  method Push<D(!new)>(x: Endpoint<D>, ghost y: Endpoint<D>, m: Message, chunks: seq<seq<u8>>,
                       ghost ch: Channel<D>, ghost said: seq<Message>, ghost got: seq<Message>) returns (ok: bool)
    requires Linked(x, y) && Ready(ch.mac) && Joined(chunks) == m.payload && InStep(x, y, ch, said, got)
    modifies x`encPos, x.egress, x.output
    ensures Linked(x, y) && (ok <==> Accepted(m))
    ensures InStep(x, y, ch, if ok then said + [m] else said, got)
  {
    hide Transit, Wire, AfterMessage, Sound, Joined, Accepted, Ready;
    ghost var writer, wire := x.Sending(), x.output.data;
    ok := x.WriteMsg(m, chunks);
    TransitSend(x.keys, ch, writer, y.Receiving(), wire, said, got, m);
  }

  /** One frame read keeps the two ends in step and is the next message said. */
  method Pull<D(!new)>(ghost x: Endpoint<D>, y: Endpoint<D>, ghost ch: Channel<D>,
                       ghost said: seq<Message>, ghost got: seq<Message>) returns (m: Message)
    requires Linked(x, y) && Ready(ch.mac) && InStep(x, y, ch, said, got)
    requires |got| < |said| && Proper(said[|got|])
    modifies y`decPos, y.ingress, y.input
    ensures Linked(x, y) && m == said[|got|] && InStep(x, y, ch, said, got + [m])
  {
    hide Transit, Receive, Sound, Proper, Ready;
    TransitFetch(x.keys, ch, x.Sending(), y.Receiving(), x.output.data, said, got);
    var r := y.ReadMsg();
    m := r.value;
  }

  /** A message written by one of the ends, in some chunks, or a message awaited by one. */
  datatype Move = Send(byA: bool, message: Message, chunks: seq<seq<u8>>) | Fetch(byA: bool)

  /** Nothing is promised of the one kind of message that the size check lets through and
      the wire does not carry. */
  predicate Sayable(script: seq<Move>) {
    forall i :: 0 <= i < |script| && script[i].Send? ==>
      Joined(script[i].chunks) == script[i].message.payload && (Accepted(script[i].message) ==> Proper(script[i].message))
  }

  predicate Says(move: Move, byA: bool) { move.Send? && move.byA == byA && Accepted(move.message) }

  /** The messages the end has written, without those it was refused. */
  function Said(script: seq<Move>, byA: bool): (ms: seq<Message>)
    decreases |script|
  {
    if script == [] then [] else
      SaidAfter(script[|script| - 1], byA, Said(script[..|script| - 1], byA))
  }

  function SaidAfter(move: Move, byA: bool, ms: seq<Message>): (r: seq<Message>) {
    if Says(move, byA) then ms + [move.message] else ms
  }

  /** How many of them the other end has still to read. */
  function Unread(script: seq<Move>, byA: bool): (n: nat)
    decreases |script|
  {
    if script == [] then 0 else
      UnreadAfter(script[|script| - 1], byA, Unread(script[..|script| - 1], byA))
  }

  function UnreadAfter(move: Move, byA: bool, n: nat): (r: nat) {
    if Says(move, byA) then n + 1 else if move == Fetch(!byA) && n > 0 then n - 1 else n
  }

  lemma {:induction false} SaidProper(script: seq<Move>, byA: bool)
    requires Sayable(script)
    ensures forall i :: 0 <= i < |Said(script, byA)| ==> Proper(Said(script, byA)[i])
    decreases |script|
  {
    hide Proper, Accepted, Joined;
    if script != [] {
      SaidProper(script[..|script| - 1], byA);
    }
  }

  /** The other end has read what was said but for its last messages, unread of them. */
  ghost predicate Heard<D(!new)>(x: Endpoint<D>, y: Endpoint<D>, ch: Channel<D>, said: seq<Message>,
                                 got: seq<Message>, unread: nat)
    requires Linked(x, y) && Ready(ch.mac)
    reads x, y, x.egress, x.ingress, y.egress, y.ingress, x.output
  {
    InStep(x, y, ch, said, got) && |got| + unread == |said|
  }

  /** A conversation: the ends write messages in whatever chunks and read them in whatever
      order of moves; a read with nothing under way waits, and is passed over. Every read
      gives the next message the other end wrote, no check fails, and each writer and its
      reader end in the states that what was written and what was read lead to from a
      common start: the same state once all is read. A script cut after any frame is a
      script, so this holds after every frame. */
  method Converse<D(!new)>(a: Endpoint<D>, b: Endpoint<D>, script: seq<Move>)
      returns (atA: seq<Message>, atB: seq<Message>)
    requires Linked(a, b) && Linked(b, a) && Sayable(script)
    requires a.Sending() == b.Receiving() && b.Sending() == a.Receiving()
    requires a.output.data == [] && b.output.data == []
    modifies a, b, a.egress, a.ingress, b.egress, b.ingress, a.output, b.output
    ensures Linked(a, b) && Linked(b, a)
    ensures Heard(a, b, old(a.Sending()), Said(script, true), atB, Unread(script, true))
    ensures Heard(b, a, old(b.Sending()), Said(script, false), atA, Unread(script, false))
    ensures Unread(script, true) == 0 ==> atB == Said(script, true) && a.Sending() == b.Receiving()
    ensures Unread(script, false) == 0 ==> atA == Said(script, false) && b.Sending() == a.Receiving()
  {
    hide Transit, Proper, Accepted, Joined, Said, Unread, Ready, Sound, Sayable;
    ghost var ca, cb := a.Sending(), b.Sending();
    atA, atB := [], [];
    var forB, forA := 0, 0;
    NoMoves(script);
    TransitStart(a.keys, ca);
    TransitStart(b.keys, cb);
    for i := 0 to |script|
      invariant Linked(a, b) && Linked(b, a)
      invariant forB == Unread(script[..i], true) && forA == Unread(script[..i], false)
      invariant Heard(a, b, ca, Said(script[..i], true), atB, forB)
      invariant Heard(b, a, cb, Said(script[..i], false), atA, forA)
    {
      ghost var sa, sb := Said(script[..i], true), Said(script[..i], false);
      NextMove(script, i);
      SaidProper(script[..i], true);
      SaidProper(script[..i], false);
      match script[i]
      case Send(byA, m, chunks) =>
        if byA {
          var ok := Push(a, b, m, chunks, ca, sa, atB);
          if ok { forB := forB + 1; }
        } else {
          var ok := Push(b, a, m, chunks, cb, sb, atA);
          if ok { forA := forA + 1; }
        }
      case Fetch(byA) =>
        if byA {
          if forA > 0 {
            var m := Pull(b, a, cb, sb, atA);
            atA, forA := atA + [m], forA - 1;
          }
        } else {
          if forB > 0 {
            var m := Pull(a, b, ca, sa, atB);
            atB, forB := atB + [m], forB - 1;
          }
        }
    }
    assert script[..|script|] == script;
    TransitEnds(a.keys, ca, a.Sending(), b.Receiving(), a.output.data, Said(script, true), atB);
    TransitEnds(b.keys, cb, b.Sending(), a.Receiving(), b.output.data, Said(script, false), atA);
  }

  lemma TransitStart<D(!new)>(k: Secrets<D>, ch: Channel<D>)
    requires Sound(k) && Ready(ch.mac)
    ensures Transit(k, ch, ch, ch, [], [], [])
  {}

  lemma TransitEnds<D(!new)>(k: Secrets<D>, ch: Channel<D>, writer: Channel<D>, reader: Channel<D>,
                             wire: seq<u8>, said: seq<Message>, got: seq<Message>)
    requires Sound(k) && Ready(ch.mac) && Ready(reader.mac)
    requires Transit(k, ch, writer, reader, wire, said, got)
    ensures |got| == |said| ==> got == said && writer == reader && wire == []
  {
    hide Sound, Ready;
  }

  lemma NoMoves(script: seq<Move>)
    ensures forall byA :: Said(script[..0], byA) == [] && Unread(script[..0], byA) == 0
  {
    assert script[..0] == [];
  }

  lemma NextMove(script: seq<Move>, i: nat)
    requires i < |script| && Sayable(script)
    ensures Sayable(script[..i])
    ensures script[i].Send? ==> Joined(script[i].chunks) == script[i].message.payload
    ensures forall byA :: Said(script[..i + 1], byA) == SaidAfter(script[i], byA, Said(script[..i], byA))
    ensures forall byA :: Unread(script[..i + 1], byA) == UnreadAfter(script[i], byA, Unread(script[..i], byA))
  {
    hide Proper, Accepted, Joined;
    assert script[..i + 1][..i] == script[..i];
  }

  lemma Shift(w: seq<u8>, n: nat)
    requires |w| >= 32
    ensures |w| >= 48 + n ==> w[32..][..n] == w[32..32 + n] && w[32..][n..n + 16] == w[32 + n..48 + n]
    ensures |w| >= 48 + n ==> w[32..][n + 16..] == w[48 + n..]
  {}

  datatype Checked<T> = Passed(value: T) | Rejected(failure: Failure)

  lemma SeedLength<D(!new)>(k: Secrets<D>, s: State<D>)
    requires Sound(k) && Ready(s)
    ensures |SumBytes(k.core, s)| == 32
  {}

  lemma Associate4(a: seq<u8>, b: seq<u8>, c: seq<u8>, d: seq<u8>, e: seq<u8>)
    ensures a + b + c + d + e == a + (b + c + d + e)
  {}
}
