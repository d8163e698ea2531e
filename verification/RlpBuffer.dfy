/** The encode buffer, its output as bytes or to a writer, and the streaming reader. */
module RlpBuffer {
  import opened Bytes
  import opened RlpFormat
  import opened RlpEncoder
  import opened Text

  /** puthead: the header for a payload of the given size. */
  method PutHead(small: u8, large: u8, size: nat) returns (h: seq<u8>)
    requires size < MAX_SIZE && small + 55 < 256 && large + 8 < 256
    ensures h == Header(small, large, size)
  {
    if size < 56 {
      h := [small + size];
    } else {
      hide BigEndian;
      var digits := PutInt(size);
      Pow8();
      BigEndianLength(size, 8);
      h := [large + |digits|] + digits;
    }
  }

  /** Go's copy into a slice: as much as fits. */
  method CopyTo(out: array<u8>, pos: nat, src: seq<u8>) returns (n: nat)
    requires pos <= out.Length
    modifies out
    ensures n == if |src| <= out.Length - pos then |src| else out.Length - pos
    ensures out[..pos] == old(out[..pos])
    ensures out[pos..pos + n] == src[..n]
    ensures out[pos + n..] == old(out[pos + n..])
    ensures out[..pos + n] == old(out[..pos]) + src[..n]
  {
    n := if |src| <= out.Length - pos then |src| else out.Length - pos;
    for i := 0 to n
      invariant out[..pos] == old(out[..pos])
      invariant forall k :: 0 <= k < i ==> out[pos + k] == src[k]
      invariant out[pos + n..] == old(out[pos + n..])
    {
      out[pos + i] := src[i];
    }
  }

  /** Somewhere to write to, which takes room more bytes and then fails. */
  class Sink {
    var taken: seq<u8>
    var room: nat

    constructor (room: nat)
      ensures this.room == room && taken == []
    {
      this.room := room;
      taken := [];
    }

    method Write(p: seq<u8>) returns (n: nat, ok: bool)
      modifies this
      ensures n == if |p| <= old(room) then |p| else old(room)
      ensures ok <==> |p| <= old(room)
      ensures taken == old(taken) + p[..n] && room == old(room) - n
    {
      n := if |p| <= room then |p| else room;
      ok := |p| <= room;
      taken := taken + p[..n];
      room := room - n;
    }
  }

  /** What a sink holds after an attempt to write e to it. */
  ghost predicate Sent(before: seq<u8>, room: nat, after: seq<u8>, left: nat, e: seq<u8>, ok: bool) {
    if |e| <= room then ok && after == before + e && left == room - |e|
    else !ok && after == before + e[..room] && left == 0
  }

  /** Writing two pieces in turn is writing them joined. */
  lemma SentThen(s0: seq<u8>, r0: nat, s1: seq<u8>, r1: nat, s2: seq<u8>, r2: nat, a: seq<u8>, b: seq<u8>, ok: bool)
    requires Sent(s0, r0, s1, r1, a, true) && Sent(s1, r1, s2, r2, b, ok)
    ensures Sent(s0, r0, s2, r2, a + b, ok)
  {
    if |b| <= r1 {
      assert s0 + a + b == s0 + (a + b);
    } else {
      assert s0 + a + b[..r1] == s0 + (a + b)[..r0];
    }
  }

  lemma SentFails(s0: seq<u8>, r0: nat, s1: seq<u8>, r1: nat, a: seq<u8>, b: seq<u8>)
    requires Sent(s0, r0, s1, r1, a, false)
    ensures Sent(s0, r0, s1, r1, a + b, false)
  {
    assert (a + b)[..r0] == a[..r0];
  }

  class EncBuf {
    var str: seq<u8>
    var lheads: seq<ListHead>
    var lhsize: nat

    constructor ()
      ensures str == [] && lheads == [] && lhsize == 0
    {
      str, lheads, lhsize := [], [], 0;
    }

    /** No list is open: the headers are in order, final, and their size is known. */
    ghost predicate Closed()
      reads this
    {
      Ordered(lheads, 0, |str|) && lhsize == HeadsSize(lheads)
      && forall h :: h in lheads ==> h.size < MAX_SIZE
    }

    ghost function Bytes(): (e: seq<u8>)
      requires Closed()
      reads this
    {
      Merge(str, lheads, 0)
    }

    method EncodeString(b: seq<u8>)
      requires |b| < MAX_SIZE
      modifies `str
      ensures str == old(str) + Encode(Str(b))
    {
      hide Header;
      if |b| == 1 && b[0] <= 0x7F {
        str := str + [b[0]];
      } else {
        var h := PutHead(0x80, 0xB7, |b|);
        str := str + h;
        str := str + b;
      }
    }

    /** An unsigned integer: the string of its shortest big-endian form. */
    method WriteUint(i: nat)
      requires i < MAX_SIZE
      modifies `str
      ensures str == old(str) + EncodeUint(i)
    {
      hide BigEndian, Pow256;
      ZeroNumber();
      if i == 0 {
        str := str + [0x80];
      } else if i < 128 {
        SmallNumber(i);
        str := str + [i];
      } else {
        var s := PutInt(i);
        Pow8();
        BigEndianLength(i, 8);
        BigEndianValue(i);
        LargeNumber(i);
        str := str + ([0x80 + |s|] + s);
      }
    }

    /** Opens a list; the result is the position of its header. */
    method BeginList() returns (lh: nat)
      modifies `lheads
      ensures lh == |old(lheads)| && lheads == old(lheads) + [ListHead(|str|, lhsize)]
    {
      lh := |lheads|;
      lheads := lheads + [ListHead(|str|, lhsize)];
    }

    function Size(): (n: nat)
      reads this
    {
      |str| + lhsize
    }

    /** Closes a list: its size is what was written since it was opened. */
    method ListEnd(lh: nat)
      requires lh < |lheads| && lheads[lh].offset + lheads[lh].size <= Size()
      modifies `lheads, `lhsize
      ensures lheads == old(lheads)[lh := ListHead(old(lheads)[lh].offset,
                                                   old(Size()) - old(lheads)[lh].offset - old(lheads)[lh].size)]
      ensures lhsize == old(lhsize) + |ListHeader(lheads[lh].size)|
    {
      hide BigEndian;
      var size := Size() - lheads[lh].offset - lheads[lh].size;
      lheads := lheads[lh := lheads[lh].(size := size)];
      if size < 56 {
        lhsize := lhsize + 1;
      } else {
        var n := IntSize(size);
        lhsize := lhsize + 1 + n;
      }
    }

    /** Writes an item: its bytes, its list headers and their total size are added. */
    method WriteItem(item: Item)
      requires |Encode(item)| < MAX_SIZE
      modifies this
      ensures str == old(str) + StrPart(item)
      ensures lheads == old(lheads) + Heads(item, |old(str)|)
      ensures lhsize == old(lhsize) + HeadsSize(Heads(item, |old(str)|))
      decreases item
    {
      hide Encode, EncodeAll, ListHeader, StrPart, StrPartAll, Heads, HeadsAll, HeadsSize;
      ghost var o := |str|;
      match item
      case Str(b) =>
        StringParts(b, o);
        EncodeString(b);
      case List(items) =>
        ListParts(items, o);
        var lh := BeginList();
        WriteItems(items);
        ListEnd(lh);
    }

    /** The elements of a list, in order. */
    method WriteItems(items: seq<Item>)
      requires |EncodeAll(items)| < MAX_SIZE
      modifies this
      ensures str == old(str) + StrPartAll(items)
      ensures lheads == old(lheads) + HeadsAll(items, |old(str)|)
      ensures lhsize == old(lhsize) + HeadsSize(HeadsAll(items, |old(str)|))
      decreases items
    {
      hide Encode, StrPart, Heads, ListHeader, HeadsSize, StrPartAll, HeadsAll, EncodeAll;
      ghost var o := |str|;
      assert items[0..] == items;
      for i := 0 to |items|
        invariant |EncodeAll(items[i..])| < MAX_SIZE
        invariant str + StrPartAll(items[i..]) == old(str) + StrPartAll(items)
        invariant lheads + HeadsAll(items[i..], |str|) == old(lheads) + HeadsAll(items, o)
        invariant lhsize + HeadsSize(HeadsAll(items[i..], |str|)) == old(lhsize) + HeadsSize(HeadsAll(items, o))
      {
        ghost var at := |str|;
        ghost var s0, hs0 := str, lheads;
        assert items[i..][1..] == items[i + 1..];
        PartsOf(items[i..], at);
        WriteItem(items[i]);
        ghost var rest := HeadsAll(items[i + 1..], |str|);
        HeadsSizeConcat(Heads(items[i], at), rest);
        Associate(s0, StrPart(items[i]), StrPartAll(items[i + 1..]));
        Associate(hs0, Heads(items[i], at), rest);
      }
      assert items[|items|..] == [];
      PartsOf([], |str|);
      NoHeads();
    }

    /** Both buffers merged into one slice of exactly the computed size. */
    method ToBytes() returns (out: array<u8>)
      requires Closed()
      ensures fresh(out) && out[..] == Bytes() && out.Length == Size()
    {
      hide ListHeader, Merge, Ordered, HeadsSize;
      out := new u8[Size()];
      MergeLength(str, lheads, 0);
      var strpos: nat, pos: nat := 0, 0;
      assert lheads[0..] == lheads;
      for i := 0 to |lheads|
        invariant strpos <= |str| && pos <= out.Length
        invariant Ordered(lheads[i..], strpos, |str|)
        invariant out[..pos] + Merge(str, lheads[i..], strpos) == Bytes()
      {
        var head := lheads[i];
        MergeFirst(str, lheads[i..], strpos);
        assert lheads[i..][1..] == lheads[i + 1..];
        ghost var rest := Merge(str, lheads[i + 1..], head.offset);
        var before := str[strpos..head.offset];
        Regroup(out[..pos], before, ListHeader(head.size), rest);
        var n;
        n, pos := PlaceHead(out, pos, before, head.size);
        strpos := strpos + n;
      }
      assert lheads[|lheads|..] == [];
      MergeLast(str, strpos);
      var k := CopyTo(out, pos, str[strpos..]);
      assert out[..] == out[..pos + k];
    }

    /** The same bytes piece by piece to a writer, up to its first failure. */
    method ToWriter(out: Sink) returns (ok: bool)
      requires Closed()
      modifies out
      ensures Sent(old(out.taken), old(out.room), out.taken, out.room, Bytes(), ok)
    {
      hide ListHeader, Merge, Ordered, HeadsSize, Sent;
      ghost var t0, r0 := out.taken, out.room;
      ghost var done: seq<u8> := [];
      SentNothing(t0, r0);
      var strpos: nat := 0;
      assert lheads[0..] == lheads;
      for i := 0 to |lheads|
        invariant strpos <= |str| && Ordered(lheads[i..], strpos, |str|)
        invariant Sent(t0, r0, out.taken, out.room, done, true)
        invariant done + Merge(str, lheads[i..], strpos) == Bytes()
      {
        var head := lheads[i];
        MergeFirst(str, lheads[i..], strpos);
        assert lheads[i..][1..] == lheads[i + 1..];
        ghost var rest := Merge(str, lheads[i + 1..], head.offset);
        var before := str[strpos..head.offset];
        Regroup(done, before, ListHeader(head.size), rest);
        ok := WriteHead(out, before, head.size, t0, r0, done);
        done := done + before + ListHeader(head.size);
        if !ok {
          SentFails(t0, r0, out.taken, out.room, done, rest);
          return;
        }
        strpos := head.offset;
      }
      assert lheads[|lheads|..] == [];
      MergeLast(str, strpos);
      ok := true;
      if strpos < |str| {
        ok := WriteNext(out, str[strpos..], t0, r0, done);
      } else {
        assert done + str[strpos..] == done;
      }
    }
  }

  lemma SentNothing(taken: seq<u8>, room: nat)
    ensures Sent(taken, room, taken, room, [], true)
  {
    assert taken + [] == taken;
  }

  /** One more piece to the writer, after done has gone out. */
  method WriteNext(out: Sink, p: seq<u8>, ghost t0: seq<u8>, ghost r0: nat, ghost done: seq<u8>) returns (ok: bool)
    requires Sent(t0, r0, out.taken, out.room, done, true)
    modifies out
    ensures Sent(t0, r0, out.taken, out.room, done + p, ok)
  {
    var n;
    n, ok := out.Write(p);
    SentThen(t0, r0, old(out.taken), old(out.room), out.taken, out.room, done, p, ok);
  }

  /** The payload bytes before a list header, if any, and the header. */
  method WriteHead(out: Sink, before: seq<u8>, size: nat, ghost t0: seq<u8>, ghost r0: nat, ghost done: seq<u8>)
    returns (ok: bool)
    requires size < MAX_SIZE && Sent(t0, r0, out.taken, out.room, done, true)
    modifies out
    ensures Sent(t0, r0, out.taken, out.room, done + before + ListHeader(size), ok)
  {
    hide Header, Sent;
    if |before| > 0 {
      ok := WriteNext(out, before, t0, r0, done);
      if !ok {
        SentFails(t0, r0, out.taken, out.room, done + before, ListHeader(size));
        return;
      }
    } else {
      assert done + before == done;
    }
    var enc := PutHead(0xC0, 0xF7, size);
    ok := WriteNext(out, enc, t0, r0, done + before);
  }

  /** An item written to an empty buffer. */
  lemma WrittenIsEncode(buf: EncBuf, item: Item)
    requires |Encode(item)| < MAX_SIZE
    requires buf.str == StrPart(item) && buf.lheads == Heads(item, 0) && buf.lhsize == HeadsSize(buf.lheads)
    ensures buf.Closed() && buf.Bytes() == Encode(item) && buf.Size() == |Encode(item)|
  {
    hide Encode, StrPart, Heads, Merge, Ordered, HeadsSize;
    MergeIsEncode(item);
    PartSizes(item, 0);
    HeadSizes(item, 0);
  }

  lemma {:induction false} HeadSizes(item: Item, o: nat)
    ensures forall h :: h in Heads(item, o) ==> h.size < |Encode(item)|
    decreases item
  {
    if item.List? {
      HeadSizesAll(item.items, o);
    }
  }

  lemma {:induction false} HeadSizesAll(items: seq<Item>, o: nat)
    ensures forall h :: h in HeadsAll(items, o) ==> h.size < |EncodeAll(items)|
    decreases items
  {
    hide Encode, Heads;
    if items != [] {
      HeadSizes(items[0], o);
      HeadSizesAll(items[1..], o + |StrPart(items[0])|);
    }
  }

  /** Encode to a byte slice: exactly the encoding of Appendix B. */
  method EncodeToBytes(item: Item) returns (out: array<u8>)
    requires |Encode(item)| < MAX_SIZE
    ensures fresh(out) && out[..] == Encode(item)
  {
    hide Encode, StrPart, Heads, HeadsSize;
    var eb := new EncBuf();
    eb.WriteItem(item);
    WrittenIsEncode(eb, item);
    out := eb.ToBytes();
  }

  /** Encode to a writer: the whole encoding, or the prefix the writer took. */
  method EncodeTo(w: Sink, item: Item) returns (ok: bool)
    requires |Encode(item)| < MAX_SIZE
    modifies w
    ensures Sent(old(w.taken), old(w.room), w.taken, w.room, Encode(item), ok)
  {
    hide Encode, StrPart, Heads, HeadsSize, Sent;
    var eb := new EncBuf();
    eb.WriteItem(item);
    WrittenIsEncode(eb, item);
    ok := eb.ToWriter(w);
  }

  // ---- the streaming reader

  class EncReader {
    var buf: EncBuf?
    var lhpos: nat
    var strpos: nat
    var piece: Option<seq<u8>>

    constructor (eb: EncBuf)
      requires eb.Closed()
      ensures Valid() && buf == eb && Rest() == eb.Bytes()
    {
      buf, lhpos, strpos, piece := eb, 0, 0, None;
      new;
      assert eb.lheads[0..] == eb.lheads;
    }

    ghost predicate Valid()
      reads this, buf
    {
      if buf == null then piece.None?
      else
        && buf.Closed() && lhpos <= |buf.lheads|
        && Ordered(buf.lheads[lhpos..], strpos, |buf.str|)
        && (piece.Some? ==> piece.value != [])
    }

    /** What the buffers still hold beyond the current piece. */
    ghost function Ahead(): (e: seq<u8>)
      requires Valid()
      reads this, buf
    {
      if buf == null then [] else Merge(buf.str, buf.lheads[lhpos..], strpos)
    }

    /** What is still to be read. */
    ghost function Rest(): (e: seq<u8>)
      requires Valid()
      reads this, buf
    {
      if piece.Some? then piece.value + Ahead() else Ahead()
    }

    /** The next piece, None at the end. */
    method Next() returns (p: Option<seq<u8>>)
      requires Valid()
      modifies `lhpos, `strpos
      ensures Valid()
      ensures p.None? ==> old(Rest()) == [] && Ahead() == [] && piece.None?
      ensures p.Some? ==> buf != null && p.value != [] && old(Rest()) == p.value + Ahead()
    {
      hide Header, Merge, Ordered, HeadsSize;
      if buf == null { return None; }
      if piece.Some? { return piece; }
      if lhpos < |buf.lheads| {
        var head := buf.lheads[lhpos];
        MergeFirst(buf.str, buf.lheads[lhpos..], strpos);
        assert buf.lheads[lhpos..][1..] == buf.lheads[lhpos + 1..];
        var sizebefore := head.offset - strpos;
        if sizebefore > 0 {
          p := Some(buf.str[strpos..head.offset]);
          SkipOrder(buf.str, buf.lheads[lhpos..], strpos);
          MergeSkip(buf.str, buf.lheads[lhpos..], strpos, head.offset);
          strpos := strpos + sizebefore;
        } else {
          assert buf.str[strpos..head.offset] == [];
          var enc := PutHead(0xC0, 0xF7, head.size);
          lhpos := lhpos + 1;
          p := Some(enc);
        }
      } else {
        assert buf.lheads[lhpos..] == [];
        MergeLast(buf.str, strpos) by { OrderedBound([], strpos, |buf.str|); }
        if strpos < |buf.str| {
          p := Some(buf.str[strpos..]);
          MergeLast(buf.str, |buf.str|);
          strpos := |buf.str|;
        } else {
          p := None;
        }
      }
    }

    /** Fills b with the bytes that come next. The end is reported by the call that
        delivers the last byte or finds nothing left, and by no earlier one. */
    method Read(b: array<u8>) returns (n: nat, eof: bool)
      requires Valid()
      modifies this, b
      ensures Valid()
      ensures n == if |old(Rest())| <= b.Length then |old(Rest())| else b.Length
      ensures b[..n] == old(Rest())[..n] && b[n..] == old(b[n..])
      ensures Rest() == old(Rest())[n..] && (buf == old(buf) || buf == null)
      ensures eof <==> |old(Rest())| <= b.Length
    {
      hide Valid, Rest;
      ghost var all := Rest();
      n, eof := 0, false;
      var more := true;
      while more
        invariant Valid() && n <= b.Length
        invariant b[..n] + Rest() == all
        invariant b[n..] == old(b[..])[n..] && (buf == old(buf) || buf == null)
        invariant !more ==> if eof then Rest() == [] else n == b.Length && Rest() != []
        decreases more, |Rest()|
      {
        n, more, eof := ReadPiece(b, n);
      }
      assert all[..n] == b[..n] && all[n..] == Rest();
    }

    /** Copies one piece, or what fits of it, after the first n bytes of b. */
    method ReadPiece(b: array<u8>, n: nat) returns (m: nat, more: bool, eof: bool)
      requires Valid() && n <= b.Length
      modifies this, b
      ensures Valid() && n <= m <= b.Length
      ensures b[..m] + Rest() == old(b[..n] + Rest())
      ensures b[m..] == old(b[m..]) && (buf == old(buf) || buf == null)
      ensures more ==> |Rest()| < |old(Rest())|
      ensures !more ==> if eof then Rest() == [] else m == b.Length && Rest() != []
    {
      hide Merge, Ordered, HeadsSize, EncBuf.Closed;
      ghost var got, rest := b[..n], Rest();
      var next := Next();
      piece := next;
      if piece.None? {
        buf := null;
        return n, false, true;
      }
      var p := piece.value;
      ghost var ahead := Ahead();
      var nn := CopyTo(b, n, p);
      PieceTaken(got, p, nn, ahead);
      m := n + nn;
      more, eof := nn == |p|, false;
      if nn < |p| {
        piece := Some(p[nn..]);
      } else {
        piece := None;
      }
    }
  }

  /** Encode to a reader, with the total size. */
  method EncodeToReader(item: Item) returns (size: nat, r: EncReader)
    requires |Encode(item)| < MAX_SIZE
    ensures fresh(r) && fresh(r.buf) && r.Valid() && r.Rest() == Encode(item) && size == |Encode(item)|
  {
    hide Encode, StrPart, Heads, HeadsSize;
    var eb := new EncBuf();
    eb.WriteItem(item);
    WrittenIsEncode(eb, item);
    size := eb.Size();
    r := new EncReader(eb);
  }

  function Take(s: seq<u8>, n: nat): (t: seq<u8>) { if n <= |s| then s[..n] else s }

  lemma TakeMore(s: seq<u8>, n: nat, k: nat)
    ensures |Take(s, n)| <= |s| && Take(s, n + k) == Take(s, n) + Take(s[|Take(s, n)|..], k)
    ensures |Take(s, n + k)| == |Take(s, n)| + |Take(s[|Take(s, n)|..], k)|
    ensures n + k >= |s| <==> k >= |s| - |Take(s, n)|
    ensures |Take(s, n + k)| <= |s|
    ensures s[|Take(s, n)|..][|Take(s[|Take(s, n)|..], k)|..] == s[|Take(s, n + k)|..]
  {}

  lemma TakeNone(s: seq<u8>)
    ensures Take(s, 0) == []
  {}

  lemma TotalNone()
    ensures Total([]) == 0
  {}

  lemma TotalNext(sizes: seq<nat>, i: nat)
    requires i < |sizes|
    ensures Total(sizes[..i + 1]) == Total(sizes[..i]) + sizes[i]
  {
    assert sizes[..i + 1][..i] == sizes[..i];
  }

  /** One read with a buffer of n bytes. */
  method ReadSome(r: EncReader, n: nat) returns (got: seq<u8>, eof: bool)
    requires r.Valid()
    modifies r
    ensures r.Valid() && (r.buf == old(r.buf) || r.buf == null)
    ensures got == Take(old(r.Rest()), n) && r.Rest() == old(r.Rest())[|got|..]
    ensures eof <==> |old(r.Rest())| <= n
  {
    hide EncReader.Valid, EncReader.Rest;
    var b := new u8[n];
    var k;
    k, eof := r.Read(b);
    got := b[..k];
  }

  /** Reading an encoding with buffers of any sizes gives its bytes in order, and the
      end is reported exactly by the reads that reach past the last byte. */
  method ReadInPieces(item: Item, sizes: seq<nat>) returns (all: seq<u8>, eofs: seq<bool>)
    requires |Encode(item)| < MAX_SIZE
    ensures all == Take(Encode(item), Total(sizes))
    ensures |eofs| == |sizes|
    ensures forall i :: 0 <= i < |sizes| ==> (eofs[i] <==> Total(sizes[..i + 1]) >= |Encode(item)|)
  {
    hide Encode, EncReader.Valid, EncReader.Rest, Total, Take;
    TotalNone();
    var size, r := EncodeToReader(item);
    ghost var e := r.Rest();
    all, eofs := [], [];
    assert sizes[..0] == [];
    TakeNone(e);
    for i := 0 to |sizes|
      invariant fresh(r) && (r.buf != null ==> fresh(r.buf)) && r.Valid()
      invariant all == Take(e, Total(sizes[..i])) && |all| <= |e| && r.Rest() == e[|all|..]
      invariant |eofs| == i
      invariant forall k :: 0 <= k < i ==> (eofs[k] <==> Total(sizes[..k + 1]) >= |e|)
    {
      TotalNext(sizes, i);
      TakeMore(e, Total(sizes[..i]), sizes[i]);
      var got, eof := ReadSome(r, sizes[i]);
      all := all + got;
      eofs := eofs + [eof];
    }
    assert sizes[..|sizes|] == sizes;
  }

  /** Taking n bytes of a piece leaves the whole unchanged. */
  lemma PieceTaken(got: seq<u8>, p: seq<u8>, n: nat, ahead: seq<u8>)
    requires n <= |p|
    ensures (got + p[..n]) + (p[n..] + ahead) == got + (p + ahead)
    ensures n == |p| ==> p[n..] + ahead == ahead
  {}

  /** The order still holds from the next header's own offset. */
  lemma SkipOrder(str: seq<u8>, hs: seq<ListHead>, pos: nat)
    requires hs != [] && Ordered(hs, pos, |str|)
    ensures Ordered(hs, hs[0].offset, |str|)
  {}

  /** Payload bytes and the header after them, copied into the output. */
  method PlaceHead(out: array<u8>, pos: nat, before: seq<u8>, size: nat) returns (n: nat, end: nat)
    requires size < MAX_SIZE && pos + |before| + |ListHeader(size)| <= out.Length
    modifies out
    ensures n == |before| && end == pos + |before| + |ListHeader(size)|
    ensures out[..end] == old(out[..pos]) + before + ListHeader(size)
  {
    hide Header;
    n := CopyTo(out, pos, before);
    var enc := PutHead(0xC0, 0xF7, size);
    var m := CopyTo(out, pos + n, enc);
    end := pos + n + m;
  }

  lemma LargeNumber(i: nat)
    requires i >= 128
    ensures !OwnEncoding(BigEndian(i))
  {
    BigEndianValue(i);
    if |BigEndian(i)| == 1 {
      assert BigEndian(i) == [BigEndian(i)[0]];
      OneByte(BigEndian(i)[0]);
    }
  }

  lemma NoHeads()
    ensures HeadsSize([]) == 0
  {}

  lemma StringParts(b: seq<u8>, o: nat)
    ensures |b| <= |Encode(Str(b))| && StrPart(Str(b)) == Encode(Str(b))
    ensures Heads(Str(b), o) == [] && HeadsSize([]) == 0
  {}

  lemma ListParts(items: seq<Item>, o: nat)
    ensures |EncodeAll(items)| <= |Encode(List(items))| && StrPart(List(items)) == StrPartAll(items)
    ensures |StrPartAll(items)| + HeadsSize(HeadsAll(items, o)) == |EncodeAll(items)|
    ensures var head := ListHead(o, |EncodeAll(items)|);
      && Heads(List(items), o) == [head] + HeadsAll(items, o)
      && HeadsSize(Heads(List(items), o)) == |ListHeader(head.size)| + HeadsSize(HeadsAll(items, o))
  {
    hide ListHeader;
    PartSizesAll(items, o);
    HeadsSizeConcat([ListHead(o, |EncodeAll(items)|)], HeadsAll(items, o));
  }

  lemma MergeFirst(str: seq<u8>, hs: seq<ListHead>, pos: nat)
    requires hs != [] && Ordered(hs, pos, |str|)
    ensures pos <= hs[0].offset <= |str| && Ordered(hs[1..], hs[0].offset, |str|)
    ensures Merge(str, hs, pos)
         == str[pos..hs[0].offset] + ListHeader(hs[0].size) + Merge(str, hs[1..], hs[0].offset)
  {
    OrderedBound(hs, pos, |str|);
  }

  lemma MergeLast(str: seq<u8>, pos: nat)
    requires pos <= |str|
    ensures Ordered([], pos, |str|) && Merge(str, [], pos) == str[pos..]
  {}
}
