/** Splitting encoded bytes without decoding them. */
module RlpRaw {
  import opened Bytes
  import opened RlpFormat

  /** readSize: a size of one to eight bytes. */
  function ReadSize(b: seq<u8>, slen: nat): (r: Result<nat>)
    requires 1 <= slen <= 8
    ensures r.Ok? ==> slen <= |b|
  {
    if slen > |b| then Err(UnexpectedEof)
    else if FromBigEndian(b[..slen]) < 56 || b[0] == 0 then Err(CanonSize)
    else Ok(FromBigEndian(b[..slen]))
  }

  /** The code reads the byte after 0x81 without checking that there is one. */
  predicate Readable(buf: seq<u8>) { buf != [0x81] }

  /** readKind: the header of the first value; a single byte has no header at all. */
  function ReadKind(buf: seq<u8>): (r: Result<Head>)
    requires Readable(buf)
    ensures r.Ok? ==> r.value.tag + r.value.size <= |buf| && r.value.tag + r.value.size > 0
  {
    if buf == [] then Err(UnexpectedEof)
    else
      var b := buf[0];
      var r: Result<Head> :=
        if b < 0x80 then Ok(Head(Byte, 0, 1))
        else if b < 0xB8 then
          if b == 0x81 && buf[1] < 128 then Err(CanonSize) else Ok(Head(String, 1, b - 0x80))
        else if b < 0xC0 then
          var n := ReadSize(buf[1..], b - 0xB7);
          if n.Err? then Err(n.error) else Ok(Head(String, b - 0xB7 + 1, n.value))
        else if b < 0xF8 then Ok(Head(Lst, 1, b - 0xC0))
        else
          var n := ReadSize(buf[1..], b - 0xF7);
          if n.Err? then Err(n.error) else Ok(Head(Lst, b - 0xF7 + 1, n.value));
      if r.Ok? && r.value.size > |buf| - r.value.tag then Err(ValueTooLarge) else r
  }

  /** The two header readers accept the same values of a buffer, and split them alike. */
  lemma ReadersAgree(buf: seq<u8>)
    requires Readable(buf)
    ensures var k := ReadKind(buf); var h := NextHead(buf, false);
      (k.Ok? <==> h.Ok? && !(h.value.kind == String && OwnEncoding(buf[h.value.tag..h.value.tag + h.value.size])))
      && (k.Ok? ==> k.value == if h.value.kind == Byte then Head(Byte, 0, 1) else h.value)
  {
    if buf != [] && (0xB8 <= buf[0] < 0xC0 || buf[0] >= 0xF8) {
      var width := if buf[0] < 0xC0 then buf[0] - 0xB7 else buf[0] - 0xF7;
      SizesAgree(buf[1..], width);
    }
  }

  lemma SizesAgree(b: seq<u8>, width: nat)
    requires 1 <= width <= 8
    ensures var r := ReadSize(b, width); var q := SizeField(b, width, false);
      (r.Ok? <==> q.Ok?) && (r.Ok? ==> r.value == q.value)
  {
    if width == 1 && b != [] {
      assert b[..1] == [b[0]];
      OneByte(b[0]);
    }
  }

  /** Split: the content of the first value and what follows it. */
  method Split(b: seq<u8>) returns (r: Result<Kind>, content: seq<u8>, rest: seq<u8>)
    requires Readable(b)
    ensures var k := ReadKind(b);
      if k.Err? then r == Err(k.error) && content == [] && rest == b
      else
        && r == Ok(k.value.kind)
        && content == b[k.value.tag..k.value.tag + k.value.size] && b == b[..k.value.tag] + content + rest
  {
    hide ReadKind;
    var k := ReadKind(b);
    if k.Err? { return Err(k.error), [], b; }
    var end := k.value.tag + k.value.size;
    return Ok(k.value.kind), b[k.value.tag..end], b[end..];
  }

  // ---- what splitting and counting mean for encoded items

  function Content(item: Item): (c: seq<u8>) {
    match item
    case Str(s) => s
    case List(items) => EncodeAll(items)
  }

  function KindOf(item: Item): (k: Kind) {
    match item
    case Str(s) => if OwnEncoding(s) then Byte else String
    case List(_) => Lst
  }

  /** The first value of a buffer is found whatever follows it. */
  lemma KindOfEncoded(item: Item, rest: seq<u8>)
    requires |Encode(item)| < MAX_SIZE
    ensures Readable(Encode(item) + rest)
    ensures var a := Encode(item) + rest; var k := ReadKind(a);
      && k.Ok? && k.value.kind == KindOf(item) && k.value.tag + k.value.size == |Encode(item)|
      && a[k.value.tag..|Encode(item)|] == Content(item)
  {
    hide NextHead, ReadKind, Encode, ParseAll;
    var a := Encode(item) + rest;
    ParseEncoded(item, rest, false);
    ParseByHead(a, false);
    if a == [0x81] {
      Lone81();
    }
    ReadersAgree(a);
    ParsedIsEncoded(a, false);
    var h := NextHead(a, false).value;
    if h.kind == Lst {
      ParsedAllIsEncoded(a[h.tag..h.tag + h.size]);
    } else if h.kind == Byte {
      ByteHead(a);
    } else {
      assert !OwnEncoding(a[h.tag..h.tag + h.size]);
    }
  }

  lemma Lone81()
    ensures Parse([0x81], false).Err?
  {}

  lemma ByteHead(a: seq<u8>)
    requires NextHead(a, false).Ok? && NextHead(a, false).value.kind == Byte
    ensures a != [] && OwnEncoding([a[0]]) && a[0..1] == [a[0]]
  {}

  /** The values of b, one after the other, can all be read. */
  ghost predicate Countable(b: seq<u8>)
    decreases |b|
  {
    b == [] ||
    (Readable(b) && (ReadKind(b).Ok? ==> Countable(b[ReadKind(b).value.tag + ReadKind(b).value.size..])))
  }

  /** b is n values in a row, each with a proper header, read up to their end. */
  ghost predicate Framed(b: seq<u8>, n: nat)
    decreases |b|
  {
    if b == [] then n == 0
    else
      && Readable(b) && ReadKind(b).Ok? && n > 0
      && Framed(b[ReadKind(b).value.tag + ReadKind(b).value.size..], n - 1)
  }

  /** CountValues: n exactly when b is n values in a row, an error when it is no such row. */
  method CountValues(b: seq<u8>) returns (r: Result<nat>)
    requires Countable(b)
    ensures forall n: nat :: r == Ok(n) <==> Framed(b, n)
  {
    hide ReadKind;
    var i, rest := 0, b;
    while |rest| > 0
      invariant Countable(rest) && i >= 0
      invariant forall n: nat {:trigger Framed(rest, n)} :: Framed(rest, n) ==> Framed(b, n + i)
      invariant forall n: nat {:trigger Framed(b, n)} :: Framed(b, n) ==> n >= i && Framed(rest, n - i)
      decreases |rest|
    {
      var k := ReadKind(rest);
      if k.Err? { return Err(k.error); }
      ghost var was := rest;
      rest := rest[k.value.tag + k.value.size..];
      forall n: nat | Framed(rest, n)
        ensures Framed(b, n + i + 1)
      {
        assert Framed(was, n + 1);
      }
      i := i + 1;
    }
    assert Framed(rest, 0);
    return Ok(i);
  }

  /** A row of encodings is counted item by item. */
  lemma {:induction false} CountEncoded(items: seq<Item>)
    requires |EncodeAll(items)| < MAX_SIZE
    ensures Countable(EncodeAll(items)) && Framed(EncodeAll(items), |items|)
    decreases items
  {
    hide ReadKind, Encode;
    if items != [] {
      var e, rest := Encode(items[0]), EncodeAll(items[1..]);
      KindOfEncoded(items[0], rest);
      CountEncoded(items[1..]);
      assert (e + rest)[|e|..] == rest;
    }
  }
}
