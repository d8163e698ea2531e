/** Recursive length prefix encoding, Appendix B of the Ethereum Yellow Paper: items,
    their encoding, and a recursive-descent parser with the decoder's errors. */
module RlpFormat {
  import opened Bytes

  datatype Item = Str(bytes: seq<u8>) | List(items: seq<Item>)

  const MAX_SIZE: nat := 0x1_0000_0000_0000_0000

  // ---- big-endian numbers

  /** The shortest big-endian form; zero has no bytes. */
  function BigEndian(n: nat): (s: seq<u8>) {
    if n == 0 then [] else BigEndian(n / 256) + [n % 256]
  }

  function Pow256(k: nat): (p: nat)
    ensures p >= 1
  {
    if k == 0 then 1 else 256 * Pow256(k - 1)
  }

  lemma Pow8()
    ensures Pow256(8) == MAX_SIZE
  {
    assert Pow256(2) == 0x1_0000;
    assert Pow256(4) == 0x1_0000_0000;
    assert Pow256(6) == 0x1_0000_0000_0000;
  }

  lemma {:induction false} BigEndianValue(n: nat)
    ensures FromBigEndian(BigEndian(n)) == n
    ensures n > 0 ==> BigEndian(n) != [] && BigEndian(n)[0] != 0
  {
    if n > 0 {
      BigEndianValue(n / 256);
      var s := BigEndian(n);
      assert s[..|s| - 1] == BigEndian(n / 256);
    }
  }

  lemma Digits(v: nat, d: u8)
    ensures (256 * v + d) / 256 == v && (256 * v + d) % 256 == d
  {}

  lemma {:induction false} BigEndianUnique(s: seq<u8>)
    requires s == [] || s[0] != 0
    ensures BigEndian(FromBigEndian(s)) == s
  {
    if s != [] {
      var t := s[..|s| - 1];
      BigEndianUnique(t);
      var v := FromBigEndian(t);
      var d := s[|s| - 1];
      Digits(v, d);
      assert v == 0 ==> t == [];
      assert s == t + [d];
    }
  }

  lemma {:induction false} BigEndianLength(n: nat, k: nat)
    ensures |BigEndian(n)| <= k <==> n < Pow256(k)
  {
    if n > 0 && k > 0 {
      BigEndianLength(n / 256, k - 1);
    }
  }

  lemma {:induction false} ValueBound(s: seq<u8>)
    ensures FromBigEndian(s) < Pow256(|s|)
  {
    if s != [] {
      ValueBound(s[..|s| - 1]);
    }
  }

  // ---- encoding

  /** A string or list header for a payload of n bytes. */
  function Header(small: u8, large: u8, n: nat): (h: seq<u8>)
    ensures h != []
  {
    if n < 56 then [(small + n) % 256]
    else [(large + |BigEndian(n)|) % 256] + BigEndian(n)
  }

  function StrHeader(n: nat): (h: seq<u8>)
    ensures h != []
  { Header(0x80, 0xB7, n) }

  function ListHeader(n: nat): (h: seq<u8>)
    ensures h != []
  { Header(0xC0, 0xF7, n) }

  predicate OwnEncoding(s: seq<u8>) { |s| == 1 && s[0] < 0x80 }

  function Encode(item: Item): (e: seq<u8>)
    ensures e != []
    decreases item
  {
    match item
    case Str(s) => if OwnEncoding(s) then s else StrHeader(|s|) + s
    case List(items) => var payload := EncodeAll(items); ListHeader(|payload|) + payload
  }

  function EncodeAll(items: seq<Item>): (e: seq<u8>)
    decreases items
  {
    if items == [] then [] else Encode(items[0]) + EncodeAll(items[1..])
  }

  // ---- parsing

  datatype Error =
    | Eof | Eol | UnexpectedEof
    | ExpectedString | ExpectedList | CanonInt | CanonSize | ElemTooLarge | ValueTooLarge
    | MoreThanOneValue | NotInList | NotAtEol | UintOverflow

  datatype Result<T> = Ok(value: T) | Err(error: Error)

  datatype Kind = Byte | String | Lst

  /** A value's kind, the bytes its header takes, and the bytes of payload after it. */
  datatype Head = Head(kind: Kind, tag: nat, size: nat)

  /** A value runs past the bytes it may use: the enclosing list or the whole input. */
  function Overrun(nested: bool): (e: Error) { if nested then ElemTooLarge else ValueTooLarge }

  /** A number of k bytes at the start of a, without a leading zero byte. */
  function UintField(a: seq<u8>, k: nat, nested: bool): (r: Result<nat>) {
    if k == 0 then Ok(0)
    else if k > |a| then Err(Overrun(nested))
    else if k > 1 && a[0] == 0 then Err(CanonSize)
    else Ok(FromBigEndian(a[..k]))
  }

  /** A size field of k bytes: a short size must not be written this way. */
  function SizeField(a: seq<u8>, k: nat, nested: bool): (r: Result<nat>)
    ensures r.Ok? ==> k <= |a|
  {
    var r := UintField(a, k, nested);
    if r.Ok? && r.value < 56 then Err(CanonSize) else r
  }

  /** The header at the start of the bytes a that the value may use. */
  function ReadHead(a: seq<u8>, nested: bool): (r: Result<Head>)
    ensures r.Ok? ==> a != [] && r.value.tag <= |a|
    ensures r.Ok? ==> (r.value.kind.Byte? <==> a[0] < 0x80)
    ensures r.Ok? ==> 1 <= r.value.tag && (r.value.kind.Byte? ==> r.value.tag == 1 && r.value.size == 0)
  {
    if a == [] then Err(if nested then ElemTooLarge else Eof)
    else if a[0] < 0x80 then Ok(Head(Byte, 1, 0))
    else if a[0] < 0xB8 then Ok(Head(String, 1, a[0] - 0x80))
    else if a[0] < 0xC0 then
      var r := SizeField(a[1..], a[0] - 0xB7, nested);
      if r.Err? then Err(r.error) else Ok(Head(String, 1 + (a[0] - 0xB7), r.value))
    else if a[0] < 0xF8 then Ok(Head(Lst, 1, a[0] - 0xC0))
    else
      var r := SizeField(a[1..], a[0] - 0xF7, nested);
      if r.Err? then Err(r.error) else Ok(Head(Lst, 1 + (a[0] - 0xF7), r.value))
  }

  /** The header, and the payload it announces fits. */
  function NextHead(a: seq<u8>, nested: bool): (r: Result<Head>)
    ensures r.Ok? ==> a != [] && 1 <= r.value.tag && r.value.tag + r.value.size <= |a|
    ensures r.Ok? ==> (r.value.kind.Byte? ==> r.value.tag == 1 && r.value.size == 0 && a[0] < 0x80)
  {
    var r := ReadHead(a, nested);
    if r.Ok? && r.value.size > |a| - r.value.tag then Err(Overrun(nested)) else r
  }

  /** How many size bytes follow the first byte. */
  function SizeBytes(b: u8): (k: nat) {
    if 0xB8 <= b < 0xC0 then b - 0xB7 else if 0xF8 <= b then b - 0xF7 else 0
  }

  /** The size is written with more bytes than it needs, or needs none. */
  predicate Wasteful(a: seq<u8>) {
    a != [] && var k := SizeBytes(a[0]);
    0 < k < |a| && ((k > 1 && a[1] == 0) || FromBigEndian(a[1..1 + k]) < 56)
  }

  /** Which error a header gives: the end of the input, a wasteful size, or a value that
      runs past what it may use, the input at the top and the list inside one. */
  lemma HeadErrors(a: seq<u8>, nested: bool)
    ensures var r := NextHead(a, nested);
      && (r == Err(Eof) <==> a == [] && !nested)
      && (r == Err(CanonSize) <==> Wasteful(a))
      && (r.Err? && a != [] && !Wasteful(a) ==> r == Err(if nested then ElemTooLarge else ValueTooLarge))
      && (a == [] && nested ==> r == Err(ElemTooLarge))
  {
    hide FromBigEndian;
    if a != [] {
      var k := SizeBytes(a[0]);
      if 0 < k < |a| {
        assert a[1..][..k] == a[1..1 + k];
      }
    }
  }

  datatype Parsed = Parsed(item: Item, used: nat)

  function Parse(a: seq<u8>, nested: bool): (r: Result<Parsed>)
    ensures r.Ok? ==> 1 <= r.value.used <= |a|
    decreases |a|, 0
  {
    var h := NextHead(a, nested);
    if h.Err? then Err(h.error)
    else
      var Head(kind, tag, size) := h.value;
      var payload := a[tag..tag + size];
      match kind
      case Byte => Ok(Parsed(Str(a[..1]), 1))
      case String =>
        if OwnEncoding(payload) then Err(CanonSize) else Ok(Parsed(Str(payload), tag + size))
      case Lst =>
        var rest := ParseAll(payload);
        if rest.Err? then Err(rest.error) else Ok(Parsed(List(rest.value), tag + size))
  }

  function ParseAll(a: seq<u8>): (r: Result<seq<Item>>)
    decreases |a|, 1
  {
    if a == [] then Ok([])
    else
      var first := Parse(a, true);
      if first.Err? then Err(first.error)
      else
        var rest := ParseAll(a[first.value.used..]);
        if rest.Err? then rest else Ok([first.value.item] + rest.value)
  }

  /** Parsing, once the header is known. */
  lemma ParseByHead(a: seq<u8>, nested: bool)
    ensures var h := NextHead(a, nested); var p := Parse(a, nested);
      if h.Err? then p == Err(h.error)
      else
        var payload := a[h.value.tag..h.value.tag + h.value.size];
        var used := h.value.tag + h.value.size;
        match h.value.kind
        case Byte => p == Ok(Parsed(Str([a[0]]), used))
        case String => p == if OwnEncoding(payload) then Err(CanonSize) else Ok(Parsed(Str(payload), used))
        case Lst => var all := ParseAll(payload);
          p == if all.Err? then Err(all.error) else Ok(Parsed(List(all.value), used))
  {
    hide NextHead;
    if NextHead(a, nested).Ok? {
      assert a[..1] == [a[0]];
    }
  }

  /** One value and nothing after it. */
  function Decode(b: seq<u8>): (r: Result<Item>) {
    var p := Parse(b, false);
    if p.Err? then Err(p.error)
    else if p.value.used < |b| then Err(MoreThanOneValue)
    else Ok(p.value.item)
  }

  // ---- headers read back

  function Tagged(kind: Kind, n: nat): (h: seq<u8>)
    requires !kind.Byte?
    ensures h != []
  { if kind.String? then StrHeader(n) else ListHeader(n) }

  lemma ReadHeader(kind: Kind, n: nat, rest: seq<u8>, nested: bool)
    requires !kind.Byte? && n < MAX_SIZE
    ensures ReadHead(Tagged(kind, n) + rest, nested) == Ok(Head(kind, |Tagged(kind, n)|, n))
  {
    if n < 56 {
      assert (Tagged(kind, n) + rest)[0] == (if kind.String? then 0x80 else 0xC0) + n;
    } else {
      ReadLongHeader(kind, n, rest, nested);
    }
  }

  /** A long header carries its size in one to eight bytes. */
  lemma LongHeader(kind: Kind, n: nat)
    requires !kind.Byte? && 56 <= n < MAX_SIZE
    ensures 1 <= |BigEndian(n)| <= 8
    ensures Tagged(kind, n) == [(if kind.String? then 0xB7 else 0xF7) + |BigEndian(n)|] + BigEndian(n)
  {
    hide BigEndian, FromBigEndian, Pow256;
    Pow8();
    BigEndianLength(n, 8);
    BigEndianValue(n);
  }

  lemma ReadLongHeader(kind: Kind, n: nat, rest: seq<u8>, nested: bool)
    requires !kind.Byte? && 56 <= n < MAX_SIZE
    ensures ReadHead(Tagged(kind, n) + rest, nested) == Ok(Head(kind, |Tagged(kind, n)|, n))
  {
    hide BigEndian, FromBigEndian, SizeField, Tagged;
    var s, a := BigEndian(n), Tagged(kind, n) + rest;
    LongHeader(kind, n);
    ReadSize(n, rest, nested);
    assert a[1..] == s + rest;
  }

  lemma ReadSize(n: nat, rest: seq<u8>, nested: bool)
    requires 56 <= n < MAX_SIZE
    ensures BigEndian(n) != []
    ensures SizeField(BigEndian(n) + rest, |BigEndian(n)|, nested) == Ok(n)
  {
    hide BigEndian, FromBigEndian;
    BigEndianValue(n);
    var s := BigEndian(n);
    assert (s + rest)[..|s|] == s;
  }

  lemma SizeRead(a: seq<u8>, k: nat, nested: bool)
    requires k <= 8 && SizeField(a, k, nested).Ok?
    ensures var n := SizeField(a, k, nested).value; 56 <= n < MAX_SIZE && a[..k] == BigEndian(n)
  {
    hide BigEndian, FromBigEndian, Pow256;
    var s := a[..k];
    ValueBound(s);
    BigEndianLength(FromBigEndian(s), k);
    BigEndianLength(FromBigEndian(s), 8);
    Pow8();
    if |s| == 1 {
      assert s == [s[0]];
      OneByte(s[0]);
    }
    BigEndianUnique(s);
  }

  lemma HeaderRead(a: seq<u8>, nested: bool)
    requires ReadHead(a, nested).Ok?
    ensures var h := ReadHead(a, nested).value;
      h.size < MAX_SIZE && (!h.kind.Byte? ==> a[..h.tag] == Tagged(h.kind, h.size))
  {
    hide BigEndian, SizeField;
    var h := ReadHead(a, nested).value;
    if a[0] >= 0xB8 && (a[0] < 0xC0 || a[0] >= 0xF8) {
      SizeRead(a[1..], h.tag - 1, nested);
      LongHeader(h.kind, h.size);
      assert a[..h.tag] == [a[0]] + a[1..][..h.tag - 1];
    } else {
      assert a[..1] == [a[0]];
    }
  }

  lemma HeadOfString(s: seq<u8>, rest: seq<u8>, nested: bool)
    requires |s| < MAX_SIZE
    ensures var e := Encode(Str(s)); var h := NextHead(e + rest, nested);
      && h.Ok? && h.value.tag + h.value.size == |e|
      && if OwnEncoding(s) then h.value.kind == Byte && (e + rest)[..1] == s
         else h.value.kind == String && (e + rest)[h.value.tag..|e|] == s
  {
    hide StrHeader;
    var a := Encode(Str(s)) + rest;
    if OwnEncoding(s) {
      assert a[0] == s[0] && a[..1] == s;
    } else {
      hide ReadHead;
      ReadHeader(String, |s|, s + rest, nested);
      assert a == StrHeader(|s|) + (s + rest);
    }
  }

  lemma NextHeader(a: seq<u8>, nested: bool)
    requires NextHead(a, nested).Ok?
    ensures var h := NextHead(a, nested).value; h.kind.Byte? || a[..h.tag] == Tagged(h.kind, h.size)
  {
    hide ReadHead;
    HeaderRead(a, nested);
  }

  // ---- the parser inverts the encoding

  lemma {:induction false} ParseEncoded(item: Item, rest: seq<u8>, nested: bool)
    requires |Encode(item)| < MAX_SIZE
    ensures Parse(Encode(item) + rest, nested) == Ok(Parsed(item, |Encode(item)|))
    decreases item
  {
    hide ReadHead, StrHeader, ListHeader, ParseAll;
    var e := Encode(item);
    var a := e + rest;
    match item
    case Str(s) =>
      HeadOfString(s, rest, nested);
    case List(items) =>
      var payload := EncodeAll(items);
      ReadHeader(Lst, |payload|, payload + rest, nested);
      assert a == ListHeader(|payload|) + (payload + rest);
      assert a[|ListHeader(|payload|)|..|e|] == payload;
      ParseAllEncoded(items);
  }

  lemma {:induction false} ParseAllEncoded(items: seq<Item>)
    requires |EncodeAll(items)| < MAX_SIZE
    ensures ParseAll(EncodeAll(items)) == Ok(items)
    decreases items
  {
    if items != [] {
      var e, rest := Encode(items[0]), EncodeAll(items[1..]);
      ParseEncoded(items[0], rest, true);
      assert (e + rest)[|e|..] == rest;
      ParseAllEncoded(items[1..]);
      assert items == [items[0]] + items[1..];
    }
  }

  lemma {:induction false} ParsedIsEncoded(a: seq<u8>, nested: bool)
    requires Parse(a, nested).Ok?
    ensures var p := Parse(a, nested).value; a[..p.used] == Encode(p.item)
    decreases |a|, 0
  {
    hide Parse, ParseAll, NextHead, StrHeader, ListHeader;
    ParseByHead(a, nested);
    var h := NextHead(a, nested).value;
    NextHeader(a, nested);
    if h.kind.Byte? {
      assert a[..1] == [a[0]];
    } else {
      var payload := a[h.tag..h.tag + h.size];
      assert a[..h.tag + h.size] == a[..h.tag] + payload;
      if h.kind.Lst? {
        ParsedAllIsEncoded(payload);
      }
    }
  }

  lemma {:induction false} ParsedAllIsEncoded(a: seq<u8>)
    requires ParseAll(a).Ok?
    ensures EncodeAll(ParseAll(a).value) == a
    decreases |a|, 1
  {
    hide Parse, Encode;
    if a != [] {
      var p := Parse(a, true).value;
      ParsedIsEncoded(a, true);
      ParsedAllIsEncoded(a[p.used..]);
      var items := ParseAll(a).value;
      assert items[0] == p.item && items[1..] == ParseAll(a[p.used..]).value;
      assert a == a[..p.used] + a[p.used..];
    }
  }

  /** Decoding is a two-sided inverse of encoding: a byte string decodes to an item
      exactly when it is that item's one encoding. */
  lemma DecodeInverse(b: seq<u8>, item: Item)
    requires |b| < MAX_SIZE
    ensures Decode(b) == Ok(item) <==> b == Encode(item)
  {
    if Decode(b) == Ok(item) {
      ParsedIsEncoded(b, false);
      assert b[..|b|] == b;
    }
    if b == Encode(item) {
      ParseEncoded(item, [], false);
      assert b + [] == b;
    }
  }

  /** No encoding begins another: values can be told apart in a stream. */
  lemma PrefixFree(a: Item, b: Item, x: seq<u8>, y: seq<u8>)
    requires |Encode(a)| < MAX_SIZE && |Encode(b)| < MAX_SIZE
    requires Encode(a) + x == Encode(b) + y
    ensures a == b && x == y
  {
    ParseEncoded(a, x, false);
    ParseEncoded(b, y, false);
    assert x == (Encode(a) + x)[|Encode(a)|..];
    assert y == (Encode(b) + y)[|Encode(b)|..];
  }

  /** The complaint about trailing data is made exactly when a value ends early. */
  lemma TrailingData(b: seq<u8>)
    requires |b| < MAX_SIZE
    ensures Decode(b) == Err(MoreThanOneValue) <==>
            exists n :: 0 <= n < |b| && Decode(b[..n]).Ok?
  {
    hide Parse, Encode;
    var p := Parse(b, false);
    if p.Ok? {
      ParsedIsEncoded(b, false);
      var n := p.value.used;
      DecodeInverse(b[..n], p.value.item);
    }
    forall n | 0 <= n < |b| && Decode(b[..n]).Ok?
      ensures Decode(b) == Err(MoreThanOneValue)
    {
      var item := Decode(b[..n]).value;
      DecodeInverse(b[..n], item);
      ParseEncoded(item, b[n..], false);
      assert b == b[..n] + b[n..];
    }
    ErrorsOfParse(b, false);
  }

  /** The end-of-list signal and the complaint about trailing data are not errors of a value. */
  lemma {:induction false} ErrorsOfParse(a: seq<u8>, nested: bool)
    ensures Parse(a, nested).Err? ==> Parse(a, nested).error !in {MoreThanOneValue, Eol}
    decreases |a|, 0
  {
    var h := NextHead(a, nested);
    if h.Ok? && h.value.kind.Lst? {
      ErrorsOfParseAll(a[h.value.tag..h.value.tag + h.value.size]);
    }
  }

  lemma {:induction false} ErrorsOfParseAll(a: seq<u8>)
    ensures ParseAll(a).Err? ==> ParseAll(a).error !in {MoreThanOneValue, Eol}
    decreases |a|, 1
  {
    if a != [] {
      ErrorsOfParse(a, true);
      var p := Parse(a, true);
      if p.Ok? {
        ErrorsOfParseAll(a[p.value.used..]);
      }
    }
  }

  // ---- unsigned integers

  /** The number in a string of at most maxbits bits, and what is wrong with it. */
  function Number(kind: Kind, payload: seq<u8>, maxbits: nat): (r: Result<nat>)
    requires kind.Byte? ==> payload != []
  {
    match kind
    case Byte => if payload[0] == 0 then Err(CanonInt) else Ok(payload[0] as nat)
    case String =>
      if |payload| > maxbits / 8 then Err(UintOverflow)
      else if |payload| > 1 && payload[0] == 0 then Err(CanonInt)
      else if |payload| > 0 && FromBigEndian(payload) < 128 then Err(CanonSize)
      else Ok(FromBigEndian(payload))
    case Lst => Err(ExpectedString)
  }

  /** The integer at the start of a and the bytes it takes. */
  function ParseUint(a: seq<u8>, nested: bool, maxbits: nat): (r: Result<(nat, nat)>)
    ensures r.Ok? ==> 1 <= r.value.1 <= |a|
  {
    var h := NextHead(a, nested);
    if h.Err? then Err(h.error)
    else
      var used := h.value.tag + h.value.size;
      var v := Number(h.value.kind, if h.value.kind.Byte? then a[..1] else a[h.value.tag..used], maxbits);
      if v.Err? then Err(v.error) else Ok((v.value, used))
  }

  /** The encoding of a number: that of its shortest big-endian form. */
  function EncodeUint(v: nat): (e: seq<u8>)
    ensures e != []
  { Encode(Str(BigEndian(v))) }

  lemma SmallNumber(v: nat)
    requires 0 < v < 256
    ensures BigEndian(v) == [v]
  {
    assert BigEndian(v / 256) == [];
  }

  lemma OneByte(b: u8)
    ensures FromBigEndian([b]) == b
  {
    assert [b][..0] == [];
  }

  /** Numbers of at most maxbits bits are read exactly from their encodings. */
  lemma UintInverse(a: seq<u8>, nested: bool, maxbits: nat, v: nat, used: nat)
    requires 8 <= maxbits <= 64 && used <= |a|
    ensures ParseUint(a, nested, maxbits) == Ok((v, used)) <==>
            v < Pow256(maxbits / 8) && a[..used] == EncodeUint(v)
  {
    if ParseUint(a, nested, maxbits) == Ok((v, used)) {
      UintCanonical(a, nested, maxbits);
    }
    if v < Pow256(maxbits / 8) && a[..used] == EncodeUint(v) {
      UintAccepted(v, a[used..], nested, maxbits);
      assert a == a[..used] + a[used..];
    }
  }

  lemma UintCanonical(a: seq<u8>, nested: bool, maxbits: nat)
    requires maxbits >= 8 && ParseUint(a, nested, maxbits).Ok?
    ensures var r := ParseUint(a, nested, maxbits).value;
      r.0 < Pow256(maxbits / 8) && a[..r.1] == EncodeUint(r.0)
  {
    hide FromBigEndian, BigEndian, Pow256, ReadHead, Header;
    var h := NextHead(a, nested).value;
    var (v, used) := ParseUint(a, nested, maxbits).value;
    BigEndianLength(v, maxbits / 8);
    if h.kind.Byte? {
      SmallNumber(v);
      assert a[..1] == [a[0]];
    } else {
      HeaderRead(a, nested);
      var payload := a[h.tag..used];
      assert a[..used] == a[..h.tag] + payload;
      if |payload| == 1 {
        assert payload == [payload[0]];
        OneByte(payload[0]);
      }
      BigEndianUnique(payload);
    }
  }

  lemma UintAccepted(v: nat, rest: seq<u8>, nested: bool, maxbits: nat)
    requires 8 <= maxbits <= 64 && v < Pow256(maxbits / 8)
    ensures ParseUint(EncodeUint(v) + rest, nested, maxbits) == Ok((v, |EncodeUint(v)|))
  {
    hide FromBigEndian, BigEndian, Pow256, ParseUint;
    BigEndianLength(v, maxbits / 8);
    BigEndianValue(v);
    ZeroNumber();
    if 0 < v < 128 {
      SmallNumber(v);
    }
    StringNumber(BigEndian(v), rest, nested, maxbits);
  }

  /** A string without leading zeros, read as a number. */
  lemma StringNumber(s: seq<u8>, rest: seq<u8>, nested: bool, maxbits: nat)
    requires |s| <= maxbits / 8 <= 8 && (s != [] ==> s[0] != 0)
    requires s == [] || OwnEncoding(s) || FromBigEndian(s) >= 128
    ensures ParseUint(Encode(Str(s)) + rest, nested, maxbits) == Ok((FromBigEndian(s), |Encode(Str(s))|))
  {
    hide FromBigEndian, NextHead, Encode;
    HeadOfString(s, rest, nested);
    ZeroNumber();
    if OwnEncoding(s) {
      OneByte(s[0]);
      assert s == [s[0]];
    }
  }

  lemma ZeroNumber()
    ensures BigEndian(0) == [] && FromBigEndian([]) == 0
  {}
}
