/** The two-buffer encoder: payload bytes and list headers are kept apart, list sizes
    are filled in when a list closes, and the two are merged at the end. */
module RlpEncoder {
  import opened Bytes
  import opened RlpFormat

  /** A list header: where it goes in the payload bytes, and the size it announces
      (while the list is open, the header bytes written before it). */
  datatype ListHead = ListHead(offset: nat, size: nat)

  // ---- what an item leaves in the two buffers

  /** Everything except list headers. */
  function StrPart(item: Item): (s: seq<u8>)
    decreases item
  {
    match item
    case Str(_) => Encode(item)
    case List(items) => StrPartAll(items)
  }

  function StrPartAll(items: seq<Item>): (s: seq<u8>)
    decreases items
  {
    if items == [] then [] else StrPart(items[0]) + StrPartAll(items[1..])
  }

  /** The list headers of an item written at payload offset o. */
  function Heads(item: Item, o: nat): (hs: seq<ListHead>)
    decreases item
  {
    match item
    case Str(_) => []
    case List(items) => [ListHead(o, |EncodeAll(items)|)] + HeadsAll(items, o)
  }

  function HeadsAll(items: seq<Item>, o: nat): (hs: seq<ListHead>)
    decreases items
  {
    if items == [] then []
    else Heads(items[0], o) + HeadsAll(items[1..], o + |StrPart(items[0])|)
  }

  function HeadsSize(hs: seq<ListHead>): (n: nat) {
    if hs == [] then 0 else |ListHeader(hs[0].size)| + HeadsSize(hs[1..])
  }

  // ---- merging

  predicate Ordered(hs: seq<ListHead>, from: nat, to: nat) {
    if hs == [] then from <= to
    else from <= hs[0].offset && Ordered(hs[1..], hs[0].offset, to)
  }

  lemma {:induction false} OrderedBound(hs: seq<ListHead>, from: nat, to: nat)
    requires Ordered(hs, from, to)
    ensures from <= to && (hs != [] ==> hs[0].offset <= to)
  {
    if hs != [] {
      OrderedBound(hs[1..], hs[0].offset, to);
    }
  }

  /** The encoding from payload position pos on: each header at its offset. */
  function Merge(str: seq<u8>, hs: seq<ListHead>, pos: nat): (e: seq<u8>)
    requires Ordered(hs, pos, |str|)
    decreases |hs|
  {
    OrderedBound(hs, pos, |str|);
    if hs == [] then str[pos..]
    else str[pos..hs[0].offset] + ListHeader(hs[0].size) + Merge(str, hs[1..], hs[0].offset)
  }

  lemma {:induction false} MergeLength(str: seq<u8>, hs: seq<ListHead>, pos: nat)
    requires Ordered(hs, pos, |str|)
    ensures pos <= |str| && |Merge(str, hs, pos)| == |str| - pos + HeadsSize(hs)
    decreases |hs|
  {
    hide ListHeader;
    OrderedBound(hs, pos, |str|);
    if hs != [] {
      MergeLength(str, hs[1..], hs[0].offset);
    }
  }

  lemma Regroup<T>(p: seq<T>, b: seq<T>, h: seq<T>, m: seq<T>)
    ensures (p + b) + h + m == p + (b + h + m)
  {}

  lemma Cut<T>(s: seq<T>, i: nat, j: nat, k: nat)
    requires i <= j <= k <= |s|
    ensures s[i..k] == s[i..j] + s[j..k]
  {}

  /** Payload bytes before the next header come out as they are. */
  lemma MergeSkip(str: seq<u8>, hs: seq<ListHead>, pos: nat, to: nat)
    requires pos <= to && Ordered(hs, to, |str|)
    ensures to <= |str| && Ordered(hs, pos, |str|)
    ensures Merge(str, hs, pos) == str[pos..to] + Merge(str, hs, to)
  {
    hide ListHeader;
    OrderedBound(hs, to, |str|);
    if hs != [] {
      var next := hs[0].offset;
      Cut(str, pos, to, next);
      Regroup(str[pos..to], str[to..next], ListHeader(hs[0].size), Merge(str, hs[1..], next));
    } else {
      Cut(str, pos, to, |str|);
    }
  }

  /** A header stands before the payload that follows its offset. */
  lemma MergeHead(str: seq<u8>, head: ListHead, hs: seq<ListHead>)
    requires Ordered(hs, head.offset, |str|)
    ensures Ordered([head] + hs, head.offset, |str|)
    ensures Merge(str, [head] + hs, head.offset) == ListHeader(head.size) + Merge(str, hs, head.offset)
  {
    hide ListHeader;
    OrderedBound(hs, head.offset, |str|);
    assert ([head] + hs)[1..] == hs;
    assert str[head.offset..head.offset] == [];
  }

  /** An item's payload part stands in str at o. */
  predicate At(str: seq<u8>, o: nat, part: seq<u8>) {
    o + |part| <= |str| && str[o..o + |part|] == part
  }

  lemma AtSplit(str: seq<u8>, o: nat, a: seq<u8>, b: seq<u8>)
    requires At(str, o, a + b)
    ensures At(str, o, a) && At(str, o + |a|, b)
  {
    assert str[o..o + |a|] == str[o..o + |a + b|][..|a|];
    assert str[o + |a|..o + |a| + |b|] == str[o..o + |a + b|][|a|..];
  }

  lemma Associate<T>(a: seq<T>, b: seq<T>, c: seq<T>)
    ensures (a + b) + c == a + (b + c)
  {}

  lemma {:induction false} MergeItem(str: seq<u8>, item: Item, o: nat, hs: seq<ListHead>)
    requires At(str, o, StrPart(item)) && Ordered(hs, o + |StrPart(item)|, |str|)
    ensures Ordered(Heads(item, o) + hs, o, |str|)
    ensures Merge(str, Heads(item, o) + hs, o) == Encode(item) + Merge(str, hs, o + |StrPart(item)|)
    decreases item
  {
    hide ListHeader, StrHeader, Merge, Ordered;
    match item
    case Str(s) =>
      assert Heads(item, o) + hs == hs;
      MergeSkip(str, hs, o, o + |StrPart(item)|);
    case List(items) =>
      MergeItems(str, items, o, hs);
      var inner := HeadsAll(items, o);
      var head := ListHead(o, |EncodeAll(items)|);
      MergeHead(str, head, inner + hs);
      Associate([head], inner, hs);
      Associate(ListHeader(head.size), EncodeAll(items), Merge(str, hs, o + |StrPart(item)|));
  }

  /** What a row of items leaves, first item first. */
  lemma PartsOf(items: seq<Item>, o: nat)
    ensures items == [] ==> StrPartAll(items) == [] && HeadsAll(items, o) == [] && EncodeAll(items) == []
    ensures items != [] ==>
      && StrPartAll(items) == StrPart(items[0]) + StrPartAll(items[1..])
      && HeadsAll(items, o) == Heads(items[0], o) + HeadsAll(items[1..], o + |StrPart(items[0])|)
      && EncodeAll(items) == Encode(items[0]) + EncodeAll(items[1..])
  {}

  lemma {:induction false} MergeItems(str: seq<u8>, items: seq<Item>, o: nat, hs: seq<ListHead>)
    requires At(str, o, StrPartAll(items)) && Ordered(hs, o + |StrPartAll(items)|, |str|)
    ensures Ordered(HeadsAll(items, o) + hs, o, |str|)
    ensures Merge(str, HeadsAll(items, o) + hs, o) == EncodeAll(items) + Merge(str, hs, o + |StrPartAll(items)|)
    decreases items
  {
    hide Encode, Merge, Ordered, StrPart, Heads, At, StrPartAll, HeadsAll, EncodeAll;
    PartsOf(items, o);
    if items == [] {
      assert [] + hs == hs;
      assert [] + Merge(str, hs, o) == Merge(str, hs, o);
    } else {
      var first, rest := StrPart(items[0]), StrPartAll(items[1..]);
      var o1 := o + |first|;
      AtSplit(str, o, first, rest);
      MergeItems(str, items[1..], o1, hs);
      var later := HeadsAll(items[1..], o1);
      MergeItem(str, items[0], o, later + hs);
      Associate(Heads(items[0], o), later, hs);
      Associate(Encode(items[0]), EncodeAll(items[1..]), Merge(str, hs, o1 + |rest|));
    }
  }

  /** The two buffers of one item merge to its encoding. */
  lemma MergeIsEncode(item: Item)
    ensures Ordered(Heads(item, 0), 0, |StrPart(item)|)
    ensures Merge(StrPart(item), Heads(item, 0), 0) == Encode(item)
  {
    hide Merge;
    var s := StrPart(item);
    MergeItem(s, item, 0, []);
    assert Heads(item, 0) + [] == Heads(item, 0);
    assert Merge(s, [], |s|) == [] by { MergeLength(s, [], |s|); }
  }

  lemma {:induction false} HeadsSizeConcat(a: seq<ListHead>, b: seq<ListHead>)
    ensures HeadsSize(a + b) == HeadsSize(a) + HeadsSize(b)
  {
    hide ListHeader;
    if a == [] {
      assert a + b == b;
    } else {
      HeadsSizeConcat(a[1..], b);
      assert (a + b)[1..] == a[1..] + b;
    }
  }

  lemma {:induction false} PartSizes(item: Item, o: nat)
    ensures |StrPart(item)| + HeadsSize(Heads(item, o)) == |Encode(item)|
    decreases item
  {
    hide ListHeader, StrHeader;
    if item.List? {
      PartSizesAll(item.items, o);
      HeadsSizeConcat([ListHead(o, |EncodeAll(item.items)|)], HeadsAll(item.items, o));
    }
  }

  lemma {:induction false} PartSizesAll(items: seq<Item>, o: nat)
    ensures |StrPartAll(items)| + HeadsSize(HeadsAll(items, o)) == |EncodeAll(items)|
    decreases items
  {
    hide Encode;
    if items != [] {
      var o1 := o + |StrPart(items[0])|;
      PartSizes(items[0], o);
      PartSizesAll(items[1..], o1);
      HeadsSizeConcat(Heads(items[0], o), HeadsAll(items[1..], o1));
    }
  }

  // ---- numbers

  /** intsize: the bytes a number needs, at least one. */
  method IntSize(i: nat) returns (size: nat)
    ensures size == if i == 0 then 1 else |BigEndian(i)|
  {
    size := 1;
    var x: nat := i / 256;
    while x != 0
      invariant size + |BigEndian(x)| == if i == 0 then 1 else |BigEndian(i)|
      decreases x
    {
      x := x / 256;
      size := size + 1;
    }
  }

  /** byte(i >> 8*k), shifting eight bits at a time. */
  function Octet(i: nat, k: nat): (b: u8) { if k == 0 then i % 256 else Octet(i / 256, k - 1) }

  function Octets(i: nat, k: nat): (s: seq<u8>)
    ensures |s| == k
  {
    if k == 0 then [] else [Octet(i, k - 1)] + Octets(i, k - 1)
  }

  lemma {:induction false} OctetsShift(i: nat, k: nat)
    requires k > 0
    ensures Octets(i, k) == Octets(i / 256, k - 1) + [i % 256]
  {
    if k > 1 {
      OctetsShift(i, k - 1);
    }
  }

  lemma {:induction false} OctetsAreBigEndian(i: nat)
    ensures Octets(i, |BigEndian(i)|) == BigEndian(i)
  {
    if i > 0 {
      OctetsShift(i, |BigEndian(i)|);
      OctetsAreBigEndian(i / 256);
    }
  }

  lemma BigEndianWidth(i: nat, k: nat)
    requires Pow256(k) <= i < Pow256(k + 1)
    ensures BigEndian(i) == Octets(i, k + 1)
  {
    BigEndianLength(i, k);
    BigEndianLength(i, k + 1);
    OctetsAreBigEndian(i);
  }

  lemma Powers()
    ensures Pow256(0) == 1 && Pow256(1) == 0x100 && Pow256(2) == 0x1_0000 && Pow256(3) == 0x100_0000
    ensures Pow256(4) == 0x1_0000_0000 && Pow256(5) == 0x100_0000_0000 && Pow256(6) == 0x1_0000_0000_0000
    ensures Pow256(7) == 0x100_0000_0000_0000 && Pow256(8) == MAX_SIZE
  {
    assert Pow256(2) == 0x1_0000;
    assert Pow256(4) == 0x1_0000_0000;
    assert Pow256(6) == 0x1_0000_0000_0000;
  }

  /** putint: the shortest big-endian form, with one byte for zero. */
  method PutInt(i: nat) returns (b: seq<u8>)
    requires i < MAX_SIZE
    ensures b == if i == 0 then [0] else BigEndian(i)
  {
    hide Octet, BigEndian, Octets, Pow256;
    Powers();
    ghost var k: nat;
    if i < 0x100 {
      b := [i];
      k := 0;
    } else if i < 0x1_0000 {
      b := [Octet(i, 1), Octet(i, 0)];
      k := 1;
    } else if i < 0x100_0000 {
      b := [Octet(i, 2), Octet(i, 1), Octet(i, 0)];
      k := 2;
    } else if i < 0x1_0000_0000 {
      b := [Octet(i, 3), Octet(i, 2), Octet(i, 1), Octet(i, 0)];
      k := 3;
    } else if i < 0x100_0000_0000 {
      b := [Octet(i, 4), Octet(i, 3), Octet(i, 2), Octet(i, 1), Octet(i, 0)];
      k := 4;
    } else if i < 0x1_0000_0000_0000 {
      b := [Octet(i, 5), Octet(i, 4), Octet(i, 3), Octet(i, 2), Octet(i, 1), Octet(i, 0)];
      k := 5;
    } else if i < 0x100_0000_0000_0000 {
      b := [Octet(i, 6), Octet(i, 5), Octet(i, 4), Octet(i, 3), Octet(i, 2), Octet(i, 1), Octet(i, 0)];
      k := 6;
    } else {
      b := [Octet(i, 7), Octet(i, 6), Octet(i, 5), Octet(i, 4), Octet(i, 3), Octet(i, 2), Octet(i, 1), Octet(i, 0)];
      k := 7;
    }
    if i > 0 {
      assert Pow256(k) <= i < Pow256(k + 1);
      BigEndianWidth(i, k);
      OneOctet(i);
      OctetsUnrolled4(i);
      OctetsUnrolled(i);
    }
  }

  lemma OctetsCons(i: nat, k: nat)
    ensures Octets(i, 0) == [] && Octets(i, k + 1) == [Octet(i, k)] + Octets(i, k)
  {}

  lemma OctetsUnrolled4(i: nat)
    ensures Octets(i, 1) == [Octet(i, 0)]
    ensures Octets(i, 2) == [Octet(i, 1), Octet(i, 0)]
    ensures Octets(i, 3) == [Octet(i, 2), Octet(i, 1), Octet(i, 0)]
    ensures Octets(i, 4) == [Octet(i, 3), Octet(i, 2), Octet(i, 1), Octet(i, 0)]
  {
    hide Octets, Octet;
    OctetsCons(i, 0);
    OctetsCons(i, 1);
    OctetsCons(i, 2);
    OctetsCons(i, 3);
  }

  lemma OctetsUnrolled(i: nat)
    ensures Octets(i, 5) == [Octet(i, 4), Octet(i, 3), Octet(i, 2), Octet(i, 1), Octet(i, 0)]
    ensures Octets(i, 6) == [Octet(i, 5), Octet(i, 4), Octet(i, 3), Octet(i, 2), Octet(i, 1), Octet(i, 0)]
    ensures Octets(i, 7) ==
            [Octet(i, 6), Octet(i, 5), Octet(i, 4), Octet(i, 3), Octet(i, 2), Octet(i, 1), Octet(i, 0)]
    ensures Octets(i, 8) ==
            [Octet(i, 7), Octet(i, 6), Octet(i, 5), Octet(i, 4), Octet(i, 3), Octet(i, 2), Octet(i, 1), Octet(i, 0)]
  {
    hide Octets, Octet;
    OctetsUnrolled4(i);
    OctetsCons(i, 4);
    OctetsCons(i, 5);
    OctetsCons(i, 6);
    OctetsCons(i, 7);
  }

  lemma OneOctet(i: nat)
    ensures i < 256 ==> Octet(i, 0) == i
  {}
}
