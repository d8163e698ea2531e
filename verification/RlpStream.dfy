/** The stream decoder: a machine with a stack of list positions that parses an input
    of known length, and decodes it into an item. */
module RlpStream {
  import opened Bytes
  import opened RlpFormat
  import opened Text

  datatype ListPos = ListPos(pos: nat, size: nat)

  function Top(stack: seq<ListPos>): (t: ListPos)
    requires stack != []
  { stack[|stack| - 1] }

  /** n bytes of the innermost list have been used. */
  function Advance(stack: seq<ListPos>, n: nat): (r: seq<ListPos>)
    ensures |r| == |stack|
  {
    if stack == [] then []
    else stack[..|stack| - 1] + [ListPos(Top(stack).pos + n, Top(stack).size)]
  }

  /** The innermost list is closed and counts in its parent. */
  function Pop(stack: seq<ListPos>): (r: seq<ListPos>)
    requires stack != []
    ensures |r| == |stack| - 1
  {
    Advance(stack[..|stack| - 1], Top(stack).size)
  }

  /** Every open list ends within its parent, and the outermost within the input. */
  ghost predicate Fits(stack: seq<ListPos>, remaining: nat)
    decreases |stack|
  {
    stack == [] ||
    var left := Top(stack).size - Top(stack).pos;
    0 <= left <= remaining && Fits(Pop(stack), remaining - left)
  }

  /** What that means level by level. */
  lemma {:induction false} StackOrdered(stack: seq<ListPos>, remaining: nat)
    requires Fits(stack, remaining)
    ensures forall i :: 0 <= i < |stack| ==> stack[i].pos <= stack[i].size
    ensures forall i :: 0 <= i < |stack| - 1 ==> stack[i].pos + stack[i + 1].size <= stack[i].size
    decreases |stack|
  {
    if |stack| > 1 {
      var left := Top(stack).size - Top(stack).pos;
      var below := Pop(stack);
      StackOrdered(below, remaining - left);
      assert below[|stack| - 2].pos == stack[|stack| - 2].pos + Top(stack).size;
      forall i | 0 <= i < |stack| - 1
        ensures stack[i].pos <= stack[i].size
        ensures stack[i].pos + stack[i + 1].size <= stack[i].size
      {
        assert below[i].pos <= below[i].size;
        if i < |stack| - 2 {
          assert below[i].pos + below[i + 1].size <= below[i].size;
        }
      }
    }
  }

  lemma AdvancePop(stack: seq<ListPos>, n: nat)
    requires stack != []
    ensures Pop(Advance(stack, n)) == Pop(stack)
    ensures Top(Advance(stack, n)) == ListPos(Top(stack).pos + n, Top(stack).size)
  {
    assert Advance(stack, n)[..|stack| - 1] == stack[..|stack| - 1];
  }

  lemma PushPop(stack: seq<ListPos>, n: nat)
    ensures Top(stack + [ListPos(0, n)]) == ListPos(0, n)
    ensures Pop(stack + [ListPos(0, n)]) == Advance(stack, n)
  {
    assert (stack + [ListPos(0, n)])[..|stack|] == stack;
  }

  lemma AdvanceTwice(stack: seq<ListPos>, m: nat, n: nat)
    ensures Advance(Advance(stack, m), n) == Advance(stack, m + n)
  {
    if stack != [] {
      assert Advance(stack, m)[..|stack| - 1] == stack[..|stack| - 1];
    }
  }

  lemma AdvanceNone(stack: seq<ListPos>)
    ensures Advance(stack, 0) == stack
  {}

  /** Bytes the next value may use: the rest of the innermost list, or of the input. */
  function Room(stack: seq<ListPos>, remaining: nat): (n: int) {
    if stack == [] then remaining else Top(stack).size - Top(stack).pos
  }

  lemma RoomFits(stack: seq<ListPos>, remaining: nat)
    requires Fits(stack, remaining)
    ensures 0 <= Room(stack, remaining) <= remaining
  {}

  lemma FitsAdvance(stack: seq<ListPos>, remaining: nat, n: nat)
    requires Fits(stack, remaining) && n <= Room(stack, remaining)
    ensures n <= remaining && Fits(Advance(stack, n), remaining - n)
    ensures Room(Advance(stack, n), remaining - n) == Room(stack, remaining) - n
  {
    if stack != [] {
      AdvancePop(stack, n);
    }
  }

  lemma FitsPush(stack: seq<ListPos>, remaining: nat, n: nat)
    requires Fits(stack, remaining) && n <= Room(stack, remaining)
    ensures Fits(stack + [ListPos(0, n)], remaining)
  {
    FitsAdvance(stack, remaining, n);
    PushPop(stack, n);
  }

  ghost function UsableOf(input: seq<u8>, remaining: nat, stack: seq<ListPos>): (a: seq<u8>)
    requires remaining <= |input| && Fits(stack, remaining)
  {
    RoomFits(stack, remaining);
    input[..Room(stack, remaining)]
  }

  lemma UsableAfter(input: seq<u8>, remaining: nat, stack: seq<ListPos>, n: nat)
    requires remaining <= |input| && Fits(stack, remaining) && n <= |UsableOf(input, remaining, stack)|
    ensures n <= remaining && Fits(Advance(stack, n), remaining - n)
    ensures UsableOf(input[n..], remaining - n, Advance(stack, n)) == UsableOf(input, remaining, stack)[n..]
  {
    hide Fits;
    RoomFits(stack, remaining);
    FitsAdvance(stack, remaining, n);
  }

  class Stream {
    var input: seq<u8>
    var remaining: nat
    var limited: bool
    var kind: Option<Kind>
    var size: nat
    var byteval: u8
    var kinderr: Option<Error>
    var stack: seq<ListPos>

    /** A stream over b with its length as the limit. */
    constructor (b: seq<u8>)
      ensures Valid() && kind.None? && stack == [] && input == b && Usable() == b
    {
      input, remaining, limited := b, |b|, true;
      kind, size, byteval, kinderr, stack := None, 0, 0, None, [];
    }

    ghost predicate Valid()
      reads this
    {
      && limited && remaining <= |input| && Fits(stack, remaining)
      && (kind.Some? && kinderr.None? ==> size <= Room(stack, remaining))
      && (kind == Some(Byte) && kinderr.None? ==> size == 0 && byteval < 0x80)
    }

    /** The bytes the next value may use. */
    ghost function Usable(): (a: seq<u8>)
      requires Valid()
      reads this
    {
      UsableOf(input, remaining, stack)
    }

    /** n bytes have been read since the given state. */
    ghost predicate ReadFrom(input0: seq<u8>, remaining0: nat, stack0: seq<ListPos>, n: nat)
      reads this
    {
      && n <= |input0| && n <= remaining0
      && input == input0[n..] && remaining == remaining0 - n && stack == Advance(stack0, n)
    }

    /** willRead: charges n bytes to the innermost list and to the limit. */
    method WillRead(n: nat) returns (e: Option<Error>)
      requires Valid()
      modifies `kind, `stack, `remaining
      ensures kind.None?
      ensures n <= |old(Usable())| ==> e.None? && stack == Advance(old(stack), n) && remaining == old(remaining) - n
      ensures n > |old(Usable())| ==> e == Some(Overrun(stack != [])) && stack == old(stack) && remaining == old(remaining)
    {
      kind := None;
      if |stack| > 0 {
        var tos := stack[|stack| - 1];
        if n > tos.size - tos.pos { return Some(ElemTooLarge); }
        stack := stack[|stack| - 1 := ListPos(tos.pos + n, tos.size)];
      }
      if limited {
        if n > remaining { return Some(ValueTooLarge); }
        remaining := remaining - n;
      }
      return None;
    }

    method ReadByte() returns (r: Result<u8>)
      requires Valid()
      modifies `kind, `stack, `remaining, `input
      ensures kind.None? && |stack| == |old(stack)| && Valid()
      ensures var a := old(Usable());
        if a == [] then r == Err(Overrun(stack != []))
        else r == Ok(a[0]) && ReadFrom(old(input), old(remaining), old(stack), 1) && Usable() == a[1..]
    {
      hide Fits;
      FitsRoom(1);
      var e := WillRead(1);
      if e.Some? { return Err(e.value); }
      if input == [] { return Err(UnexpectedEof); }
      r := Ok(input[0]);
      input := input[1..];
    }

    /** What reading n bytes does to the room left. */
    lemma FitsRoom(n: nat)
      requires Valid()
      ensures 0 <= Room(stack, remaining) <= remaining
      ensures n <= |Usable()| ==> n <= remaining && Fits(Advance(stack, n), remaining - n)
      ensures n <= |Usable()| ==> Room(Advance(stack, n), remaining - n) == Room(stack, remaining) - n
    {
      RoomFits(stack, remaining);
      if n <= |Usable()| {
        FitsAdvance(stack, remaining, n);
      }
    }

    /** readFull: exactly n bytes. */
    method ReadFull(n: nat) returns (r: Result<seq<u8>>)
      requires Valid()
      modifies `kind, `stack, `remaining, `input
      ensures kind.None? && |stack| == |old(stack)| && Valid()
      ensures var a := old(Usable());
        if n > |a| then r == Err(Overrun(stack != []))
        else r == Ok(a[..n]) && ReadFrom(old(input), old(remaining), old(stack), n) && Usable() == a[n..]
    {
      hide Fits;
      FitsRoom(n);
      assert n <= |Usable()| ==> Usable()[..n] == input[..n];
      var e := WillRead(n);
      if e.Some? { return Err(e.value); }
      if n > |input| { return Err(UnexpectedEof); }
      r := Ok(input[..n]);
      input := input[n..];
    }

    /** readUint: a big-endian number of the given width, read through an eight-byte
        buffer whose leading bytes are zero. */
    method ReadUint(width: nat) returns (r: Result<nat>)
      requires Valid() && width <= 8
      modifies `kind, `stack, `remaining, `input
      ensures kind.None? && |stack| == |old(stack)| && Valid()
      ensures r == UintField(old(Usable()), width, stack != [])
      ensures r.Ok? ==> ReadFrom(old(input), old(remaining), old(stack), width)
      ensures r.Ok? ==> width <= |old(Usable())| && Usable() == old(Usable())[width..]
    {
      hide Fits;
      if width == 0 {
        AdvanceNone(stack);
        kind := None;
        return Ok(0);
      }
      if width == 1 {
        r := ReadOne();
        return;
      }
      var read := ReadFull(width);
      if read.Err? { return Err(read.error); }
      var start := 8 - width;
      var buf := seq(start, _ => 0) + read.value;
      if buf[start] == 0 { return Err(CanonSize); }
      ZeroPad(start, read.value);
      r := Ok(FromBigEndian(buf));
    }

    method ReadOne() returns (r: Result<nat>)
      requires Valid()
      modifies `kind, `stack, `remaining, `input
      ensures kind.None? && |stack| == |old(stack)| && Valid()
      ensures r == UintField(old(Usable()), 1, stack != [])
      ensures r.Ok? ==> ReadFrom(old(input), old(remaining), old(stack), 1)
      ensures r.Ok? ==> 1 <= |old(Usable())| && Usable() == old(Usable())[1..]
    {
      hide Fits;
      ghost var a := Usable();
      var b := ReadByte();
      if b.Err? { return Err(b.error); }
      OneByte(b.value);
      assert a[..1] == [b.value];
      r := Ok(b.value);
    }

    /** readKind: the header of the next value. */
    method ReadKind() returns (k: Kind, n: nat, e: Option<Error>)
      requires Valid()
      modifies `kind, `stack, `remaining, `input, `byteval
      ensures kind.None? && |stack| == |old(stack)| && Valid()
      ensures var a := old(Usable()); var h := ReadHead(a, stack != []);
        if h.Err? then e == Some(h.error)
        else
          && e.None? && k == h.value.kind && n == h.value.size
          && byteval == (if k == Byte then a[0] else 0)
          && ReadFrom(old(input), old(remaining), old(stack), h.value.tag) && Usable() == a[h.value.tag..]
    {
      hide Fits, UintField, SizeField, UsableOf, Room;
      ghost var a, stack0 := Usable(), stack;
      var first := ReadByte();
      if first.Err? {
        var err := first.error;
        if |stack| == 0 && (err == UnexpectedEof || err == ValueTooLarge) { err := Eof; }
        return Byte, 0, Some(err);
      }
      var b := first.value;
      byteval := 0;
      if b < 0x80 {
        byteval := b;
        return Byte, 0, None;
      }
      if b < 0xB8 { return String, b - 0x80, None; }
      if b < 0xC0 {
        n, e := ReadSize(b - 0xB7);
        AdvanceTwice(stack0, 1, b - 0xB7);
        return String, n, e;
      }
      if b < 0xF8 { return Lst, b - 0xC0, None; }
      n, e := ReadSize(b - 0xF7);
      AdvanceTwice(stack0, 1, b - 0xF7);
      return Lst, n, e;
    }

    /** A size field; sizes below 56 belong in the tag. */
    method ReadSize(width: nat) returns (n: nat, e: Option<Error>)
      requires Valid() && 1 <= width <= 8
      modifies `kind, `stack, `remaining, `input
      ensures kind.None? && |stack| == |old(stack)| && Valid()
      ensures var r := SizeField(old(Usable()), width, stack != []);
        if r.Err? then e == Some(r.error)
        else
          && e.None? && n == r.value
          && ReadFrom(old(input), old(remaining), old(stack), width) && Usable() == old(Usable())[width..]
    {
      hide Fits, UintField;
      var r := ReadUint(width);
      if r.Err? { return 0, Some(r.error); }
      n, e := r.value, None;
      if n < 56 { e := Some(CanonSize); }
    }

    ghost predicate AtEnd()
      reads this
    {
      stack != [] && Top(stack).pos == Top(stack).size
    }

    /** The next value: its header if that is still to be read, what is cached of it
        if it was, or the error that stuck. */
    ghost function Pending(): (r: Result<Head>)
      requires Valid()
      ensures r.Ok? ==> r.value.tag + r.value.size <= |Usable()|
      reads this
    {
      hide Fits;
      if kind.Some? then if kinderr.Some? then Err(kinderr.value) else Ok(Head(kind.value, 0, size))
      else if AtEnd() then Err(Eol)
      else NextHead(Usable(), stack != [])
    }

    /** The byte of a pending single-byte value. */
    ghost function PendingByte(): (b: u8)
      requires Valid() && Pending().Ok? && Pending().value.kind.Byte?
      reads this
    {
      if kind.Some? then byteval else Usable()[0]
    }

    /** Reads the header of the next value, once: later calls repeat the answer, an
        error included, until the value is consumed. */
    method Peek() returns (k: Kind, n: nat, e: Option<Error>)
      requires Valid()
      modifies `kind, `stack, `remaining, `input, `byteval, `size, `kinderr
      ensures Valid() && |stack| == |old(stack)|
      ensures var p := old(Pending());
        if p.Err? then e == Some(p.error) && (p.error == Eol || Pending() == p) && (kind.None? ==> p.error == Eol)
        else
          && e.None? && k == p.value.kind && n == p.value.size
          && Pending() == Ok(Head(k, 0, n)) && kind == Some(k) && kinderr.None?
          && (k == Byte ==> byteval == old(PendingByte()))
          && ReadFrom(old(input), old(remaining), old(stack), p.value.tag)
          && Usable() == old(Usable())[p.value.tag..]
      ensures old(kind.None? && AtEnd()) ==> kind.None? && stack == old(stack) && input == old(input)
      ensures old(kind.None? && AtEnd()) ==> remaining == old(remaining)
    {
      hide Fits, ReadHead;
      if kind.None? {
        kinderr := None;
        if |stack| > 0 && stack[|stack| - 1].pos == stack[|stack| - 1].size {
          return Byte, 0, Some(Eol);
        }
        var k1, n1, e1 := ReadKind();
        FitsRoom(0);
        kind, size, kinderr := Some(k1), n1, e1;
        if kinderr.None? {
          if |stack| == 0 {
            if limited && size > remaining { kinderr := Some(ValueTooLarge); }
          } else {
            var tos := stack[|stack| - 1];
            if size > tos.size - tos.pos { kinderr := Some(ElemTooLarge); }
          }
        }
      } else {
        AdvanceNone(stack);
      }
      return kind.value, size, kinderr;
    }

    /** The payload of the next value, wherever its header is. */
    ghost function PendingPayload(): (s: seq<u8>)
      requires Valid() && Pending().Ok?
      reads this
    {
      var h := Pending().value;
      Usable()[h.tag..h.tag + h.size]
    }

    /** Bytes: the contents of a string. */
    method Bytes() returns (r: Result<seq<u8>>)
      requires Valid()
      modifies this
      ensures Valid() && |stack| == |old(stack)|
      ensures var p := old(Pending());
        if p.Err? then r == Err(p.error)
        else match p.value.kind
        case Byte => r == Ok([old(PendingByte())])
        case String =>
          var s := old(PendingPayload());
          r == if OwnEncoding(s) then Err(CanonSize) else Ok(s)
        case Lst => r == Err(ExpectedString)
      ensures r.Ok? ==> kind.None? && old(Pending()).Ok?
      ensures r.Ok? ==> var used := old(Pending()).value.tag + old(Pending()).value.size;
        ReadFrom(old(input), old(remaining), old(stack), used) && Usable() == old(Usable())[used..]
    {
      hide Fits, NextHead, UsableOf, OwnEncoding, Room;
      ghost var a, stack0, p := Usable(), stack, Pending();
      UsableAfter(input, remaining, stack, if p.Ok? then p.value.tag + p.value.size else 0);
      var k, n, e := Peek();
      if e.Some? { return Err(e.value); }
      ghost var tag := p.value.tag;
      AdvanceTwice(stack0, tag, n);
      if k == Byte {
        kind := None;
        r := Ok([byteval]);
      } else if k == String {
        assert a[tag..][..n] == a[tag..tag + n];
        r := ReadString(n);
      } else {
        r := Err(ExpectedString);
      }
    }

    /** n bytes that must not be a single byte which encodes itself. */
    method ReadString(n: nat) returns (r: Result<seq<u8>>)
      requires Valid() && n <= |Usable()|
      modifies this
      ensures Valid() && |stack| == |old(stack)| && kind.None?
      ensures r == if OwnEncoding(old(Usable())[..n]) then Err(CanonSize) else Ok(old(Usable())[..n])
      ensures ReadFrom(old(input), old(remaining), old(stack), n)
    {
      hide Fits;
      r := ReadFull(n);
      if r.Ok? && n == 1 && r.value[0] < 128 {
        r := Err(CanonSize);
      }
    }

    /** List: enters a list. */
    method BeginList() returns (r: Result<nat>)
      requires Valid()
      modifies this
      ensures Valid()
      ensures var p := old(Pending());
        if p.Err? then r == Err(p.error)
        else if !p.value.kind.Lst? then r == Err(ExpectedList)
        else
          && r == Ok(p.value.size) && kind.None?
          && input == old(input)[p.value.tag..] && remaining == old(remaining) - p.value.tag
          && stack == Advance(old(stack), p.value.tag) + [ListPos(0, p.value.size)]
          && Usable() == old(PendingPayload())
    {
      hide Fits, NextHead;
      ghost var a := Usable();
      var k, n, e := Peek();
      if e.Some? { return Err(e.value); }
      if k != Lst { return Err(ExpectedList); }
      ghost var tag := old(Pending()).value.tag;
      assert a[tag..tag + n] == a[tag..][..n];
      Push(n);
      r := Ok(n);
    }

    method Push(n: nat)
      requires Valid() && n <= |Usable()|
      modifies `stack, `kind, `size
      ensures Valid() && kind.None? && stack == old(stack) + [ListPos(0, n)]
      ensures Usable() == old(Usable())[..n]
    {
      hide Fits;
      FitsRoom(n);
      FitsPush(stack, remaining, n);
      PushPop(stack, n);
      stack := stack + [ListPos(0, n)];
      kind := None;
      size := 0;
    }

    /** ListEnd: leaves a list that has been read to its end. */
    method EndList() returns (e: Option<Error>)
      requires Valid()
      modifies `stack, `kind, `size
      ensures Valid()
      ensures if old(stack) == [] then e == Some(NotInList)
              else if !old(AtEnd()) then e == Some(NotAtEol)
              else e.None? && stack == Pop(old(stack)) && kind.None?
      ensures e.Some? ==> stack == old(stack) && kind == old(kind) && size == old(size)
    {
      if |stack| == 0 { return Some(NotInList); }
      var tos := stack[|stack| - 1];
      if tos.pos != tos.size { return Some(NotAtEol); }
      stack := stack[..|stack| - 1];
      if |stack| > 0 {
        var parent := stack[|stack| - 1];
        stack := stack[|stack| - 1 := ListPos(parent.pos + tos.size, parent.size)];
      }
      kind := None;
      size := 0;
      assert stack == Pop(old(stack));
      return None;
    }

    /** uint: an integer of at most maxbits bits without leading zeros. */
    method Uint(maxbits: nat) returns (r: Result<nat>)
      requires Valid() && 8 <= maxbits <= 64
      modifies this
      ensures Valid()
      ensures var p := old(Pending());
        if p.Err? then r == Err(p.error)
        else if p.value.kind.Byte? then r == Number(Byte, [old(PendingByte())], maxbits)
        else r == Number(p.value.kind, old(PendingPayload()), maxbits)
      ensures r.Ok? ==> kind.None? && old(Pending()).Ok?
      ensures r.Ok? ==> var used := old(Pending()).value.tag + old(Pending()).value.size;
        ReadFrom(old(input), old(remaining), old(stack), used)
    {
      hide Fits, NextHead, FromBigEndian, UsableOf, Room;
      ghost var a, stack0, p := Usable(), stack, Pending();
      var k, n, e := Peek();
      if e.Some? { return Err(e.value); }
      ghost var tag := p.value.tag;
      AdvanceTwice(stack0, tag, n);
      if k == Byte {
        if byteval == 0 { return Err(CanonInt); }
        kind := None;
        r := Ok(byteval);
      } else if k == String {
        if n > maxbits / 8 { return Err(UintOverflow); }
        assert a[tag..][..n] == a[tag..tag + n];
        ZeroNumber();
        r := ReadUint(n);
        if r == Err(CanonSize) { return Err(CanonInt); }
        if r.Ok? && n > 0 && r.value < 128 { return Err(CanonSize); }
      } else {
        r := Err(ExpectedString);
      }
    }

    /** At the end of a list nothing more may be read. */
    lemma EndIsEmpty()
      requires Valid()
      ensures stack != [] ==> (AtEnd() <==> Usable() == [])
    {
      RoomFits(stack, remaining);
    }

    /** decodeInterface: the next value as an item; Eol at the end of a list. */
    method DecodeInterface() returns (r: Result<Item>)
      requires Valid() && kind.None?
      modifies this
      ensures Valid()
      ensures old(AtEnd()) ==> r == Err(Eol) && kind.None? && stack == old(stack) && input == old(input)
      ensures old(AtEnd()) ==> remaining == old(remaining)
      ensures !old(AtEnd()) ==> var p := Parse(old(Usable()), old(stack) != []);
        if p.Err? then r == Err(p.error)
        else
          && r == Ok(p.value.item) && kind.None?
          && ReadFrom(old(input), old(remaining), old(stack), p.value.used)
          && Usable() == old(Usable())[p.value.used..]
      decreases remaining, 0
    {
      hide Fits, NextHead, Parse, ParseAll, UsableOf, OwnEncoding;
      ghost var a, stack0 := Usable(), stack;
      ParseByHead(a, stack != []);
      var k, n, e := Peek();
      if e.Some? { return Err(e.value); }
      ghost var tag := old(Pending()).value.tag;
      AdvanceTwice(stack0, tag, n);
      assert a[tag..][..n] == a[tag..tag + n];
      AdvanceNone(stack);
      if k == Lst {
        var items := DecodeListSlice();
        if items.Err? { return Err(items.error); }
        r := Ok(List(items.value));
      } else {
        var b := Bytes();
        if b.Err? { return Err(b.error); }
        r := Ok(Str(b.value));
      }
    }

    /** decodeListSlice: all the values of a list. */
    method DecodeListSlice() returns (r: Result<seq<Item>>)
      requires Valid()
      modifies this
      ensures Valid()
      ensures var p := old(Pending());
        if p.Err? then r == Err(p.error)
        else if !p.value.kind.Lst? then r == Err(ExpectedList)
        else
          var all := ParseAll(old(PendingPayload()));
          var used := p.value.tag + p.value.size;
          if all.Err? then r == Err(all.error)
          else
            && r == Ok(all.value) && kind.None?
            && ReadFrom(old(input), old(remaining), old(stack), used)
            && Usable() == old(Usable())[used..]
      decreases remaining, 3
    {
      hide Fits, Parse, ParseAll, NextHead;
      ghost var stack0, p := stack, Pending();
      UsableAfter(input, remaining, stack, if p.Ok? then p.value.tag + p.value.size else 0);
      var begun := BeginList();
      if begun.Err? { return Err(begun.error); }
      ghost var tag, n := p.value.tag, p.value.size;
      AdvanceTwice(stack0, tag, n);
      r := DecodeToEnd(begun.value, Advance(stack0, tag));
    }

    /** The values of a list just entered, and out of it again. */
    method DecodeToEnd(n: nat, ghost outer: seq<ListPos>) returns (r: Result<seq<Item>>)
      requires Valid() && kind.None? && stack == outer + [ListPos(0, n)]
      modifies this
      ensures Valid()
      ensures var all := ParseAll(old(Usable()));
        if all.Err? then r == Err(all.error)
        else r == Ok(all.value) && kind.None? && ReadFrom(old(input), old(remaining), outer, n)
      decreases remaining, 2
    {
      hide Fits, Parse, ParseAll, NextHead;
      FitsRoom(0);
      ParseAllNone();
      ListDone(outer, n);
      if n == 0 {
        r := Ok([]);
      } else {
        r := DecodeSliceElems();
        if r.Err? { return; }
      }
      var e := EndList();
      r := Unless(e, r);
    }

    /** decodeSliceElems: values up to the end of the innermost list. */
    method DecodeSliceElems() returns (r: Result<seq<Item>>)
      requires Valid() && kind.None? && stack != []
      modifies this
      ensures Valid()
      ensures var a := old(Usable()); var p := ParseAll(a);
        if p.Err? then r == Err(p.error)
        else r == Ok(p.value) && kind.None? && ReadFrom(old(input), old(remaining), old(stack), |a|)
      decreases remaining, 1
    {
      hide Fits, Parse, ParseAll, NextHead, UsableOf, Room, Prepend;
      ghost var a, stack0 := Usable(), stack;
      ghost var done: nat := 0;
      AdvanceNone(stack);
      assert a[0..] == a;
      PrependNone(ParseAll(a));
      ParseAllNone();
      var items: seq<Item> := [];
      while true
        invariant Valid() && kind.None? && done <= |a|
        invariant ReadFrom(old(input), old(remaining), stack0, done)
        invariant Usable() == a[done..]
        invariant ParseAll(a) == Prepend(items, ParseAll(a[done..]))
        decreases remaining
      {
        EndIsEmpty();
        PrependDone(items, ParseAll(a[done..]));
        ErrorsOfParse(a[done..], true);
        ParseAllStep(a[done..]);
        ghost var p := Parse(a[done..], true);
        var elem := DecodeInterface();
        if elem.Err? {
          if elem.error == Eol {
            return Ok(items);
          }
          return Err(elem.error);
        }
        AdvanceTwice(stack0, done, p.value.used);
        assert a[done..][p.value.used..] == a[done + p.value.used..];
        PrependOne(items, p.value.item, ParseAll(a[done..][p.value.used..]));
        items := items + [elem.value];
        done := done + p.value.used;
      }
    }
  }

  function Prepend(items: seq<Item>, r: Result<seq<Item>>): (p: Result<seq<Item>>) {
    if r.Err? then r else Ok(items + r.value)
  }

  lemma PrependOne(items: seq<Item>, item: Item, r: Result<seq<Item>>)
    ensures Prepend(items, Prepend([item], r)) == Prepend(items + [item], r)
  {
    if r.Ok? {
      assert items + ([item] + r.value) == items + [item] + r.value;
    }
  }

  lemma PrependDone(items: seq<Item>, r: Result<seq<Item>>)
    ensures r == Ok([]) ==> Prepend(items, r) == Ok(items)
    ensures r.Err? ==> Prepend(items, r) == r
  {
    assert items + [] == items;
  }

  lemma PrependNone(r: Result<seq<Item>>)
    ensures Prepend([], r) == r
  {
    if r.Ok? {
      assert [] + r.value == r.value;
    }
  }

  /** The given result, unless an error came after it. */
  function Unless<T>(e: Option<Error>, r: Result<T>): (q: Result<T>) {
    match e case None => r case Some(x) => Err(x)
  }

  lemma ParseAllStep(a: seq<u8>)
    ensures a != [] ==> var first := Parse(a, true);
      ParseAll(a) == if first.Err? then Err(first.error)
                     else Prepend([first.value.item], ParseAll(a[first.value.used..]))
  {
    hide Parse;
  }

  lemma ParseAllNone()
    ensures ParseAll([]) == Ok([])
  {}

  /** A list that was entered, read to its end and left counts n bytes in its parent. */
  lemma ListDone(stack: seq<ListPos>, n: nat)
    ensures var inner := stack + [ListPos(0, n)];
      && Pop(Advance(inner, n)) == Advance(stack, n) && Top(Advance(inner, n)) == ListPos(n, n)
      && (n == 0 ==> Advance(inner, n) == inner)
  {
    AdvancePop(stack + [ListPos(0, n)], n);
    PushPop(stack, n);
  }

  /** Decode of an integer from a reader over b: the value and what is left unread. */
  method DecodeUintPrefix(b: seq<u8>, maxbits: nat) returns (r: Result<nat>, rest: seq<u8>)
    requires 8 <= maxbits <= 64
    ensures var p := ParseUint(b, false, maxbits);
      if p.Err? then r == Err(p.error) else r == Ok(p.value.0) && rest == b[p.value.1..]
  {
    hide NextHead, Number;
    var s := new Stream(b);
    r := s.Uint(maxbits);
    rest := s.input;
    assert b != [] ==> b[..1] == [b[0]];
  }

  /** An integer alone: accepted exactly when it is the encoding of the result and fits
      the width. */
  method DecodeUint(b: seq<u8>, maxbits: nat) returns (r: Result<nat>)
    requires 8 <= maxbits <= 64 && maxbits % 8 == 0
    ensures forall v: nat :: r == Ok(v) <==> v < Pow256(maxbits / 8) && EncodeUint(v) == b
  {
    hide ParseUint, EncodeUint, Pow256;
    var rest;
    r, rest := DecodeUintPrefix(b, maxbits);
    if r.Ok? && rest != [] {
      r := Err(MoreThanOneValue);
    }
    ghost var p := ParseUint(b, false, maxbits);
    forall v: nat
      ensures p == Ok((v, |b|)) <==> v < Pow256(maxbits / 8) && b == EncodeUint(v)
    {
      UintInverse(b, false, maxbits, v, |b|);
      assert b[..|b|] == b;
    }
  }

  /** DecodeBytes: one value and nothing after it. Accepted inputs are exactly the
      encodings, each giving the item it encodes. */
  method DecodeBytes(b: seq<u8>) returns (r: Result<Item>)
    requires |b| < MAX_SIZE
    ensures r == Decode(b)
    ensures forall item :: r == Ok(item) <==> b == Encode(item)
  {
    hide Encode, Parse;
    var s := new Stream(b);
    r := s.DecodeInterface();
    if r.Ok? && s.input != [] {
      r := Err(MoreThanOneValue);
    }
    forall item: Item
      ensures Decode(b) == Ok(item) <==> b == Encode(item)
    {
      DecodeInverse(b, item);
    }
  }

  lemma {:induction false} ZeroPad(n: nat, s: seq<u8>)
    ensures FromBigEndian(seq(n, _ => 0) + s) == FromBigEndian(s)
    decreases n + |s|
  {
    var z: seq<u8> := seq(n, _ => 0);
    var all := z + s;
    if s != [] {
      assert all[..|all| - 1] == z + s[..|s| - 1];
      ZeroPad(n, s[..|s| - 1]);
    } else if n > 0 {
      assert all[..|all| - 1] == seq(n - 1, _ => 0) + s;
      ZeroPad(n - 1, s);
    }
  }
}
