/** Subprotocol negotiation: which protocol versions two peers share and which message
    codes each gets. Names stand for strings in their order. */
module Protocols {
  import opened Text

  const BASE_LENGTH: nat := 17

  datatype Cap = Cap(name: nat, version: nat)
  datatype Protocol = Protocol(name: nat, version: nat, length: nat)
  datatype Entry = Entry(name: nat, version: nat, length: nat, offset: nat)

  predicate AtMost(a: Cap, b: Cap) { a.name < b.name || (a.name == b.name && a.version <= b.version) }

  predicate Sorted(cs: seq<Cap>) {
    forall i, j :: 0 <= i < j < |cs| ==> AtMost(cs[i], cs[j])
  }

  /** Sorting by name and version. */
  method SortCaps(caps: seq<Cap>) returns (cs: seq<Cap>)
    ensures Sorted(cs) && multiset(cs) == multiset(caps)
  {
    cs := [];
    for i := 0 to |caps|
      invariant Sorted(cs) && multiset(cs) == multiset(caps[..i])
    {
      assert caps[..i + 1] == caps[..i] + [caps[i]];
      cs := Insert(cs, caps[i]);
    }
    assert caps[..|caps|] == caps;
  }

  method Insert(cs: seq<Cap>, c: Cap) returns (out: seq<Cap>)
    requires Sorted(cs)
    ensures Sorted(out) && multiset(out) == multiset(cs) + multiset{c}
  {
    var k := |cs|;
    while k > 0 && !AtMost(cs[k - 1], c)
      invariant 0 <= k <= |cs|
      invariant forall j :: k <= j < |cs| ==> AtMost(c, cs[j])
    {
      k := k - 1;
    }
    assert cs == cs[..k] + cs[k..];
    SortedInsert(cs, k, c);
    hide Sorted;
    out := cs[..k] + [c] + cs[k..];
  }

  lemma SortedInsert(cs: seq<Cap>, k: nat, c: Cap)
    requires Sorted(cs) && k <= |cs| && (k > 0 ==> AtMost(cs[k - 1], c))
    requires forall j :: k <= j < |cs| ==> AtMost(c, cs[j])
    ensures Sorted(cs[..k] + [c] + cs[k..])
  {
    var out := cs[..k] + [c] + cs[k..];
    forall i, j | 0 <= i < j < |out|
      ensures AtMost(out[i], out[j])
    {
      var x, y := out[i], out[j];
      assert i < k ==> x == cs[i];
      assert i > k ==> x == cs[i - 1];
      assert j < k ==> y == cs[j];
      assert j > k ==> y == cs[j - 1];
    }
  }

  // ---- the specification

  predicate Speaks(ps: seq<Protocol>, c: Cap) {
    exists i :: 0 <= i < |ps| && ps[i].name == c.name && ps[i].version == c.version
  }

  /** The length of the first protocol that matches. */
  function LengthOf(ps: seq<Protocol>, c: Cap): (n: nat)
    requires Speaks(ps, c)
  {
    if ps[0].name == c.name && ps[0].version == c.version then ps[0].length
    else assert Speaks(ps[1..], c) by { SpeaksLater(ps, c); } LengthOf(ps[1..], c)
  }

  /** The first with the name and the version of c stands at i. */
  predicate FirstAt(ps: seq<Protocol>, c: Cap, i: nat) {
    && i < |ps| && ps[i].name == c.name && ps[i].version == c.version
    && forall j :: 0 <= j < i ==> ps[j].name != c.name || ps[j].version != c.version
  }

  lemma {:induction false} LengthIs(ps: seq<Protocol>, c: Cap)
    requires Speaks(ps, c)
    ensures exists i: nat :: FirstAt(ps, c, i) && ps[i].length == LengthOf(ps, c)
    decreases |ps|
  {
    if ps[0].name == c.name && ps[0].version == c.version {
      assert FirstAt(ps, c, 0);
    } else {
      SpeaksLater(ps, c);
      LengthIs(ps[1..], c);
      var i: nat :| FirstAt(ps[1..], c, i) && ps[1..][i].length == LengthOf(ps[1..], c);
      assert forall j :: 0 < j < |ps| ==> ps[j] == ps[1..][j - 1];
      assert FirstAt(ps, c, i + 1);
    }
  }

  lemma SpeaksLater(ps: seq<Protocol>, c: Cap)
    requires Speaks(ps, c) && !(ps[0].name == c.name && ps[0].version == c.version)
    ensures Speaks(ps[1..], c)
  {
    var i :| 0 <= i < |ps| && ps[i].name == c.name && ps[i].version == c.version;
    assert ps[1..][i - 1] == ps[i];
  }

  function End(es: seq<Entry>): (n: nat) {
    if es == [] then BASE_LENGTH else es[|es| - 1].offset + es[|es| - 1].length
  }

  /** One more capability: a later version takes over the range of an earlier one. */
  function Place(es: seq<Entry>, c: Cap, length: nat): (r: seq<Entry>) {
    if es != [] && es[|es| - 1].name == c.name
    then es[..|es| - 1] + [Entry(c.name, c.version, length, es[|es| - 1].offset)]
    else es + [Entry(c.name, c.version, length, End(es))]
  }

  function Match(ps: seq<Protocol>, cs: seq<Cap>): (es: seq<Entry>) {
    if cs == [] then []
    else
      var before, c := Match(ps, cs[..|cs| - 1]), cs[|cs| - 1];
      if Speaks(ps, c) then Place(before, c, LengthOf(ps, c)) else before
  }

  /** Names ascend, and ranges follow one another from the base length on. */
  predicate Contiguous(es: seq<Entry>) {
    && (forall i, j :: 0 <= i < j < |es| ==> es[i].name < es[j].name)
    && forall i :: 0 <= i < |es| ==> es[i].offset == End(es[..i])
  }

  /** An entry is the highest version of its name that both sides speak. */
  predicate Highest(ps: seq<Protocol>, cs: seq<Cap>, e: Entry) {
    && Cap(e.name, e.version) in cs && Speaks(ps, Cap(e.name, e.version))
    && e.length == LengthOf(ps, Cap(e.name, e.version))
    && forall c :: c in cs && c.name == e.name && Speaks(ps, c) ==> c.version <= e.version
  }

  /** The whole meaning of a match: every shared name is there, in its highest version. */
  ghost predicate Negotiated(ps: seq<Protocol>, cs: seq<Cap>, es: seq<Entry>) {
    && Contiguous(es)
    && (forall i :: 0 <= i < |es| ==> Highest(ps, cs, es[i]))
    && (forall c :: c in cs && Speaks(ps, c) ==> exists i :: 0 <= i < |es| && es[i].name == c.name)
  }

  lemma {:induction false} MatchNegotiated(ps: seq<Protocol>, cs: seq<Cap>)
    requires Sorted(cs)
    ensures Negotiated(ps, cs, Match(ps, cs))
    decreases |cs|
  {
    if cs != [] {
      var k := |cs| - 1;
      var before, c := cs[..k], cs[k];
      MatchNegotiated(ps, before);
      var es := Match(ps, before);
      assert cs == before + [c];
      if Speaks(ps, c) {
        PlaceNegotiated(ps, before, es, c);
      } else {
        SkipNegotiated(ps, before, es, c);
      }
    }
  }

  /** The last capability so far is at most c, and so are the names placed. */
  lemma NamesAtMost(ps: seq<Protocol>, before: seq<Cap>, es: seq<Entry>, c: Cap)
    requires Sorted(before + [c]) && forall i :: 0 <= i < |es| ==> Highest(ps, before, es[i])
    ensures forall i :: 0 <= i < |es| ==> es[i].name <= c.name && (es[i].name == c.name ==> es[i].version <= c.version)
    ensures forall x :: x in before ==> AtMost(x, c)
  {
    var all := before + [c];
    forall x | x in before
      ensures AtMost(x, c)
    {
      var i :| 0 <= i < |before| && before[i] == x;
      assert AtMost(all[i], all[|before|]);
    }
    forall i | 0 <= i < |es|
      ensures AtMost(Cap(es[i].name, es[i].version), c)
    {
      assert Highest(ps, before, es[i]);
    }
  }

  /** The kept entries, then the new one where they end. */
  lemma PlaceShape(es: seq<Entry>, c: Cap, length: nat)
    requires Contiguous(es)
    ensures var r := Place(es, c, length); var m := |r| - 1;
      && 0 <= m <= |es| && r == es[..m] + [Entry(c.name, c.version, length, End(es[..m]))]
      && (m < |es| ==> m == |es| - 1 && es[m].name == c.name)
      && (m == |es| && m > 0 ==> es[m - 1].name != c.name)
  {
    assert es[..|es|] == es;
  }

  lemma PlaceContiguous(es: seq<Entry>, c: Cap, length: nat)
    requires Contiguous(es) && forall i :: 0 <= i < |es| ==> es[i].name <= c.name
    ensures Contiguous(Place(es, c, length))
    ensures var r := Place(es, c, length); forall i :: 0 <= i < |r| - 1 ==> r[i].name < c.name
  {
    PlaceShape(es, c, length);
    hide Place;
    var r := Place(es, c, length);
    var m := |r| - 1;
    forall i | 0 <= i < m
      ensures r[i] == es[i] && r[i].name < c.name
    {
      assert i < |es| - 1 ==> es[i].name < es[|es| - 1].name;
    }
    forall i | 0 <= i < |r|
      ensures r[i].offset == End(r[..i])
    {
      assert r[..i] == es[..i];
    }
  }

  lemma HighestLater(ps: seq<Protocol>, before: seq<Cap>, c: Cap, e: Entry)
    requires Highest(ps, before, e) && (e.name != c.name || !Speaks(ps, c) || c.version <= e.version)
    ensures Highest(ps, before + [c], e)
  {}

  /** The newest capability is the highest of its name. */
  lemma HighestNow(ps: seq<Protocol>, before: seq<Cap>, c: Cap, offset: nat)
    requires Speaks(ps, c) && forall x :: x in before ==> AtMost(x, c)
    ensures Highest(ps, before + [c], Entry(c.name, c.version, LengthOf(ps, c), offset))
  {
    assert (before + [c])[|before|] == c;
  }

  lemma PlaceNegotiated(ps: seq<Protocol>, before: seq<Cap>, es: seq<Entry>, c: Cap)
    requires Sorted(before + [c]) && Negotiated(ps, before, es) && Speaks(ps, c)
    ensures Negotiated(ps, before + [c], Place(es, c, LengthOf(ps, c)))
  {
    hide Place, Highest, Contiguous, Speaks, LengthOf, Sorted, End;
    NamesAtMost(ps, before, es, c);
    var length := LengthOf(ps, c);
    var r := Place(es, c, length);
    PlaceShape(es, c, length);
    PlaceContiguous(es, c, length);
    var m := |r| - 1;
    HighestNow(ps, before, c, End(es[..m]));
    assert forall i :: 0 <= i < m ==> r[i] == es[i];
    PlaceHighest(ps, before, es, c, m, r[m]);
    PlaceCovers(ps, before, es, c, m, r[m]);
  }

  lemma PlaceHighest(ps: seq<Protocol>, before: seq<Cap>, es: seq<Entry>, c: Cap, m: nat, e: Entry)
    requires m <= |es| && Highest(ps, before + [c], e)
    requires forall i :: 0 <= i < |es| ==> Highest(ps, before, es[i])
    requires forall i :: 0 <= i < m ==> es[i].name < c.name
    ensures forall i :: 0 <= i <= m ==> Highest(ps, before + [c], (es[..m] + [e])[i])
  {
    hide Highest;
    forall i | 0 <= i < m
      ensures Highest(ps, before + [c], es[i])
    {
      HighestLater(ps, before, c, es[i]);
    }
  }

  lemma PlaceCovers(ps: seq<Protocol>, before: seq<Cap>, es: seq<Entry>, c: Cap, m: nat, e: Entry)
    requires m <= |es| && e.name == c.name && forall i :: m <= i < |es| ==> es[i].name == c.name
    requires forall x :: x in before && Speaks(ps, x) ==> exists i :: 0 <= i < |es| && es[i].name == x.name
    ensures var r := es[..m] + [e];
      forall x :: x in before + [c] && Speaks(ps, x) ==> exists i :: 0 <= i < |r| && r[i].name == x.name
  {
    hide Speaks;
    var r := es[..m] + [e];
    forall x | x in before + [c] && Speaks(ps, x)
      ensures exists i :: 0 <= i < |r| && r[i].name == x.name
    {
      if x.name == c.name {
        assert r[m].name == x.name;
      } else {
        assert x in before;
        var i :| 0 <= i < |es| && es[i].name == x.name;
        assert r[i].name == x.name;
      }
    }
  }

  lemma SkipNegotiated(ps: seq<Protocol>, before: seq<Cap>, es: seq<Entry>, c: Cap)
    requires Negotiated(ps, before, es) && !Speaks(ps, c)
    ensures Negotiated(ps, before + [c], es)
  {
    forall i | 0 <= i < |es|
      ensures Highest(ps, before + [c], es[i])
    {
      HighestLater(ps, before, c, es[i]);
    }
  }

  // ---- matchProtocols

  /** The map from names holds exactly the entries. */
  ghost predicate Holds(m: map<nat, Entry>, es: seq<Entry>) {
    && (forall k :: 0 <= k < |es| ==> es[k].name in m && m[es[k].name] == es[k])
    && (forall n :: n in m ==> m[n] in es && m[n].name == n)
  }

  method FindLength(ps: seq<Protocol>, c: Cap) returns (r: Option<nat>)
    ensures r == if Speaks(ps, c) then Some(LengthOf(ps, c)) else None
  {
    for i := 0 to |ps|
      invariant forall k :: 0 <= k < i ==> !(ps[k].name == c.name && ps[k].version == c.version)
      invariant Speaks(ps, c) <==> Speaks(ps[i..], c)
      invariant Speaks(ps, c) ==> LengthOf(ps, c) == LengthOf(ps[i..], c)
    {
      assert ps[i] == ps[i..][0];
      assert ps[i..][1..] == ps[i + 1..];
      if ps[i].name == c.name && ps[i].version == c.version { return Some(ps[i].length); }
      if Speaks(ps[i..], c) { SpeaksLater(ps[i..], c); }
    }
    return None;
  }

  /** The old entry of a name, if any, is the last one. */
  lemma LastOfName(es: seq<Entry>, m: map<nat, Entry>, c: Cap)
    requires Contiguous(es) && Holds(m, es) && forall i :: 0 <= i < |es| ==> es[i].name <= c.name
    ensures c.name in m <==> es != [] && es[|es| - 1].name == c.name
    ensures c.name in m ==> m[c.name] == es[|es| - 1]
  {
    if c.name in m {
      var k :| 0 <= k < |es| && es[k] == m[c.name];
      assert k < |es| - 1 ==> es[k].name < es[|es| - 1].name;
    }
  }

  lemma HoldsPlace(es: seq<Entry>, m: map<nat, Entry>, c: Cap, length: nat)
    requires Contiguous(es) && Holds(m, es) && forall i :: 0 <= i < |es| ==> es[i].name <= c.name
    ensures var r := Place(es, c, length); Holds(m[c.name := r[|r| - 1]], r)
  {
    hide Place, Contiguous, Holds, End;
    PlaceShape(es, c, length);
    PlaceContiguous(es, c, length);
    var r := Place(es, c, length);
    var k := |r| - 1;
    assert forall i :: 0 <= i < k ==> r[i] == es[i];
    HoldsKept(es, m, k, r[k]);
  }

  lemma HoldsKept(es: seq<Entry>, m: map<nat, Entry>, k: nat, e: Entry)
    requires Holds(m, es) && k <= |es|
    requires forall i :: 0 <= i < k ==> es[i].name != e.name
    requires forall i :: k <= i < |es| ==> es[i].name == e.name
    ensures Holds(m[e.name := e], es[..k] + [e])
  {
    var r, m1 := es[..k] + [e], m[e.name := e];
    assert r[k] == e;
    forall n | n in m1
      ensures m1[n] in r && m1[n].name == n
    {
      if n != e.name {
        var i :| 0 <= i < |es| && es[i] == m[n];
        assert i < k && r[i] == es[i];
      }
    }
    assert forall i :: 0 <= i < k ==> r[i] == es[i];
  }

  method MatchProtocols(ps: seq<Protocol>, caps: seq<Cap>) returns (result: map<nat, Entry>, ghost es: seq<Entry>)
    ensures Negotiated(ps, caps, es) && Holds(result, es)
    ensures forall c :: c in caps && Speaks(ps, c) ==> c.name in result
    ensures forall n :: n in result ==> result[n].name == n && Highest(ps, caps, result[n])
    ensures forall n :: n in result ==> BASE_LENGTH <= result[n].offset
    ensures forall n, m :: n in result && m in result && n < m ==>
      result[n].offset + result[n].length <= result[m].offset
  {
    hide Negotiated, Holds, Speaks, Highest, Sorted;
    var cs := SortCaps(caps);
    result, es := MatchSorted(ps, cs);
    SameMembers(cs, caps);
    SameNegotiated(ps, cs, caps, es);
    ResultLayout(ps, caps, result, es);
  }

  method MatchSorted(ps: seq<Protocol>, cs: seq<Cap>) returns (result: map<nat, Entry>, ghost es: seq<Entry>)
    requires Sorted(cs)
    ensures Negotiated(ps, cs, es) && Holds(result, es)
  {
    var offset := BASE_LENGTH;
    result, es := map[], [];
    for i := 0 to |cs|
      invariant es == Match(ps, cs[..i]) && offset == End(es) && Holds(result, es)
    {
      ghost var before, c0 := cs[..i], cs[i];
      assert cs[..i + 1] == before + [c0] && cs[..i + 1][..i] == before;
      SortedPrefix(cs, i);
      MatchNegotiated(ps, before);
      var next, at := Assign(ps, cs[i], result, offset, before, es);
      es := Match(ps, cs[..i + 1]);
      result, offset := next, at;
    }
    assert cs[..|cs|] == cs;
    MatchNegotiated(ps, cs);
  }

  lemma InOrder(es: seq<Entry>, i: nat, j: nat)
    requires Contiguous(es) && i < |es| && j < |es| && es[i].name < es[j].name
    ensures i < j
  {}

  /** The layout of the entries, seen through the map. */
  lemma ResultLayout(ps: seq<Protocol>, caps: seq<Cap>, result: map<nat, Entry>, es: seq<Entry>)
    requires Negotiated(ps, caps, es) && Holds(result, es)
    ensures forall c :: c in caps && Speaks(ps, c) ==> c.name in result
    ensures forall n :: n in result ==> result[n].name == n && Highest(ps, caps, result[n])
    ensures forall n :: n in result ==> BASE_LENGTH <= result[n].offset
    ensures forall n, m :: n in result && m in result && n < m ==>
      result[n].offset + result[n].length <= result[m].offset
  {
    hide Highest, Speaks;
    forall n | n in result
      ensures result[n].name == n && Highest(ps, caps, result[n]) && BASE_LENGTH <= result[n].offset
    {
      var i :| 0 <= i < |es| && es[i] == result[n];
      StartsAfterBase(es, i);
    }
    forall n, m | n in result && m in result && n < m
      ensures result[n].offset + result[n].length <= result[m].offset
    {
      var i :| 0 <= i < |es| && es[i] == result[n];
      var j :| 0 <= j < |es| && es[j] == result[m];
      InOrder(es, i, j);
      RangesDisjoint(es, i, j);
    }
  }

  /** One capability: the first protocol that speaks it takes the next free range, after
      an older version of the same name has given its range back. */
  method Assign(ps: seq<Protocol>, c: Cap, result: map<nat, Entry>, offset: nat, ghost before: seq<Cap>, ghost es: seq<Entry>)
    returns (next: map<nat, Entry>, at: nat)
    requires Sorted(before + [c]) && Negotiated(ps, before, es) && Holds(result, es) && offset == End(es)
    ensures var r := if Speaks(ps, c) then Place(es, c, LengthOf(ps, c)) else es;
      Holds(next, r) && at == End(r)
  {
    hide Speaks, LengthOf, Highest, Holds, Sorted;
    next, at := result, offset;
    var length := FindLength(ps, c);
    if length.Some? {
      NamesAtMost(ps, before, es, c);
      LastOfName(es, result, c);
      PlaceShape(es, c, length.value);
      HoldsPlace(es, result, c, length.value);
      if c.name in result {
        at := at - result[c.name].length;
      }
      next := result[c.name := Entry(c.name, c.version, length.value, at)];
      at := at + length.value;
    }
  }

  lemma SortedPrefix(cs: seq<Cap>, i: nat)
    requires Sorted(cs) && i < |cs|
    ensures Sorted(cs[..i]) && Sorted(cs[..i] + [cs[i]])
  {
    assert cs[..i] + [cs[i]] == cs[..i + 1];
  }

  lemma SameMembers(a: seq<Cap>, b: seq<Cap>)
    requires multiset(a) == multiset(b)
    ensures forall c :: c in a <==> c in b
  {
    forall c
      ensures c in a <==> c in b
    {
      assert c in a <==> c in multiset(a);
    }
  }

  lemma SameNegotiated(ps: seq<Protocol>, a: seq<Cap>, b: seq<Cap>, es: seq<Entry>)
    requires Negotiated(ps, a, es) && forall c :: c in a <==> c in b
    ensures Negotiated(ps, b, es)
  {
    forall i | 0 <= i < |es|
      ensures Highest(ps, b, es[i])
    {
      assert Highest(ps, a, es[i]);
    }
  }

  // ---- what the ranges promise

  /** Ranges start after the base codes and do not meet. */
  lemma {:induction false} RangesDisjoint(es: seq<Entry>, i: nat, j: nat)
    requires Contiguous(es) && i < j < |es|
    ensures BASE_LENGTH <= es[i].offset && es[i].offset + es[i].length <= es[j].offset
    decreases j
  {
    assert es[..j][j - 1] == es[j - 1];
    if i < j - 1 {
      RangesDisjoint(es, i, j - 1);
    } else {
      StartsAfterBase(es, i);
    }
  }

  lemma {:induction false} StartsAfterBase(es: seq<Entry>, i: nat)
    requires Contiguous(es) && i < |es|
    ensures BASE_LENGTH <= es[i].offset
  {
    if i > 0 {
      StartsAfterBase(es, i - 1);
      assert es[..i][i - 1] == es[i - 1];
    }
  }

  predicate InRange(e: Entry, code: nat) { e.offset <= code < e.offset + e.length }

  /** getProto: the protocol responsible for a code, in whatever order they are tried. */
  method GetProto(running: map<nat, Entry>, code: nat) returns (r: Option<Entry>)
    ensures r.Some? ==> (exists n :: n in running && running[n] == r.value) && InRange(r.value, code)
    ensures r.None? ==> forall n :: n in running ==> !InRange(running[n], code)
  {
    var todo := running.Keys;
    while todo != {}
      invariant todo <= running.Keys
      invariant forall n :: n in running && n !in todo ==> !InRange(running[n], code)
      decreases todo
    {
      var n :| n in todo;
      if running[n].offset <= code < running[n].offset + running[n].length { return Some(running[n]); }
      todo := todo - {n};
    }
    return None;
  }

  /** protoRW.WriteMsg: the code as it goes out, if the protocol has it. */
  function WireCode(e: Entry, code: nat): (w: Option<nat>) {
    if code >= e.length then None else Some(code + e.offset)
  }

  /** Only one range holds a code that a protocol writes. */
  lemma OneOwner(es: seq<Entry>, i: nat, j: nat, code: nat)
    requires Contiguous(es) && i < |es| && j < |es| && InRange(es[i], code) && InRange(es[j], code)
    ensures i == j
  {
    if i < j {
      RangesDisjoint(es, i, j);
    } else if j < i {
      RangesDisjoint(es, j, i);
    }
  }

  /** What one side advertises is what it speaks, and both give equal lengths to what
      they share. */
  ghost predicate Compatible(psA: seq<Protocol>, capsA: seq<Cap>, psB: seq<Protocol>, capsB: seq<Cap>) {
    && (forall c :: c in capsA <==> Speaks(psA, c)) && (forall c :: c in capsB <==> Speaks(psB, c))
    && (forall c :: Speaks(psA, c) && Speaks(psB, c) ==> LengthOf(psA, c) == LengthOf(psB, c))
  }

  lemma SameEntry(psA: seq<Protocol>, capsA: seq<Cap>, psB: seq<Protocol>, capsB: seq<Cap>, a: Entry, b: Entry)
    requires Compatible(psA, capsA, psB, capsB)
    requires Highest(psA, capsB, a) && Highest(psB, capsA, b) && a.name == b.name
    ensures a.version == b.version && a.length == b.length
  {
    var ca, cb := Cap(a.name, a.version), Cap(b.name, b.version);
    assert ca in capsB && ca in capsA && cb in capsA && cb in capsB;
  }

  lemma SharedCap(psA: seq<Protocol>, capsA: seq<Cap>, psB: seq<Protocol>, capsB: seq<Cap>, a: Entry)
    requires Compatible(psA, capsA, psB, capsB) && Highest(psA, capsB, a)
    ensures var c := Cap(a.name, a.version); c in capsA && Speaks(psB, c)
  {
    hide Speaks, LengthOf;
  }

  /** The entry of a shared name on the other side. */
  lemma Counterpart(psA: seq<Protocol>, capsA: seq<Cap>, psB: seq<Protocol>, capsB: seq<Cap>,
                    es: seq<Entry>, a: Entry) returns (j: nat)
    requires Compatible(psA, capsA, psB, capsB) && Negotiated(psB, capsA, es) && Highest(psA, capsB, a)
    ensures j < |es| && es[j].name == a.name && es[j].version == a.version && es[j].length == a.length
  {
    hide Contiguous, Speaks, LengthOf;
    var c := Cap(a.name, a.version);
    SharedCap(psA, capsA, psB, capsB, a);
    hide Compatible;
    j :| 0 <= j < |es| && es[j].name == c.name;
    SameEntry(psA, capsA, psB, capsB, a, es[j]);
  }

  lemma CompatibleBack(psA: seq<Protocol>, capsA: seq<Cap>, psB: seq<Protocol>, capsB: seq<Cap>)
    requires Compatible(psA, capsA, psB, capsB)
    ensures Compatible(psB, capsB, psA, capsA)
  {}

  /** Equal so far and more on one side: the next entries are there and equal. */
  lemma NextEqual(psA: seq<Protocol>, capsA: seq<Cap>, psB: seq<Protocol>, capsB: seq<Cap>,
                  a: seq<Entry>, b: seq<Entry>, k: nat)
    requires Compatible(psA, capsA, psB, capsB) && Negotiated(psA, capsB, a) && Negotiated(psB, capsA, b)
    requires k < |a| && k <= |b| && a[..k] == b[..k]
    ensures k < |b| && a[k] == b[k]
  {
    hide Highest, Speaks, LengthOf, Compatible;
    var j := Counterpart(psA, capsA, psB, capsB, b, a[k]);
    NotEarlier(a, b, k, j);
    CompatibleBack(psA, capsA, psB, capsB);
    var i := Counterpart(psB, capsB, psA, capsA, a, b[k]);
    NotEarlier(b, a, k, i);
    Ascend(a, k, i);
    Ascend(b, k, j);
    assert a[k].offset == End(a[..k]) && b[k].offset == End(b[..k]);
  }

  lemma NotEarlier(a: seq<Entry>, b: seq<Entry>, k: nat, j: nat)
    requires Contiguous(a) && k < |a| && k <= |b| && a[..k] == b[..k] && j < |b| && b[j].name == a[k].name
    ensures j >= k
  {
    assert forall m :: 0 <= m < k ==> a[..k][m] == a[m] && b[..k][m] == b[m];
  }

  lemma Ascend(a: seq<Entry>, i: nat, j: nat)
    requires Contiguous(a) && i <= j < |a|
    ensures a[i].name <= a[j].name && (a[i].name == a[j].name ==> i == j)
  {}

  /** Two compatible peers compute the same ranges. */
  lemma {:induction false} PeersAgree(psA: seq<Protocol>, capsA: seq<Cap>, psB: seq<Protocol>, capsB: seq<Cap>,
                                      a: seq<Entry>, b: seq<Entry>, k: nat)
    requires Compatible(psA, capsA, psB, capsB) && Negotiated(psA, capsB, a) && Negotiated(psB, capsA, b)
    requires k <= |a| && k <= |b| && a[..k] == b[..k]
    ensures a == b
    decreases |a| - k
  {
    hide Compatible, Negotiated;
    if k < |a| {
      NextEqual(psA, capsA, psB, capsB, a, b, k);
      assert a[..k + 1] == a[..k] + [a[k]] && b[..k + 1] == b[..k] + [b[k]];
      PeersAgree(psA, capsA, psB, capsB, a, b, k + 1);
    } else if k < |b| {
      CompatibleBack(psA, capsA, psB, capsB);
      NextEqual(psB, capsB, psA, capsA, b, a, k);
    } else {
      assert a[..k] == a && b[..k] == b;
    }
  }

  /** A message that one side's protocol writes goes to the protocol of the same name
      and version on the other side, with the same local code. */
  lemma CodeDelivered(psA: seq<Protocol>, capsA: seq<Cap>, psB: seq<Protocol>, capsB: seq<Cap>,
                      a: seq<Entry>, b: seq<Entry>, i: nat, code: nat, j: nat)
    requires Compatible(psA, capsA, psB, capsB) && Negotiated(psA, capsB, a) && Negotiated(psB, capsA, b)
    requires i < |a| && WireCode(a[i], code).Some?
    ensures i < |b| && b[i] == a[i] && InRange(b[i], WireCode(a[i], code).value)
    ensures j < |b| && InRange(b[j], WireCode(a[i], code).value) ==>
      j == i && b[j].name == a[i].name && b[j].version == a[i].version
      && WireCode(a[i], code).value - b[j].offset == code
  {
    hide Compatible, Highest, Contiguous, Speaks, LengthOf;
    PeersAgree(psA, capsA, psB, capsB, a, b, 0);
    var w := WireCode(a[i], code).value;
    if j < |b| && InRange(b[j], w) {
      OneOwner(b, j, i, w);
    }
  }
}
