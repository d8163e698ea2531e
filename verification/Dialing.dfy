/** The dial scheduler: which nodes to dial next, and what it remembers of past dials. */
module Dialing {
  import opened Sets

  /** A task is known by what it does: two dials of one node never exist at once. */
  datatype Task = Dial(id: nat, dyn: bool) | Discover | Wait

  datatype PastDial = PastDial(id: nat, exp: int)

  /** Thirty seconds, in nanoseconds. */
  const HISTORY_EXPIRATION := 30_000_000_000

  /** Node ids with the dynamic flag. */
  function DynSet(m: map<nat, bool>): (s: set<nat>) { set id | id in m && m[id] }

  lemma DynAdd(m: map<nat, bool>, id: nat, dyn: bool)
    requires id !in m
    ensures DynSet(m[id := dyn]) == if dyn then DynSet(m) + {id} else DynSet(m)
    ensures |DynSet(m[id := dyn])| == |DynSet(m)| + if dyn then 1 else 0
  {}

  function HistIds(h: seq<PastDial>): (s: set<nat>) { set p | p in h :: p.id }

  /** What is not to be dialed: connected nodes and those dialed lately. */
  ghost function Known(peers: map<nat, bool>, h: seq<PastDial>): (s: set<nat>) { peers.Keys + HistIds(h) }

  predicate Ordered(h: seq<PastDial>) {
    forall i, j :: 0 <= i < j < |h| ==> h[i].exp <= h[j].exp
  }

  /** d1 is d0 with exactly the new dials ts, none of them to a known node. */
  ghost predicate Extended(d0: map<nat, bool>, d1: map<nat, bool>, ts: seq<Task>, known: set<nat>) {
    && (forall id :: id in d0 ==> id in d1 && d1[id] == d0[id])
    && (forall i :: 0 <= i < |ts| ==> ts[i].Dial? && ts[i].id !in d0 && ts[i].id !in known
                                      && ts[i].id in d1 && d1[ts[i].id] == ts[i].dyn)
    && (forall id :: id in d1 ==> id in d0 || Dial(id, d1[id]) in ts)
    && (forall i, j :: 0 <= i < j < |ts| ==> ts[i].id != ts[j].id)
  }

  lemma ExtendOne(d0: map<nat, bool>, d1: map<nat, bool>, ts: seq<Task>, known: set<nat>, id: nat, dyn: bool)
    requires Extended(d0, d1, ts, known) && id !in d1 && id !in known
    ensures Extended(d0, d1[id := dyn], ts + [Dial(id, dyn)], known)
  {
    var d2, ts2 := d1[id := dyn], ts + [Dial(id, dyn)];
    forall x | x in d2
      ensures x in d0 || Dial(x, d2[x]) in ts2
    {
      if x == id {
        assert ts2[|ts|] == Dial(id, dyn);
      } else if x !in d0 {
        assert Dial(x, d1[x]) in ts;
      }
    }
  }

  /** Of the first n nodes, none is left that could still be dialed. */
  ghost predicate Tried(nodes: seq<nat>, n: int, done: set<nat>) {
    forall k :: 0 <= k < n && k < |nodes| ==> nodes[k] in done
  }

  /** What is left of a list when its front has been tried. */
  ghost predicate Consumed(before: seq<nat>, after: seq<nat>, done: set<nat>) {
    && |after| <= |before| && after == before[|before| - |after|..]
    && Tried(before, |before| - |after|, done)
  }

  /** Among the first n nodes. */
  ghost predicate Among(nodes: seq<nat>, n: int, id: nat) { exists k :: 0 <= k < n && k < |nodes| && nodes[k] == id }

  /** Beyond the dials ts, only dynamic ones to the first n nodes. */
  ghost predicate From(out: seq<Task>, ts: seq<Task>, nodes: seq<nat>, n: int) {
    forall t :: t in out ==> t in ts || (t.Dial? && t.dyn && Among(nodes, n, t.id))
  }

  /** Dials to static nodes, dynamic ones to the random nodes up to half of the number
      needed, and dynamic ones to the lookup results used up. */
  ghost predicate Sources(ts: seq<Task>, statics: set<nat>, randomNodes: seq<nat>, half: int, results: seq<nat>, used: int) {
    forall t :: t in ts ==>
      && t.Dial?
      && if t.dyn then Among(randomNodes, half, t.id) || Among(results, used, t.id) else t.id in statics
  }

  /** How many ids carry the flag. */
  method CountDyn(m: map<nat, bool>) returns (n: nat)
    ensures n == |DynSet(m)|
  {
    n := 0;
    var todo := m.Keys;
    ghost var counted: set<nat> := {};
    while todo != {}
      invariant todo <= m.Keys && n == |counted|
      invariant forall id :: id in counted <==> id in m && m[id] && id !in todo
      decreases todo
    {
      var id :| id in todo;
      todo := todo - {id};
      if m[id] {
        counted := counted + {id};
        n := n + 1;
      }
    }
    assert counted == DynSet(m);
  }

  class DialState {
    const maxDynDials: nat
    var lookupRunning: bool
    var dialing: map<nat, bool>
    var lookupBuf: seq<nat>
    var statics: set<nat>
    var hist: seq<PastDial>

    constructor (statics: set<nat>, maxDynDials: nat)
      ensures this.maxDynDials == maxDynDials && this.statics == statics
      ensures !lookupRunning && dialing == map[] && lookupBuf == [] && hist == []
    {
      this.maxDynDials, this.statics := maxDynDials, statics;
      lookupRunning, dialing, lookupBuf, hist := false, map[], [], [];
    }

    method AddStatic(id: nat)
      modifies `statics
      ensures statics == old(statics) + {id}
    {
      statics := statics + {id};
    }

    /** expire: drops exactly the entries whose time has passed. */
    method Expire(now: int)
      requires Ordered(hist)
      modifies `hist
      ensures Ordered(hist)
      ensures forall p :: p in hist <==> p in old(hist) && p.exp >= now
    {
      var i := 0;
      while i < |hist| && hist[i].exp < now
        invariant 0 <= i <= |hist|
        invariant forall k :: 0 <= k < i ==> hist[k].exp < now
      {
        i := i + 1;
      }
      hist := hist[i..];
    }

    /** add: the entry goes in by its expiration time. */
    method AddHistory(p: PastDial)
      requires Ordered(hist)
      modifies `hist
      ensures Ordered(hist)
      ensures forall q :: q in hist <==> q in old(hist) || q == p
    {
      var i := 0;
      while i < |hist| && hist[i].exp <= p.exp
        invariant 0 <= i <= |hist|
        invariant forall k :: 0 <= k < i ==> hist[k].exp <= p.exp
      {
        i := i + 1;
      }
      hist := hist[..i] + [p] + hist[i..];
    }

    method Contains(id: nat) returns (found: bool)
      ensures found <==> id in HistIds(hist)
    {
      for i := 0 to |hist|
        invariant forall k :: 0 <= k < i ==> hist[k].id != id
      {
        if hist[i].id == id {
          assert hist[i] in hist;
          return true;
        }
      }
      return false;
    }

    method IsDialing(id: nat, peers: map<nat, bool>) returns (yes: bool)
      ensures yes <==> id in dialing || id in Known(peers, hist)
    {
      var past := Contains(id);
      yes := id in dialing || id in peers || past;
    }

    /** addDial: one more dial, unless the node is being dialed, connected or in the history. */
    method AddDial(dyn: bool, id: nat, peers: map<nat, bool>, ts: seq<Task>, ghost d0: map<nat, bool>)
      returns (out: seq<Task>, added: bool)
      requires Extended(d0, dialing, ts, Known(peers, hist))
      modifies `dialing
      ensures Extended(d0, dialing, out, Known(peers, hist))
      ensures added <==> id !in old(dialing) && id !in Known(peers, hist)
      ensures added ==> dialing == old(dialing)[id := dyn] && out == ts + [Dial(id, dyn)]
      ensures !added ==> dialing == old(dialing) && out == ts
    {
      var busy := IsDialing(id, peers);
      if busy { return ts, false; }
      ExtendOne(d0, dialing, ts, Known(peers, hist), id, dyn);
      dialing := dialing[id := dyn];
      return ts + [Dial(id, dyn)], true;
    }

    /** Dials for the static nodes, in any order. */
    method DialStatics(peers: map<nat, bool>, ghost d0: map<nat, bool>) returns (ts: seq<Task>)
      requires d0 == dialing
      modifies `dialing
      ensures Extended(d0, dialing, ts, Known(peers, hist)) && DynSet(dialing) == DynSet(d0)
      ensures forall t :: t in ts ==> t.Dial? && !t.dyn && t.id in statics
      ensures forall id :: id in statics ==> id in dialing || id in Known(peers, hist)
    {
      hide Extended;
      ts := [];
      ExtendNone(d0, Known(peers, hist));
      var todo := statics;
      while todo != {}
        invariant todo <= statics
        invariant Extended(d0, dialing, ts, Known(peers, hist)) && DynSet(dialing) == DynSet(d0)
        invariant forall t :: t in ts ==> t.Dial? && !t.dyn && t.id in statics
        invariant forall id :: id in statics - todo ==> id in dialing || id in Known(peers, hist)
        decreases todo
      {
        var id :| id in todo;
        ghost var d := dialing;
        var added;
        ts, added := AddDial(false, id, peers, ts, d0);
        if added {
          DynAdd(d, id, false);
        }
        todo := todo - {id};
      }
    }

    /** Dynamic dials from a list, up to limit entries and while some are needed. */
    method DialDynamic(nodes: seq<nat>, limit: nat, need: int, peers: map<nat, bool>, ts: seq<Task>, ghost d0: map<nat, bool>)
      returns (out: seq<Task>, left: int, used: nat)
      requires Extended(d0, dialing, ts, Known(peers, hist)) && limit <= |nodes|
      modifies `dialing
      ensures Extended(d0, dialing, out, Known(peers, hist)) && used <= limit
      ensures |DynSet(dialing)| == |DynSet(old(dialing))| + (need - left)
      ensures left <= need <= left + used && (left == need || left >= 0)
      ensures used == limit || left <= 0
      ensures From(out, ts, nodes, used)
      ensures forall k :: 0 <= k < used ==> nodes[k] in dialing || nodes[k] in Known(peers, hist)
      ensures forall id :: id in old(dialing) ==> id in dialing
    {
      hide Extended;
      out, left, used := ts, need, 0;
      while used < limit && left > 0
        invariant used <= limit && left <= need <= left + used && (left == need || left >= 0)
        invariant Extended(d0, dialing, out, Known(peers, hist))
        invariant |DynSet(dialing)| == |DynSet(old(dialing))| + (need - left)
        invariant forall k :: 0 <= k < used ==> nodes[k] in dialing || nodes[k] in Known(peers, hist)
        invariant forall id :: id in old(dialing) ==> id in dialing
        invariant From(out, ts, nodes, used)
      {
        assert Among(nodes, used + 1, nodes[used]);
        ghost var d := dialing;
        var added;
        out, added := AddDial(true, nodes[used], peers, out, d0);
        if added {
          DynAdd(d, nodes[used], true);
          left := left - 1;
        }
        used := used + 1;
      }
    }

    /** Dynamic dials: up to half of those needed from random nodes, the rest from the
        lookup results, which are used up as they are tried. */
    method DialMore(need: int, peers: map<nat, bool>, randomNodes: seq<nat>, ts: seq<Task>, ghost d0: map<nat, bool>)
      returns (out: seq<Task>, left: int, ghost some: seq<Task>)
      requires Extended(d0, dialing, ts, Known(peers, hist))
      modifies `dialing, `lookupBuf
      ensures From(some, ts, randomNodes, need / 2) && From(out, some, old(lookupBuf), |old(lookupBuf)| - |lookupBuf|)
      ensures Extended(d0, dialing, out, Known(peers, hist))
      ensures |DynSet(dialing)| == |DynSet(old(dialing))| + (need - left)
      ensures left <= need && (left == need || left >= 0)
      ensures forall id :: id in old(dialing) ==> id in dialing
      ensures Tried(randomNodes, need / 2, dialing.Keys + Known(peers, hist))
      ensures Consumed(old(lookupBuf), lookupBuf, dialing.Keys + Known(peers, hist))
      ensures lookupBuf == [] || left <= 0
    {
      hide Extended;
      out, left := ts, need;
      var randomCandidates := need / 2;
      if randomCandidates > 0 {
        var limit := if randomCandidates <= |randomNodes| then randomCandidates else |randomNodes|;
        var used;
        out, left, used := DialDynamic(randomNodes, limit, left, peers, out, d0);
        assert used == limit;
      }
      some := out;
      var tried;
      out, left, tried := DialDynamic(lookupBuf, |lookupBuf|, left, peers, out, d0);
      lookupBuf := lookupBuf[tried..];
    }

    /** The dials of newTasks, and how many dynamic ones are still needed after them. */
    method NewDials(peers: map<nat, bool>, randomNodes: seq<nat>, now: int) returns (ts: seq<Task>, left: int)
      requires Ordered(hist)
      modifies `hist, `dialing, `lookupBuf
      ensures Ordered(hist)
      ensures forall p :: p in hist <==> p in old(hist) && p.exp >= now
      ensures Extended(old(dialing), dialing, ts, Known(peers, hist))
      ensures forall id :: id in statics ==> id in dialing || id in Known(peers, hist)
      ensures |DynSet(dialing) + DynSet(peers)| <= maxDynDials || DynSet(dialing) == DynSet(old(dialing))
      ensures |DynSet(dialing)| == |DynSet(old(dialing))| + (Need(old(dialing), peers) - left)
      ensures Tried(randomNodes, Need(old(dialing), peers) / 2, dialing.Keys + Known(peers, hist))
      ensures Consumed(old(lookupBuf), lookupBuf, dialing.Keys + Known(peers, hist))
      ensures lookupBuf == [] || left <= 0
      ensures Sources(ts, statics, randomNodes, Need(old(dialing), peers) / 2, old(lookupBuf), |old(lookupBuf)| - |lookupBuf|)
    {
      hide Extended, DynSet, Tried, Known, Consumed, Among;
      ghost var d0 := dialing;
      var dynPeers := CountDyn(peers);
      var dynDials := CountDyn(dialing);
      var need := maxDynDials - dynPeers - dynDials;
      Expire(now);
      ts := DialStatics(peers, d0);
      ghost var some;
      ts, left, some := DialMore(need, peers, randomNodes, ts, d0);
      assert Sources(ts, statics, randomNodes, need / 2, old(lookupBuf), |old(lookupBuf)| - |lookupBuf|);
      ExtendedKeeps(d0, dialing, ts, Known(peers, hist));
      DynBound(d0, dialing, DynSet(peers), maxDynDials, need, left);
    }

    /** How many dynamic dials are missing. */
    ghost function Need(dialing: map<nat, bool>, peers: map<nat, bool>): (n: int) {
      maxDynDials - |DynSet(peers)| - |DynSet(dialing)|
    }

    /** newTasks: what to start now. Dials go only to nodes that are not being dialed,
        connected or in the unexpired history, and dynamic ones only up to the limit. */
    method NewTasks(nRunning: nat, peers: map<nat, bool>, randomNodes: seq<nat>, now: int)
      returns (ts: seq<Task>, ghost dials: seq<Task>, ghost extra: seq<Task>, ghost left: int)
      requires Ordered(hist)
      modifies this
      ensures ts == dials + extra && Ordered(hist) && statics == old(statics)
      ensures forall p :: p in hist <==> p in old(hist) && p.exp >= now
      ensures Extended(old(dialing), dialing, dials, Known(peers, hist))
      ensures forall id :: id in statics ==> id in dialing || id in Known(peers, hist)
      ensures |DynSet(dialing) + DynSet(peers)| <= maxDynDials || DynSet(dialing) == DynSet(old(dialing))
      ensures |DynSet(dialing)| == |DynSet(old(dialing))| + (Need(old(dialing), peers) - left)
      ensures Tried(randomNodes, Need(old(dialing), peers) / 2, dialing.Keys + Known(peers, hist))
      ensures Consumed(old(lookupBuf), lookupBuf, dialing.Keys + Known(peers, hist))
      ensures lookupBuf == [] || left <= 0
      ensures Sources(dials, statics, randomNodes, Need(old(dialing), peers) / 2, old(lookupBuf), |old(lookupBuf)| - |lookupBuf|)
      ensures lookupRunning <==> old(lookupRunning) || |lookupBuf| < left
      ensures extra == if lookupRunning && !old(lookupRunning) then [Discover]
                       else if nRunning == 0 && dials == [] && hist != [] then [Wait] else []
    {
      hide Extended, DynSet, Tried, Known, Consumed, Ordered, Sources;
      var need;
      ts, need := NewDials(peers, randomNodes, now);
      dials, extra, left := ts, [], need;
      if |lookupBuf| < need && !lookupRunning {
        lookupRunning := true;
        extra := [Discover];
        ts := ts + [Discover];
      }
      if nRunning == 0 && |ts| == 0 && |hist| > 0 {
        extra := [Wait];
        ts := ts + [Wait];
      }
    }

    /** taskDone: a finished dial moves to the history, a finished lookup to the buffer. */
    method TaskDone(t: Task, results: seq<nat>, now: int)
      requires Ordered(hist)
      modifies this
      ensures Ordered(hist) && statics == old(statics)
      ensures match t
        case Dial(id, _) =>
          && dialing == old(dialing) - {id}
          && (forall p :: p in hist <==> p in old(hist) || p == PastDial(id, now + HISTORY_EXPIRATION))
          && lookupRunning == old(lookupRunning) && lookupBuf == old(lookupBuf)
        case Discover =>
          && !lookupRunning && lookupBuf == old(lookupBuf) + results
          && dialing == old(dialing) && hist == old(hist)
        case Wait =>
          && lookupRunning == old(lookupRunning) && lookupBuf == old(lookupBuf)
          && dialing == old(dialing) && hist == old(hist)
    {
      match t
      case Dial(id, _) =>
        AddHistory(PastDial(id, now + HISTORY_EXPIRATION));
        dialing := dialing - {id};
      case Discover =>
        lookupRunning := false;
        lookupBuf := lookupBuf + results;
      case Wait =>
    }
  }

  /** As many dynamic dials as were needed, on top of those there were. */
  lemma DynBound(m1: map<nat, bool>, m2: map<nat, bool>, peers: set<nat>, max: nat, need0: int, need: int)
    requires need0 == max - |peers| - |DynSet(m1)| && |DynSet(m2)| == |DynSet(m1)| + (need0 - need)
    requires need == need0 || need >= 0
    requires forall id :: id in m1 ==> id in m2 && m2[id] == m1[id]
    ensures |DynSet(m2) + peers| <= max || DynSet(m2) == DynSet(m1)
  {
    var d1, d2 := DynSet(m1), DynSet(m2);
    assert d1 <= d2;
    UnionBound(d2, peers);
    if need == need0 {
      SubsetEqual(d1, d2);
    }
  }

  lemma ExtendedKeeps(d0: map<nat, bool>, d1: map<nat, bool>, ts: seq<Task>, known: set<nat>)
    requires Extended(d0, d1, ts, known)
    ensures forall id :: id in d0 ==> id in d1 && d1[id] == d0[id]
  {}

  lemma ExtendNone(d: map<nat, bool>, known: set<nat>)
    ensures Extended(d, d, [], known)
  {}
}
