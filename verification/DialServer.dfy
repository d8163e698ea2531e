/** The server loop around the dial scheduler: running and queued tasks, and peers. */
module DialServer {
  import opened Sets
  import opened Dialing

  const MAX_ACTIVE := 16

  /** The outstanding tasks are pairwise different, dial different nodes, and are just
      what the scheduler thinks is going on. */
  ghost predicate Outstanding(ts: seq<Task>, dialing: map<nat, bool>, lookup: bool) {
    && AllDiffer(ts) && TargetsDiffer(ts) && Dials(ts, dialing)
    && (forall id :: id in dialing ==> Dial(id, dialing[id]) in ts)
    && (Discover in ts <==> lookup)
  }

  ghost predicate AllDiffer(ts: seq<Task>) {
    forall i, j :: 0 <= i < j < |ts| ==> ts[i] != ts[j]
  }

  ghost predicate TargetsDiffer(ts: seq<Task>) {
    forall i, j :: 0 <= i < j < |ts| && ts[i].Dial? && ts[j].Dial? ==> ts[i].id != ts[j].id
  }

  ghost predicate Dials(ts: seq<Task>, dialing: map<nat, bool>) {
    forall i :: 0 <= i < |ts| && ts[i].Dial? ==> ts[i].id in dialing && dialing[ts[i].id] == ts[i].dyn
  }

  lemma OutstandingAdds(ts: seq<Task>, d0: map<nat, bool>, d1: map<nat, bool>, lookup: bool,
                        dials: seq<Task>, known: set<nat>)
    requires Outstanding(ts, d0, lookup) && Extended(d0, d1, dials, known)
    ensures Outstanding(ts + dials, d1, lookup)
  {
    var all := ts + dials;
    forall id | id in d1
      ensures Dial(id, d1[id]) in all
    {
      if id in d0 {
        assert Dial(id, d0[id]) in ts;
      } else {
        assert Dial(id, d1[id]) in dials;
      }
    }
    assert Discover !in dials;
    forall i, j | 0 <= i < j < |all|
      ensures all[i] != all[j] && (all[i].Dial? && all[j].Dial? ==> all[i].id != all[j].id)
    {
      if i < |ts| <= j {
        assert all[j] == dials[j - |ts|];
      }
    }
  }

  lemma OutstandingExtra(ts: seq<Task>, d: map<nat, bool>, lookup: bool, t: Task)
    requires Outstanding(ts, d, lookup) && !t.Dial? && t !in ts
    ensures Outstanding(ts + [t], d, lookup || t == Discover)
  {}

  /** The first copy of t taken out. */
  function Without(ts: seq<Task>, t: Task): (r: seq<Task>) {
    if ts == [] then [] else if ts[0] == t then ts[1..] else [ts[0]] + Without(ts[1..], t)
  }

  lemma {:induction false} WithoutAt(ts: seq<Task>, i: nat)
    requires i < |ts| && ts[i] !in ts[..i]
    ensures Without(ts, ts[i]) == Dropped(ts, i)
  {
    if i > 0 {
      var rest := ts[1..];
      assert ts[0] in ts[..i];
      assert rest[..i - 1] == ts[1..i];
      forall x | x in rest[..i - 1]
        ensures x in ts[..i]
      {}
      WithoutAt(rest, i - 1);
      assert [ts[0]] + (rest[..i - 1] + rest[i..]) == ts[..i] + ts[i + 1..];
    }
  }

  function Dropped(ts: seq<Task>, i: nat): (r: seq<Task>)
    requires i < |ts|
    ensures |r| == |ts| - 1
    ensures forall k :: 0 <= k < |r| ==> r[k] == ts[if k < i then k else k + 1]
  {
    ts[..i] + ts[i + 1..]
  }

  lemma DroppedDiffer(ts: seq<Task>, i: nat)
    requires AllDiffer(ts) && TargetsDiffer(ts) && i < |ts|
    ensures AllDiffer(Dropped(ts, i)) && TargetsDiffer(Dropped(ts, i))
    ensures forall x :: x in Dropped(ts, i) <==> x in ts && x != ts[i]
  {
    var r := Dropped(ts, i);
    hide Dropped;
    forall x
      ensures x in r <==> x in ts && x != ts[i]
    {
      if x in ts && x != ts[i] {
        var k :| 0 <= k < |ts| && ts[k] == x;
        assert x == if k < i then r[k] else r[k - 1];
      }
    }
  }

  lemma DroppedDials(ts: seq<Task>, d: map<nat, bool>, i: nat)
    requires TargetsDiffer(ts) && Dials(ts, d) && i < |ts|
    ensures Dials(Dropped(ts, i), if ts[i].Dial? then d - {ts[i].id} else d)
  {
    var r := Dropped(ts, i);
    hide Dropped;
    forall k | 0 <= k < |r| && r[k].Dial?
      ensures r[k].id in d && d[r[k].id] == r[k].dyn && (ts[i].Dial? ==> r[k].id != ts[i].id)
    {
      var m := if k < i then k else k + 1;
      assert r[k] == ts[m];
    }
  }

  lemma OutstandingRemoves(ts: seq<Task>, d: map<nat, bool>, lookup: bool, i: nat)
    requires Outstanding(ts, d, lookup) && i < |ts|
    ensures var t := ts[i];
      Outstanding(Dropped(ts, i), if t.Dial? then d - {t.id} else d, if t == Discover then false else lookup)
  {
    DroppedDiffer(ts, i);
    DroppedDials(ts, d, i);
    hide Dropped, AllDiffer, TargetsDiffer;
    var t := ts[i];
    var d1 := if t.Dial? then d - {t.id} else d;
    forall id | id in d1
      ensures Dial(id, d1[id]) in Dropped(ts, i)
    {
      assert Dial(id, d[id]) in ts;
    }
  }

  /** A finished dial is in the history until its time has passed. */
  ghost predicate Remembered(doneAt: map<nat, int>, hist: seq<PastDial>, clock: int) {
    forall id :: id in doneAt ==>
      PastDial(id, doneAt[id] + HISTORY_EXPIRATION) in hist || doneAt[id] + HISTORY_EXPIRATION < clock
  }

  lemma RememberedLater(doneAt: map<nat, int>, hist: seq<PastDial>, clock: int, now: int)
    requires Remembered(doneAt, hist, clock) && clock <= now
    ensures Remembered(doneAt, hist, now)
  {}

  lemma RememberedDone(doneAt: map<nat, int>, h0: seq<PastDial>, h1: seq<PastDial>, clock: int, id: nat, now: int)
    requires Remembered(doneAt, h0, clock) && clock <= now
    requires forall p :: p in h1 <==> p in h0 || p == PastDial(id, now + HISTORY_EXPIRATION)
    ensures Remembered(doneAt[id := now], h1, now)
  {}

  /** A dial to a connected node waits where the room left reaches. */
  ghost predicate FrontConnected(running: seq<Task>, queued: seq<Task>, peers: map<nat, bool>) {
    exists i :: 0 <= i < |queued| && |running| + i < MAX_ACTIVE && queued[i].Dial? && queued[i].id in peers
  }

  /** Of the tasks started since before, one dials a connected node. */
  ghost predicate StartsConnected(before: seq<Task>, running: seq<Task>, peers: map<nat, bool>) {
    exists i :: |before| <= i < |running| && running[i].Dial? && running[i].id in peers
  }

  lemma StartsConnectedIff(r0: seq<Task>, q0: seq<Task>, added: seq<Task>, r1: seq<Task>, q1: seq<Task>, peers: map<nat, bool>)
    requires r0 <= r1 && r1 + q1 == r0 + q0 + added && |r1| <= MAX_ACTIVE && (q1 == [] || |r1| == MAX_ACTIVE)
    requires forall t :: t in added && t.Dial? ==> t.id !in peers
    ensures StartsConnected(r0, r1, peers) <==> FrontConnected(r0, q0, peers)
  {
    var all := r0 + q0 + added;
    assert forall i :: 0 <= i < |r1| ==> r1[i] == all[i];
    if StartsConnected(r0, r1, peers) {
      var i :| |r0| <= i < |r1| && r1[i].Dial? && r1[i].id in peers;
      assert q0[i - |r0|] == r1[i];
    }
    if FrontConnected(r0, q0, peers) {
      var i :| 0 <= i < |q0| && |r0| + i < MAX_ACTIVE && q0[i].Dial? && q0[i].id in peers;
      assert r1[|r0| + i] == q0[i];
    }
  }

  class Server {
    const dialer: DialState
    var peers: map<nat, bool>
    var running: seq<Task>
    var queued: seq<Task>
    ghost var clock: int
    ghost var doneAt: map<nat, int>
    /** Targets of outstanding dials that became peers after the dial was made. */
    ghost var arrived: set<nat>

    constructor (statics: set<nat>, maxDynDials: nat)
      ensures Valid() && fresh(dialer) && !dialer.lookupRunning && peers == map[] && running == [] && queued == []
      ensures dialer.statics == statics && dialer.maxDynDials == maxDynDials && clock == 0 && dialer.hist == []
    {
      dialer := new DialState(statics, maxDynDials);
      peers, running, queued, clock, doneAt, arrived := map[], [], [], 0, map[], {};
      new;
      assert DynSet(dialer.dialing) + DynSet(peers) == {};
    }

    ghost function Tasks(): (ts: seq<Task>)
      reads this
    {
      running + queued
    }

    ghost predicate Valid()
      reads this, dialer
    {
      && Ordered(dialer.hist)
      && Outstanding(Tasks(), dialer.dialing, dialer.lookupRunning)
      && dialer.dialing.Keys !! HistIds(dialer.hist)
      && |running| <= MAX_ACTIVE
      && |DynSet(dialer.dialing) + DynSet(peers)| <= dialer.maxDynDials
      && Remembered(doneAt, dialer.hist, clock)
      && dialer.dialing.Keys * peers.Keys <= arrived <= dialer.dialing.Keys
    }

    /** No outstanding dial, running or queued, goes to a node whose last dial ended less
        than the waiting time ago. One goes to a connected node only if that node
        connected after the dial was made. */
    lemma OutstandingDial(t: Task)
      requires Valid() && t in Tasks() && t.Dial?
      ensures t.id in doneAt ==> doneAt[t.id] + HISTORY_EXPIRATION < clock
      ensures t.id in peers ==> t.id in arrived
    {
      var i :| 0 <= i < |Tasks()| && Tasks()[i] == t;
      assert t.id in dialer.dialing;
      if t.id in doneAt && PastDial(t.id, doneAt[t.id] + HISTORY_EXPIRATION) in dialer.hist {
        HistHas(dialer.hist, PastDial(t.id, doneAt[t.id] + HISTORY_EXPIRATION));
      }
    }

    /** startTasks: from the front of the list while there is room. */
    method StartTasks(ts: seq<Task>) returns (rest: seq<Task>)
      requires |running| <= MAX_ACTIVE
      modifies `running
      ensures |running| <= MAX_ACTIVE && old(running) <= running && running + rest == old(running) + ts
      ensures rest == [] || |running| == MAX_ACTIVE
    {
      var i := 0;
      while |running| < MAX_ACTIVE && i < |ts|
        invariant 0 <= i <= |ts| && |running| <= MAX_ACTIVE && running == old(running) + ts[..i]
      {
        assert ts[..i + 1] == ts[..i] + [ts[i]];
        running := running + [ts[i]];
        i := i + 1;
      }
      assert ts == ts[..i] + ts[i..];
      return ts[i..];
    }

    /** The scheduler's new tasks put behind the outstanding ones. */
    method AskDialer(randomNodes: seq<nat>, now: int) returns (nt: seq<Task>)
      requires Valid() && now >= clock
      modifies dialer, `clock
      ensures Ordered(dialer.hist) && Remembered(doneAt, dialer.hist, clock) && clock == now
      ensures Outstanding(Tasks() + nt, dialer.dialing, dialer.lookupRunning)
      ensures dialer.dialing.Keys !! HistIds(dialer.hist)
      ensures |DynSet(dialer.dialing) + DynSet(peers)| <= dialer.maxDynDials
      ensures dialer.dialing.Keys * peers.Keys <= arrived <= dialer.dialing.Keys
      ensures forall t :: t in nt && t.Dial? ==>
        t.id !in peers && (t.id in doneAt ==> doneAt[t.id] + HISTORY_EXPIRATION < now)
      ensures forall id :: id in dialer.statics ==> id in dialer.dialing || id in Known(peers, dialer.hist)
      ensures dialer.statics == old(dialer.statics) && (Wait in nt ==> nt == [Wait])
      ensures dialer.maxDynDials == 0 && !old(dialer.lookupRunning) ==> !dialer.lookupRunning
      ensures forall p :: p in dialer.hist ==> p in old(dialer.hist)
    {
      hide Outstanding, DynSet, Sources, Tried, Consumed, Ordered;
      ghost var d0, h0, l0 := dialer.dialing, dialer.hist, dialer.lookupRunning;
      ghost var dials, extra, left;
      nt, dials, extra, left := dialer.NewTasks(|running| + |queued|, peers, randomNodes, now);
      clock := now;
      OutstandingAdds(Tasks(), d0, dialer.dialing, l0, dials, Known(peers, dialer.hist));
      NewTargets(d0, dialer.dialing, dials, Known(peers, dialer.hist));
      assert Tasks() + nt == Tasks() + dials + extra;
      if extra == [] {
        assert Tasks() + dials + extra == Tasks() + dials;
      } else {
        NoCopy(Tasks() + dials, dialer.dialing, l0, extra[0]);
        OutstandingExtra(Tasks() + dials, dialer.dialing, l0, extra[0]);
      }
      forall id | id in dialer.dialing
        ensures id !in HistIds(dialer.hist)
      {
        assert id in d0 ==> id !in HistIds(h0);
      }
      forall t | t in nt && t.Dial?
        ensures t.id !in peers && (t.id in doneAt ==> doneAt[t.id] + HISTORY_EXPIRATION < now)
      {
        assert t in dials;
        assert t.id !in Known(peers, dialer.hist);
        if t.id in doneAt {
          HistHas(dialer.hist, PastDial(t.id, doneAt[t.id] + HISTORY_EXPIRATION));
        }
      }
    }

    /** scheduleTasks: the queue first, then new tasks if there is room. Nothing is lost,
        started twice or overtaken, and no dial is made to a node that is connected or
        whose last dial ended less than the waiting time ago. A dial made earlier is
        started without asking again: one to a connected node is started exactly when it
        waits in the part of the queue there is room for. */
    method ScheduleTasks(randomNodes: seq<nat>, now: int) returns (ghost added: seq<Task>)
      requires Valid() && now >= clock
      modifies this, dialer
      ensures Valid() && peers == old(peers) && doneAt == old(doneAt) && clock == now && arrived == old(arrived)
      ensures old(running) <= running && Tasks() == old(Tasks()) + added
      ensures StartsConnected(old(running), running, peers) <==> FrontConnected(old(running), old(queued), peers)
      ensures queued == [] || |running| == MAX_ACTIVE
      ensures forall t :: t in added && t.Dial? ==>
        t.id !in peers && (t.id in doneAt ==> doneAt[t.id] + HISTORY_EXPIRATION < now)
      ensures old(|running| + |queued|) < MAX_ACTIVE ==>
        forall id :: id in dialer.statics ==> id in dialer.dialing || id in Known(peers, dialer.hist)
      ensures dialer.statics == old(dialer.statics) && (Wait in added ==> added == [Wait])
      ensures dialer.maxDynDials == 0 && !old(dialer.lookupRunning) ==> !dialer.lookupRunning
      ensures forall p :: p in dialer.hist ==> p in old(dialer.hist)
    {
      hide Outstanding, DynSet, HistIds, Ordered, Remembered, Known, StartsConnected, FrontConnected;
      ghost var all, running0, queued0 := Tasks(), running, queued;
      RememberedLater(doneAt, dialer.hist, clock, now);
      queued := StartTasks(queued);
      assert Tasks() == all;
      added := [];
      if |running| < MAX_ACTIVE {
        var nt := AskDialer(randomNodes, now);
        added := nt;
        ghost var before := running;
        assert queued == [] && all == before;
        var rest := StartTasks(nt);
        queued := queued + rest;
        assert before <= running;
        assert Tasks() == all + nt;
      } else {
        clock := now;
        assert all + [] == all;
      }
      StartsConnectedIff(running0, queued0, added, running, queued, peers);
    }

    /** delTask: what is finished leaves the running list. */
    method DelTask(t: Task)
      modifies `running
      ensures running == Without(old(running), t)
    {
      for i := 0 to |running|
        invariant running == old(running) && t !in running[..i]
      {
        if running[i] == t {
          WithoutAt(running, i);
          running := running[..i] + running[i + 1..];
          return;
        }
      }
      WithoutNone(running, t);
    }

    /** A running one is done: the scheduler is told, and it is removed. */
    method Finish(t: Task, results: seq<nat>, now: int)
      requires Valid() && t in running && now >= clock
      modifies this, dialer
      ensures Valid() && peers == old(peers) && queued == old(queued) && clock == now
      ensures running == Without(old(running), t) && t !in Tasks()
      ensures doneAt == if t.Dial? then old(doneAt)[t.id := now] else old(doneAt)
      ensures arrived == if t.Dial? then old(arrived) - {t.id} else old(arrived)
    {
      hide Outstanding, DynSet, HistIds, Without, Remembered, Ordered;
      ghost var all, d0, h0, l0 := Tasks(), dialer.dialing, dialer.hist, dialer.lookupRunning;
      ghost var i :| 0 <= i < |running| && running[i] == t;
      assert all[i] == t && all[..i] == running[..i];
      OutstandingRemoves(all, d0, l0, i);
      RemovedIsGone(all, d0, l0, i);
      assert Dropped(all, i) == Dropped(running, i) + queued;
      WithoutAt(running, i);
      dialer.TaskDone(t, results, now);
      DelTask(t);
      RememberedLater(doneAt, h0, clock, now);
      DynShrinks(d0, dialer.dialing, peers);
      if t.Dial? {
        RememberedDone(doneAt, h0, dialer.hist, clock, t.id, now);
        doneAt, arrived := doneAt[t.id := now], arrived - {t.id};
        HistAdds(h0, dialer.hist, PastDial(t.id, now + HISTORY_EXPIRATION));
      }
      clock := now;
    }

    /** A connection becomes a peer; a dynamically dialed one comes from a running dial. */
    method AddPeer(id: nat, dyn: bool)
      requires Valid() && (dyn ==> Dial(id, true) in running)
      modifies `peers, `arrived
      ensures Valid() && peers == old(peers)[id := dyn]
      ensures arrived == if id in dialer.dialing then old(arrived) + {id} else old(arrived)
    {
      hide Remembered, Ordered, Outstanding, DynSet, HistIds;
      DynPeer(dialer.dialing, peers, id, dyn, Tasks(), dialer.lookupRunning);
      peers := peers[id := dyn];
      if id in dialer.dialing {
        arrived := arrived + {id};
      }
    }

    method DelPeer(id: nat)
      requires Valid()
      modifies `peers
      ensures Valid() && peers == old(peers) - {id}
    {
      hide Remembered, Ordered, Outstanding;
      DynShrinks(peers, peers - {id}, dialer.dialing);
      assert DynSet(peers - {id}) + DynSet(dialer.dialing) == DynSet(dialer.dialing) + DynSet(peers - {id});
      assert DynSet(peers) + DynSet(dialer.dialing) == DynSet(dialer.dialing) + DynSet(peers);
      peers := peers - {id};
    }

    method AddStatic(id: nat)
      requires Valid()
      modifies dialer
      ensures Valid()
    {
      dialer.AddStatic(id);
    }

    /** The loop: schedule, then wait for one event, for any run of events, any times of
        scheduling and any waits. An event that cannot happen is passed over. */
    method Run(events: seq<(Event, seq<nat>, nat, nat)>, start: int)
      requires Valid() && clock <= start
      modifies this, dialer
      ensures Valid()
    {
      hide Valid;
      var now := start;
      for i := 0 to |events|
        invariant Valid() && clock <= now
      {
        var (event, randomNodes, delay, wait) := events[i];
        now := now + delay;
        ghost var added := ScheduleTasks(randomNodes, now);
        now := now + wait;
        match event
        case TaskDone(t, results) =>
          if t in running { Finish(t, results, now); }
        case PeerAdded(id, dyn) =>
          if !dyn || Dial(id, true) in running { AddPeer(id, dyn); }
        case PeerGone(id) => DelPeer(id);
        case StaticAdded(id) => AddStatic(id);
      }
    }
  }

  /** As many tasks as targets. */
  lemma {:induction false} TasksCover(ts: seq<Task>, ids: set<nat>)
    requires forall id :: id in ids ==> exists t :: t in ts && t.Dial? && t.id == id
    ensures |ts| >= |ids|
    decreases |ts|
  {
    if ts == [] {
      assert ids == {};
    } else {
      var init, last := ts[..|ts| - 1], ts[|ts| - 1];
      var rest := if last.Dial? then ids - {last.id} else ids;
      forall id | id in rest
        ensures exists t :: t in init && t.Dial? && t.id == id
      {
        var t :| t in ts && t.Dial? && t.id == id;
        assert t in init;
      }
      TasksCover(init, rest);
    }
  }

  /** A run in which a connected node is dialed, for any more static nodes than can be
      dialed at once: one has to wait, it connects by itself, and the next task to finish
      makes room for its dial. */
  method ConnectedNodeDialed(statics: set<nat>) returns (s: Server, ghost before: seq<Task>)
    requires |statics| > MAX_ACTIVE
    ensures s.Valid() && before <= s.running && StartsConnected(before, s.running, s.peers)
  {
    s := new Server(statics, 0);
    ghost var added := s.ScheduleTasks([], 0);
    assert s.Tasks() == added;
    OneWaits(s);
    before := StartWaiting(s, 0);
  }

  /** The target of the first dial in the queue connects, and a task finishes. */
  method StartWaiting(s: Server, now: int) returns (ghost before: seq<Task>)
    requires s.Valid() && |s.running| == MAX_ACTIVE && s.queued != [] && s.queued[0].Dial? && now >= s.clock
    modifies s, s.dialer
    ensures s.Valid() && before <= s.running && StartsConnected(before, s.running, s.peers)
  {
    hide Outstanding, Ordered, Remembered, DynSet, HistIds, Without, Known, StartsConnected;
    s.AddPeer(s.queued[0].id, false);
    WithoutSize(s.running);
    s.Finish(s.running[0], [], now);
    before := s.running;
    assert FrontConnected(s.running, s.queued, s.peers);
    ghost var added := s.ScheduleTasks([], now);
  }

  lemma WithoutSize(ts: seq<Task>)
    requires ts != []
    ensures |Without(ts, ts[0])| == |ts| - 1
  {}

  lemma OneWaits(s: Server)
    requires s.Valid() && |s.dialer.statics| > MAX_ACTIVE && s.dialer.statics <= s.dialer.dialing.Keys
    requires s.queued == [] || |s.running| == MAX_ACTIVE
    requires !s.dialer.lookupRunning && (Wait in s.Tasks() ==> s.Tasks() == [Wait])
    ensures |s.running| == MAX_ACTIVE && s.queued != [] && s.queued[0].Dial?
  {
    TasksCover(s.Tasks(), s.dialer.statics);
    assert s.Tasks()[|s.running|] == s.queued[0];
  }

  datatype Event = TaskDone(task: Task, results: seq<nat>) | PeerAdded(id: nat, dyn: bool) | PeerGone(id: nat) | StaticAdded(id: nat)

  /** A dynamic peer was counted as a dynamic dial before. */
  lemma DynPeer(dialing: map<nat, bool>, peers: map<nat, bool>, id: nat, dyn: bool, ts: seq<Task>, lookup: bool)
    requires Outstanding(ts, dialing, lookup) && (dyn ==> Dial(id, true) in ts)
    ensures |DynSet(dialing) + DynSet(peers[id := dyn])| <= |DynSet(dialing) + DynSet(peers)|
  {
    if dyn {
      var i :| 0 <= i < |ts| && ts[i] == Dial(id, true);
      assert id in DynSet(dialing);
    }
    SubsetSize(DynSet(dialing) + DynSet(peers[id := dyn]), DynSet(dialing) + DynSet(peers));
  }

  lemma NewTargets(d0: map<nat, bool>, d1: map<nat, bool>, dials: seq<Task>, known: set<nat>)
    requires Extended(d0, d1, dials, known)
    ensures forall id :: id in d1 ==> id in d0 || id !in known
    ensures forall t :: t in dials ==> t.Dial? && t.id !in known
  {
    forall id | id in d1 && id !in d0
      ensures id !in known
    {
      assert Dial(id, d1[id]) in dials;
    }
  }

  /** A lookup or a wait that the scheduler adds is not there yet. */
  lemma NoCopy(ts: seq<Task>, d: map<nat, bool>, lookup: bool, t: Task)
    requires Outstanding(ts, d, lookup)
    requires (t == Discover && !lookup) || (t == Wait && ts == [])
    ensures t !in ts
  {}

  lemma {:induction false} WithoutNone(ts: seq<Task>, t: Task)
    requires t !in ts
    ensures Without(ts, t) == ts
  {
    if ts != [] {
      WithoutNone(ts[1..], t);
    }
  }

  lemma HistHas(h: seq<PastDial>, p: PastDial)
    ensures p in h ==> p.id in HistIds(h)
  {}

  lemma RemovedIsGone(ts: seq<Task>, d: map<nat, bool>, lookup: bool, i: nat)
    requires Outstanding(ts, d, lookup) && i < |ts|
    ensures ts[i] !in Dropped(ts, i) && ts[i] !in ts[..i]
    ensures ts[i].Dial? ==> ts[i].id in d
  {
    DroppedDiffer(ts, i);
  }

  lemma DynShrinks(d0: map<nat, bool>, d1: map<nat, bool>, peers: map<nat, bool>)
    requires forall id :: id in d1 ==> id in d0 && d1[id] == d0[id]
    ensures |DynSet(d1) + DynSet(peers)| <= |DynSet(d0) + DynSet(peers)|
  {
    SubsetSize(DynSet(d1) + DynSet(peers), DynSet(d0) + DynSet(peers));
  }

  lemma HistAdds(h0: seq<PastDial>, h1: seq<PastDial>, p: PastDial)
    requires forall q :: q in h1 <==> q in h0 || q == p
    ensures HistIds(h1) == HistIds(h0) + {p.id}
  {
    assert p in h1;
    forall id | id in HistIds(h0)
      ensures id in HistIds(h1)
    {
      var q :| q in h0 && q.id == id;
      assert q in h1;
    }
  }
}
