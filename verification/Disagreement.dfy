/** Why agreement on proposed heights carries its two conditions. Four members, one
    of them faulty: a pre-prepare whose digest is not the one of its request lets
    two requests for one height gather quorums, and a request with the largest id
    makes the leader reuse an id, so that one quorum commits two requests. */
module Disagreement {
  import opened Text
  import opened Messages
  import opened Quorum
  import opened Votes
  import opened BlockPool
  import opened Node
  import opened NodeFacts
  import opened NodeQuorum
  import opened Consensus
  import opened Agreement

  // ---- a node answering a pre-prepare and then voting

  predicate Quiet(c: Cert, pp: PrePrepare) {
    && c.prepare == [] && c.commit == [] && !c.sentPrepare && !c.sentCommit
    && (c.prePrepare.Some? ==> c.prePrepare.value.digest == pp.digest)
  }

  predicate Idle(s: State, pp: PrePrepare) {
    && s.ready && s.n >= 2 && pp.view == s.view && pp.request.reqId == pp.reqId
    && (pp.digest in s.reqStore || (pp.request.sender == s.leader && pp.request.view >= s.view))
    && pp.request.height > s.current
    && Quiet(CertAt(s, MsgId(pp.view, pp.reqId)), pp)
  }

  function Ballot(pp: PrePrepare, ps: seq<Prepare>, voted: bool): (c: Cert) { Cert(Some(pp), true, ps, voted, []) }

  /** t differs from s in the certificate of pp only, as far as voting goes. */
  predicate Changed(s: State, t: State, pp: PrePrepare, c: Cert) {
    && t.id == s.id && t.leader == s.leader && t.view == s.view && t.n == s.n && t.ready == s.ready
    && t.current == s.current && t.certs == s.certs[MsgId(pp.view, pp.reqId) := c]
  }

  lemma EntersQuietly(u: State, pp: PrePrepare)
    requires u.n >= 2 && pp.request.reqId == pp.reqId && Quiet(CertAt(u, MsgId(pp.view, pp.reqId)), pp)
    ensures var id := MsgId(pp.view, pp.reqId);
            EnterPrePrepare(u, pp) == (SetCert(u, id, CertAt(u, id).(prePrepare := Some(pp))), [])
  {
    hide Prepared, RecvPrepareAgain;
    var id := MsgId(pp.view, pp.reqId);
    NotPrepared(SetCert(u, id, CertAt(u, id).(prePrepare := Some(pp))), pp.digest, pp.view, pp.reqId);
  }

  lemma Answers(t: State, pp: PrePrepare, exe: string, now: Time)
    requires pp.request.reqId == pp.reqId && pp.digest in t.reqStore
    requires CertAt(t, MsgId(pp.view, pp.reqId)) == Cert(Some(pp), false, [], false, [])
    ensures var o := Answer(t, pp, exe, now);
            && Changed(t, o.0, pp, Ballot(pp, [], false))
            && o.0.reqStore == t.reqStore && o.0.commitStore == t.commitStore
            && PrepareMsg(OwnPrepare(t, pp, exe)) in o.1
  {
    hide Put, Lookup;
    assert PrePrepared(t, pp.digest, pp.view, pp.reqId);
  }

  lemma Enters(s: State, pp: PrePrepare, exe: string, now: Time)
    requires Idle(s, pp)
    ensures var o := RecvPrePrepare(s, pp, exe, now);
            && Changed(s, o.0, pp, Ballot(pp, [], false))
            && o.0.reqStore == (if pp.digest in s.reqStore then s.reqStore else s.reqStore[pp.digest := pp.request])
            && o.0.commitStore == s.commitStore
            && PrepareMsg(OwnPrepare(s, pp, exe)) in o.1
  {
    hide EnterPrePrepare, Answer, PrePrepared;
    var id := MsgId(pp.view, pp.reqId);
    var u := Touch(StoreRequest(s, pp), id);
    EntersQuietly(u, pp);
    var t := SetCert(u, id, CertAt(u, id).(prePrepare := Some(pp)));
    Answers(t, pp, exe, now);
    assert [] + Answer(t, pp, exe, now).1 == Answer(t, pp, exe, now).1;
  }

  lemma NotPrepared(s: State, d: Digest, v: uint64, r: uint64)
    requires s.n >= 2 && CertAt(s, MsgId(v, r)).prepare == []
    ensures !Prepared(s, d, v, r)
  {
    QuorumFormula(s.n);
  }

  /** The prepare backs pp's request and its sender is new. */
  predicate Backs(s: State, pp: PrePrepare, ps: seq<Prepare>, p: Prepare) {
    && s.ready && pp.view == s.view && MsgId(pp.view, pp.reqId) in s.certs
    && s.certs[MsgId(pp.view, pp.reqId)] == Ballot(pp, ps, false)
    && Matches(p, pp.view, pp.reqId, pp.digest) && !HasSender(ps, p.sender)
    && (forall i :: 0 <= i < |ps| ==> Matches(ps[i], pp.view, pp.reqId, pp.digest))
    && pp.digest in s.reqStore && s.reqStore[pp.digest].height > s.current
    && s.reqStore[pp.digest].height !in s.commitStore
  }

  lemma {:induction false} AllMatch(ps: seq<Prepare>, v: uint64, r: uint64, d: Digest)
    requires forall i :: 0 <= i < |ps| ==> Matches(ps[i], v, r, d)
    ensures MatchCount(ps, v, r, d) == |ps|
  {
    if ps != [] {
      AllMatch(ps[..|ps| - 1], v, r, d);
    }
  }

  lemma Collects(s: State, pp: PrePrepare, ps: seq<Prepare>, p: Prepare)
    requires Backs(s, pp, ps, p)
    ensures var o := RecvPrepare(s, p);
            var votes := |ps| + 1 >= GetQuorum(s.n);
            && Changed(s, o.0, pp, Ballot(pp, ps + [p], votes))
            && o.0.reqStore == s.reqStore
            && (!votes ==> o.0.commitStore == s.commitStore)
            && (votes ==> o.0.commitStore == Prune(s.commitStore[s.reqStore[pp.digest].height := s.reqStore[pp.digest].hash], s.current))
            && (votes ==> exists k: Commit :: CommitMsg(k) in o.1 && k.sender == s.id && k.reqId == pp.reqId)
  {
    var id := MsgId(pp.view, pp.reqId);
    var u := Touch(s, id);
    assert u == s;
    var req := s.reqStore[pp.digest];
    var t := AddPrepare(s, p);
    AllMatch(ps, pp.view, pp.reqId, pp.digest);
    AllMatch(ps + [p], pp.view, pp.reqId, pp.digest);
    var vote := Vote(t, req, p);
    hide MatchCount, Opinion, Prune;
    if |ps| + 1 >= GetQuorum(s.n) && PrePrepared(s, pp.digest, pp.view, pp.reqId) {
      assert Prepared(t, p.digest, p.view, p.reqId);
      assert CommitMsg(vote) in RecvPrepare(s, p).1;
    }
  }

  // ---- runs of four members, member 3 faulty, member 0 leading

  const CFG := Config({0, 1, 2, 3}, {3}, 0, 1, 1)

  /** Which of the two conditions of Careful a run may break. */
  datatype Flaw = Digests | Counter

  predicate CarefulBut(f: Flaw, s: Sys, e: Event) {
    (f.Digests? || InputMatches(e.input)) && (f.Counter? || CounterFits(CFG, s, e))
  }

  /** Runs in which every step meets the condition that f does not name. */
  ghost predicate ReachesBut(f: Flaw, events: seq<Event>, s: Sys)
    decreases |events|
  {
    if events == [] then s == Initial(CFG)
    else
      var init, e := events[..|events| - 1], events[|events| - 1];
      exists before: Sys :: ReachesBut(f, init, before) && Next(CFG, before, e, s) && CarefulBut(f, before, e)
  }

  lemma {:induction false} ButReaches(f: Flaw, events: seq<Event>, s: Sys)
    requires ReachesBut(f, events, s)
    ensures Reaches(CFG, events, s)
    decreases |events|
  {
    if events != [] {
      var init, e := events[..|events| - 1], events[|events| - 1];
      var u: Sys :| ReachesBut(f, init, u) && Next(CFG, u, e, s) && CarefulBut(f, u, e);
      ButReaches(f, init, u);
    }
  }

  ghost predicate Reachable(f: Flaw, s: Sys) { exists events: seq<Event> :: ReachesBut(f, events, s) }

  lemma ConfigValid()
    ensures ValidConfig(CFG) && |CFG.members| == 4 && GetQuorum(4) == 3
  {
    assert |CFG.members| == 4;
  }

  lemma ReachStep(f: Flaw, s: Sys, e: Event)
    requires Reachable(f, s) && Allowed(CFG, s, e) && e.node in s.nodes && CarefulBut(f, s, e)
    ensures Reachable(f, Apply(s, e))
  {
    var events :| ReachesBut(f, events, s);
    var more := events + [e];
    assert more[..|more| - 1] == events && more[|more| - 1] == e;
    assert Next(CFG, s, e, Apply(s, e));
    assert ReachesBut(f, more, Apply(s, e));
  }

  /** The state of the three correct members. */
  predicate Members(s: Sys) {
    && 0 in s.nodes && 1 in s.nodes && 2 in s.nodes
    && NodeInConfig(CFG, 0, s.nodes[0]) && NodeInConfig(CFG, 1, s.nodes[1]) && NodeInConfig(CFG, 2, s.nodes[2])
    && s.nodes[0].ready && s.nodes[1].ready && s.nodes[2].ready
  }

  function P(x: NodeId, pp: PrePrepare): (p: Prepare) { Prepare(x, pp.view, pp.reqId, pp.digest, "") }

  predicate Deliver(s: Sys, x: NodeId, pp: PrePrepare) { x == 3 || (x in {0, 1, 2} && PrepareMsg(P(x, pp)) in s.net) }

  /** Everything but member x is as before, and the network only grew. */
  predicate OnlyMoved(s: Sys, t: Sys, x: NodeId) {
    x in t.nodes && t.nodes == s.nodes[x := t.nodes[x]] && s.net <= t.net
  }

  lemma SysEnter(f: Flaw, s: Sys, x: NodeId, pp: PrePrepare) returns (t: Sys)
    requires Reachable(f, s) && Members(s) && x in {0, 1, 2} && Idle(s.nodes[x], pp)
    requires Deliverable(CFG, s, PrePrepareMsg(pp)) && DigestMatches(pp)
    ensures Reachable(f, t) && Members(t) && OnlyMoved(s, t, x) && Deliver(t, x, pp)
    ensures Changed(s.nodes[x], t.nodes[x], pp, Ballot(pp, [], false))
    ensures t.nodes[x].commitStore == s.nodes[x].commitStore
    ensures var store := s.nodes[x].reqStore;
            t.nodes[x].reqStore == if pp.digest in store then store else store[pp.digest := pp.request]
  {
    hide RecvPrePrepare, Idle;
    var e := Event(x, Receive(PrePrepareMsg(pp), "", 0));
    Enters(s.nodes[x], pp, "", 0);
    ReachStep(f, s, e);
    t := Apply(s, e);
  }

  lemma SysCollect(f: Flaw, s: Sys, x: NodeId, pp: PrePrepare, ps: seq<Prepare>, y: NodeId) returns (t: Sys)
    requires Reachable(f, s) && Members(s) && x in {0, 1, 2} && Deliver(s, y, pp)
    requires Backs(s.nodes[x], pp, ps, P(y, pp))
    ensures Reachable(f, t) && Members(t) && OnlyMoved(s, t, x)
    ensures Changed(s.nodes[x], t.nodes[x], pp, Ballot(pp, ps + [P(y, pp)], |ps| + 1 >= 3))
    ensures t.nodes[x].reqStore == s.nodes[x].reqStore
    ensures |ps| + 1 < 3 ==> t.nodes[x].commitStore == s.nodes[x].commitStore
    ensures |ps| + 1 >= 3 ==>
              var req := s.nodes[x].reqStore[pp.digest];
              t.nodes[x].commitStore == Prune(s.nodes[x].commitStore[req.height := req.hash], s.nodes[x].current)
    ensures |ps| + 1 >= 3 ==> Voted(CFG, t.net, x, pp.reqId)
  {
    ConfigValid();
    hide RecvPrepare, HasSender;
    var e := Event(x, Receive(PrepareMsg(P(y, pp)), "", 0));
    Collects(s.nodes[x], pp, ps, P(y, pp));
    ReachStep(f, s, e);
    t := Apply(s, e);
  }

  /** Prepares of three members make x vote. */
  lemma SysVote(f: Flaw, s: Sys, x: NodeId, pp: PrePrepare, y: NodeId, z: NodeId) returns (t: Sys)
    requires Reachable(f, s) && Members(s) && x in {0, 1, 2}
    requires y != z && y != 3 && z != 3 && Deliver(s, y, pp) && Deliver(s, z, pp)
    requires Backs(s.nodes[x], pp, [], P(y, pp))
    ensures Reachable(f, t) && Members(t) && OnlyMoved(s, t, x)
    ensures t.nodes[x].certs == s.nodes[x].certs[MsgId(pp.view, pp.reqId) := Ballot(pp, [P(y, pp), P(z, pp), P(3, pp)], true)]
    ensures t.nodes[x].reqStore == s.nodes[x].reqStore && t.nodes[x].current == s.nodes[x].current
    ensures var req := s.nodes[x].reqStore[pp.digest];
            t.nodes[x].commitStore == Prune(s.nodes[x].commitStore[req.height := req.hash], s.nodes[x].current)
    ensures Voted(CFG, t.net, x, pp.reqId)
  {
    hide Reachable, Members, Prune;
    var ps := [P(y, pp)];
    var u := SysCollect(f, s, x, pp, [], y);
    assert [] + ps == ps;
    var w := SysCollect(f, u, x, pp, ps, z);
    t := SysCollect(f, w, x, pp, ps + [P(z, pp)], 3);
    assert ps + [P(z, pp)] + [P(3, pp)] == [P(y, pp), P(z, pp), P(3, pp)];
  }

  // ---- the run

  function Proposal(id: uint64, b: Block): (r: Request) { Request(id, 0, 1, b.number, BlockHash(b), b) }

  function Req(id: uint64, h: uint64): (r: Request) { Proposal(id, Block(h, 0)) }

  function Pre(r: Request): (pp: PrePrepare) { PrePrepare(0, 1, r.reqId, RequestDigest(r), r) }

  /** A pre-prepare of the faulty member: request 3 is said to be the earlier request 2. */
  const MISMATCH := PrePrepare(3, 1, 3, RequestDigest(Req(3, 3)), Req(2, 2))

  lemma Proposes(s: State, b: Block)
    requires s.id == 0 && s.view == 1 && b.number > s.current && s.lastReqId < 100
    ensures var o := Step(s, Propose(b));
            && o.0 == s.(lastReqId := s.lastReqId + 1)
            && o.1 == [RequestMsg(Proposal(s.lastReqId + 1, b))]
  {
    hide BlockHash;
    assert (s.lastReqId + 1) % TWO_64 == s.lastReqId + 1;
  }

  lemma SysPropose(f: Flaw, s: Sys, b: Block) returns (t: Sys)
    requires Reachable(f, s) && Members(s) && b.number > s.nodes[0].current && s.nodes[0].lastReqId < 100
    ensures Reachable(f, t) && Members(t) && OnlyMoved(s, t, 0)
    ensures t.nodes[0] == s.nodes[0].(lastReqId := s.nodes[0].lastReqId + 1)
    ensures RequestMsg(Proposal(s.nodes[0].lastReqId + 1, b)) in t.net
  {
    hide Step, Proposal;
    Proposes(s.nodes[0], b);
    var e := Event(0, Propose(b));
    ReachStep(f, s, e);
    t := Apply(s, e);
  }

  /** The leader receives its own request and posts the pre-prepare. */
  lemma LeaderTakes(n: State, r: Request)
    requires r.view == n.view == 1 && n.ready && n.id == n.leader == 0 && r.sender == 0 && r.height > n.current
    requires RequestDigest(r) !in n.reqStore && CertAt(n, MsgId(1, r.reqId)) == EMPTY_CERT
    ensures var o := RecvRequest(n, r, 0);
      && Changed(n, o.0, Pre(r), EMPTY_CERT.(prePrepare := Some(Pre(r))))
      && o.0.reqStore == n.reqStore[RequestDigest(r) := r] && o.0.commitStore == n.commitStore
      && PrePrepareMsg(Pre(r)) in o.1
  {
    hide Put, RequestDigest;
    assert PrePrepareMsg(Pre(r)) in RecvRequest(n, r, 0).1;
  }

  lemma SysRequest(f: Flaw, s: Sys, r: Request) returns (t: Sys)
    requires Reachable(f, s) && Members(s) && RequestMsg(r) in s.net && r.sender == 0 && r.view == 1
    requires r.height > s.nodes[0].current
    requires RequestDigest(r) !in s.nodes[0].reqStore
    requires CertAt(s.nodes[0], MsgId(1, r.reqId)) == EMPTY_CERT
    ensures Reachable(f, t) && Members(t) && OnlyMoved(s, t, 0)
    ensures PrePrepareMsg(Pre(r)) in t.net
    ensures Changed(s.nodes[0], t.nodes[0], Pre(r), EMPTY_CERT.(prePrepare := Some(Pre(r))))
    ensures t.nodes[0].reqStore == s.nodes[0].reqStore[RequestDigest(r) := r]
    ensures t.nodes[0].commitStore == s.nodes[0].commitStore
  {
    hide RequestDigest, RecvRequest, RecvPrePrepare, RecvPrepare, RecvCommit, RecvCheckpoint, SendRequest, CertAt;
    var e := Event(0, Receive(RequestMsg(r), "", 0));
    LeaderTakes(s.nodes[0], r);
    ReachStep(f, s, e);
    t := Apply(s, e);
    hide Reachable;
    assert PrePrepareMsg(Pre(r)) in Step(s.nodes[0], e.input).1;
  }

  lemma MismatchStored(s: State)
    requires s.ready && s.view == 1 && s.leader == 0 && s.n == 4 && s.current == 1
    requires s.reqStore == map[] && s.certs == map[]
    ensures var t := RecvPrePrepare(s, MISMATCH, "", 0).0;
            && t.reqStore == map[RequestDigest(Req(3, 3)) := Req(2, 2)]
            && t.certs.Keys == {MsgId(1, 2)}
            && t.current == 1 && t.commitStore == s.commitStore && t.ready
  {
    hide RequestDigest, Put, Lookup;
    var id := MsgId(1, 2);
    var u := Touch(StoreRequest(s, MISMATCH), id);
    var t := SetCert(u, id, CertAt(u, id).(prePrepare := Some(MISMATCH)));
    assert !PrePrepared(t, MISMATCH.digest, 1, 2);
    assert EnterPrePrepare(u, MISMATCH) == (t, []);
    assert !PrePrepared(t, MISMATCH.digest, 1, 3);
  }

  lemma SysMismatch(s: Sys) returns (t: Sys)
    requires Reachable(Digests, s) && Members(s) && RequestMsg(Req(2, 2)) in s.net
    requires s.nodes[1].reqStore == map[] && s.nodes[1].certs == map[] && s.nodes[1].current == 1
    ensures Reachable(Digests, t) && Members(t) && OnlyMoved(s, t, 1)
    ensures t.nodes[1].reqStore == map[RequestDigest(Req(3, 3)) := Req(2, 2)]
    ensures t.nodes[1].certs.Keys == {MsgId(1, 2)}
    ensures t.nodes[1].current == 1 && t.nodes[1].commitStore == s.nodes[1].commitStore
  {
    ConfigValid();
    hide RecvPrePrepare, RequestDigest;
    var e := Event(1, Receive(PrePrepareMsg(MISMATCH), "", 0));
    MismatchStored(s.nodes[1]);
    StepVotes(s.nodes[1], e.input);
    ReachStep(Digests, s, e);
    t := Apply(s, e);
  }

  lemma DigestsDiffer(i: uint64, h: uint64, j: uint64, k: uint64)
    requires i != j
    ensures RequestDigest(Req(i, h)) != RequestDigest(Req(j, k))
  {
    if RequestDigest(Req(i, h)) == RequestDigest(Req(j, k)) {
      DigestInjective(i, j);
    }
  }

  function Start(x: NodeId): (s: State) { Fresh(x, 0, 1, 4, 1) }

  lemma SysStart(f: Flaw) returns (s: Sys)
    ensures Reachable(f, s) && Members(s)
    ensures s.nodes[0] == Start(0) && s.nodes[1] == Start(1) && s.nodes[2] == Start(2)
  {
    ConfigValid();
    s := Initial(CFG);
    var none: seq<Event> := [];
    assert ReachesBut(f, none, s);
    assert Correct(CFG, 0) && Correct(CFG, 1) && Correct(CFG, 2);
  }

  predicate Requested(net: set<Message>) {
    RequestMsg(Req(2, 2)) in net && RequestMsg(Req(3, 3)) in net && RequestMsg(Req(4, 3)) in net
  }

  /** The leader proposes block 2, then block 3 twice. */
  lemma LeaderProposes(f: Flaw) returns (s: Sys)
    ensures Reachable(f, s) && Members(s) && Requested(s.net)
    ensures s.nodes[0] == Start(0).(lastReqId := 4) && s.nodes[1] == Start(1) && s.nodes[2] == Start(2)
  {
    hide Reachable, Members, Proposal;
    var s0 := SysStart(f);
    assert Members(s0);
    var s1 := SysPropose(f, s0, Block(2, 0));
    var s2 := SysPropose(f, s1, Block(3, 0));
    s := SysPropose(f, s2, Block(3, 0));
  }

  /** The leader answers its proposal r. */
  lemma LeaderAnswers(f: Flaw, s: Sys, r: Request) returns (t: Sys)
    requires Reachable(f, s) && Members(s) && RequestMsg(r) in s.net && r.sender == 0 && r.view == 1
    requires r.height > s.nodes[0].current
    requires RequestDigest(r) !in s.nodes[0].reqStore && MsgId(1, r.reqId) !in s.nodes[0].certs
    ensures Reachable(f, t) && Members(t) && OnlyMoved(s, t, 0)
    ensures PrePrepareMsg(Pre(r)) in t.net && Deliver(t, 0, Pre(r))
    ensures t.nodes[0].certs == s.nodes[0].certs[MsgId(1, r.reqId) := Ballot(Pre(r), [], false)]
    ensures t.nodes[0].reqStore == s.nodes[0].reqStore[RequestDigest(r) := r]
    ensures t.nodes[0].commitStore == s.nodes[0].commitStore && t.nodes[0].current == s.nodes[0].current
  {
    hide Reachable, RequestDigest;
    ConfigValid();
    var u := SysRequest(f, s, r);
    t := SysEnter(f, u, 0, Pre(r));
  }

  /** What the leader has posted and holds after answering both proposals for block 3. */
  predicate LeaderReady(s: Sys) {
    var a, b := Pre(Req(3, 3)), Pre(Req(4, 3));
    && Requested(s.net) && PrePrepareMsg(a) in s.net && PrePrepareMsg(b) in s.net
    && Deliver(s, 0, a) && Deliver(s, 0, b)
  }

  lemma LeaderPart(f: Flaw) returns (s: Sys)
    ensures Reachable(f, s) && Members(s) && LeaderReady(s)
    ensures s.nodes[1] == Start(1) && s.nodes[2] == Start(2)
    ensures Backs(s.nodes[0], Pre(Req(3, 3)), [], P(0, Pre(Req(3, 3))))
  {
    DigestsDiffer(3, 3, 4, 3);
    hide Reachable, RequestDigest, BlockHash;
    var s0 := LeaderProposes(f);
    var s1 := LeaderAnswers(f, s0, Req(3, 3));
    s := LeaderAnswers(f, s1, Req(4, 3));
  }

  /** Member 1, misled, votes for request 3 at the height of request 2. */
  lemma FirstVote(s: Sys) returns (t: Sys)
    requires Reachable(Digests, s) && Members(s) && LeaderReady(s) && s.nodes[1] == Start(1)
    ensures Reachable(Digests, t) && Members(t) && OnlyMoved(s, t, 1)
    ensures Deliver(t, 1, Pre(Req(3, 3))) && Voted(CFG, t.net, 1, 3)
    ensures t.nodes[1].certs.Keys == {MsgId(1, 2), MsgId(1, 3)} && t.nodes[1].current == 1
    ensures t.nodes[1].reqStore.Keys == {RequestDigest(Req(3, 3))} && t.nodes[1].commitStore.Keys == {2}
  {
    ConfigValid();
    hide Reachable, RequestDigest, BlockHash, Voted;
    var a := Pre(Req(3, 3));
    var s1 := SysMismatch(s);
    var s2 := SysEnter(Digests, s1, 1, a);
    assert Backs(s2.nodes[1], a, [], P(0, a));
    t := SysVote(Digests, s2, 1, a, 0, 1);
  }

  /** A member that has not seen request 4 and not voted at height 3 votes for it. */
  lemma SecondVote(s: Sys, x: NodeId) returns (t: Sys)
    requires Reachable(Digests, s) && Members(s) && LeaderReady(s) && x in {1, 2}
    requires Undecided(s.nodes[x])
    ensures Reachable(Digests, t) && Members(t) && OnlyMoved(s, t, x)
    ensures Voted(CFG, t.net, x, 4)
  {
    ConfigValid();
    hide Reachable, RequestDigest, BlockHash, Voted;
    var b := Pre(Req(4, 3));
    var u := SysEnter(Digests, s, x, b);
    assert Backs(u.nodes[x], b, [], P(0, b));
    t := SysVote(Digests, u, x, b, 0, x);
  }

  lemma VotedLater(net: set<Message>, more: set<Message>, x: NodeId, r: uint64)
    requires Voted(CFG, net, x, r) && net <= more
    ensures Voted(CFG, more, x, r)
  {}

  /** The member may still vote for request 4. */
  predicate Undecided(s: State) {
    && s.current == 1 && 3 !in s.commitStore && MsgId(1, 4) !in s.certs
    && RequestDigest(Req(4, 3)) !in s.reqStore
  }

  lemma VotesFor3() returns (s: Sys)
    ensures Reachable(Digests, s) && Members(s) && LeaderReady(s) && Undecided(s.nodes[1]) && Undecided(s.nodes[2])
    ensures Voted(CFG, s.net, 0, 3) && Voted(CFG, s.net, 1, 3)
  {
    DigestsDiffer(3, 3, 4, 3);
    hide Reachable, RequestDigest, BlockHash, Voted, Proposal, Pre, CertAt;
    var s1 := LeaderPart(Digests);
    var s2 := FirstVote(s1);
    s := SysVote(Digests, s2, 0, Pre(Req(3, 3)), 0, 1);
    VotedLater(s2.net, s.net, 1, 3);
  }

  lemma Votes3And4() returns (s: Sys)
    ensures Reachable(Digests, s) && Members(s) && Requested(s.net)
    ensures Voted(CFG, s.net, 0, 3) && Voted(CFG, s.net, 1, 3)
    ensures Voted(CFG, s.net, 1, 4) && Voted(CFG, s.net, 2, 4)
  {
    hide Reachable, RequestDigest, BlockHash, Voted, Proposal, Pre, CertAt, Undecided;
    var s3 := VotesFor3();
    var s4 := SecondVote(s3, 1);
    s := SecondVote(s4, 2);
    VotedLater(s3.net, s.net, 1, 3);
    VotedLater(s3.net, s.net, 0, 3);
    VotedLater(s4.net, s.net, 1, 4);
  }

  /** Without the digest condition agreement fails: a run with one faulty member among
      four in which two different requests of the leader for height 3 both gather a
      quorum of commits, and the counter never wraps. */
  lemma AgreementNeedsMatchingDigests() returns (events: seq<Event>, s: Sys)
    ensures ValidConfig(CFG) && Reaches(CFG, events, s) && ReachesBut(Digests, events, s)
    ensures FromLeader(CFG, s.net, Req(3, 3)) && FromLeader(CFG, s.net, Req(4, 3))
    ensures CommitQuorum(CFG, s.net, {0, 1, 3}, 3) && CommitQuorum(CFG, s.net, {1, 2, 3}, 4)
  {
    ConfigValid();
    s := Votes3And4();
    events :| ReachesBut(Digests, events, s);
    ButReaches(Digests, events, s);
    assert |{0, 1, 3}| == 3 && |{1, 2, 3}| == 3;
  }

  // ---- the request counter

  const LAST_ID: uint64 := TWO_64 - 1

  const LARGEST := Request(LAST_ID, 3, 1, 2, "", Block(2, 0))

  lemma Raised(n: State)
    requires n.leader == 0
    ensures Step(n, Receive(RequestMsg(LARGEST), "", 0)) == (n.(lastReqId := LAST_ID), [])
  {
    hide Put, RequestDigest, RecvPrePrepare, RecvPrepare, RecvCommit, RecvCheckpoint, SendRequest;
  }

  /** A request of the faulty member carrying the largest id: it is refused, but the
      counter has been raised. */
  lemma SysRaise(f: Flaw, s: Sys) returns (t: Sys)
    requires Reachable(f, s) && Members(s)
    ensures Reachable(f, t) && Members(t) && OnlyMoved(s, t, 0)
    ensures t.nodes[0] == s.nodes[0].(lastReqId := LAST_ID)
  {
    hide Step;
    var e := Event(0, Receive(RequestMsg(LARGEST), "", 0));
    Raised(s.nodes[0]);
    ReachStep(f, s, e);
    t := Apply(s, e);
  }

  lemma SysWrap(s: Sys, h: uint64) returns (t: Sys)
    requires Reachable(Counter, s) && Members(s) && s.nodes[0].lastReqId == LAST_ID
    ensures Reachable(Counter, t) && Members(t) && OnlyMoved(s, t, 0)
    ensures t.nodes[0] == s.nodes[0].(lastReqId := 0)
  {
    hide BlockHash;
    var e := Event(0, Propose(Block(h, 0)));
    assert (LAST_ID + 1) % TWO_64 == 0;
    ReachStep(Counter, s, e);
    t := Apply(s, e);
  }

  /** The first proposal gathers its votes. */
  lemma VotesFor2() returns (s: Sys)
    ensures Reachable(Counter, s) && Members(s) && RequestMsg(Req(2, 2)) in s.net
    ensures Voted(CFG, s.net, 0, 2) && Voted(CFG, s.net, 1, 2)
    ensures s.nodes[0].current == 1
  {
    ConfigValid();
    hide Reachable, RequestDigest, BlockHash, Voted;
    var a := Pre(Req(2, 2));
    var s0 := SysStart(Counter);
    var s1 := SysPropose(Counter, s0, Block(2, 0));
    var s2 := LeaderAnswers(Counter, s1, Req(2, 2));
    var s3 := SysEnter(Counter, s2, 1, a);
    var s4 := SysVote(Counter, s3, 1, a, 0, 1);
    s := SysVote(Counter, s4, 0, a, 0, 1);
    VotedLater(s4.net, s.net, 1, 2);
  }

  /** The counter is raised to its largest value, wraps and reaches 2 again. */
  lemma ProposedAgain(s: Sys) returns (t: Sys)
    requires Reachable(Counter, s) && Members(s) && s.nodes[0].current == 1
    ensures Reachable(Counter, t) && s.net <= t.net
    ensures RequestMsg(Proposal(2, Block(2, 1))) in t.net
  {
    hide Reachable, Members, Proposal;
    var s1 := SysRaise(Counter, s);
    var s2 := SysWrap(s1, 3);
    var s3 := SysPropose(Counter, s2, Block(3, 0));
    t := SysPropose(Counter, s3, Block(2, 1));
  }

  /** Without the counter condition agreement fails: a run of the same members, with
      every digest matching, in which the leader's first request gathers a quorum of
      commits, its counter wraps, and a different request for the same height gets the
      same id, so that the one quorum commits both. */
  lemma AgreementNeedsCounter() returns (events: seq<Event>, s: Sys)
    ensures ValidConfig(CFG) && Reaches(CFG, events, s) && ReachesBut(Counter, events, s)
    ensures var a, b := Proposal(2, Block(2, 0)), Proposal(2, Block(2, 1));
      && a != b && a.height == b.height && FromLeader(CFG, s.net, a) && FromLeader(CFG, s.net, b)
      && CommitQuorum(CFG, s.net, {0, 1, 3}, a.reqId) && CommitQuorum(CFG, s.net, {0, 1, 3}, b.reqId)
  {
    ConfigValid();
    var u := VotesFor2();
    s := ProposedAgain(u);
    VotedLater(u.net, s.net, 0, 2);
    VotedLater(u.net, s.net, 1, 2);
    events :| ReachesBut(Counter, events, s);
    ButReaches(Counter, events, s);
    assert |{0, 1, 3}| == 3;
  }
}
