/** Agreement on the height a request was proposed for. */
module Agreement {
  import opened Text
  import opened Messages
  import opened Quorum
  import opened Votes
  import opened BlockPool
  import opened Node
  import opened NodeFacts
  import opened NodeEffects
  import opened NodeFlow
  import opened NodeQuorum
  import opened Consensus

  /** The two conditions agreement on proposed heights needs: pre-prepares name the
      digest of the request they carry, and the request counter does not wrap. */
  predicate Careful(c: Config, s: Sys, e: Event) { InputMatches(e.input) && CounterFits(c, s, e) }

  predicate CounterFits(c: Config, s: Sys, e: Event) {
    e.input.Propose? && c.leader in s.nodes ==> s.nodes[c.leader].lastReqId + 1 < TWO_64
  }

  ghost predicate ReachesCarefully(c: Config, events: seq<Event>, s: Sys)
    decreases |events|
  {
    if events == [] then s == Initial(c)
    else
      var init, e := events[..|events| - 1], events[|events| - 1];
      exists before: Sys :: ReachesCarefully(c, init, before) && Next(c, before, e, s) && Careful(c, before, e)
  }

  // ---- the leader's requests

  predicate FromLeader(c: Config, net: set<Message>, r: Request) { RequestMsg(r) in net && r.sender == c.leader }

  ghost predicate RequestsUnique(c: Config, net: set<Message>) {
    forall a, b ::
      FromLeader(c, net, a) && FromLeader(c, net, b) && a.reqId == b.reqId ==> a == b
  }

  ghost predicate RequestsBelow(c: Config, net: set<Message>, top: uint64) {
    forall a :: FromLeader(c, net, a) ==> a.reqId <= top
  }

  /** The vote names the height the leader proposed its request for. */
  ghost predicate Grounded(c: Config, net: set<Message>, k: Commit) {
    exists r: Request :: FromLeader(c, net, r) && r.reqId == k.reqId && r.height == k.vr.height
  }

  ghost predicate AgreementInvariant(c: Config, s: Sys) {
    && Invariant(c, s) && Correct(c, c.leader)
    && (forall x :: x in s.nodes ==> Sound(s.nodes[x]))
    && RequestsUnique(c, s.net)
    && RequestsBelow(c, s.net, s.nodes[c.leader].lastReqId)
    && (forall k: Commit :: CommitMsg(k) in s.net && Correct(c, k.sender) ==> Grounded(c, s.net, k))
  }

  lemma IdsGrow(n: State, i: Input)
    requires i.Propose? ==> n.lastReqId + 1 < TWO_64
    ensures n.lastReqId <= Step(n, i).0.lastReqId
    ensures i.Propose? ==> n.lastReqId < Step(n, i).0.lastReqId
    ensures i.Propose? ==> |Step(n, i).1| <= 1
    ensures i.Propose? ==> forall x :: x in Step(n, i).1 ==> x.RequestMsg? && x.request.reqId == Step(n, i).0.lastReqId
  {
    hide RecvRequest, RecvPrePrepare, RecvPrepare, RecvCommit, RecvCheckpoint, Without, Expired;
    if i.Receive? {
      hide Flows;
      ReceiveFlows(n, i.msg, i.exe, i.now);
      FlowsIds(n, i.msg, Step(n, i).0, Step(n, i).1);
    }
  }

  /** The counter condition, step by step: a proposal gets a new largest id exactly when
      it holds. */
  lemma ProposalIdNewIff(n: State, b: Block)
    ensures Step(n, Propose(b)).0.lastReqId > n.lastReqId <==> n.lastReqId + 1 < TWO_64
  {
    if n.lastReqId + 1 < TWO_64 {
      IdsGrow(n, Propose(b));
    }
  }

  lemma FlowsIds(s: State, m: Message, t: State, out: seq<Message>)
    requires Flows(s, m, t, out)
    ensures s.lastReqId <= t.lastReqId
  {}

  lemma NewRequest(c: Config, s: Sys, e: Event, r: Request)
    requires AgreementInvariant(c, s) && Allowed(c, s, e) && Careful(c, s, e)
    requires FromLeader(c, Apply(s, e).net, r) && RequestMsg(r) !in s.net
    ensures e.node == c.leader && e.input.Propose?
    ensures Step(s.nodes[e.node], e.input).1 == [RequestMsg(r)]
    ensures s.nodes[c.leader].lastReqId < r.reqId == Apply(s, e).nodes[c.leader].lastReqId
  {
    hide Step, NodeFed, VotesRecorded, VotesUnique, Sound;
    NewMessages(c, s, e, RequestMsg(r));
    IdsGrow(s.nodes[e.node], e.input);
  }

  lemma StepRequests(c: Config, s: Sys, e: Event)
    requires AgreementInvariant(c, s) && Allowed(c, s, e) && Careful(c, s, e)
    ensures RequestsUnique(c, Apply(s, e).net)
    ensures RequestsBelow(c, Apply(s, e).net, Apply(s, e).nodes[c.leader].lastReqId)
  {
    hide Step, NodeFed, VotesRecorded, VotesUnique, Sound;
    var t := Apply(s, e);
    IdsGrow(s.nodes[e.node], e.input);
    forall a | FromLeader(c, t.net, a) && RequestMsg(a) !in s.net
      ensures Step(s.nodes[e.node], e.input).1 == [RequestMsg(a)]
      ensures s.nodes[c.leader].lastReqId < a.reqId == t.nodes[c.leader].lastReqId
    {
      NewRequest(c, s, e, a);
    }
  }

  lemma StepGrounded(c: Config, s: Sys, e: Event, k: Commit)
    requires AgreementInvariant(c, s) && Allowed(c, s, e) && Careful(c, s, e)
    requires CommitMsg(k) in Apply(s, e).net && Correct(c, k.sender)
    ensures Grounded(c, Apply(s, e).net, k)
  {
    hide Step, VotesRecorded, VotesUnique, Sound, MatchSenders, HoldsPrepare, HoldsCommit;
    var t := Apply(s, e);
    if CommitMsg(k) in s.net {
      var r: Request :| FromLeader(c, s.net, r) && r.reqId == k.reqId && r.height == k.vr.height;
      assert FromLeader(c, t.net, r);
    } else {
      NewMessages(c, s, e, CommitMsg(k));
      var n := s.nodes[e.node];
      var o := Step(n, e.input);
      OwnVotesHas(e.node, o.1, k);
      StepSound(n, e.input);
      StepFed(c, s, e);
      assert Backed(o.0, k);
      assert FromLeader(c, t.net, o.0.reqStore[k.digest]);
    }
  }

  lemma StepAgreement(c: Config, s: Sys, e: Event)
    requires AgreementInvariant(c, s) && Allowed(c, s, e) && Careful(c, s, e)
    ensures AgreementInvariant(c, Apply(s, e))
  {
    hide Step, Grounded, RequestsUnique, RequestsBelow, NodeFed, VotesRecorded, VotesUnique, Sound;
    StepInvariant(c, s, e);
    StepRequests(c, s, e);
    StepSound(s.nodes[e.node], e.input);
    forall k: Commit | CommitMsg(k) in Apply(s, e).net && Correct(c, k.sender)
      ensures Grounded(c, Apply(s, e).net, k)
    {
      StepGrounded(c, s, e, k);
    }
  }

  lemma {:induction false} RunAgreement(c: Config, events: seq<Event>, s: Sys)
    requires ValidConfig(c) && ReachesCarefully(c, events, s)
    ensures AgreementInvariant(c, s)
    decreases |events|
  {
    if events == [] {
      InitialInvariant(c);
    } else {
      hide AgreementInvariant;
      var init, e := events[..|events| - 1], events[|events| - 1];
      var before: Sys :| ReachesCarefully(c, init, before) && Next(c, before, e, s) && Careful(c, before, e);
      RunAgreement(c, init, before);
      StepAgreement(c, before, e);
    }
  }

  // ---- earlier states of the same run

  lemma {:induction false} ReachesOne(c: Config, events: seq<Event>, s: Sys, t: Sys)
    requires ReachesCarefully(c, events, s) && ReachesCarefully(c, events, t)
    ensures s == t
    decreases |events|
  {
    if events != [] {
      var init, e := events[..|events| - 1], events[|events| - 1];
      var u: Sys :| ReachesCarefully(c, init, u) && Next(c, u, e, s) && Careful(c, u, e);
      var w: Sys :| ReachesCarefully(c, init, w) && Next(c, w, e, t) && Careful(c, w, e);
      ReachesOne(c, init, u, w);
    }
  }

  lemma {:induction false} NetGrows(c: Config, events: seq<Event>, s: Sys, i: nat, t: Sys)
    requires i <= |events| && ReachesCarefully(c, events, s) && ReachesCarefully(c, events[..i], t)
    ensures t.net <= s.net
    decreases |events|
  {
    if i == |events| {
      assert events[..i] == events;
      ReachesOne(c, events, s, t);
    } else {
      var init, e := events[..|events| - 1], events[|events| - 1];
      var u: Sys :| ReachesCarefully(c, init, u) && Next(c, u, e, s) && Careful(c, u, e);
      assert init[..i] == events[..i];
      NetGrows(c, init, u, i, t);
    }
  }

  // ---- agreement

  ghost predicate Voted(c: Config, net: set<Message>, x: NodeId, r: uint64) {
    x in c.faulty || exists k: Commit :: CommitMsg(k) in net && k.sender == x && k.reqId == r
  }

  /** The members of q voted for r, at whatever height their votes name. */
  ghost predicate CommitQuorum(c: Config, net: set<Message>, q: set<NodeId>, r: uint64) {
    && q <= c.members && |q| >= GetQuorum(|c.members|)
    && forall x :: x in q ==> Voted(c, net, x, r)
  }

  lemma CommitQuorumAt(c: Config, s: Sys, q: set<NodeId>, a: Request)
    requires AgreementInvariant(c, s)
    requires FromLeader(c, s.net, a) && CommitQuorum(c, s.net, q, a.reqId)
    ensures QuorumAt(c, s.net, q, a.reqId, a.height)
  {
    forall x | x in q
      ensures VotedAt(c, s.net, x, a.reqId, a.height)
    {
      assert Voted(c, s.net, x, a.reqId);
      if x !in c.faulty {
        var k: Commit :| CommitMsg(k) in s.net && k.sender == x && k.reqId == a.reqId;
        assert Grounded(c, s.net, k);
      }
    }
  }

  lemma {:induction false} CarefulReaches(c: Config, events: seq<Event>, s: Sys)
    requires ReachesCarefully(c, events, s)
    ensures Reaches(c, events, s)
    decreases |events|
  {
    if events != [] {
      var init, e := events[..|events| - 1], events[|events| - 1];
      var u: Sys :| ReachesCarefully(c, init, u) && Next(c, u, e, s) && Careful(c, u, e);
      CarefulReaches(c, init, u);
    }
  }

  /** Two requests the leader proposed for the same height, retries included, never
      both gather a quorum of commits. */
  lemma AgreementOnProposals(c: Config, events: seq<Event>, s: Sys, a: Request, b: Request, qa: set<NodeId>, qb: set<NodeId>)
    requires ValidConfig(c) && ReachesCarefully(c, events, s)
    requires FromLeader(c, s.net, a) && FromLeader(c, s.net, b) && a.height == b.height
    requires CommitQuorum(c, s.net, qa, a.reqId) && CommitQuorum(c, s.net, qb, b.reqId)
    ensures a == b
  {
    hide AgreementInvariant, CommitQuorum, QuorumAt;
    RunAgreement(c, events, s);
    CarefulReaches(c, events, s);
    CommitQuorumAt(c, s, qa, a);
    CommitQuorumAt(c, s, qb, b);
    AgreementAtVotedHeight(c, events, s, a.height, a.reqId, qa, b.reqId, qb);
    UniqueById(c, s, a, b);
  }

  lemma UniqueById(c: Config, s: Sys, a: Request, b: Request)
    requires AgreementInvariant(c, s) && FromLeader(c, s.net, a) && FromLeader(c, s.net, b) && a.reqId == b.reqId
    ensures a == b
  {}

  /** Behind a conclusion stands a quorum of commits of distinct members. */
  lemma ConclusionQuorum(c: Config, s: Sys, x: NodeId, k: Commit)
    requires Invariant(c, s) && x in s.nodes && Deliverable(c, s, CommitMsg(k)) && Concludes(s.nodes[x], k)
    ensures exists q :: CommitQuorum(c, s.net, q, k.reqId)
  {
    hide Prepared, Voters, VotesRecorded, VotesUnique;
    var n, id := s.nodes[x], MsgId(k.view, k.reqId);
    var before := CertAt(n, id).commit;
    var q := CommitSenders(before + [k], k.view, k.reqId);
    forall y | y in q
      ensures y in c.members && Voted(c, s.net, y, k.reqId)
    {
      var i :| 0 <= i < |before + [k]| && (before + [k])[i].reqId == k.reqId && (before + [k])[i].sender == y;
      var e := (before + [k])[i];
      if i < |before| {
        assert e == before[i] && e in before;
        assert HoldsCommit(n, e);
      }
    }
    assert CommitQuorum(c, s.net, q, k.reqId);
  }

  /** Whenever, at any two moments of a run and at any two correct nodes, commits
      conclude requests that the leader proposed for the same height, it is the
      same request. */
  lemma Agreement(c: Config, events: seq<Event>, s: Sys,
                  i: nat, s1: Sys, k1: Commit, a: Request,
                  j: nat, s2: Sys, k2: Commit, b: Request)
    requires ValidConfig(c) && ReachesCarefully(c, events, s)
    requires i < |events| && ReachesCarefully(c, events[..i], s1) && ConcludedBy(c, s1, events[i], k1)
    requires j < |events| && ReachesCarefully(c, events[..j], s2) && ConcludedBy(c, s2, events[j], k2)
    requires FromLeader(c, s.net, a) && a.reqId == k1.reqId
    requires FromLeader(c, s.net, b) && b.reqId == k2.reqId
    requires a.height == b.height
    ensures a == b
  {
    hide Concludes, Invariant;
    RunAgreement(c, events[..i], s1);
    RunAgreement(c, events[..j], s2);
    NetGrows(c, events, s, i, s1);
    NetGrows(c, events, s, j, s2);
    assert Invariant(c, s1) && Invariant(c, s2);
    ConclusionQuorum(c, s1, events[i].node, k1);
    ConclusionQuorum(c, s2, events[j].node, k2);
    var q1: set<NodeId> :| CommitQuorum(c, s1.net, q1, k1.reqId);
    var q2: set<NodeId> :| CommitQuorum(c, s2.net, q2, k2.reqId);
    QuorumGrows(c, s1.net, s.net, q1, k1.reqId);
    QuorumGrows(c, s2.net, s.net, q2, k2.reqId);
    AgreementOnProposals(c, events, s, a, b, q1, q2);
  }

  ghost predicate ConcludedBy(c: Config, s: Sys, e: Event, k: Commit) {
    && e.node in s.nodes && Allowed(c, s, e)
    && e.input.Receive? && e.input.msg == CommitMsg(k)
    && Concludes(s.nodes[e.node], k)
  }

  lemma QuorumGrows(c: Config, net: set<Message>, more: set<Message>, q: set<NodeId>, r: uint64)
    requires CommitQuorum(c, net, q, r) && net <= more
    ensures CommitQuorum(c, more, q, r)
  {
    forall x | x in q
      ensures Voted(c, more, x, r)
    {
      assert Voted(c, net, x, r);
    }
  }
}
