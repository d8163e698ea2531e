/** The protocol among all nodes: correct nodes running the handlers, faulty nodes
    sending anything under their own names, and a network that may duplicate,
    reorder, delay or lose. */
module Consensus {
  import opened Text
  import opened Messages
  import opened Quorum
  import opened BlockPool
  import opened Node
  import opened NodeFacts
  import opened NodeFlow
  import opened NodeQuorum

  datatype Config = Config(members: set<NodeId>, faulty: set<NodeId>, leader: NodeId, view: uint64, start: uint64)

  predicate Correct(c: Config, x: NodeId) { x in c.members && x !in c.faulty }

  predicate ValidConfig(c: Config) {
    && c.faulty <= c.members
    && Correct(c, c.leader)
    && |c.faulty| <= (|c.members| - 1) / 3
  }

  /** net is everything ever posted. */
  datatype Sys = Sys(nodes: map<NodeId, State>, net: set<Message>)

  datatype Event = Event(node: NodeId, input: Input)

  function Initial(c: Config): (s: Sys) {
    Sys(map x | x in c.members && Correct(c, x) :: Fresh(x, c.leader, c.view, |c.members|, c.start), {})
  }

  /** A message under a correct node's name was posted by that node, also when it is
      a request carried inside a pre-prepare. */
  predicate Deliverable(c: Config, s: Sys, m: Message) {
    && Sender(m) in c.members
    && (Sender(m) !in c.faulty ==> m in s.net)
    && (m.PrePrepareMsg? && m.prePrepare.request.sender !in c.faulty ==> RequestMsg(m.prePrepare.request) in s.net)
  }

  /** Only the leader proposes blocks. */
  predicate Allowed(c: Config, s: Sys, e: Event) {
    && Correct(c, e.node)
    && (e.input.Propose? ==> e.node == c.leader)
    && (e.input.Receive? ==> Deliverable(c, s, e.input.msg))
  }

  function Apply(s: Sys, e: Event): (t: Sys)
    requires e.node in s.nodes
  {
    var o := Step(s.nodes[e.node], e.input);
    Sys(s.nodes[e.node := o.0], s.net + set x | x in o.1)
  }

  /** The step from one state of a run to the next. */
  ghost predicate Next(c: Config, before: Sys, e: Event, s: Sys) {
    Allowed(c, before, e) && e.node in before.nodes && s == Apply(before, e)
  }

  /** The states a sequence of events can lead to. */
  ghost predicate Reaches(c: Config, events: seq<Event>, s: Sys)
    decreases |events|
  {
    if events == [] then s == Initial(c)
    else
      var init, e := events[..|events| - 1], events[|events| - 1];
      exists before: Sys :: Reaches(c, init, before) && Next(c, before, e, s)
  }

  // ---- what holds in every run

  predicate NodeInConfig(c: Config, x: NodeId, s: State) {
    s.id == x && s.leader == c.leader && s.view == c.view && s.n == |c.members|
  }

  /** Everything a node holds came from the network. */
  ghost predicate NodeFed(c: Config, net: set<Message>, s: State) {
    && (forall p :: HoldsPrepare(s, p) ==> p.sender in c.members && (p.sender !in c.faulty ==> PrepareMsg(p) in net))
    && (forall k :: HoldsCommit(s, k) ==> k.sender in c.members && (k.sender !in c.faulty ==> CommitMsg(k) in net))
    && (forall d :: d in s.reqStore ==> s.reqStore[d].sender == c.leader && RequestMsg(s.reqStore[d]) in net)
  }

  /** A height voted in the network is recorded at the voter or behind its head. */
  predicate VotesRecorded(x: NodeId, net: set<Message>, s: State) {
    forall m :: m in net && m.CommitMsg? && m.commit.sender == x ==>
      m.commit.vr.height in s.commitStore || m.commit.vr.height < s.current
  }

  predicate VotesUnique(x: NodeId, net: set<Message>) {
    forall m, n | m in net && n in net && m.CommitMsg? && n.CommitMsg? ::
      m.commit.sender == x && n.commit.sender == x && m.commit.vr.height == n.commit.vr.height ==> m == n
  }

  predicate PrePreparesCarryRequests(c: Config, net: set<Message>) {
    forall m :: m in net && m.PrePrepareMsg? && m.prePrepare.request.sender !in c.faulty ==>
      RequestMsg(m.prePrepare.request) in net
  }

  ghost predicate Invariant(c: Config, s: Sys) {
    && (forall x :: x in s.nodes <==> Correct(c, x))
    && (forall x :: x in s.nodes ==> NodeInConfig(c, x, s.nodes[x]))
    && (forall x :: x in s.nodes ==> NodeFed(c, s.net, s.nodes[x]))
    && (forall x :: x in s.nodes ==> VotesRecorded(x, s.net, s.nodes[x]))
    && (forall x :: x in s.nodes ==> VotesUnique(x, s.net))
    && PrePreparesCarryRequests(c, s.net)
  }

  lemma InitialInvariant(c: Config)
    requires ValidConfig(c)
    ensures Invariant(c, Initial(c))
  {}

  /** What a step adds to the network: own messages, apart from copies. */
  lemma NewMessages(c: Config, s: Sys, e: Event, x: Message)
    requires Invariant(c, s) && Allowed(c, s, e)
    requires x in Apply(s, e).net && x !in s.net
    ensures x in Step(s.nodes[e.node], e.input).1
    ensures Sender(x) == e.node || Sender(x) in c.faulty
    ensures x.RequestMsg? && Sender(x) !in c.faulty ==> e.input.Propose?
    ensures x.PrePrepareMsg? && x.prePrepare.request.sender !in c.faulty ==> RequestMsg(x.prePrepare.request) in s.net
  {
    hide RecvRequest, RecvPrePrepare, RecvPrepare, RecvCommit, RecvCheckpoint, Without, Expired, HoldsPrepare, HoldsCommit;
    var n := s.nodes[e.node];
    if e.input.Receive? {
      ReceiveFlows(n, e.input.msg, e.input.exe, e.input.now);
      assert Posted(n, e.input.msg, x);
    }
  }

  lemma QuietStores(n: State, i: Input)
    requires !i.Receive?
    ensures Step(n, i).0.certs == n.certs && Step(n, i).0.reqStore == n.reqStore
  {
    hide Without, Expired;
  }

  lemma FedFrom(c: Config, s: Sys, n: State, m: Message, t: State, out: seq<Message>)
    requires NodeFed(c, s.net, n) && n.leader == c.leader
    requires Deliverable(c, s, m) && Correct(c, c.leader) && Flows(n, m, t, out)
    ensures NodeFed(c, s.net, t)
  {
    hide HoldsPrepare, HoldsCommit, Posted;
  }

  lemma StepFed(c: Config, s: Sys, e: Event)
    requires Invariant(c, s) && Allowed(c, s, e) && Correct(c, c.leader)
    ensures NodeFed(c, s.net, Step(s.nodes[e.node], e.input).0)
    ensures NodeInConfig(c, e.node, Step(s.nodes[e.node], e.input).0)
  {
    hide Step, Deliverable;
    var n := s.nodes[e.node];
    var o := Step(n, e.input);
    StepVotes(n, e.input);
    if e.input.Receive? {
      hide NodeFed, Flows;
      ReceiveFlows(n, e.input.msg, e.input.exe, e.input.now);
      FedFrom(c, s, n, e.input.msg, o.0, o.1);
    } else {
      QuietStores(n, e.input);
      assert forall p :: HoldsPrepare(o.0, p) <==> HoldsPrepare(n, p);
      assert forall k :: HoldsCommit(o.0, k) <==> HoldsCommit(n, k);
    }
  }

  lemma FedMore(c: Config, net: set<Message>, more: set<Message>, s: State)
    requires NodeFed(c, net, s) && net <= more
    ensures NodeFed(c, more, s)
  {
    hide HoldsPrepare, HoldsCommit;
  }

  /** The votes of a node after one more step of some node. */
  lemma StepVotesKept(c: Config, s: Sys, e: Event, x: NodeId)
    requires Invariant(c, s) && Allowed(c, s, e) && x in s.nodes
    ensures VotesRecorded(x, Apply(s, e).net, Apply(s, e).nodes[x])
    ensures VotesUnique(x, Apply(s, e).net)
  {
    hide Step, NodeFed, Deliverable;
    var t := Apply(s, e);
    var o := Step(s.nodes[e.node], e.input);
    StepVotes(s.nodes[e.node], e.input);
    var votes := OwnVotes(e.node, o.1);
    forall m | m in t.net && m !in s.net && m.CommitMsg? && m.commit.sender == x
      ensures x == e.node && m.commit in votes
    {
      NewMessages(c, s, e, m);
      OwnVotesHas(e.node, o.1, m.commit);
    }
  }

  lemma StepInvariant(c: Config, s: Sys, e: Event)
    requires Invariant(c, s) && Allowed(c, s, e) && Correct(c, c.leader)
    ensures Invariant(c, Apply(s, e))
  {
    var t := Apply(s, e);
    StepFed(c, s, e);
    hide Step, Deliverable, VotesRecorded, VotesUnique;
    forall x | x in t.nodes
      ensures NodeFed(c, t.net, t.nodes[x]) && VotesRecorded(x, t.net, t.nodes[x]) && VotesUnique(x, t.net)
    {
      StepVotesKept(c, s, e, x);
      FedMore(c, s.net, t.net, t.nodes[x]);
    }
    hide NodeFed;
    forall m | m in t.net && m.PrePrepareMsg? && m.prePrepare.request.sender !in c.faulty
      ensures RequestMsg(m.prePrepare.request) in t.net
    {
      if m !in s.net {
        NewMessages(c, s, e, m);
      }
    }
  }

  lemma {:induction false} RunInvariant(c: Config, events: seq<Event>, s: Sys)
    requires ValidConfig(c) && Reaches(c, events, s)
    ensures Invariant(c, s)
    decreases |events|
  {
    if events == [] {
      InitialInvariant(c);
    } else {
      var init, e := events[..|events| - 1], events[|events| - 1];
      var before: Sys :| Reaches(c, init, before) && Next(c, before, e, s);
      RunInvariant(c, init, before);
      StepInvariant(c, before, e);
    }
  }

  // ---- agreement on the height voted

  /** x has voted for request r at height h; a faulty member may claim anything. */
  ghost predicate VotedAt(c: Config, net: set<Message>, x: NodeId, r: uint64, h: uint64) {
    x in c.faulty || exists k: Commit :: CommitMsg(k) in net && k.sender == x && k.reqId == r && k.vr.height == h
  }

  ghost predicate QuorumAt(c: Config, net: set<Message>, q: set<NodeId>, r: uint64, h: uint64) {
    && q <= c.members && |q| >= GetQuorum(|c.members|)
    && forall x :: x in q ==> VotedAt(c, net, x, r, h)
  }

  /** In every run, whatever the faulty members send, two requests that gather a
      quorum of votes at the same height are the same request. */
  lemma AgreementAtVotedHeight(c: Config, events: seq<Event>, s: Sys, h: uint64,
                               r1: uint64, q1: set<NodeId>, r2: uint64, q2: set<NodeId>)
    requires ValidConfig(c) && Reaches(c, events, s)
    requires QuorumAt(c, s.net, q1, r1, h) && QuorumAt(c, s.net, q2, r2, h)
    ensures r1 == r2
  {
    RunInvariant(c, events, s);
    var x := QuorumsShareCorrect(c.members, c.faulty, q1, q2);
    assert VotedAt(c, s.net, x, r1, h) && VotedAt(c, s.net, x, r2, h);
    assert VotesUnique(x, s.net);
  }
}
