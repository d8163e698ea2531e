/** Where the contents of a node and the messages it posts come from. */
module NodeFlow {
  import opened Text
  import opened Messages
  import opened Votes
  import opened BlockPool
  import opened Node

  predicate HoldsPrepare(s: State, p: Prepare) {
    exists id :: id in s.certs && p in s.certs[id].prepare
  }

  predicate HoldsCommit(s: State, c: Commit) {
    exists id :: id in s.certs && c in s.certs[id].commit
  }

  /** The message hands over a request of the leader. */
  predicate Carries(s: State, m: Message, req: Request) {
    && req.sender == s.leader
    && (m == RequestMsg(req) || (m.PrePrepareMsg? && m.prePrepare.request == req))
  }

  /** A posted message is the node's own, the one just received, or a prepare it holds;
      own pre-prepares answer the request they carry, and no request is posted. */
  predicate Posted(s: State, m: Message, x: Message) {
    || (Sender(x) == s.id && !x.RequestMsg? && (x.PrePrepareMsg? ==> m == RequestMsg(x.prePrepare.request) && x.prePrepare.request.sender == s.leader))
    || x == m
    || (x.PrepareMsg? && HoldsPrepare(s, x.prepare))
  }

  predicate SameIdentity(s: State, t: State) {
    t.id == s.id && t.leader == s.leader && t.view == s.view && t.n == s.n && s.lastReqId <= t.lastReqId
  }

  ghost predicate Flows(s: State, m: Message, t: State, out: seq<Message>) {
    && SameIdentity(s, t)
    && (forall p :: HoldsPrepare(t, p) ==> HoldsPrepare(s, p) || m == PrepareMsg(p))
    && (forall c :: HoldsCommit(t, c) ==> HoldsCommit(s, c) || m == CommitMsg(c))
    && (forall d :: d in t.reqStore ==> (d in s.reqStore && t.reqStore[d] == s.reqStore[d]) || Carries(s, m, t.reqStore[d]))
    && (forall x :: x in out ==> Posted(s, m, x))
  }

  lemma FlowsThen(s: State, m: Message, u: State, o1: seq<Message>, t: State, o2: seq<Message>)
    requires Flows(s, m, u, o1) && Flows(u, m, t, o2)
    ensures Flows(s, m, t, o1 + o2)
  {
    hide HoldsPrepare, HoldsCommit;
  }

  lemma FlowsAfter(s: State, m: Message, u: State, t: State, out: seq<Message>)
    requires Flows(s, m, u, []) && Flows(u, m, t, out)
    ensures Flows(s, m, t, out)
  {
    FlowsThen(s, m, u, [], t, out);
    assert [] + out == out;
  }

  /** A certificate that only received the message, or a prepare already held, flows. */
  lemma SetCertFlows(s: State, m: Message, id: MsgId, c: Cert, out: seq<Message>)
    requires forall p :: p in c.prepare ==> HoldsPrepare(s, p) || m == PrepareMsg(p)
    requires forall k :: k in c.commit ==> HoldsCommit(s, k) || m == CommitMsg(k)
    requires forall x :: x in out ==> Posted(s, m, x)
    ensures Flows(s, m, SetCert(s, id, c), out)
  {
    hide Posted;
    var t := SetCert(s, id, c);
    forall p | HoldsPrepare(t, p)
      ensures HoldsPrepare(s, p) || m == PrepareMsg(p)
    {
      var k :| k in t.certs && p in t.certs[k].prepare;
      if k != id {
        assert k in s.certs && p in s.certs[k].prepare;
      }
    }
    forall q | HoldsCommit(t, q)
      ensures HoldsCommit(s, q) || m == CommitMsg(q)
    {
      var k :| k in t.certs && q in t.certs[k].commit;
      if k != id {
        assert k in s.certs && q in s.certs[k].commit;
      }
    }
  }

  lemma CertHeld(s: State, id: MsgId)
    ensures forall p :: p in CertAt(s, id).prepare ==> HoldsPrepare(s, p)
    ensures forall c :: c in CertAt(s, id).commit ==> HoldsCommit(s, c)
  {}

  lemma TouchFlows(s: State, m: Message, id: MsgId)
    ensures Flows(s, m, Touch(s, id), [])
  {
    hide Flows;
    CertHeld(s, id);
    SetCertFlows(s, m, id, CertAt(s, id), []);
  }

  /** Fields outside the stores do not matter. */
  lemma SameStoresFlow(s: State, m: Message, t: State)
    requires t.reqStore == s.reqStore && t.certs == s.certs && SameIdentity(s, t)
    ensures Flows(s, m, t, [])
  {}

  /** Posts that the step was entitled to from the start. */
  lemma PostFlows(s: State, m: Message, t: State, out: seq<Message>)
    requires Flows(s, m, t, [])
    requires forall x :: x in out ==> Posted(s, m, x)
    ensures Flows(s, m, t, out)
  {
    hide Posted, HoldsPrepare, HoldsCommit;
  }

  lemma AddFlows(s: State, m: Message, p: Prepare)
    requires HoldsPrepare(s, p) || m == PrepareMsg(p)
    ensures Flows(s, m, AddPrepare(s, p), [])
  {
    hide Flows;
    var id := MsgId(p.view, p.reqId);
    CertHeld(s, id);
    SetCertFlows(s, m, id, CertAt(s, id).(prepare := CertAt(s, id).prepare + [p]), []);
  }

  lemma TryVoteFlows(s: State, m: Message, req: Request, p: Prepare)
    ensures var o := TryVote(s, req, p); Flows(s, m, o.0, o.1)
  {
    hide Flows, Prepared, Opinion, Prune;
    var id := MsgId(p.view, p.reqId);
    if Prepared(s, p.digest, p.view, p.reqId) && !CertAt(s, id).sentCommit {
      var t := s.(commitStore := Prune(s.commitStore[req.height := req.hash], s.current));
      SameStoresFlow(s, m, t);
      CertHeld(t, id);
      var out := [CommitMsg(Vote(s, req, p))];
      SetCertFlows(t, m, id, CertAt(t, id).(sentCommit := true), out);
      FlowsAfter(s, m, t, TryVote(s, req, p).0, out);
    } else {
      SameStoresFlow(s, m, s);
    }
  }

  lemma AcceptFlows(s: State, m: Message, p: Prepare, forward: bool)
    requires HoldsPrepare(s, p) || m == PrepareMsg(p)
    ensures var o := AcceptPrepare(s, p, forward); Flows(s, m, o.0, o.1)
  {
    SameStoresFlow(s, m, s);
    if !PrepareRejected(s, p) {
      hide Flows, TryVote, HoldsPrepare, PrepareRejected, AddPrepare;
      var req := s.reqStore[p.digest];
      var t := AddPrepare(s, p);
      AddFlows(s, m, p);
      var o := TryVote(t, req, p);
      TryVoteFlows(t, m, req, p);
      var tail := if forward && p.sender != s.id then [PrepareMsg(p)] else [];
      FlowsAfter(s, m, t, o.0, o.1);
      TailFlows(s, m, o.0, o.1, tail);
    }
  }

  /** Further posts that the step was entitled to from the start. */
  lemma TailFlows(s: State, m: Message, t: State, out: seq<Message>, tail: seq<Message>)
    requires Flows(s, m, t, out)
    requires forall x :: x in tail ==> Posted(s, m, x)
    ensures Flows(s, m, t, out + tail)
  {
    hide Posted, HoldsPrepare, HoldsCommit;
  }

  lemma AgainFlows(s: State, m: Message, p: Prepare)
    requires HoldsPrepare(s, p)
    ensures var o := RecvPrepareAgain(s, p); Flows(s, m, o.0, o.1)
  {
    hide Flows, AcceptPrepare, HasSender;
    SameStoresFlow(s, m, s);
    var id := MsgId(p.view, p.reqId);
    var t := Touch(s, id);
    TouchFlows(s, m, id);
    TouchHolds(s, id, p);
    var forward := !HasSender(CertAt(t, id).prepare, p.sender);
    AcceptFlows(t, m, p, forward);
    var o := AcceptPrepare(t, p, forward);
    FlowsAfter(s, m, t, o.0, o.1);
  }

  lemma TouchHolds(s: State, id: MsgId, p: Prepare)
    requires HoldsPrepare(s, p)
    ensures HoldsPrepare(Touch(s, id), p)
  {
    var k :| k in s.certs && p in s.certs[k].prepare;
    assert k in Touch(s, id).certs;
  }

  lemma PrepareFlows(s: State, p: Prepare)
    ensures var o := RecvPrepare(s, p); Flows(s, PrepareMsg(p), o.0, o.1)
  {
    hide Flows, AcceptPrepare, HasSender;
    var m := PrepareMsg(p);
    SameStoresFlow(s, m, s);
    var id := MsgId(p.view, p.reqId);
    var t := Touch(s, id);
    TouchFlows(s, m, id);
    AcceptFlows(t, m, p, true);
    var o := AcceptPrepare(t, p, true);
    FlowsAfter(s, m, t, o.0, o.1);
  }

  lemma EnterFlows(s: State, pp: PrePrepare)
    ensures var o := EnterPrePrepare(s, pp); Flows(s, PrePrepareMsg(pp), o.0, o.1)
  {
    hide Flows, RecvPrepareAgain, Prepared, HoldsPrepare;
    var m := PrePrepareMsg(pp);
    SameStoresFlow(s, m, s);
    var id := MsgId(pp.view, pp.request.reqId);
    var c := CertAt(s, id).(prePrepare := Some(pp));
    CertHeld(s, id);
    SetCertFlows(s, m, id, c, []);
    var t := SetCert(s, id, c);
    if |c.prepare| > 0 {
      CertHeld(t, id);
      assert CertAt(t, id) == c;
      AgainFlows(t, m, c.prepare[0]);
      var o := RecvPrepareAgain(t, c.prepare[0]);
      FlowsAfter(s, m, t, o.0, o.1);
    }
  }

  lemma AnswerFlows(s: State, pp: PrePrepare, exe: string, now: Time)
    ensures var o := Answer(s, pp, exe, now); Flows(s, PrePrepareMsg(pp), o.0, o.1)
  {
    hide Flows, Put, Lookup, PrePrepared;
    var m := PrePrepareMsg(pp);
    var id := MsgId(pp.view, pp.request.reqId);
    SameStoresFlow(s, m, s);
    var t := if Lookup(s.pool, pp.request.height, pp.request.hash).Some? then s
             else s.(pool := Put(s.pool, pp.request.block, now));
    SameStoresFlow(s, m, t);
    CertHeld(t, id);
    var out := [PrepareMsg(OwnPrepare(s, pp, exe))] + if pp.sender != s.id then [PrePrepareMsg(pp)] else [];
    var c := CertAt(t, id).(sentPrepare := true);
    SetCertFlows(t, m, id, c, out);
    FlowsAfter(s, m, t, SetCert(t, id, c), out);
  }

  lemma StoreFlows(s: State, pp: PrePrepare)
    requires pp.digest !in s.reqStore ==> pp.request.sender == s.leader
    ensures Flows(s, PrePrepareMsg(pp), StoreRequest(s, pp), [])
  {}

  lemma PrePrepareFlows(s: State, pp: PrePrepare, exe: string, now: Time)
    ensures var o := RecvPrePrepare(s, pp, exe, now); Flows(s, PrePrepareMsg(pp), o.0, o.1)
  {
    var m := PrePrepareMsg(pp);
    SameStoresFlow(s, m, s);
    if !PrePrepareRejected(s, pp) {
      hide Flows, EnterPrePrepare, Answer, PrePrepared, StoreRequest;
      var id := MsgId(pp.view, pp.request.reqId);
      var t := StoreRequest(s, pp);
      StoreFlows(s, pp);
      var u := Touch(t, id);
      TouchFlows(t, m, id);
      FlowsAfter(s, m, t, u, []);
      EnterFlows(u, pp);
      var o := EnterPrePrepare(u, pp);
      FlowsAfter(s, m, u, o.0, o.1);
      AnswerFlows(o.0, pp, exe, now);
      var a := Answer(o.0, pp, exe, now);
      FlowsThen(s, m, o.0, o.1, a.0, a.1);
    }
  }

  lemma RequestFlows(s: State, req: Request, now: Time)
    ensures var o := RecvRequest(s, req, now); Flows(s, RequestMsg(req), o.0, o.1)
  {
    hide Put;
    var m := RequestMsg(req);
    var t := Raise(s, req.reqId);
    SameStoresFlow(s, m, t);
    if !RequestRejected(t, req) {
      var u := t.(reqStore := t.reqStore[RequestDigest(req) := req]);
      assert Flows(s, m, u, []);
      if req.view == u.view {
        hide Flows, HoldsPrepare, HoldsCommit, RequestRejected;
        var pp := PrePrepare(s.id, req.view, req.reqId, RequestDigest(req), req);
        var id := MsgId(req.view, req.reqId);
        var w := u.(pool := Put(u.pool, req.block, now));
        SameStoresFlow(u, m, w);
        FlowsAfter(s, m, u, w, []);
        CertHeld(w, id);
        var out := [PrePrepareMsg(pp)];
        var c := CertAt(w, id).(prePrepare := Some(pp));
        SetCertFlows(w, m, id, c, out);
        FlowsAfter(s, m, w, SetCert(w, id, c), out);
      }
    }
  }

  lemma RemoveFlows(s: State, m: Message, reqId: uint64)
    ensures Flows(s, m, RemoveOld(s, reqId), [])
  {}

  lemma ConcludeFlows(s: State, m: Message, c: Commit)
    ensures var o := Conclude(s, c); Flows(s, m, o.0, o.1)
  {
    hide Flows, VerdictOf, RemoveOld;
    SameStoresFlow(s, m, s);
    var t := s.(current := if s.current < c.vr.height then s.current + 1 else s.current);
    SameStoresFlow(s, m, t);
    RemoveFlows(t, m, c.reqId);
    RemoveFlows(s, m, c.reqId);
    FlowsAfter(s, m, t, RemoveOld(t, c.reqId), []);
    var out := [CheckpointMsg(CheckpointFor(s, c))];
    PostFlows(s, m, RemoveOld(t, c.reqId), out);
    PostFlows(s, m, RemoveOld(s, c.reqId), out);
  }

  lemma CommitFlows(s: State, c: Commit)
    ensures var o := RecvCommit(s, c); Flows(s, CommitMsg(c), o.0, o.1)
  {
    hide Flows, Committed, Conclude, HoldsCommit, Voters;
    var m := CommitMsg(c);
    SameStoresFlow(s, m, s);
    var id := MsgId(c.view, c.reqId);
    var t := Touch(s, id);
    TouchFlows(s, m, id);
    var u := AddCommit(t, c);
    CertHeld(t, id);
    SetCertFlows(t, m, id, CertAt(t, id).(commit := CertAt(t, id).commit + [c]), []);
    FlowsAfter(s, m, t, u, []);
    var forward := if c.sender != s.id then [CommitMsg(c)] else [];
    PostFlows(s, m, u, forward);
    ConcludeFlows(u, m, c);
    var o := Conclude(u, c);
    FlowsAfter(s, m, u, o.0, o.1);
    TailFlows(s, m, o.0, o.1, forward);
  }

  lemma ReceiveFlows(s: State, m: Message, exe: string, now: Time)
    ensures var o := Step(s, Receive(m, exe, now)); Flows(s, m, o.0, o.1)
  {
    hide Flows, RecvRequest, RecvPrePrepare, RecvPrepare, RecvCommit, DeleteUpTo;
    match m {
      case RequestMsg(r) => RequestFlows(s, r, now);
      case PrePrepareMsg(pp) => PrePrepareFlows(s, pp, exe, now);
      case PrepareMsg(p) => PrepareFlows(s, p);
      case CommitMsg(c) => CommitFlows(s, c);
      case CheckpointMsg(k) => SameStoresFlow(s, m, RecvCheckpoint(s, k));
    }
  }
}
