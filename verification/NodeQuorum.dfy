/** Votes rest on real quorums: as long as every pre-prepare names the digest of
    the request it carries, a node that votes holds prepares of a quorum of
    distinct senders for the very request it votes on, although the compensation
    call may append a sender twice and `prepared` counts entries. */
module NodeQuorum {
  import opened Text
  import opened Messages
  import opened Quorum
  import opened Sets
  import opened Votes
  import opened BlockPool
  import opened Node
  import opened NodeFacts

  function DigestOf(reqId: uint64): (d: Digest) { Itoa(AsInt64(reqId)) }

  predicate PrepareFiled(id: MsgId, p: Prepare) { p.view == id.v && p.reqId == id.n }

  predicate CommitFiled(id: MsgId, c: Commit) { c.view == id.v && c.reqId == id.n }

  predicate PrePrepareFiled(id: MsgId, pp: PrePrepare) {
    pp.view == id.v && pp.request.reqId == id.n && pp.digest == DigestOf(id.n)
  }

  predicate DistinctCommits(cs: seq<Commit>) {
    forall i, j :: 0 <= i < j < |cs| ==> cs[i].sender != cs[j].sender
  }

  /** Messages sit in the certificate of their view and request; until the vote no
      sender stands twice behind the request's digest. */
  predicate CertSound(id: MsgId, c: Cert) {
    && (forall i :: 0 <= i < |c.prepare| ==> PrepareFiled(id, c.prepare[i]))
    && (forall i :: 0 <= i < |c.commit| ==> CommitFiled(id, c.commit[i]))
    && DistinctCommits(c.commit)
    && (c.prePrepare.Some? ==> PrePrepareFiled(id, c.prePrepare.value))
    && (!c.sentCommit ==> DistinctMatching(c.prepare, DigestOf(id.n)))
  }

  predicate StoreSound(s: State) {
    forall d :: d in s.reqStore ==> d == RequestDigest(s.reqStore[d])
  }

  predicate CertsSound(s: State) {
    forall id :: id in s.certs ==> CertSound(id, s.certs[id])
  }

  predicate Sound(s: State) { StoreSound(s) && CertsSound(s) }

  /** Condition on what a node is sent: pre-prepares name the digest of their request. */
  predicate InputMatches(i: Input) {
    i.Receive? && i.msg.PrePrepareMsg? ==> DigestMatches(i.msg.prePrepare)
  }

  /** The vote c is backed in state t. */
  predicate Backed(t: State, c: Commit) {
    && MsgId(c.view, c.reqId) in t.certs
    && |MatchSenders(t.certs[MsgId(c.view, c.reqId)].prepare, c.view, c.reqId, c.digest)| >= GetQuorum(t.n)
    && c.digest == DigestOf(c.reqId)
    && c.digest in t.reqStore
    && t.reqStore[c.digest].reqId == c.reqId
    && t.reqStore[c.digest].height == c.vr.height
  }

  predicate AllBacked(t: State, votes: seq<Commit>) { forall c :: c in votes ==> Backed(t, c) }

  lemma SetCertSound(s: State, id: MsgId, c: Cert)
    requires Sound(s) && CertSound(id, c)
    ensures Sound(SetCert(s, id, c))
  {}

  lemma CertAtSound(s: State, id: MsgId)
    requires Sound(s)
    ensures CertSound(id, CertAt(s, id))
  {}

  /** The prepare may join the certificate: its sender is new there, or this is the
      compensation call for a request already prepared. */
  predicate MayJoin(s: State, p: Prepare) {
    || !HasSender(CertAt(s, MsgId(p.view, p.reqId)).prepare, p.sender)
    || (Prepared(s, DigestOf(p.reqId), p.view, p.reqId) && !CertAt(s, MsgId(p.view, p.reqId)).sentCommit)
  }

  lemma JoinDistinct(ps: seq<Prepare>, p: Prepare, d: Digest)
    requires DistinctMatching(ps, d)
    requires !HasSender(ps, p.sender) || p.digest != d
    ensures DistinctMatching(ps + [p], d)
  {
    var qs := ps + [p];
    forall i, j | 0 <= i < j < |qs| && qs[i].digest == d && qs[j].digest == d
      ensures qs[i].sender != qs[j].sender
    {
      assert qs[i] == ps[i];
      assert j < |ps| ==> qs[j] == ps[j];
    }
  }

  lemma MatchCountSnoc(ps: seq<Prepare>, p: Prepare, v: uint64, r: uint64, d: Digest)
    ensures MatchCount(ps + [p], v, r, d) == MatchCount(ps, v, r, d) + if Matches(p, v, r, d) then 1 else 0
  {
    assert (ps + [p])[..|ps|] == ps;
  }

  /** The certificate after p joined, before any vote. */
  lemma JoinCert(s: State, p: Prepare)
    requires Sound(s) && MayJoin(s, p)
    ensures var id := MsgId(p.view, p.reqId);
            var d := DigestOf(id.n);
            var c := CertAt(s, id);
            && (Prepared(AddPrepare(s, p), p.digest, p.view, p.reqId) && !c.sentCommit ==>
                  p.digest == d && |MatchSenders(c.prepare + [p], id.v, id.n, d)| >= GetQuorum(s.n))
            && (!(Prepared(AddPrepare(s, p), p.digest, p.view, p.reqId) && !c.sentCommit) ==>
                  CertSound(id, c.(prepare := c.prepare + [p])))
  {
    hide MatchCount, MatchSenders;
    var id := MsgId(p.view, p.reqId);
    var c, d := CertAt(s, id), DigestOf(id.n);
    CertAtSound(s, id);
    MatchCountSnoc(c.prepare, p, id.v, id.n, d);
    MatchSendersSnoc(c.prepare, p, id.v, id.n, d);
    if !c.sentCommit {
      CountIsSenders(c.prepare, id.v, id.n, d);
      if !HasSender(c.prepare, p.sender) || p.digest != d {
        JoinDistinct(c.prepare, p, d);
        CountIsSenders(c.prepare + [p], id.v, id.n, d);
      }
      SubsetSize(MatchSenders(c.prepare, id.v, id.n, d), MatchSenders(c.prepare + [p], id.v, id.n, d));
    }
  }

  lemma AcceptSound(s: State, p: Prepare, forward: bool)
    requires Sound(s) && MayJoin(s, p)
    ensures var o := AcceptPrepare(s, p, forward);
            Sound(o.0) && AllBacked(o.0, OwnVotes(s.id, o.1))
  {
    if !PrepareRejected(s, p) {
      hide OwnVotes, Prepared, MatchSenders, Opinion, Prune, DistinctMatching;
      OwnVotesNone(s.id);
      var id := MsgId(p.view, p.reqId);
      var req := s.reqStore[p.digest];
      var t := AddPrepare(s, p);
      var c := CertAt(s, id);
      CertAtSound(s, id);
      JoinCert(s, p);
      var tail := if forward && p.sender != s.id then [PrepareMsg(p)] else [];
      OwnVotesAppend(s.id, TryVote(t, req, p).1, tail);
      if Prepared(t, p.digest, p.view, p.reqId) && !c.sentCommit {
        AcceptVoteSound(s, p, req);
      } else {
        SetCertSound(s, id, c.(prepare := c.prepare + [p]));
      }
    }
  }

  lemma AcceptVoteSound(s: State, p: Prepare, req: Request)
    requires Sound(s) && p.digest in s.reqStore && req == s.reqStore[p.digest]
    requires var c := CertAt(s, MsgId(p.view, p.reqId));
             && !c.sentCommit && p.digest == DigestOf(p.reqId)
             && |MatchSenders(c.prepare + [p], p.view, p.reqId, p.digest)| >= GetQuorum(s.n)
             && Prepared(AddPrepare(s, p), p.digest, p.view, p.reqId)
    ensures var o := TryVote(AddPrepare(s, p), req, p);
            Sound(o.0) && AllBacked(o.0, OwnVotes(s.id, o.1))
  {
    hide Prepared, Opinion, Prune, DistinctMatching, MatchSenders, DigestOf;
    var id := MsgId(p.view, p.reqId);
    var c := CertAt(s, id);
    CertAtSound(s, id);
    DigestMatch(req, p.reqId);
    var t := AddPrepare(s, p);
    var u := t.(commitStore := Prune(t.commitStore[req.height := req.hash], t.current));
    var after := c.(prepare := c.prepare + [p], sentCommit := true);
    assert CertSound(id, after);
    var o := TryVote(t, req, p);
    assert o.0 == SetCert(u, id, after);
    assert o.0.certs == s.certs[id := after] && o.0.reqStore == s.reqStore;
    assert OwnVotes(s.id, o.1) == [Vote(t, req, p)];
  }

  lemma DigestMatch(req: Request, reqId: uint64)
    ensures RequestDigest(req) == DigestOf(reqId) <==> req.reqId == reqId
  {
    if RequestDigest(req) == DigestOf(reqId) {
      DigestInjective(req.reqId, reqId);
    }
  }

  lemma PrepareSound(s: State, p: Prepare)
    requires Sound(s)
    ensures var o := RecvPrepare(s, p);
            Sound(o.0) && AllBacked(o.0, OwnVotes(s.id, o.1))
  {
    hide OwnVotes, AcceptPrepare, CertSound;
    OwnVotesNone(s.id);
    var id := MsgId(p.view, p.reqId);
    CertAtSound(s, id);
    SetCertSound(s, id, CertAt(s, id));
    var t := Touch(s, id);
    if !HasSender(CertAt(t, id).prepare, p.sender) {
      AcceptSound(t, p, true);
    }
  }

  lemma AgainSound(s: State, p: Prepare)
    requires Sound(s)
    requires Prepared(s, DigestOf(p.reqId), p.view, p.reqId) && !CertAt(s, MsgId(p.view, p.reqId)).sentCommit
    ensures var o := RecvPrepareAgain(s, p);
            Sound(o.0) && AllBacked(o.0, OwnVotes(s.id, o.1))
  {
    hide OwnVotes, AcceptPrepare, CertSound, MatchCount, Itoa;
    OwnVotesNone(s.id);
    var id := MsgId(p.view, p.reqId);
    CertAtSound(s, id);
    SetCertSound(s, id, CertAt(s, id));
    var t := Touch(s, id);
    assert t.certs == s.certs;
    AcceptSound(t, p, !HasSender(CertAt(t, id).prepare, p.sender));
  }

  lemma EnterSound(s: State, pp: PrePrepare)
    requires Sound(s) && DigestMatches(pp)
    ensures var o := EnterPrePrepare(s, pp);
            Sound(o.0) && AllBacked(o.0, OwnVotes(s.id, o.1))
  {
    hide OwnVotes, RecvPrepareAgain, Prepared, DistinctMatching, DistinctCommits;
    OwnVotesNone(s.id);
    var id := MsgId(pp.view, pp.request.reqId);
    CertAtSound(s, id);
    var c := CertAt(s, id).(prePrepare := Some(pp));
    SetCertSound(s, id, c);
    var t := SetCert(s, id, c);
    if Prepared(t, pp.digest, pp.view, pp.request.reqId) && !c.sentCommit && |c.prepare| > 0 {
      assert PrepareFiled(id, c.prepare[0]);
      AgainSound(t, c.prepare[0]);
    }
  }

  lemma AnswerSound(s: State, pp: PrePrepare, exe: string, now: Time)
    requires Sound(s)
    ensures var t := Answer(s, pp, exe, now).0;
            Sound(t) && t.reqStore == s.reqStore && t.n == s.n && SamePrepares(s, t)
  {
    hide Put, Lookup, PrePrepared, DistinctMatching, DistinctCommits, DigestOf, RequestDigest;
    var id := MsgId(pp.view, pp.request.reqId);
    var t := if Lookup(s.pool, pp.request.height, pp.request.hash).Some? then s
             else s.(pool := Put(s.pool, pp.request.block, now));
    assert Sound(t);
    CertAtSound(t, id);
    SetCertSound(t, id, CertAt(t, id).(sentPrepare := true));
  }

  predicate SamePrepares(s: State, t: State) {
    forall id :: id in s.certs ==> id in t.certs && t.certs[id].prepare == s.certs[id].prepare
  }

  lemma PrePrepareSound(s: State, pp: PrePrepare, exe: string, now: Time)
    requires Sound(s) && DigestMatches(pp)
    ensures var o := RecvPrePrepare(s, pp, exe, now);
            Sound(o.0) && AllBacked(o.0, OwnVotes(s.id, o.1))
  {
    hide OwnVotes, EnterPrePrepare, Answer, PrePrepared, CertSound, MatchSenders;
    OwnVotesNone(s.id);
    var id := MsgId(pp.view, pp.request.reqId);
    var t := StoreRequest(s, pp);
    assert Sound(t);
    CertAtSound(t, id);
    SetCertSound(t, id, CertAt(t, id));
    var u := Touch(t, id);
    EnterSound(u, pp);
    EnterVotes(u, pp);
    var o := EnterPrePrepare(u, pp);
    AnswerSound(o.0, pp, exe, now);
    AnswerVotes(o.0, pp, exe, now);
    var a := Answer(o.0, pp, exe, now);
    OwnVotesAppend(s.id, o.1, a.1);
    assert OwnVotes(s.id, o.1 + a.1) == OwnVotes(s.id, o.1);
    assert AllBacked(a.0, OwnVotes(s.id, o.1));
  }

  lemma RequestSound(s: State, req: Request, now: Time)
    requires Sound(s)
    ensures Sound(RecvRequest(s, req, now).0)
  {
    hide Put, RequestRejected, DistinctMatching, DistinctCommits;
    var t := Raise(s, req.reqId);
    if !RequestRejected(t, req) {
      var u := t.(reqStore := t.reqStore[RequestDigest(req) := req]);
      assert Sound(u);
      if req.view == u.view {
        var pp := PrePrepare(s.id, req.view, req.reqId, RequestDigest(req), req);
        var id := MsgId(req.view, req.reqId);
        var w := u.(pool := Put(u.pool, req.block, now));
        assert Sound(w);
        CertAtSound(w, id);
        SetCertSound(w, id, CertAt(w, id).(prePrepare := Some(pp)));
      }
    }
  }

  lemma CommitSound(s: State, c: Commit)
    requires Sound(s)
    ensures Sound(RecvCommit(s, c).0)
  {
    hide Committed, VerdictOf, DistinctMatching;
    var id := MsgId(c.view, c.reqId);
    CertAtSound(s, id);
    SetCertSound(s, id, CertAt(s, id));
    var t := Touch(s, id);
    var old_ := CertAt(t, id);
    if c.sender !in Voters(old_.commit) {
      forall i | 0 <= i < |old_.commit|
        ensures old_.commit[i].sender != c.sender
      {
        VotersAre(old_.commit, old_.commit[i].sender);
      }
      SetCertSound(t, id, old_.(commit := old_.commit + [c]));
    }
  }

  lemma StepSound(s: State, i: Input)
    requires Sound(s) && InputMatches(i)
    ensures var o := Step(s, i);
            Sound(o.0) && AllBacked(o.0, OwnVotes(s.id, o.1))
  {
    hide OwnVotes, RecvRequest, RecvPrePrepare, RecvPrepare, RecvCommit, Without, Expired, DeleteUpTo, CertSound, MatchSenders;
    OwnVotesNone(s.id);
    if i.Receive? {
      match i.msg {
        case RequestMsg(r) =>
          RequestSound(s, r, i.now);
          RequestVotes(s, r, i.now);
        case PrePrepareMsg(pp) => PrePrepareSound(s, pp, i.exe, i.now);
        case PrepareMsg(p) => PrepareSound(s, p);
        case CommitMsg(c) =>
          CommitSound(s, c);
          CommitVotes(s, c);
        case CheckpointMsg(k) =>
      }
    }
  }

  // ---- whole runs

  function Fresh(id: NodeId, leader: NodeId, view: uint64, n: nat, current: uint64): (s: State) {
    State(id, leader, view, n, true, current, map[], map[], map[], current, Pool(map[], map[]), map[], current)
  }

  lemma {:induction false} RunSound(s: State, inputs: seq<Input>)
    requires Sound(s)
    requires forall k :: 0 <= k < |inputs| ==> InputMatches(inputs[k])
    ensures Sound(Run(s, inputs).0) && Run(s, inputs).0.id == s.id && Run(s, inputs).0.n == s.n
    decreases |inputs|
  {
    if inputs != [] {
      var init := inputs[..|inputs| - 1];
      RunSound(s, init);
      StepSound(Run(s, init).0, inputs[|inputs| - 1]);
      StepVotes(Run(s, init).0, inputs[|inputs| - 1]);
    }
  }

  /** In every run from a fresh node, whenever a step posts a vote, the certificate
      holds prepares from a quorum of pairwise distinct senders matching the vote's
      view, request and digest, and the vote's height is the one of that request. */
  lemma VoteRestsOnQuorum(id: NodeId, leader: NodeId, view: uint64, n: nat, current: uint64,
                          inputs: seq<Input>, last: Input)
    requires forall k :: 0 <= k < |inputs| ==> InputMatches(inputs[k])
    requires InputMatches(last)
    ensures var s := Run(Fresh(id, leader, view, n, current), inputs).0;
            AllBacked(Step(s, last).0, OwnVotes(id, Step(s, last).1))
  {
    RunSound(Fresh(id, leader, view, n, current), inputs);
    StepSound(Run(Fresh(id, leader, view, n, current), inputs).0, last);
  }

  /** Exactly when a pre-prepare leaves the request store sound: it is dropped before
      storing, its digest is already taken, or it names the digest of its request. */
  lemma StoreSoundIff(s: State, pp: PrePrepare, exe: string, now: Time)
    requires StoreSound(s)
    ensures StoreSound(RecvPrePrepare(s, pp, exe, now).0) <==>
              PrePrepareRejected(s, pp) || pp.digest in s.reqStore || DigestMatches(pp)
  {
    if !PrePrepareRejected(s, pp) {
      PrePrepareStore(s, pp, exe, now);
      var t := StoreRequest(s, pp);
      assert pp.digest in t.reqStore;
    }
  }

  lemma AcceptStore(s: State, p: Prepare, forward: bool)
    ensures AcceptPrepare(s, p, forward).0.reqStore == s.reqStore
  {
    hide Prepared, Opinion, Prune, PrepareRejected;
  }

  lemma EnterStore(s: State, pp: PrePrepare)
    ensures EnterPrePrepare(s, pp).0.reqStore == s.reqStore
  {
    hide Prepared, AcceptPrepare, HasSender;
    var id := MsgId(pp.view, pp.request.reqId);
    var t := SetCert(s, id, CertAt(s, id).(prePrepare := Some(pp)));
    if |CertAt(t, id).prepare| > 0 {
      var p := CertAt(t, id).prepare[0];
      var u := Touch(t, MsgId(p.view, p.reqId));
      AcceptStore(u, p, !HasSender(CertAt(u, MsgId(p.view, p.reqId)).prepare, p.sender));
    }
  }

  lemma PrePrepareStore(s: State, pp: PrePrepare, exe: string, now: Time)
    requires !PrePrepareRejected(s, pp)
    ensures RecvPrePrepare(s, pp, exe, now).0.reqStore == StoreRequest(s, pp).reqStore
  {
    hide PrePrepared, EnterPrePrepare, Put, Lookup;
    EnterStore(Touch(StoreRequest(s, pp), MsgId(pp.view, pp.request.reqId)), pp);
  }
}
