/** What a step of a node does, seen from outside: which inputs move the chain head, what
    is forgotten then, and what the messages it posts say. */
module NodeEffects {
  import opened Text
  import opened Messages
  import opened Quorum
  import opened Votes
  import opened BlockPool
  import opened Node
  import opened NodeFacts

  // ---- the chain head

  function CommitsOf(n: State, k: Commit): (cs: seq<Commit>) { CertAt(n, MsgId(k.view, k.reqId)).commit }

  /** Receiving the commit k makes the node act on k's request: k is above the head, its
      sender has not committed before, and with it a prepared request has commits of a
      quorum of senders. */
  predicate Concludes(n: State, k: Commit) {
    && k.view == n.view && n.ready && n.current < k.vr.height
    && (forall i :: 0 <= i < |CommitsOf(n, k)| ==> CommitsOf(n, k)[i].sender != k.sender)
    && Prepared(n, k.digest, k.view, k.reqId)
    && |CommitSenders(CommitsOf(n, k) + [k], k.view, k.reqId)| >= GetQuorum(n.n)
  }

  /** And the votes then held come out as v. */
  predicate Settles(n: State, k: Commit, v: Verdict) {
    Concludes(n, k) && k.digest in n.reqStore && VerdictOf(n.n, CommitsOf(n, k) + [k]) == v
  }

  predicate SettlesBy(n: State, i: Input, v: Verdict) {
    i.Receive? && i.msg.CommitMsg? && Settles(n, i.msg.commit, v)
  }

  /** The chain head moves exactly when a commit completes a quorum with the votes in
      favour, and by one. */
  lemma HeadMovesIff(n: State, i: Input)
    ensures Step(n, i).0.current == if SettlesBy(n, i, Positive) then n.current + 1 else n.current
  {
    hide RecvRequest, RecvPrePrepare, RecvPrepare, RecvCommit, RecvCheckpoint, Settles;
    if i.Receive? {
      match i.msg {
        case RequestMsg(r) => RequestKeepsHead(n, r, i.now);
        case PrePrepareMsg(pp) => PrePrepareKeepsHead(n, pp, i.exe, i.now);
        case PrepareMsg(p) => PrepareKeepsHead(n, p);
        case CommitMsg(k) => CommitMovesHead(n, k);
        case CheckpointMsg(k) => CheckpointKeepsHead(n, k);
      }
    }
  }

  /** The branches of the commit handler, by what was received before. */
  lemma CommitBranches(n: State, k: Commit)
    ensures var id := MsgId(k.view, k.reqId); var u := AddCommit(Touch(n, id), k);
      && CertAt(u, id).commit == CommitsOf(n, k) + [k] && u.n == n.n && u.reqStore == n.reqStore
      && (Committed(u, k.digest, k.view, k.reqId) <==>
            Prepared(n, k.digest, k.view, k.reqId)
            && |CommitSenders(CommitsOf(n, k) + [k], k.view, k.reqId)| >= GetQuorum(n.n))
      && (k.sender in Voters(CertAt(Touch(n, id), id).commit) <==>
            exists i :: 0 <= i < |CommitsOf(n, k)| && CommitsOf(n, k)[i].sender == k.sender)
  {
    hide MatchCount, Voters;
    VotersAre(CommitsOf(n, k), k.sender);
  }

  lemma CommitMovesHead(n: State, k: Commit)
    ensures RecvCommit(n, k).0.current == if Settles(n, k, Positive) then n.current + 1 else n.current
  {
    hide Committed, VerdictOf, Voters, Prepared, CommitSenders;
    CommitBranches(n, k);
  }

  lemma RequestKeepsHead(n: State, r: Request, now: Time)
    ensures RecvRequest(n, r, now).0.current == n.current
  {
    hide PrePrepared, Put, RequestDigest;
  }

  lemma PrepareKeepsHead(n: State, p: Prepare)
    ensures RecvPrepare(n, p).0.current == n.current
  {
    hide AcceptPrepare, PrePrepared, Prepared, HasSender;
    AcceptKeepsHead(Touch(n, MsgId(p.view, p.reqId)), p, true);
  }

  lemma CheckpointKeepsHead(n: State, k: Checkpoint)
    ensures RecvCheckpoint(n, k).current == n.current
  {
    hide DeleteUpTo;
  }

  lemma AcceptKeepsHead(s: State, p: Prepare, forward: bool)
    ensures AcceptPrepare(s, p, forward).0.current == s.current
  {
    hide Prepared, Opinion, Prune, PrepareRejected;
  }

  lemma EnterKeepsHead(s: State, pp: PrePrepare)
    ensures EnterPrePrepare(s, pp).0.current == s.current
  {
    hide Prepared, AcceptPrepare, HasSender;
    var id := MsgId(pp.view, pp.request.reqId);
    var t := SetCert(s, id, CertAt(s, id).(prePrepare := Some(pp)));
    if |CertAt(t, id).prepare| > 0 {
      var p := CertAt(t, id).prepare[0];
      var u := Touch(t, MsgId(p.view, p.reqId));
      AcceptKeepsHead(u, p, !HasSender(CertAt(u, MsgId(p.view, p.reqId)).prepare, p.sender));
    }
  }

  lemma PrePrepareKeepsHead(s: State, pp: PrePrepare, exe: string, now: Time)
    ensures RecvPrePrepare(s, pp, exe, now).0.current == s.current
  {
    hide PrePrepared, EnterPrePrepare, Put, Lookup;
    EnterKeepsHead(Touch(StoreRequest(s, pp), MsgId(pp.view, pp.request.reqId)), pp);
  }

  // ---- checkpoints and what is forgotten

  predicate Decided(n: State, i: Input) { SettlesBy(n, i, Positive) || SettlesBy(n, i, Negative) }

  /** A checkpoint is posted exactly on a final verdict, for or against, and names the
      height, the id and the hash of the commit that brought it about. */
  lemma CheckpointPostedIff(n: State, i: Input, x: Checkpoint)
    ensures CheckpointMsg(x) in Step(n, i).1 <==>
      Decided(n, i) && x == Checkpoint(n.id, i.msg.commit.vr.height, i.msg.commit.reqId, i.msg.commit.vr.hash)
  {
    hide RecvRequest, RecvPrePrepare, RecvPrepare, RecvCommit, RecvCheckpoint, Settles;
    if i.Receive? {
      match i.msg {
        case RequestMsg(r) => RequestPosts(n, r, i.now, CheckpointMsg(x));
        case PrePrepareMsg(pp) => PrePreparePosts(n, pp, i.exe, i.now, CheckpointMsg(x));
        case PrepareMsg(p) => PreparePosts(n, p, CheckpointMsg(x));
        case CommitMsg(k) => CommitCheckpoint(n, k, x);
        case CheckpointMsg(k) =>
      }
    }
  }

  lemma CommitCheckpoint(n: State, k: Commit, x: Checkpoint)
    ensures CheckpointMsg(x) in RecvCommit(n, k).1 <==>
      (Settles(n, k, Positive) || Settles(n, k, Negative))
      && x == Checkpoint(n.id, k.vr.height, k.reqId, k.vr.hash)
  {
    hide Committed, VerdictOf, Voters, Prepared, CommitSenders, RemoveOld;
    CommitBranches(n, k);
  }

  /** Then all certificates and requests up to that id are gone and no others. */
  lemma DecidedForgets(n: State, i: Input)
    requires Decided(n, i)
    ensures var t, r := Step(n, i).0, i.msg.commit.reqId;
      && (forall id :: id in t.certs <==> id in n.certs && id.n > r)
      && (forall id :: id in t.certs ==> t.certs[id] == n.certs[id])
      && (forall d :: d in t.reqStore <==> d in n.reqStore && n.reqStore[d].reqId > r)
      && (forall d :: d in t.reqStore ==> t.reqStore[d] == n.reqStore[d])
  {
    hide Committed, VerdictOf, Voters, Prepared, CommitSenders;
    var k := i.msg.commit;
    CommitBranches(n, k);
    var u := AddCommit(Touch(n, MsgId(k.view, k.reqId)), k);
    assert forall id: MsgId :: id.n > k.reqId ==> (id in u.certs <==> id in n.certs);
  }

  /** A checkpoint whose hash is new raises the checkpoint height to its own; unless it
      is behind the head, its blocks leave the pool, it is remembered, and checkpoints
      behind the head are forgotten. Nothing else changes. */
  lemma CheckpointEffect(n: State, i: Input)
    requires i.Receive? && i.msg.CheckpointMsg?
    ensures var t, k := Step(n, i).0, i.msg.checkpoint;
      var known, late := k.hash in n.checkpoints, k.height < n.current;
      && Step(n, i).1 == []
      && t.checkpointBH == (if known || k.height <= n.checkpointBH then n.checkpointBH else k.height)
      && (known || late ==> t == n.(checkpointBH := t.checkpointBH))
      && (!known && !late ==>
            && t == n.(checkpointBH := t.checkpointBH, pool := DeleteUpTo(n.pool, k.height, k.hash), checkpoints := t.checkpoints)
            && forall h :: (h in t.checkpoints <==> h == k.hash || (h in n.checkpoints && n.checkpoints[h] >= n.current))
                 && (h in t.checkpoints ==> t.checkpoints[h] == if h == k.hash then k.height else n.checkpoints[h]))
  {
    hide DeleteUpTo;
  }

  // ---- what is posted

  /** Votes, and prepares of others passed on. */
  predicate Routine(n: State, m: Message) { m.CommitMsg? || (m.PrepareMsg? && m.prepare.sender != n.id) }

  /** The node's answer to a pre-prepare, or the pre-prepare passed on. */
  predicate Answers(n: State, pp: PrePrepare, exe: string, m: Message) {
    && n.ready && pp.view == n.view && pp.request.height > n.current
    && (m == PrepareMsg(Prepare(n.id, pp.view, pp.reqId, pp.digest, exe)) || (m == PrePrepareMsg(pp) && pp.sender != n.id))
  }

  /** What a request makes the node propose. */
  predicate Proposes(n: State, r: Request, m: Message) {
    && n.ready && r.sender == n.leader && r.view == n.view && r.height > n.current
    && m == PrePrepareMsg(PrePrepare(n.id, r.view, r.reqId, RequestDigest(r), r))
  }

  lemma RequestPosts(n: State, r: Request, now: Time, m: Message)
    ensures m in RecvRequest(n, r, now).1 ==> Proposes(n, r, m)
  {
    hide Put, RequestDigest;
  }

  lemma AcceptPosts(s: State, p: Prepare, forward: bool, m: Message)
    ensures m in AcceptPrepare(s, p, forward).1 ==> Routine(s, m)
  {
    hide Prepared, Opinion, Prune, PrepareRejected;
  }

  lemma PreparePosts(n: State, p: Prepare, m: Message)
    ensures m in RecvPrepare(n, p).1 ==> Routine(n, m)
  {
    hide AcceptPrepare, HasSender;
    AcceptPosts(Touch(n, MsgId(p.view, p.reqId)), p, true, m);
  }

  lemma EnterPosts(s: State, pp: PrePrepare, m: Message)
    ensures m in EnterPrePrepare(s, pp).1 ==> Routine(s, m)
    ensures EnterPrePrepare(s, pp).0.id == s.id
  {
    EnterVotes(s, pp);
    hide Prepared, AcceptPrepare, HasSender;
    var id := MsgId(pp.view, pp.request.reqId);
    var t := SetCert(s, id, CertAt(s, id).(prePrepare := Some(pp)));
    if |CertAt(t, id).prepare| > 0 {
      var p := CertAt(t, id).prepare[0];
      var u := Touch(t, MsgId(p.view, p.reqId));
      AcceptPosts(u, p, !HasSender(CertAt(u, MsgId(p.view, p.reqId)).prepare, p.sender), m);
    }
  }

  lemma PrePreparePosts(n: State, pp: PrePrepare, exe: string, now: Time, m: Message)
    ensures m in RecvPrePrepare(n, pp, exe, now).1 ==> Routine(n, m) || Answers(n, pp, exe, m)
  {
    hide PrePrepared, EnterPrePrepare, Put, Lookup;
    EnterPosts(Touch(StoreRequest(n, pp), MsgId(pp.view, pp.request.reqId)), pp, m);
  }

  /** A proposal is posted exactly for a block above the head, under the next id. */
  lemma RequestPostedIff(n: State, i: Input, r: Request)
    ensures RequestMsg(r) in Step(n, i).1 <==>
      i.Propose? && i.block.number > n.current
      && r == Request((n.lastReqId + 1) % TWO_64, n.id, n.view, i.block.number, BlockHash(i.block), i.block)
  {
    hide RecvRequest, RecvPrePrepare, RecvPrepare, RecvCommit, RecvCheckpoint, BlockHash;
    StepPosts(n, i, RequestMsg(r));
  }

  /** Pre-prepares and prepares under the node's own name answer what it received: the
      request as it is, and the pre-prepare's view, id and digest. */
  lemma StepPosts(n: State, i: Input, m: Message)
    ensures m in Step(n, i).1 && i.Receive? ==> !m.RequestMsg?
    ensures m in Step(n, i).1 && m.PrePrepareMsg? && m.prePrepare.sender == n.id ==>
      i.Receive? && i.msg.RequestMsg? && Proposes(n, i.msg.request, m)
    ensures m in Step(n, i).1 && m.PrepareMsg? && m.prepare.sender == n.id ==>
      i.Receive? && i.msg.PrePrepareMsg? && Answers(n, i.msg.prePrepare, i.exe, m)
  {
    hide RecvRequest, RecvPrePrepare, RecvPrepare, RecvCommit, RecvCheckpoint;
    if i.Receive? {
      match i.msg {
        case RequestMsg(r) => RequestPosts(n, r, i.now, m);
        case PrePrepareMsg(pp) => PrePreparePosts(n, pp, i.exe, i.now, m);
        case PrepareMsg(p) => PreparePosts(n, p, m);
        case CommitMsg(k) => CommitPosts(n, k, m);
        case CheckpointMsg(k) =>
      }
    }
  }

  lemma CommitPosts(n: State, k: Commit, m: Message)
    ensures m in RecvCommit(n, k).1 ==> m.CheckpointMsg? || (m == CommitMsg(k) && k.sender != n.id)
  {
    hide Committed, VerdictOf, Voters, RemoveOld;
  }

  // ---- one pre-prepare and one prepare per certificate

  /** The certificate holds the same pre-prepare digest as before, or held none; and a
      prepare sent stays sent. */
  predicate Holds(c: Cert, d: Cert) {
    && (c.prePrepare.Some? ==> d.prePrepare.Some? && d.prePrepare.value.digest == c.prePrepare.value.digest)
    && (c.sentPrepare ==> d.sentPrepare) && (c.sentCommit ==> d.sentCommit)
  }

  predicate AllHold(n: State, t: State) { forall id :: id in n.certs && id in t.certs ==> Holds(n.certs[id], t.certs[id]) }

  lemma AcceptHolds(s: State, p: Prepare, forward: bool)
    ensures var t := AcceptPrepare(s, p, forward).0; AllHold(s, t) && s.certs.Keys <= t.certs.Keys
  {
    hide Prepared, Opinion, Prune, PrepareRejected;
  }

  lemma EnterHolds(s: State, pp: PrePrepare)
    ensures var t := EnterPrePrepare(s, pp).0; AllHold(s, t) && s.certs.Keys <= t.certs.Keys
  {
    hide Prepared, AcceptPrepare, HasSender;
    var id := MsgId(pp.view, pp.request.reqId);
    var t := SetCert(s, id, CertAt(s, id).(prePrepare := Some(pp)));
    if |CertAt(t, id).prepare| > 0 {
      var p := CertAt(t, id).prepare[0];
      var u := Touch(t, MsgId(p.view, p.reqId));
      AcceptHolds(u, p, !HasSender(CertAt(u, MsgId(p.view, p.reqId)).prepare, p.sender));
    }
  }

  lemma AnswerHolds(s: State, pp: PrePrepare, exe: string, now: Time)
    ensures var t := Answer(s, pp, exe, now).0; AllHold(s, t) && s.certs.Keys <= t.certs.Keys
  {
    hide PrePrepared, Put, Lookup;
  }

  lemma HoldsThen(s: State, u: State, t: State)
    requires AllHold(s, u) && AllHold(u, t) && s.certs.Keys <= u.certs.Keys
    ensures AllHold(s, t)
  {}

  lemma PrePrepareHolds(n: State, pp: PrePrepare, exe: string, now: Time)
    ensures AllHold(n, RecvPrePrepare(n, pp, exe, now).0)
  {
    hide PrePrepared, EnterPrePrepare, Answer, AllHold;
    var s := StoreRequest(n, pp);
    var u := Touch(s, MsgId(pp.view, pp.request.reqId));
    TouchHolds(n, s, MsgId(pp.view, pp.request.reqId));
    EnterHolds(u, pp);
    AnswerHolds(EnterPrePrepare(u, pp).0, pp, exe, now);
    HoldsThen(u, EnterPrePrepare(u, pp).0, Answer(EnterPrePrepare(u, pp).0, pp, exe, now).0);
    HoldsThen(n, u, Answer(EnterPrePrepare(u, pp).0, pp, exe, now).0);
    HoldsThen(n, u, EnterPrePrepare(u, pp).0);
  }

  lemma TouchHolds(n: State, s: State, id: MsgId)
    requires s.certs == n.certs
    ensures AllHold(n, n) && AllHold(n, s) && AllHold(n, Touch(s, id)) && n.certs.Keys <= Touch(s, id).certs.Keys
  {}

  /** No step but on a request replaces a pre-prepare by one with another digest, and none
      forgets that it sent its prepare or its vote, as long as the certificate is there. */
  lemma CertificatesHold(n: State, i: Input)
    requires !(i.Receive? && i.msg.RequestMsg?)
    ensures AllHold(n, Step(n, i).0)
  {
    hide RecvRequest, RecvPrePrepare, RecvPrepare, RecvCommit, RecvCheckpoint;
    if i.Receive? {
      match i.msg {
        case PrePrepareMsg(pp) => PrePrepareHolds(n, pp, i.exe, i.now);
        case PrepareMsg(p) => PrepareHolds(n, p);
        case CommitMsg(k) => CommitHolds(n, k);
        case CheckpointMsg(k) => CheckpointHolds(n, k);
      }
    }
  }

  /** A request does so exactly when it is taken up although its certificate holds a
      pre-prepare with another digest. */
  lemma RequestHoldsIff(n: State, r: Request, exe: string, now: Time)
    ensures var held := CertAt(n, MsgId(r.view, r.reqId)).prePrepare;
      AllHold(n, Step(n, Receive(RequestMsg(r), exe, now)).0) <==>
        !(n.ready && r.sender == n.leader && r.view == n.view && r.height > n.current && RequestDigest(r) !in n.reqStore
          && held.Some? && held.value.digest != RequestDigest(r))
  {
    hide RequestDigest, Put;
  }

  lemma PrepareHolds(n: State, p: Prepare)
    ensures AllHold(n, RecvPrepare(n, p).0)
  {
    hide AcceptPrepare, HasSender, AllHold;
    var u := Touch(n, MsgId(p.view, p.reqId));
    TouchHolds(n, n, MsgId(p.view, p.reqId));
    AcceptHolds(u, p, true);
    HoldsThen(n, u, AcceptPrepare(u, p, true).0);
  }

  lemma CommitHolds(n: State, k: Commit)
    ensures AllHold(n, RecvCommit(n, k).0)
  {
    hide Committed, VerdictOf, Voters;
  }

  lemma CheckpointHolds(n: State, k: Checkpoint)
    ensures AllHold(n, RecvCheckpoint(n, k))
  {
    hide DeleteUpTo;
  }

  // ---- what a vote says

  /** A prepare makes the node vote exactly when it is the first of its sender for a
      request stored, above the head and at a height not voted yet, and completes the
      quorum of prepares behind the pre-prepare held. The height is then recorded, and
      recorded heights behind the head are forgotten. */
  lemma VotesOnPrepareIff(n: State, p: Prepare, exe: string, now: Time)
    ensures var o := Step(n, Receive(PrepareMsg(p), exe, now));
      var c := CertAt(n, MsgId(p.view, p.reqId));
      var votes := p.view == n.view && n.ready && !HasSender(c.prepare, p.sender)
        && p.digest in n.reqStore && n.reqStore[p.digest].height > n.current
        && n.reqStore[p.digest].height !in n.commitStore && !c.sentCommit
        && PrePrepared(n, p.digest, p.view, p.reqId)
        && MatchCount(c.prepare + [p], p.view, p.reqId, p.digest) >= GetQuorum(n.n);
      && (votes <==> exists k :: CommitMsg(k) in o.1)
      && (PrepareMsg(p) in o.1 ==> p.sender != n.id)
      && (votes && p.sender != n.id ==> PrepareMsg(p) in o.1)
      && (votes ==> forall h :: h in o.0.commitStore <==>
            h >= n.current && (h in n.commitStore || h == n.reqStore[p.digest].height))
  {
    hide MatchCount, ExeAgreed, Lookup, HasSender, GetQuorum;
    var t := Touch(n, MsgId(p.view, p.reqId));
    var o := RecvPrepare(n, p);
    if p.view == n.view && n.ready && !HasSender(CertAt(t, MsgId(p.view, p.reqId)).prepare, p.sender) && !PrepareRejected(t, p) {
      var u := AddPrepare(t, p);
      assert PrePrepared(u, p.digest, p.view, p.reqId) <==> PrePrepared(n, p.digest, p.view, p.reqId);
      if Prepared(u, p.digest, p.view, p.reqId) && !CertAt(u, MsgId(p.view, p.reqId)).sentCommit {
        assert CommitMsg(Vote(u, n.reqStore[p.digest], p)) in o.1;
      }
    }
  }

  /** The pre-prepare comes last: a quorum of prepares is already there, the first of them
      for this request, whose height is above the head and not voted. */
  predicate ComesLate(n: State, pp: PrePrepare) {
    var c := CertAt(n, MsgId(pp.view, pp.reqId));
    && n.ready && pp.view == n.view && pp.reqId == pp.request.reqId
    && (if pp.digest in n.reqStore then n.reqStore[pp.digest].height > n.current && n.reqStore[pp.digest].height !in n.commitStore
        else pp.request.sender == n.leader && pp.request.view >= n.view && pp.request.height !in n.commitStore)
    && pp.request.height > n.current
    && (c.prePrepare.Some? ==> c.prePrepare.value.digest == pp.digest) && !c.sentPrepare && !c.sentCommit
    && c.prepare != [] && Matches(c.prepare[0], pp.view, pp.reqId, pp.digest)
    && MatchCount(c.prepare, pp.view, pp.reqId, pp.digest) >= GetQuorum(n.n)
  }

  /** Then the pre-prepare itself makes the node vote: the compensation for messages that
      overtook each other. */
  lemma LatePrePrepareVotes(n: State, pp: PrePrepare, exe: string, now: Time)
    requires ComesLate(n, pp)
    ensures exists k :: CommitMsg(k) in Step(n, Receive(PrePrepareMsg(pp), exe, now)).1 && k.sender == n.id
  {
    LateEntered(n, pp);
    var s := Touch(StoreRequest(n, pp), MsgId(pp.view, pp.reqId));
    var k := LateVote(Entered(n, pp), pp, CertAt(n, MsgId(pp.view, pp.reqId)).prepare[0]);
    hide MatchCount, Answer, EnterPrePrepare, RecvPrepareAgain, GetQuorum;
    assert CommitMsg(k) in EnterPrePrepare(s, pp).1;
  }

  /** The state once the pre-prepare is in its certificate. */
  function Entered(n: State, pp: PrePrepare): (t: State) {
    var id := MsgId(pp.view, pp.reqId);
    var s := Touch(StoreRequest(n, pp), id);
    SetCert(s, id, CertAt(s, id).(prePrepare := Some(pp)))
  }

  lemma LateEntered(n: State, pp: PrePrepare)
    requires ComesLate(n, pp)
    ensures var t := Entered(n, pp); var id := MsgId(pp.view, pp.reqId);
      && t.ready && t.view == n.view && t.id == n.id && t.n == n.n
      && pp.digest in t.reqStore && t.reqStore[pp.digest].height > t.current && t.reqStore[pp.digest].height !in t.commitStore
      && Prepared(t, pp.digest, pp.view, pp.reqId) && !CertAt(t, id).sentCommit
      && EnterPrePrepare(Touch(StoreRequest(n, pp), id), pp) == RecvPrepareAgain(t, CertAt(n, id).prepare[0])
  {
    hide MatchCount, RecvPrepareAgain, GetQuorum;
  }

  lemma LateVote(t: State, pp: PrePrepare, p: Prepare) returns (k: Commit)
    requires t.ready && pp.view == t.view && Matches(p, pp.view, pp.reqId, pp.digest)
    requires pp.digest in t.reqStore && t.reqStore[pp.digest].height > t.current && t.reqStore[pp.digest].height !in t.commitStore
    requires Prepared(t, pp.digest, pp.view, pp.reqId) && !CertAt(t, MsgId(pp.view, pp.reqId)).sentCommit
    ensures CommitMsg(k) in RecvPrepareAgain(t, p).1 && k.sender == t.id
  {
    hide Opinion, Prune;
    var id := MsgId(p.view, p.reqId);
    var u := Touch(t, id);
    var ps := CertAt(u, id).prepare;
    assert (ps + [p])[..|ps|] == ps;
    var w := AddPrepare(u, p);
    hide MatchCount;
    assert Prepared(w, p.digest, p.view, p.reqId);
    k := Vote(w, t.reqStore[p.digest], p);
    assert CommitMsg(k) in TryVote(w, t.reqStore[p.digest], p).1;
  }

  function Carrying(ps: seq<Prepare>, v: uint64, r: uint64, d: Digest, exe: string): (js: set<nat>) {
    set j | 0 <= j < |ps| && ps[j].view == v && ps[j].reqId == r && ps[j].digest == d && ps[j].exe == exe
  }

  lemma {:induction false} ExeCountIs(ps: seq<Prepare>, v: uint64, r: uint64, d: Digest, exe: string)
    ensures ExeCount(ps, v, r, d, exe) == |Carrying(ps, v, r, d, exe)|
  {
    if ps != [] {
      var n := |ps| - 1;
      ExeCountIs(ps[..n], v, r, d, exe);
      var before, all := Carrying(ps[..n], v, r, d, exe), Carrying(ps, v, r, d, exe);
      assert all == before + if Matches(ps[n], v, r, d) && ps[n].exe == exe then {n} else {};
    }
  }

  /** Some non-empty dependency graph is carried by at least q of the prepares. */
  ghost predicate GraphAgreed(ps: seq<Prepare>, v: uint64, r: uint64, d: Digest, q: int) {
    exists exe :: exe != "" && |Carrying(ps, v, r, d, exe)| >= q
  }

  lemma ExeAgreedIs(ps: seq<Prepare>, v: uint64, r: uint64, d: Digest, q: int)
    requires q > 0
    ensures ExeAgreed(ps, v, r, d, q) <==> GraphAgreed(ps, v, r, d, q)
  {
    hide ExeCount;
    if i :| 0 <= i < |ps| && ps[i].exe != "" && ExeCount(ps, v, r, d, ps[i].exe) >= q {
      ExeCountIs(ps, v, r, d, ps[i].exe);
    }
    if exe: string :| exe != "" && |Carrying(ps, v, r, d, exe)| >= q {
      var j :| j in Carrying(ps, v, r, d, exe);
      ExeCountIs(ps, v, r, d, exe);
      assert ps[j].exe == exe;
    }
  }

  /** The vote k of a node that was in state n and is now in state t: cast under its name
      for the request stored under the digest, in favour exactly if the block is valid
      and a quorum of the prepares carries one dependency graph. The block is the one in
      the pool, or else the request's own. */
  ghost predicate VoteSays(n: State, t: State, k: Commit) {
    && k.digest in t.reqStore && k.view == n.view
    && var req, ps := t.reqStore[k.digest], CertAt(t, MsgId(k.view, k.reqId)).prepare;
       var pooled := Lookup(n.pool, req.height, req.hash);
       && k.sender == k.vr.sender == n.id && k.vr.height == req.height && k.vr.hash == req.hash
       && (k.vr.opinion <==>
             (if pooled.Some? then pooled.value else req.block).valid == 0
             && GraphAgreed(ps, k.view, k.reqId, k.digest, GetQuorum(n.n)))
  }

  lemma QuorumPositive(n: int)
    ensures GetQuorum(n) > 0
  {
    if n >= 2 {
      QuorumFormula(n);
    }
  }

  lemma TrySays(s: State, req: Request, p: Prepare, k: Commit)
    requires p.digest in s.reqStore && req == s.reqStore[p.digest] && p.view == s.view
    ensures CommitMsg(k) in TryVote(s, req, p).1 ==> VoteSays(s, TryVote(s, req, p).0, k)
  {
    hide Prepared, Prune, ExeAgreed, GraphAgreed, Lookup;
    QuorumPositive(s.n);
    ExeAgreedIs(CertAt(s, MsgId(p.view, p.reqId)).prepare, p.view, p.reqId, p.digest, GetQuorum(s.n));
  }

  /** States that agree on what a vote is about. */
  predicate SameBallot(n: State, s: State) { s.id == n.id && s.view == n.view && s.n == n.n && s.pool == n.pool }

  lemma AcceptSays(n: State, s: State, p: Prepare, forward: bool, k: Commit)
    requires SameBallot(n, s) && p.view == n.view
    ensures CommitMsg(k) in AcceptPrepare(s, p, forward).1 ==> VoteSays(n, AcceptPrepare(s, p, forward).0, k)
  {
    hide TryVote, VoteSays;
    if !PrepareRejected(s, p) {
      TrySays(AddPrepare(s, p), s.reqStore[p.digest], p, k);
      SameSays(n, AddPrepare(s, p), AcceptPrepare(s, p, forward).0, k);
    }
  }

  lemma SameSays(n: State, s: State, t: State, k: Commit)
    requires SameBallot(n, s)
    ensures VoteSays(s, t, k) <==> VoteSays(n, t, k)
  {}

  lemma EnterSays(n: State, s: State, pp: PrePrepare, k: Commit)
    requires SameBallot(n, s)
    ensures CommitMsg(k) in EnterPrePrepare(s, pp).1 ==> VoteSays(n, EnterPrePrepare(s, pp).0, k)
  {
    hide Prepared, AcceptPrepare, HasSender, VoteSays;
    var id := MsgId(pp.view, pp.request.reqId);
    var t := SetCert(s, id, CertAt(s, id).(prePrepare := Some(pp)));
    if |CertAt(t, id).prepare| > 0 {
      var p := CertAt(t, id).prepare[0];
      var u := Touch(t, MsgId(p.view, p.reqId));
      if p.view == n.view {
        AcceptSays(n, u, p, !HasSender(CertAt(u, MsgId(p.view, p.reqId)).prepare, p.sender), k);
      }
    }
  }

  lemma AnswerKeepsVote(n: State, s: State, pp: PrePrepare, exe: string, now: Time, k: Commit)
    requires VoteSays(n, s, k)
    ensures VoteSays(n, Answer(s, pp, exe, now).0, k)
  {
    hide Answer, VoteSays;
    AnswerKeeps(s, pp, exe, now, MsgId(k.view, k.reqId));
    AlsoSays(n, s, Answer(s, pp, exe, now).0, k);
  }

  lemma AnswerKeeps(s: State, pp: PrePrepare, exe: string, now: Time, id: MsgId)
    ensures var t := Answer(s, pp, exe, now).0; t.reqStore == s.reqStore && CertAt(t, id).prepare == CertAt(s, id).prepare
  {
    hide PrePrepared, Put, Lookup;
  }

  lemma AlsoSays(n: State, s: State, t: State, k: Commit)
    requires VoteSays(n, s, k) && t.reqStore == s.reqStore
    requires CertAt(t, MsgId(k.view, k.reqId)).prepare == CertAt(s, MsgId(k.view, k.reqId)).prepare
    ensures VoteSays(n, t, k)
  {
    hide Lookup, GraphAgreed;
  }

  lemma AnswerNoVote(s: State, pp: PrePrepare, exe: string, now: Time, k: Commit)
    ensures CommitMsg(k) !in Answer(s, pp, exe, now).1
  {
    hide PrePrepared, Put, Lookup;
  }

  lemma PrePrepareSays(n: State, pp: PrePrepare, exe: string, now: Time, k: Commit)
    ensures CommitMsg(k) in RecvPrePrepare(n, pp, exe, now).1 ==> VoteSays(n, RecvPrePrepare(n, pp, exe, now).0, k)
  {
    hide PrePrepared, EnterPrePrepare, Answer, VoteSays;
    var u := Touch(StoreRequest(n, pp), MsgId(pp.view, pp.request.reqId));
    EnterSays(n, u, pp, k);
    var o := EnterPrePrepare(u, pp);
    AnswerNoVote(o.0, pp, exe, now, k);
    if CommitMsg(k) in o.1 {
      AnswerKeepsVote(n, o.0, pp, exe, now, k);
    }
  }

  lemma PrepareSays(n: State, p: Prepare, k: Commit)
    ensures CommitMsg(k) in RecvPrepare(n, p).1 ==> VoteSays(n, RecvPrepare(n, p).0, k)
  {
    hide AcceptPrepare, HasSender, VoteSays;
    if p.view == n.view {
      AcceptSays(n, Touch(n, MsgId(p.view, p.reqId)), p, true, k);
    }
  }

  /** Every vote a node casts, in whatever state and on whatever input, says this. */
  lemma VotesSay(n: State, i: Input, k: Commit)
    requires CommitMsg(k) in Step(n, i).1 && k.sender == n.id
    ensures VoteSays(n, Step(n, i).0, k)
  {
    hide RecvRequest, RecvPrePrepare, RecvPrepare, RecvCommit, RecvCheckpoint, VoteSays;
    match i.msg {
      case RequestMsg(r) => RequestPosts(n, r, i.now, CommitMsg(k));
      case PrePrepareMsg(pp) => PrePrepareSays(n, pp, i.exe, i.now, k);
      case PrepareMsg(p) => PrepareSays(n, p, k);
      case CommitMsg(c) => CommitPosts(n, c, CommitMsg(k));
      case CheckpointMsg(c) =>
    }
  }
}
