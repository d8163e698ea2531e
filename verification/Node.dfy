/** One consensus node as a value, and what each handler does to it: the
    specification the worker's methods are proved against. Each handler is one
    atomic step; its second result lists the messages it posts. */
module Node {
  import opened Text
  import opened Messages
  import opened Quorum
  import opened Votes
  import opened BlockPool

  datatype Cert = Cert(prePrepare: Option<PrePrepare>, sentPrepare: bool, prepare: seq<Prepare>,
                       sentCommit: bool, commit: seq<Commit>)

  const EMPTY_CERT := Cert(None, false, [], false, [])

  datatype MsgId = MsgId(v: uint64, n: uint64)

  datatype State = State(id: NodeId, leader: NodeId, view: uint64, n: nat, ready: bool,
                         lastReqId: uint64, reqStore: map<Digest, Request>, certs: map<MsgId, Cert>,
                         commitStore: map<uint64, Hash>, current: uint64, pool: Pool,
                         checkpoints: map<Hash, uint64>, checkpointBH: uint64)

  type Outcome = (State, seq<Message>)

  // ---- certificates

  function CertAt(s: State, id: MsgId): (c: Cert) {
    if id in s.certs then s.certs[id] else EMPTY_CERT
  }

  function SetCert(s: State, id: MsgId, c: Cert): (t: State) { s.(certs := s.certs[id := c]) }

  /** getCert creates the certificate it does not find. */
  function Touch(s: State, id: MsgId): (t: State) { SetCert(s, id, CertAt(s, id)) }

  predicate PrePrepared(s: State, d: Digest, v: uint64, r: uint64) {
    && (d != "" ==> d in s.reqStore)
    && MsgId(v, r) in s.certs
    && var p := s.certs[MsgId(v, r)].prePrepare;
       p.Some? && p.value.view == v && p.value.reqId == r && p.value.digest == d
  }

  predicate Prepared(s: State, d: Digest, v: uint64, r: uint64) {
    PrePrepared(s, d, v, r) && MatchCount(s.certs[MsgId(v, r)].prepare, v, r, d) >= GetQuorum(s.n)
  }

  predicate Committed(s: State, d: Digest, v: uint64, r: uint64) {
    Prepared(s, d, v, r) && |CommitSenders(s.certs[MsgId(v, r)].commit, v, r)| >= GetQuorum(s.n)
  }

  // ---- requests

  /** SendRequest: the request id is a uint64 counter that wraps around. */
  function SendRequest(s: State, b: Block): (o: Outcome) {
    var t := s.(lastReqId := (s.lastReqId + 1) % TWO_64);
    if b.number <= s.current then (t, [])
    else (t, [RequestMsg(Request(t.lastReqId, s.id, s.view, b.number, BlockHash(b), b))])
  }

  function Raise(s: State, reqId: uint64): (t: State) {
    if s.lastReqId < reqId then s.(lastReqId := reqId) else s
  }

  predicate RequestRejected(s: State, req: Request) {
    || !s.ready || req.sender != s.leader || req.view < s.view
    || RequestDigest(req) in s.reqStore || req.height <= s.current
  }

  function RecvRequest(s: State, req: Request, now: Time): (o: Outcome) {
    var t := Raise(s, req.reqId);
    if RequestRejected(t, req) then (t, [])
    else
      var u := t.(reqStore := t.reqStore[RequestDigest(req) := req]);
      if req.view != u.view then (u, [])
      else
        var pp := PrePrepare(s.id, req.view, req.reqId, RequestDigest(req), req);
        var id := MsgId(req.view, req.reqId);
        var w := u.(pool := Put(u.pool, req.block, now));
        (SetCert(w, id, CertAt(w, id).(prePrepare := Some(pp))), [PrePrepareMsg(pp)])
  }

  // ---- prepares

  function Opinion(s: State, req: Request, p: Prepare): (b: bool) {
    var stored := Lookup(s.pool, req.height, req.hash);
    var block := if stored.Some? then stored.value else req.block;
    block.valid == 0
    && ExeAgreed(CertAt(s, MsgId(p.view, p.reqId)).prepare, p.view, p.reqId, p.digest, GetQuorum(s.n))
  }

  function Vote(s: State, req: Request, p: Prepare): (c: Commit) {
    Commit(s.id, p.view, p.reqId, p.digest,
           VoteResult(s.id, req.height, req.hash, Opinion(s, req, p)))
  }

  /** Heights below the chain head are forgotten. */
  function Prune(m: map<uint64, Hash>, current: uint64): (r: map<uint64, Hash>) {
    map h | h in m && h >= current :: m[h]
  }

  /** The prepare p is in the certificate; vote if that makes the request prepared. */
  function TryVote(s: State, req: Request, p: Prepare): (o: Outcome) {
    var id := MsgId(p.view, p.reqId);
    if Prepared(s, p.digest, p.view, p.reqId) && !CertAt(s, id).sentCommit then
      var t := s.(commitStore := Prune(s.commitStore[req.height := req.hash], s.current));
      (SetCert(t, id, CertAt(t, id).(sentCommit := true)), [CommitMsg(Vote(s, req, p))])
    else (s, [])
  }

  predicate PrepareRejected(s: State, p: Prepare) {
    || p.digest !in s.reqStore
    || s.reqStore[p.digest].height <= s.current
    || s.reqStore[p.digest].height in s.commitStore
    || (Prepared(s, p.digest, p.view, p.reqId) && CertAt(s, MsgId(p.view, p.reqId)).sentCommit)
  }

  function AddPrepare(s: State, p: Prepare): (t: State) {
    var id := MsgId(p.view, p.reqId);
    SetCert(s, id, CertAt(s, id).(prepare := CertAt(s, id).prepare + [p]))
  }

  /** The common tail of the two prepare handlers. */
  function AcceptPrepare(s: State, p: Prepare, forward: bool): (o: Outcome) {
    if PrepareRejected(s, p) then (s, [])
    else
      var o := TryVote(AddPrepare(s, p), s.reqStore[p.digest], p);
      (o.0, o.1 + if forward && p.sender != s.id then [PrepareMsg(p)] else [])
  }

  function RecvPrepare(s: State, p: Prepare): (o: Outcome) {
    if p.view != s.view || !s.ready then (s, [])
    else
      var t := Touch(s, MsgId(p.view, p.reqId));
      if HasSender(CertAt(t, MsgId(p.view, p.reqId)).prepare, p.sender) then (t, [])
      else AcceptPrepare(t, p, true)
  }

  /** RecvPrepare_notTransfer, the compensation call: duplicates are let through. */
  function RecvPrepareAgain(s: State, p: Prepare): (o: Outcome) {
    if p.view != s.view || !s.ready then (s, [])
    else
      var t := Touch(s, MsgId(p.view, p.reqId));
      AcceptPrepare(t, p, !HasSender(CertAt(t, MsgId(p.view, p.reqId)).prepare, p.sender))
  }

  // ---- pre-prepares

  /** The request is stored under the digest the message names, unchecked. */
  function StoreRequest(s: State, pp: PrePrepare): (t: State) {
    if pp.digest in s.reqStore then s
    else Raise(s, pp.reqId).(reqStore := s.reqStore[pp.digest := pp.request])
  }

  predicate PrePrepareRejected(s: State, pp: PrePrepare) {
    || pp.view != s.view || !s.ready
    || (pp.digest !in s.reqStore && (pp.request.sender != s.leader || pp.request.view < s.view))
  }

  /** The pre-prepare enters its certificate, and the compensation call votes if
      enough prepares came first. */
  function EnterPrePrepare(s: State, pp: PrePrepare): (o: Outcome) {
    var id := MsgId(pp.view, pp.request.reqId);
    var old_ := CertAt(s, id).prePrepare;
    if old_.Some? && old_.value.digest != pp.digest then (s, [])
    else
      var t := SetCert(s, id, CertAt(s, id).(prePrepare := Some(pp)));
      var c := CertAt(t, id);
      if Prepared(t, pp.digest, pp.view, pp.request.reqId) && !c.sentCommit && |c.prepare| > 0
      then RecvPrepareAgain(t, c.prepare[0]) else (t, [])
  }

  function OwnPrepare(s: State, pp: PrePrepare, exe: string): (p: Prepare) {
    Prepare(s.id, pp.view, pp.reqId, pp.digest, exe)
  }

  /** Answer a pre-prepare that has been entered. */
  function Answer(s: State, pp: PrePrepare, exe: string, now: Time): (o: Outcome) {
    var id := MsgId(pp.view, pp.request.reqId);
    if !PrePrepared(s, pp.digest, pp.view, pp.reqId) then (s, [])
    else
      var t := if Lookup(s.pool, pp.request.height, pp.request.hash).Some? then s
               else s.(pool := Put(s.pool, pp.request.block, now));
      if CertAt(t, id).sentPrepare then (t, [])
      else
        (SetCert(t, id, CertAt(t, id).(sentPrepare := true)),
         [PrepareMsg(OwnPrepare(s, pp, exe))] + if pp.sender != s.id then [PrePrepareMsg(pp)] else [])
  }

  function RecvPrePrepare(s: State, pp: PrePrepare, exe: string, now: Time): (o: Outcome) {
    if PrePrepareRejected(s, pp) then (s, [])
    else
      var t := StoreRequest(s, pp);
      if pp.request.height <= t.current then (t, [])
      else
        var id := MsgId(pp.view, pp.request.reqId);
        var u := Touch(t, id);
        if PrePrepared(u, pp.digest, pp.view, pp.reqId) && CertAt(u, id).sentPrepare then (u, [])
        else
          var o := EnterPrePrepare(u, pp);
          var a := Answer(o.0, pp, exe, now);
          (a.0, o.1 + a.1)
  }

  // ---- commits and checkpoints

  function RemoveOld(s: State, reqId: uint64): (t: State) {
    s.(certs := map id | id in s.certs && id.n > reqId :: s.certs[id],
       reqStore := map d | d in s.reqStore && s.reqStore[d].reqId > reqId :: s.reqStore[d])
  }

  function CheckpointFor(s: State, c: Commit): (k: Checkpoint) {
    Checkpoint(s.id, c.vr.height, c.reqId, c.vr.hash)
  }

  /** A request whose commits reached the quorum: insert, wait or give up. */
  function Conclude(s: State, c: Commit): (o: Outcome) {
    match VerdictOf(s.n, CertAt(s, MsgId(c.view, c.reqId)).commit)
    case Positive => (RemoveOld(s.(current := if s.current < c.vr.height then s.current + 1 else s.current), c.reqId),
                      [CheckpointMsg(CheckpointFor(s, c))])
    case FuturePositive => (s, [])
    case Negative => (RemoveOld(s, c.reqId), [CheckpointMsg(CheckpointFor(s, c))])
  }

  function AddCommit(s: State, c: Commit): (t: State) {
    var id := MsgId(c.view, c.reqId);
    SetCert(s, id, CertAt(s, id).(commit := CertAt(s, id).commit + [c]))
  }

  function RecvCommit(s: State, c: Commit): (o: Outcome) {
    if c.view != s.view || !s.ready || c.vr.height <= s.current then (s, [])
    else
      var t := Touch(s, MsgId(c.view, c.reqId));
      if c.sender in Voters(CertAt(t, MsgId(c.view, c.reqId)).commit) then (t, [])
      else
        var u := AddCommit(t, c);
        var forward := if c.sender != s.id then [CommitMsg(c)] else [];
        if !Committed(u, c.digest, c.view, c.reqId) then (u, forward)
        else if c.digest !in u.reqStore then (u, [])
        else (Conclude(u, c).0, Conclude(u, c).1 + forward)
  }

  function RecvCheckpoint(s: State, k: Checkpoint): (t: State) {
    if k.hash in s.checkpoints then s
    else
      var u := if s.checkpointBH < k.height then s.(checkpointBH := k.height) else s;
      if k.height < s.current then u
      else
        var all := u.checkpoints[k.hash := k.height];
        u.(pool := DeleteUpTo(u.pool, k.height, k.hash),
           checkpoints := map h | h in all && all[h] >= s.current :: all[h])
  }

  // ---- one step of a node

  datatype Input =
    | Propose(block: Block)
    | Receive(msg: Message, exe: string, now: Time)
    | Evict(now: Time, lifetime: Time)
    | SetReady(flag: bool)

  function Step(s: State, i: Input): (o: Outcome) {
    match i
    case Propose(b) => SendRequest(s, b)
    case Evict(now, lifetime) => (s.(pool := Without(s.pool, Expired(s.pool, now, lifetime))), [])
    case SetReady(flag) => (s.(ready := flag), [])
    case Receive(m, exe, now) =>
      match m
      case RequestMsg(r) => RecvRequest(s, r, now)
      case PrePrepareMsg(pp) => RecvPrePrepare(s, pp, exe, now)
      case PrepareMsg(p) => RecvPrepare(s, p)
      case CommitMsg(c) => RecvCommit(s, c)
      case CheckpointMsg(k) => (RecvCheckpoint(s, k), [])
  }
}
