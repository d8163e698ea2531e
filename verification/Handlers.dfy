/** The worker object: the handlers as the source performs them, on fields updated
    in place, each proved against its specification in module Node. */
module Handlers {
  import opened Text
  import opened Messages
  import opened Quorum
  import opened Votes
  import opened BlockPool
  import opened Node

  class Worker {
    var id: NodeId
    var leader: NodeId
    var view: uint64
    var n: nat
    var ready: bool
    var lastReqId: uint64
    var reqStore: map<Digest, Request>
    var certs: map<MsgId, Cert>
    var commitStore: map<uint64, Hash>
    var current: uint64
    var checkpoints: map<Hash, uint64>
    var checkpointBH: uint64
    const pool: BlockIndex

    constructor (id: NodeId, leader: NodeId, view: uint64, n: nat, current: uint64)
      ensures Abs() == State(id, leader, view, n, true, current, map[], map[], map[], current, Pool(map[], map[]), map[], current)
      ensures fresh(pool)
    {
      this.id, this.leader, this.view, this.n := id, leader, view, n;
      ready, lastReqId, this.current, checkpointBH := true, current, current, current;
      reqStore, certs, commitStore, checkpoints := map[], map[], map[], map[];
      pool := new BlockIndex();
    }

    function Abs(): (s: State)
      reads this, pool
    {
      State(id, leader, view, n, ready, lastReqId, reqStore, certs, commitStore, current, pool.State(), checkpoints, checkpointBH)
    }

    // ---- reading certificates

    method IsPrePrepared(digest: Digest, v: uint64, r: uint64) returns (b: bool)
      ensures b == PrePrepared(Abs(), digest, v, r)
    {
      if digest != "" && digest !in reqStore {
        return false;
      }
      if MsgId(v, r) in certs {
        var p := certs[MsgId(v, r)].prePrepare;
        if p.Some? && p.value.view == v && p.value.reqId == r && p.value.digest == digest {
          return true;
        }
      }
      return false;
    }

    method IsPrepared(digest: Digest, v: uint64, r: uint64) returns (b: bool)
      ensures b == Prepared(Abs(), digest, v, r)
    {
      var pre := IsPrePrepared(digest, v, r);
      if !pre {
        return false;
      }
      var quorum := 0;
      var prepare := certs[MsgId(v, r)].prepare;
      for i := 0 to |prepare|
        invariant quorum == MatchCount(prepare[..i], v, r, digest)
      {
        assert prepare[..i + 1][..i] == prepare[..i];
        var p := prepare[i];
        if p.view == v && p.reqId == r && p.digest == digest {
          quorum := quorum + 1;
        }
      }
      assert prepare[..|prepare|] == prepare;
      return quorum >= GetQuorum(n);
    }

    method IsCommitted(digest: Digest, v: uint64, r: uint64) returns (b: bool)
      ensures b == Committed(Abs(), digest, v, r)
    {
      var prep := IsPrepared(digest, v, r);
      if !prep {
        return false;
      }
      var quorum := CountSenders(certs[MsgId(v, r)].commit, v, r);
      return quorum >= GetQuorum(n);
    }

    /** The counting loop of committed: a repeated sender is not counted again. */
    method CountSenders(commit: seq<Commit>, v: uint64, r: uint64) returns (quorum: nat)
      ensures quorum == |CommitSenders(commit, v, r)|
    {
      quorum := 0;
      var seen: set<NodeId> := {};
      assert CommitSenders([], v, r) == {};
      hide CommitSenders;
      for i := 0 to |commit|
        invariant seen == CommitSenders(commit[..i], v, r)
        invariant quorum == |seen|
      {
        var p := commit[i];
        CommitSendersSnoc(commit[..i], p, v, r);
        assert commit[..i + 1] == commit[..i] + [p];
        if p.view == v && p.reqId == r {
          if p.sender !in seen {
            seen := seen + {p.sender};
            quorum := quorum + 1;
          }
        }
      }
      assert commit[..|commit|] == commit;
    }

    /** The counting loop of GetValidResFromCommit: only a sender's first vote counts. */
    method Tally(commit: seq<Commit>) returns (poss: nat, neg: nat, all: nat)
      ensures Tallied(commit, poss, neg, all)
    {
      poss, neg, all := 0, 0, 0;
      var seen: set<NodeId> := {};
      assert Tallied([], poss, neg, all) && Voters([]) == {};
      hide Voters, Tallied;
      for i := 0 to |commit|
        invariant seen == Voters(commit[..i])
        invariant Tallied(commit[..i], poss, neg, all)
      {
        var com := commit[i];
        TalliedSnoc(commit[..i], com, poss, neg, all);
        assert commit[..i + 1] == commit[..i] + [com];
        if com.sender !in seen {
          seen := seen + {com.sender};
          all := all + 1;
          if com.vr.opinion {
            poss := poss + 1;
          } else {
            neg := neg + 1;
          }
        }
      }
      assert commit[..|commit|] == commit;
    }

    /** GetValidResFromCommit. */
    method VerdictFrom(cert: Cert) returns (verdict: Verdict)
      ensures verdict == VerdictOf(n, cert.commit)
    {
      var poss, neg, all := Tally(cert.commit);
      var future := n - all;
      var quorum := GetQuorum(n);
      if poss >= quorum {
        return Positive;
      }
      if poss + future >= quorum {
        return FuturePositive;
      }
      return Negative;
    }

    /** getConsensusTxExes: the graph carried by most matching prepares, if it
        reaches the quorum. */
    method ConsensusExe(digest: Digest, v: uint64, r: uint64) returns (exe: Option<string>)
      ensures exe.Some? <==> ExeAgreed(CertAt(Abs(), MsgId(v, r)).prepare, v, r, digest, GetQuorum(n))
      ensures exe.Some? ==>
                var ps := CertAt(Abs(), MsgId(v, r)).prepare;
                && exe.value != "" && ExeCount(ps, v, r, digest, exe.value) >= GetQuorum(n)
                && forall e: string :: e != "" ==> ExeCount(ps, v, r, digest, e) <= ExeCount(ps, v, r, digest, exe.value)
    {
      if MsgId(v, r) !in certs {
        return None;
      }
      var prepare := certs[MsgId(v, r)].prepare;
      var counts := CountExes(prepare, v, r, digest);
      var best, count := "", 0;
      var todo := counts.Keys;
      while todo != {}
        invariant todo <= counts.Keys
        invariant count > 0 ==> best in counts && counts[best] == count
        invariant count >= 0
        invariant forall e :: e in counts && e !in todo ==> counts[e] <= count
        decreases todo
      {
        var e :| e in todo;
        if counts[e] > count {
          count, best := counts[e], e;
        }
        todo := todo - {e};
      }
      ExeCountMost(prepare, v, r, digest, counts, GetQuorum(n));
      if !(count >= GetQuorum(n)) {
        return None;
      }
      return Some(best);
    }

    method CountExes(prepare: seq<Prepare>, v: uint64, r: uint64, digest: Digest) returns (counts: map<string, nat>)
      ensures forall e :: e in counts <==> e != "" && ExeCount(prepare, v, r, digest, e) > 0
      ensures forall e :: e in counts ==> counts[e] == ExeCount(prepare, v, r, digest, e)
    {
      counts := map[];
      for i := 0 to |prepare|
        invariant forall e :: e in counts <==> e != "" && ExeCount(prepare[..i], v, r, digest, e) > 0
        invariant forall e :: e in counts ==> counts[e] == ExeCount(prepare[..i], v, r, digest, e)
      {
        var p := prepare[i];
        assert prepare[..i + 1][..i] == prepare[..i];
        if p.view == v && p.reqId == r && p.digest == digest {
          if |p.exe| != 0 {
            counts := counts[p.exe := (if p.exe in counts then counts[p.exe] else 0) + 1];
          }
        }
      }
      assert prepare[..|prepare|] == prepare;
    }

    // ---- requests

    method SendRequest(block: Block) returns (out: seq<Message>)
      modifies this`lastReqId
      ensures (Abs(), out) == Node.SendRequest(old(Abs()), block)
    {
      lastReqId := (lastReqId + 1) % TWO_64;
      var bh := block.number;
      if bh <= current {
        return [];
      }
      var req := Request(lastReqId, id, view, block.number, BlockHash(block), block);
      return [RequestMsg(req)];
    }

    method RecvRequest(req: Request, now: Time) returns (out: seq<Message>)
      modifies this, pool
      ensures (Abs(), out) == Node.RecvRequest(old(Abs()), req, now)
    {
      hide Put, PrePrepared;
      if lastReqId < req.reqId {
        lastReqId := req.reqId;
      }
      if !ready {
        return [];
      }
      if req.sender != leader || req.view < view {
        return [];
      }
      var digest := RequestDigest(req);
      if digest in reqStore {
        return [];
      }
      if req.height <= current {
        return [];
      }
      reqStore := reqStore[digest := req];
      if view == req.view {
        var pp := PrePrepare(id, req.view, req.reqId, digest, req);
        pool.PutAndBeat(req.block, now);
        PutPrePrepare(req.view, req.reqId, pp);
        return [PrePrepareMsg(pp)];
      }
      return [];
    }

    /** getCert: find the certificate or create an empty one. */
    method GetCert(v: uint64, r: uint64) returns (cert: Cert)
      modifies this`certs
      ensures Abs() == Touch(old(Abs()), MsgId(v, r))
      ensures cert == CertAt(old(Abs()), MsgId(v, r)) && MsgId(v, r) in certs && certs[MsgId(v, r)] == cert
    {
      if MsgId(v, r) in certs {
        cert := certs[MsgId(v, r)];
        assert certs == certs[MsgId(v, r) := cert];
        return;
      }
      cert := EMPTY_CERT;
      certs := certs[MsgId(v, r) := cert];
    }

    method PutPrePrepare(v: uint64, r: uint64, pp: PrePrepare)
      modifies this`certs
      ensures var s, id := old(Abs()), MsgId(v, r); Abs() == SetCert(s, id, CertAt(s, id).(prePrepare := Some(pp)))
    {
      var cert := GetCert(v, r);
      certs := certs[MsgId(v, r) := cert.(prePrepare := Some(pp))];
    }

    // ---- prepares

    /** A height voted before is left as it is; heights below the head are dropped. */
    method RecordVote(height: uint64, hash: Hash) returns (already: bool)
      modifies this`commitStore
      ensures already == (height in old(commitStore))
      ensures commitStore == Prune(if already then old(commitStore) else old(commitStore)[height := hash], current)
    {
      already := height in commitStore;
      if !already {
        commitStore := commitStore[height := hash];
      }
      ghost var full := commitStore;
      var todo := commitStore.Keys;
      while todo != {}
        invariant todo <= full.Keys
        invariant commitStore == map h | h in full && (h in todo || h >= current) :: full[h]
        decreases todo
      {
        var bh :| bh in todo;
        if bh < current {
          commitStore := commitStore - {bh};
        }
        todo := todo - {bh};
      }
    }

    method OpinionOn(req: Request, prep: Prepare) returns (opinion: bool)
      ensures opinion == Opinion(Abs(), req, prep)
    {
      hide ExeAgreed;
      var stored := pool.Get(req.height, req.hash);
      var block := if stored.None? then req.block else stored.value;
      opinion := block.valid == 0;
      if opinion {
        var exe := ConsensusExe(prep.digest, prep.view, prep.reqId);
        if exe.None? {
          opinion := false;
        }
      }
    }

    /** The voting part shared by the two prepare handlers. */
    method TryToVote(req: Request, prep: Prepare) returns (out: seq<Message>)
      requires MsgId(prep.view, prep.reqId) in certs && req.height !in commitStore && current < req.height
      modifies this`commitStore, this`certs
      ensures (Abs(), out) == TryVote(old(Abs()), req, prep)
    {
      hide Prepared, Opinion, Prune;
      var up := IsPrepared(prep.digest, prep.view, prep.reqId);
      if up && !certs[MsgId(prep.view, prep.reqId)].sentCommit {
        var opinion := OpinionOn(req, prep);
        var vr := VoteResult(id, req.height, req.hash, opinion);
        var commit := Commit(id, prep.view, prep.reqId, prep.digest, vr);
        var already := RecordVote(req.height, req.hash);
        certs := certs[MsgId(prep.view, prep.reqId) := certs[MsgId(prep.view, prep.reqId)].(sentCommit := true)];
        return [CommitMsg(commit)];
      }
      return [];
    }

    method Accept(prep: Prepare, forward: bool) returns (out: seq<Message>)
      requires MsgId(prep.view, prep.reqId) in certs
      modifies this`commitStore, this`certs
      ensures (Abs(), out) == AcceptPrepare(old(Abs()), prep, forward)
    {
      hide Prepared, TryVote;
      if prep.digest !in reqStore {
        return [];
      }
      var req := reqStore[prep.digest];
      if req.height <= current {
        return [];
      }
      if req.height in commitStore {
        return [];
      }
      var mid := MsgId(prep.view, prep.reqId);
      var done := IsPrepared(prep.digest, prep.view, prep.reqId);
      if done && certs[mid].sentCommit {
        return [];
      }
      certs := certs[mid := certs[mid].(prepare := certs[mid].prepare + [prep])];
      assert Abs() == AddPrepare(old(Abs()), prep);
      out := TryToVote(req, prep);
      if forward && prep.sender != id {
        out := out + [PrepareMsg(prep)];
      } else {
        assert out + [] == out;
      }
    }

    method SeenSender(prepare: seq<Prepare>, sender: NodeId) returns (seen: bool)
      ensures seen == HasSender(prepare, sender)
    {
      for i := 0 to |prepare|
        invariant forall k :: 0 <= k < i ==> prepare[k].sender != sender
      {
        if prepare[i].sender == sender {
          return true;
        }
      }
      return false;
    }

    method RecvPrepare(prep: Prepare) returns (out: seq<Message>)
      modifies this`commitStore, this`certs
      ensures (Abs(), out) == Node.RecvPrepare(old(Abs()), prep)
    {
      hide AcceptPrepare, HasSender;
      if view != prep.view {
        return [];
      }
      if !ready {
        return [];
      }
      var cert := GetCert(prep.view, prep.reqId);
      var seen := SeenSender(cert.prepare, prep.sender);
      if seen {
        return [];
      }
      out := Accept(prep, true);
    }

    /** RecvPrepare_notTransfer. */
    method RecvPrepareNotTransfer(prep: Prepare) returns (out: seq<Message>)
      modifies this`commitStore, this`certs
      ensures (Abs(), out) == RecvPrepareAgain(old(Abs()), prep)
    {
      hide AcceptPrepare, HasSender;
      if view != prep.view {
        return [];
      }
      if !ready {
        return [];
      }
      var cert := GetCert(prep.view, prep.reqId);
      var received := SeenSender(cert.prepare, prep.sender);
      out := Accept(prep, !received);
    }

    // ---- pre-prepares

    method EnterCert(pp: PrePrepare) returns (out: seq<Message>)
      requires MsgId(pp.view, pp.request.reqId) in certs
      modifies this`commitStore, this`certs
      ensures (Abs(), out) == EnterPrePrepare(old(Abs()), pp)
    {
      hide Prepared, RecvPrepareAgain;
      var mid := MsgId(pp.view, pp.request.reqId);
      var cert := certs[mid];
      if cert.prePrepare.Some? && cert.prePrepare.value.digest != pp.digest {
        return [];
      }
      certs := certs[mid := cert.(prePrepare := Some(pp))];
      var up := IsPrepared(pp.digest, pp.view, pp.request.reqId);
      if up && !certs[mid].sentCommit {
        if |certs[mid].prepare| > 0 {
          out := RecvPrepareNotTransfer(certs[mid].prepare[0]);
          return;
        }
      }
      return [];
    }

    method AnswerPrePrepare(pp: PrePrepare, exe: string, now: Time) returns (out: seq<Message>)
      requires MsgId(pp.view, pp.request.reqId) in certs
      modifies this`certs, pool
      ensures (Abs(), out) == Answer(old(Abs()), pp, exe, now)
    {
      hide PrePrepared, Put, Lookup;
      var entered := IsPrePrepared(pp.digest, pp.view, pp.reqId);
      if !entered {
        return [];
      }
      var block := pool.Get(pp.request.height, pp.request.hash);
      if block.None? {
        pool.PutAndBeat(pp.request.block, now);
      }
      var mid := MsgId(pp.view, pp.request.reqId);
      if !certs[mid].sentPrepare {
        var prep := Prepare(id, pp.view, pp.reqId, pp.digest, exe);
        certs := certs[mid := certs[mid].(sentPrepare := true)];
        out := [PrepareMsg(prep)];
        if pp.sender != id {
          out := out + [PrePrepareMsg(pp)];
        } else {
          assert out + [] == out;
        }
        return;
      }
      return [];
    }

    method RecvPrePrepare(pp: PrePrepare, exe: string, now: Time) returns (out: seq<Message>)
      modifies this, pool
      ensures (Abs(), out) == Node.RecvPrePrepare(old(Abs()), pp, exe, now)
    {
      hide PrePrepared, EnterPrePrepare, Answer;
      if view != pp.view {
        return [];
      }
      if !ready {
        return [];
      }
      if pp.digest !in reqStore {
        if pp.request.sender != leader || pp.request.view < view {
          return [];
        }
        if lastReqId < pp.reqId {
          lastReqId := pp.reqId;
        }
        reqStore := reqStore[pp.digest := pp.request];
      }
      assert Abs() == StoreRequest(old(Abs()), pp);
      if pp.request.height <= current {
        return [];
      }
      var cert := GetCert(pp.view, pp.request.reqId);
      ghost var u := Abs();
      var known := IsPrePrepared(pp.digest, pp.view, pp.reqId);
      if known && cert.sentPrepare {
        return [];
      }
      var voted := EnterCert(pp);
      CertKept(u, pp);
      var answer := AnswerPrePrepare(pp, exe, now);
      return voted + answer;
    }

    // ---- commits and checkpoints

    method RemoveOldMessages(reqId: uint64)
      modifies this`certs, this`reqStore
      ensures Abs() == RemoveOld(old(Abs()), reqId)
    {
      RemoveOldCerts(reqId);
      RemoveOldRequests(reqId);
    }

    method RemoveOldCerts(reqId: uint64)
      modifies this`certs
      ensures certs == RemoveOld(old(Abs()), reqId).certs
    {
      var ids := certs.Keys;
      while ids != {}
        invariant ids <= old(certs).Keys
        invariant certs == map i | i in old(certs) && (i in ids || i.n > reqId) :: old(certs)[i]
        decreases ids
      {
        var mid :| mid in ids;
        if mid.n <= reqId {
          certs := certs - {mid};
        }
        ids := ids - {mid};
      }
    }

    method RemoveOldRequests(reqId: uint64)
      modifies this`reqStore
      ensures reqStore == RemoveOld(old(Abs()), reqId).reqStore
    {
      ghost var before := reqStore;
      var digests := reqStore.Keys;
      while digests != {}
        invariant digests <= before.Keys
        invariant reqStore == map d | d in before && (d in digests || before[d].reqId > reqId) :: before[d]
        decreases digests
      {
        var d :| d in digests;
        if reqStore[d].reqId <= reqId {
          reqStore := reqStore - {d};
        }
        digests := digests - {d};
      }
    }

    method ConcludeRequest(commit: Commit) returns (out: seq<Message>)
      requires MsgId(commit.view, commit.reqId) in certs && current < commit.vr.height
      modifies this`certs, this`reqStore, this`current
      ensures (Abs(), out) == Conclude(old(Abs()), commit)
    {
      hide VerdictOf, RemoveOld;
      var votes := VerdictFrom(certs[MsgId(commit.view, commit.reqId)]);
      var checkpoint := Checkpoint(id, commit.vr.height, commit.reqId, commit.vr.hash);
      if votes == Positive {
        current := current + 1;
        RemoveOldMessages(commit.reqId);
        return [CheckpointMsg(checkpoint)];
      }
      if votes == Negative {
        RemoveOldMessages(commit.reqId);
        return [CheckpointMsg(checkpoint)];
      }
      return [];
    }

    method CommitSeen(commit: seq<Commit>, sender: NodeId) returns (seen: bool)
      ensures seen == (sender in Voters(commit))
    {
      VotersAre(commit, sender);
      for i := 0 to |commit|
        invariant forall k :: 0 <= k < i ==> commit[k].sender != sender
      {
        if commit[i].sender == sender {
          return true;
        }
      }
      return false;
    }

    method RecvCommit(commit: Commit) returns (out: seq<Message>)
      modifies this`certs, this`reqStore, this`current
      ensures (Abs(), out) == Node.RecvCommit(old(Abs()), commit)
    {
      hide Committed, Conclude, Voters;
      if view != commit.view {
        return [];
      }
      if !ready {
        return [];
      }
      if commit.vr.height <= current {
        return [];
      }
      var cert := GetCert(commit.view, commit.reqId);
      var seen := CommitSeen(cert.commit, commit.sender);
      if seen {
        return [];
      }
      var mid := MsgId(commit.view, commit.reqId);
      certs := certs[mid := cert.(commit := cert.commit + [commit])];
      assert Abs() == AddCommit(Touch(old(Abs()), mid), commit);
      var done := IsCommitted(commit.digest, commit.view, commit.reqId);
      out := [];
      if done {
        if commit.digest !in reqStore {
          return [];
        }
        out := ConcludeRequest(commit);
      }
      if commit.sender != id {
        assert [] + [CommitMsg(commit)] == [CommitMsg(commit)];
        out := out + [CommitMsg(commit)];
      } else {
        assert out + [] == out;
      }
    }

    method RecvCheckpoint(chkpt: Checkpoint)
      modifies this`checkpoints, this`checkpointBH, pool
      ensures Abs() == Node.RecvCheckpoint(old(Abs()), chkpt)
    {
      hide DeleteUpTo;
      if chkpt.hash in checkpoints {
        return;
      }
      if checkpointBH < chkpt.height {
        checkpointBH := chkpt.height;
      }
      if chkpt.height < current {
        return;
      }
      pool.Delete(chkpt.height, chkpt.hash);
      checkpoints := checkpoints[chkpt.hash := chkpt.height];
      PruneCheckpoints();
    }

    method PruneCheckpoints()
      modifies this`checkpoints
      ensures checkpoints == map h | h in old(checkpoints) && old(checkpoints)[h] >= current :: old(checkpoints)[h]
    {
      ghost var all := checkpoints;
      var todo := checkpoints.Keys;
      while todo != {}
        invariant todo <= all.Keys
        invariant checkpoints == map h | h in all && (h in todo || all[h] >= current) :: all[h]
        decreases todo
      {
        var k :| k in todo;
        if checkpoints[k] < current {
          checkpoints := checkpoints - {k};
        }
        todo := todo - {k};
      }
    }
  }

  lemma AcceptKeepsCerts(s: State, p: Prepare, forward: bool)
    ensures s.certs.Keys <= AcceptPrepare(s, p, forward).0.certs.Keys
  {
    hide Prepared, Opinion, Prune, PrepareRejected;
  }

  /** Entering a pre-prepare removes no certificate. */
  lemma CertKept(s: State, pp: PrePrepare)
    ensures s.certs.Keys <= EnterPrePrepare(s, pp).0.certs.Keys
  {
    hide Prepared, AcceptPrepare, HasSender;
    var id := MsgId(pp.view, pp.request.reqId);
    var t := SetCert(s, id, CertAt(s, id).(prePrepare := Some(pp)));
    if |CertAt(t, id).prepare| > 0 {
      var p := CertAt(t, id).prepare[0];
      var u := Touch(t, MsgId(p.view, p.reqId));
      AcceptKeepsCerts(u, p, !HasSender(CertAt(u, MsgId(p.view, p.reqId)).prepare, p.sender));
    }
  }

  lemma CommitSendersSnoc(cs: seq<Commit>, c: Commit, v: uint64, r: uint64)
    ensures CommitSenders(cs + [c], v, r) ==
              CommitSenders(cs, v, r) + if c.view == v && c.reqId == r then {c.sender} else {}
  {
    var ds := cs + [c];
    forall s | s in CommitSenders(cs, v, r)
      ensures s in CommitSenders(ds, v, r)
    {
      var i :| 0 <= i < |cs| && cs[i].view == v && cs[i].reqId == r && cs[i].sender == s;
      assert ds[i] == cs[i];
    }
    assert ds[|cs|] == c;
  }

  lemma {:induction false} ExeCountEntry(ps: seq<Prepare>, v: uint64, r: uint64, d: Digest, e: string)
    requires ExeCount(ps, v, r, d, e) > 0
    ensures exists i :: 0 <= i < |ps| && ps[i].exe == e
  {
    var init := ps[..|ps| - 1];
    if ps[|ps| - 1].exe != e {
      ExeCountEntry(init, v, r, d, e);
      var i :| 0 <= i < |init| && init[i].exe == e;
      assert ps[i].exe == e;
    }
  }

  /** Agreement on a graph is agreement on one of the counted graphs. */
  lemma ExeCountMost(ps: seq<Prepare>, v: uint64, r: uint64, d: Digest, counts: map<string, nat>, q: int)
    requires q >= 1
    requires forall e :: e in counts <==> e != "" && ExeCount(ps, v, r, d, e) > 0
    requires forall e :: e in counts ==> counts[e] == ExeCount(ps, v, r, d, e)
    ensures ExeAgreed(ps, v, r, d, q) <==> exists e :: e in counts && counts[e] >= q
  {
    if e :| e in counts && counts[e] >= q {
      ExeCountEntry(ps, v, r, d, e);
      var i :| 0 <= i < |ps| && ps[i].exe == e;
      assert ExeCount(ps, v, r, d, ps[i].exe) >= q;
    }
  }
}
