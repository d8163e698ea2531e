/** What every step of a node keeps: at most one vote per height, and votes that
    rest on a quorum of distinct prepares. */
module NodeFacts {
  import opened Text
  import opened Messages
  import opened Votes
  import opened BlockPool
  import opened Node

  // ---- the votes among the messages a step posts

  function OwnVotes(id: NodeId, out: seq<Message>): (cs: seq<Commit>) {
    if out == [] then [] else OwnVote(id, out[0]) + OwnVotes(id, out[1..])
  }

  function OwnVote(id: NodeId, m: Message): (cs: seq<Commit>) {
    if m.CommitMsg? && m.commit.sender == id then [m.commit] else []
  }

  lemma Regrouped(a: seq<Commit>, b: seq<Commit>, c: seq<Commit>)
    ensures a + (b + c) == (a + b) + c
  {}

  lemma {:induction false} OwnVotesAppend(id: NodeId, a: seq<Message>, b: seq<Message>)
    ensures OwnVotes(id, a + b) == OwnVotes(id, a) + OwnVotes(id, b)
  {
    hide OwnVote;
    if a == [] {
      assert a + b == b;
    } else {
      OwnVotesAppend(id, a[1..], b);
      assert (a + b)[1..] == a[1..] + b;
      Regrouped(OwnVote(id, a[0]), OwnVotes(id, a[1..]), OwnVotes(id, b));
    }
  }

  lemma OwnVotesNone(id: NodeId)
    ensures OwnVotes(id, []) == []
    ensures forall m: Message :: !(m.CommitMsg? && m.commit.sender == id) ==> OwnVotes(id, [m]) == []
  {}

  lemma {:induction false} OwnVotesHas(id: NodeId, out: seq<Message>, c: Commit)
    requires CommitMsg(c) in out && c.sender == id
    ensures c in OwnVotes(id, out)
  {
    if out[0] != CommitMsg(c) {
      OwnVotesHas(id, out[1..], c);
    }
  }

  /** Configuration never changes, the chain head never moves back, and a voted
      height is remembered until the head has passed it. */
  predicate Progress(s: State, t: State) {
    && t.id == s.id && t.leader == s.leader && t.view == s.view && t.n == s.n
    && s.current <= t.current
    && forall h :: h in s.commitStore ==> h in t.commitStore || h < t.current
  }

  /** At most one vote, at a height above the head not voted before, then recorded. */
  predicate VotesFresh(s: State, t: State, votes: seq<Commit>) {
    && |votes| <= 1
    && forall c :: c in votes ==>
         s.current < c.vr.height && c.vr.height !in s.commitStore && c.vr.height in t.commitStore
  }

  lemma AcceptVotes(s: State, p: Prepare, forward: bool)
    ensures var o := AcceptPrepare(s, p, forward);
            Progress(s, o.0) && VotesFresh(s, o.0, OwnVotes(s.id, o.1))
  {
    if !PrepareRejected(s, p) {
      var req := s.reqStore[p.digest];
      var o := TryVote(AddPrepare(s, p), req, p);
      var tail := if forward && p.sender != s.id then [PrepareMsg(p)] else [];
      OwnVotesAppend(s.id, o.1, tail);
      assert OwnVotes(s.id, tail) == [];
    }
  }

  lemma AgainVotes(s: State, p: Prepare)
    ensures var o := RecvPrepareAgain(s, p);
            Progress(s, o.0) && VotesFresh(s, o.0, OwnVotes(s.id, o.1))
  {
    var t := Touch(s, MsgId(p.view, p.reqId));
    AcceptVotes(t, p, !HasSender(CertAt(t, MsgId(p.view, p.reqId)).prepare, p.sender));
  }

  lemma EnterVotes(s: State, pp: PrePrepare)
    ensures var o := EnterPrePrepare(s, pp);
            Progress(s, o.0) && VotesFresh(s, o.0, OwnVotes(s.id, o.1))
  {
    var id := MsgId(pp.view, pp.request.reqId);
    var t := SetCert(s, id, CertAt(s, id).(prePrepare := Some(pp)));
    if |CertAt(t, id).prepare| > 0 {
      AgainVotes(t, CertAt(t, id).prepare[0]);
    }
  }

  lemma AnswerVotes(s: State, pp: PrePrepare, exe: string, now: Time)
    ensures var o := Answer(s, pp, exe, now);
            && Progress(s, o.0) && o.0.commitStore == s.commitStore && o.0.current == s.current
            && OwnVotes(s.id, o.1) == []
  {
    hide Put, Lookup;
    OwnVotesAppend(s.id, [PrepareMsg(OwnPrepare(s, pp, exe))], if pp.sender != s.id then [PrePrepareMsg(pp)] else []);
  }

  lemma StoreKeeps(s: State, pp: PrePrepare)
    ensures var t := StoreRequest(s, pp); var u := Touch(t, MsgId(pp.view, pp.request.reqId));
      && t.id == u.id == s.id && t.leader == u.leader == s.leader && t.view == u.view == s.view
      && t.n == u.n == s.n && t.current == u.current == s.current
      && t.commitStore == u.commitStore == s.commitStore
  {}

  lemma PrePrepareVotes(s: State, pp: PrePrepare, exe: string, now: Time)
    ensures var o := RecvPrePrepare(s, pp, exe, now);
            Progress(s, o.0) && VotesFresh(s, o.0, OwnVotes(s.id, o.1))
  {
    hide OwnVotes, EnterPrePrepare, Answer, PrePrepared, PrePrepareRejected, StoreRequest, Touch, CertAt;
    OwnVotesNone(s.id);
    StoreKeeps(s, pp);
    var u := Touch(StoreRequest(s, pp), MsgId(pp.view, pp.request.reqId));
    EnterVotes(u, pp);
    var o := EnterPrePrepare(u, pp);
    AnswerVotes(o.0, pp, exe, now);
    OwnVotesAppend(s.id, o.1, Answer(o.0, pp, exe, now).1);
  }

  lemma ConcludeVotes(s: State, c: Commit)
    ensures var o := Conclude(s, c);
            Progress(s, o.0) && OwnVotes(s.id, o.1) == []
  {
    hide VerdictOf;
  }

  lemma CommitVotes(s: State, c: Commit)
    ensures var o := RecvCommit(s, c);
            Progress(s, o.0) && OwnVotes(s.id, o.1) == []
  {
    hide Committed, VerdictOf, Voters, Conclude;
    var id := MsgId(c.view, c.reqId);
    var u := AddCommit(Touch(s, id), c);
    ConcludeVotes(u, c);
    var forward := if c.sender != s.id then [CommitMsg(c)] else [];
    OwnVotesAppend(s.id, Conclude(u, c).1, forward);
  }

  lemma RequestVotes(s: State, req: Request, now: Time)
    ensures var o := RecvRequest(s, req, now);
            Progress(s, o.0) && OwnVotes(s.id, o.1) == []
  {
    hide Put, RequestRejected;
  }

  lemma PrepareVotes(s: State, p: Prepare)
    ensures var o := RecvPrepare(s, p);
            Progress(s, o.0) && VotesFresh(s, o.0, OwnVotes(s.id, o.1))
  {
    hide AcceptPrepare;
    AcceptVotes(Touch(s, MsgId(p.view, p.reqId)), p, true);
  }

  lemma StepVotes(s: State, i: Input)
    ensures var o := Step(s, i);
            Progress(s, o.0) && VotesFresh(s, o.0, OwnVotes(s.id, o.1))
  {
    hide OwnVotes, RecvRequest, RecvPrePrepare, RecvPrepare, RecvCommit, Without, Expired, DeleteUpTo;
    OwnVotesNone(s.id);
    if i.Receive? {
      match i.msg {
        case RequestMsg(r) => RequestVotes(s, r, i.now);
        case PrePrepareMsg(pp) => PrePrepareVotes(s, pp, i.exe, i.now);
        case PrepareMsg(p) => PrepareVotes(s, p);
        case CommitMsg(c) => CommitVotes(s, c);
        case CheckpointMsg(k) =>
      }
    }
  }

  // ---- whole runs of one node, whatever it is sent

  function Run(s: State, inputs: seq<Input>): (o: Outcome)
    decreases |inputs|
  {
    if inputs == [] then (s, [])
    else
      var before := Run(s, inputs[..|inputs| - 1]);
      var o := Step(before.0, inputs[|inputs| - 1]);
      (o.0, before.1 + o.1)
  }

  predicate OncePerHeight(votes: seq<Commit>) {
    forall i, j :: 0 <= i < j < |votes| ==> votes[i].vr.height != votes[j].vr.height
  }

  /** In every run, whatever messages arrive in whatever order, a node votes at
      most once per height, although its record of voted heights is pruned: every
      height voted is still recorded or already below the chain head. */
  lemma {:induction false} CommitOncePerHeight(s: State, inputs: seq<Input>)
    ensures var o := Run(s, inputs);
            var votes := OwnVotes(s.id, o.1);
            && OncePerHeight(votes)
            && Progress(s, o.0)
            && (forall c :: c in votes ==> s.current < c.vr.height && c.vr.height !in s.commitStore)
            && (forall c :: c in votes ==> c.vr.height in o.0.commitStore || c.vr.height < o.0.current)
    decreases |inputs|
  {
    if inputs != [] {
      var init, last := inputs[..|inputs| - 1], inputs[|inputs| - 1];
      CommitOncePerHeight(s, init);
      var before := Run(s, init);
      var o := Step(before.0, last);
      StepVotes(before.0, last);
      OwnVotesAppend(s.id, before.1, o.1);
    }
  }
}
