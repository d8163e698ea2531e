/** Counting votes in a certificate: what the counting loops of the worker compute. */
module Votes {
  import opened Text
  import opened Messages
  import opened Quorum
  import opened Sets

  // ---- prepares

  predicate Matches(p: Prepare, v: uint64, r: uint64, d: Digest) {
    p.view == v && p.reqId == r && p.digest == d
  }

  function MatchCount(ps: seq<Prepare>, v: uint64, r: uint64, d: Digest): (n: nat) {
    if ps == [] then 0
    else MatchCount(ps[..|ps| - 1], v, r, d) + if Matches(ps[|ps| - 1], v, r, d) then 1 else 0
  }

  function MatchSenders(ps: seq<Prepare>, v: uint64, r: uint64, d: Digest): (s: set<NodeId>) {
    set i | 0 <= i < |ps| && Matches(ps[i], v, r, d) :: ps[i].sender
  }

  predicate HasSender(ps: seq<Prepare>, id: NodeId) {
    exists i :: 0 <= i < |ps| && ps[i].sender == id
  }

  /** No sender stands twice behind the same digest. */
  predicate DistinctMatching(ps: seq<Prepare>, d: Digest) {
    forall i, j :: 0 <= i < j < |ps| && ps[i].digest == d && ps[j].digest == d ==> ps[i].sender != ps[j].sender
  }

  lemma MatchSendersSnoc(ps: seq<Prepare>, p: Prepare, v: uint64, r: uint64, d: Digest)
    ensures MatchSenders(ps + [p], v, r, d) ==
              MatchSenders(ps, v, r, d) + if Matches(p, v, r, d) then {p.sender} else {}
  {
    var qs := ps + [p];
    forall s | s in MatchSenders(ps, v, r, d)
      ensures s in MatchSenders(qs, v, r, d)
    {
      var i :| 0 <= i < |ps| && Matches(ps[i], v, r, d) && ps[i].sender == s;
      assert qs[i] == ps[i];
    }
    assert qs[|ps|] == p;
  }

  /** When senders are distinct, counting entries counts senders. */
  lemma {:induction false} CountIsSenders(ps: seq<Prepare>, v: uint64, r: uint64, d: Digest)
    requires DistinctMatching(ps, d)
    ensures |MatchSenders(ps, v, r, d)| == MatchCount(ps, v, r, d)
  {
    if ps != [] {
      var init, last := ps[..|ps| - 1], ps[|ps| - 1];
      CountIsSenders(init, v, r, d);
      assert ps == init + [last];
      MatchSendersSnoc(init, last, v, r, d);
    }
  }

  // ---- transaction dependency graphs carried by prepares

  function ExeCount(ps: seq<Prepare>, v: uint64, r: uint64, d: Digest, exe: string): (n: nat) {
    if ps == [] then 0
    else ExeCount(ps[..|ps| - 1], v, r, d, exe)
         + if Matches(ps[|ps| - 1], v, r, d) && ps[|ps| - 1].exe == exe then 1 else 0
  }

  /** Some non-empty graph is carried by at least q matching prepares. */
  predicate ExeAgreed(ps: seq<Prepare>, v: uint64, r: uint64, d: Digest, q: int) {
    exists i :: 0 <= i < |ps| && ps[i].exe != "" && ExeCount(ps, v, r, d, ps[i].exe) >= q
  }

  // ---- commits

  function CommitSenders(cs: seq<Commit>, v: uint64, r: uint64): (s: set<NodeId>) {
    set i | 0 <= i < |cs| && cs[i].view == v && cs[i].reqId == r :: cs[i].sender
  }

  function Voters(cs: seq<Commit>): (s: set<NodeId>) {
    if cs == [] then {} else Voters(cs[..|cs| - 1]) + {cs[|cs| - 1].sender}
  }

  lemma {:induction false} VotersAre(cs: seq<Commit>, s: NodeId)
    ensures s in Voters(cs) <==> exists i :: 0 <= i < |cs| && cs[i].sender == s
  {
    if cs != [] {
      var init := cs[..|cs| - 1];
      VotersAre(init, s);
      if i :| 0 <= i < |init| && init[i].sender == s {
        assert cs[i] == init[i];
      }
      if i :| 0 <= i < |cs| && cs[i].sender == s {
        assert i == |init| || init[i] == cs[i];
      }
    }
  }

  /** The senders whose first commit is in favour: later ones are ignored. */
  function InFavour(cs: seq<Commit>): (s: set<NodeId>) {
    if cs == [] then {}
    else
      var init, c := cs[..|cs| - 1], cs[|cs| - 1];
      if c.sender in Voters(init) || !c.vr.opinion then InFavour(init) else InFavour(init) + {c.sender}
  }

  lemma {:induction false} FavourVoted(cs: seq<Commit>)
    ensures InFavour(cs) <= Voters(cs)
  {
    if cs != [] {
      FavourVoted(cs[..|cs| - 1]);
    }
  }

  datatype Verdict = Positive | FuturePositive | Negative

  /** GetValidResFromCommit over n consensus nodes. */
  function VerdictOf(n: nat, cs: seq<Commit>): (r: Verdict) {
    if |InFavour(cs)| >= GetQuorum(n) then Positive
    else if |InFavour(cs)| + (n - |Voters(cs)|) >= GetQuorum(n) then FuturePositive
    else Negative
  }

  lemma VotersSnoc(cs: seq<Commit>, c: Commit)
    ensures Voters(cs + [c]) == Voters(cs) + {c.sender}
    ensures InFavour(cs + [c]) == InFavour(cs) + if c.sender in Voters(cs) || !c.vr.opinion then {} else {c.sender}
  {
    var ds := cs + [c];
    assert ds[..|ds| - 1] == cs && ds[|ds| - 1] == c;
  }

  lemma TallySnoc(cs: seq<Commit>, c: Commit)
    ensures |Voters(cs + [c])| == |Voters(cs)| + if c.sender in Voters(cs) then 0 else 1
    ensures |InFavour(cs + [c])| == |InFavour(cs)| + if c.sender in Voters(cs) || !c.vr.opinion then 0 else 1
  {
    VotersSnoc(cs, c);
    FavourVoted(cs);
    hide Voters, InFavour;
    AddOneSize(Voters(cs), c.sender);
    AddOneSize(InFavour(cs), c.sender);
    assert InFavour(cs) + {} == InFavour(cs);
  }

  /** Votes in favour, against and in all, one per sender. */
  predicate Tallied(cs: seq<Commit>, poss: nat, neg: nat, all: nat) {
    all == |Voters(cs)| && poss == |InFavour(cs)| && all == poss + neg
  }

  lemma TalliedSnoc(cs: seq<Commit>, c: Commit, poss: nat, neg: nat, all: nat)
    requires Tallied(cs, poss, neg, all)
    ensures Voters(cs + [c]) == Voters(cs) + {c.sender}
    ensures c.sender in Voters(cs) ==> Tallied(cs + [c], poss, neg, all)
    ensures c.sender !in Voters(cs) && c.vr.opinion ==> Tallied(cs + [c], poss + 1, neg, all + 1)
    ensures c.sender !in Voters(cs) && !c.vr.opinion ==> Tallied(cs + [c], poss, neg + 1, all + 1)
  {
    VotersSnoc(cs, c);
    TallySnoc(cs, c);
    hide Voters, InFavour;
  }

  // ---- verdicts

  /** An extension of a commit list by votes of nodes not yet heard from. */
  predicate Extends(cs: seq<Commit>, more: seq<Commit>, nodes: set<NodeId>)
    decreases |more|
  {
    more == [] ||
    (more[0].sender in nodes && more[0].sender !in Voters(cs) && Extends(cs + [more[0]], more[1..], nodes))
  }

  lemma {:induction false} ExtensionCounts(cs: seq<Commit>, more: seq<Commit>, nodes: set<NodeId>)
    requires Extends(cs, more, nodes)
    ensures |Voters(cs + more)| == |Voters(cs)| + |more|
    ensures Voters(cs) <= nodes ==> Voters(cs + more) <= nodes
    ensures |InFavour(cs)| <= |InFavour(cs + more)| <= |InFavour(cs)| + |more|
    ensures (forall i :: 0 <= i < |more| ==> more[i].vr.opinion) ==> |InFavour(cs + more)| == |InFavour(cs)| + |more|
    decreases |more|
  {
    if more == [] {
      assert cs + more == cs;
    } else {
      var c := more[0];
      VotersSnoc(cs, c);
      FavourVoted(cs);
      ExtensionCounts(cs + [c], more[1..], nodes);
      assert (cs + [c]) + more[1..] == cs + more;
      assert c.sender !in InFavour(cs);
    }
  }

  /** A positive verdict stays positive and a negative one negative, whatever the
      nodes not yet heard from say. */
  lemma VerdictFinal(nodes: set<NodeId>, cs: seq<Commit>, more: seq<Commit>)
    requires Voters(cs) <= nodes && Extends(cs, more, nodes)
    requires VerdictOf(|nodes|, cs) != FuturePositive
    ensures VerdictOf(|nodes|, cs + more) == VerdictOf(|nodes|, cs)
  {
    ExtensionCounts(cs, more, nodes);
    SubsetSize(Voters(cs + more), nodes);
  }

  function Ballots(voters: seq<NodeId>): (cs: seq<Commit>)
    ensures |cs| == |voters|
    ensures forall i :: 0 <= i < |cs| ==> cs[i].sender == voters[i] && cs[i].vr.opinion
  {
    seq(|voters|, i requires 0 <= i < |voters| => Commit(voters[i], 0, 0, "", VoteResult(voters[i], 0, "", true)))
  }

  lemma {:induction false} Enumerate(s: set<NodeId>) returns (q: seq<NodeId>)
    ensures |q| == |s|
    ensures forall x :: x in q <==> x in s
    ensures forall i, j :: 0 <= i < j < |q| ==> q[i] != q[j]
    decreases s
  {
    if s == {} {
      q := [];
    } else {
      var x :| x in s;
      var rest := Enumerate(s - {x});
      q := rest + [x];
    }
  }

  lemma {:induction false} BallotsExtend(cs: seq<Commit>, q: seq<NodeId>, nodes: set<NodeId>)
    requires forall i :: 0 <= i < |q| ==> q[i] in nodes && q[i] !in Voters(cs)
    requires forall i, j :: 0 <= i < j < |q| ==> q[i] != q[j]
    ensures Extends(cs, Ballots(q), nodes)
    decreases |q|
  {
    if q != [] {
      var c := Ballots(q)[0];
      VotersSnoc(cs, c);
      BallotsExtend(cs + [c], q[1..], nodes);
      assert Ballots(q)[1..] == Ballots(q[1..]);
    }
  }

  ghost predicate CanTurnPositive(nodes: set<NodeId>, cs: seq<Commit>) {
    exists more :: Extends(cs, more, nodes) && VerdictOf(|nodes|, cs + more) == Positive
  }

  /** "Future positive" means exactly: not yet positive, but the missing votes
      can still make it so. */
  lemma FuturePositiveExact(nodes: set<NodeId>, cs: seq<Commit>)
    requires Voters(cs) <= nodes
    ensures VerdictOf(|nodes|, cs) == FuturePositive <==>
              VerdictOf(|nodes|, cs) != Positive && CanTurnPositive(nodes, cs)
  {
    var missing := nodes - Voters(cs);
    assert |missing| == |nodes| - |Voters(cs)|;
    if VerdictOf(|nodes|, cs) == FuturePositive {
      var q := Enumerate(missing);
      var more := Ballots(q);
      assert forall i :: 0 <= i < |more| ==> q[i] in q;
      BallotsExtend(cs, q, nodes);
      ExtensionCounts(cs, more, nodes);
      assert CanTurnPositive(nodes, cs);
    }
    if VerdictOf(|nodes|, cs) == Negative && CanTurnPositive(nodes, cs) {
      var more :| Extends(cs, more, nodes) && VerdictOf(|nodes|, cs + more) == Positive;
      VerdictFinal(nodes, cs, more);
    }
  }

  /** Nobody's commits in the two lists carry different opinions. */
  predicate OneOpinionEach(cs: seq<Commit>, ds: seq<Commit>) {
    forall i, j :: 0 <= i < |cs| && 0 <= j < |ds| && cs[i].sender == ds[j].sender ==> cs[i].vr.opinion == ds[j].vr.opinion
  }

  lemma {:induction false} InFavourEntry(cs: seq<Commit>, s: NodeId)
    requires s in InFavour(cs)
    ensures exists i :: 0 <= i < |cs| && cs[i].sender == s && cs[i].vr.opinion
  {
    var init, c := cs[..|cs| - 1], cs[|cs| - 1];
    if s in InFavour(init) {
      InFavourEntry(init, s);
      var i :| 0 <= i < |init| && init[i].sender == s && init[i].vr.opinion;
      assert cs[i] == init[i];
    }
  }

  lemma {:induction false} AgainstEntry(cs: seq<Commit>, s: NodeId)
    requires s in Voters(cs) && s !in InFavour(cs)
    ensures exists i :: 0 <= i < |cs| && cs[i].sender == s && !cs[i].vr.opinion
  {
    var init, c := cs[..|cs| - 1], cs[|cs| - 1];
    assert cs == init + [c];
    VotersSnoc(init, c);
    if s in Voters(init) {
      AgainstEntry(init, s);
      var i :| 0 <= i < |init| && init[i].sender == s && !init[i].vr.opinion;
      assert cs[i] == init[i];
    }
  }

  /** If nobody votes both ways, no two nodes reach opposite final verdicts. */
  lemma NoOppositeVerdicts(nodes: set<NodeId>, cs: seq<Commit>, ds: seq<Commit>)
    requires Voters(cs) <= nodes && Voters(ds) <= nodes
    requires OneOpinionEach(cs, ds)
    ensures !(VerdictOf(|nodes|, cs) == Positive && VerdictOf(|nodes|, ds) == Negative)
  {
    var yes, no := InFavour(cs), Voters(ds) - InFavour(ds);
    forall s | s in yes && s in no
      ensures false
    {
      InFavourEntry(cs, s);
      AgainstEntry(ds, s);
    }
    FavourVoted(cs);
    FavourVoted(ds);
    hide Voters, InFavour;
    DisjointSize(yes, no);
    SubsetSize(yes + no, nodes);
    DisjointSize(no, InFavour(ds));
    assert Voters(ds) == no + InFavour(ds);
  }
}
