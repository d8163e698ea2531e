/** Quorum sizes and the counting facts the protocol's safety rests on. */
module Quorum {
  import opened Sets

  /** getQuorum, branch by branch. */
  function GetQuorum(n: int): (q: int) {
    if n == 0 || n < 2 then 10000000
    else if n == 2 then n
    else if n == 3 then n - 1
    else n - n / 3
  }

  lemma QuorumFormula(n: int)
    requires n >= 2
    ensures GetQuorum(n) == n - n / 3
    ensures 1 <= GetQuorum(n) <= n
    ensures 2 * GetQuorum(n) - n > (n - 1) / 3
  {}

  /** Two quorums of the same membership share a member outside any set of at
      most (n-1)/3 members, for every membership size. */
  lemma QuorumsShareCorrect<T>(nodes: set<T>, faulty: set<T>, q1: set<T>, q2: set<T>)
    returns (w: T)
    requires q1 <= nodes && q2 <= nodes && faulty <= nodes
    requires |nodes| >= 1 && |faulty| <= (|nodes| - 1) / 3
    requires |q1| >= GetQuorum(|nodes|) && |q2| >= GetQuorum(|nodes|)
    ensures w in q1 && w in q2 && w !in faulty
  {
    SubsetSize(q1, nodes);
    QuorumFormula(|nodes|);
    UnionSize(q1, q2, nodes);
    if q1 * q2 <= faulty {
      SubsetSize(q1 * q2, faulty);
      assert false;
    }
    w :| w in q1 * q2 && w !in faulty;
  }
}
