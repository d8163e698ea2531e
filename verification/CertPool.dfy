/** The certificate pool: a list with two indexes into it. */
module CertPool {
  import opened Text
  import opened Certificates

  function Lookup(m: map<nat, seq<nat>>, k: nat): (r: seq<nat>) { if k in m then m[k] else [] }

  /** Where the key stands, in order. */
  function Positions(keys: seq<Option<nat>>, key: Option<nat>): (ps: seq<nat>)
    ensures forall i: nat :: i in ps <==> i < |keys| && keys[i] == key
    ensures forall k :: 0 <= k < |ps| ==> ps[k] < |keys|
    decreases |keys|
  {
    if keys == [] then [] else
      var n := |keys| - 1;
      var ps := Positions(keys[..n], key);
      if keys[n] == key then ps + [n] else ps
  }

  /** The index lists the positions of every key, in order. */
  ghost predicate Indexes(m: map<nat, seq<nat>>, keys: seq<Option<nat>>) {
    forall k: nat :: Lookup(m, k) == Positions(keys, Some(k))
  }

  lemma IndexAdd(m: map<nat, seq<nat>>, keys: seq<Option<nat>>, key: nat)
    requires Indexes(m, keys)
    ensures Indexes(m[key := Lookup(m, key) + [|keys|]], keys + [Some(key)])
  {
    assert (keys + [Some(key)])[..|keys|] == keys;
  }

  lemma IndexSkip(m: map<nat, seq<nat>>, keys: seq<Option<nat>>)
    requires Indexes(m, keys)
    ensures Indexes(m, keys + [None])
  {
    assert (keys + [None])[..|keys|] == keys;
  }

  function Subjects(certs: seq<Cert>): (ks: seq<Option<nat>>)
    ensures |ks| == |certs| && forall i :: 0 <= i < |certs| ==> ks[i] == Some(certs[i].subject)
  {
    seq(|certs|, i requires 0 <= i < |certs| => Some(certs[i].subject))
  }

  function KeyIds(certs: seq<Cert>): (ks: seq<Option<nat>>)
    ensures |ks| == |certs| && forall i :: 0 <= i < |certs| ==> ks[i] == certs[i].subjectKeyId
  {
    seq(|certs|, i requires 0 <= i < |certs| => certs[i].subjectKeyId)
  }

  /** Which certificates are looked at as parents: those with the key id that c names,
      if there are any, and otherwise those with the issuer's name. */
  predicate Candidate(certs: seq<Cert>, i: nat, c: Cert) {
    i < |certs| &&
    if c.authorityKeyId.Some? && exists j :: 0 <= j < |certs| && certs[j].subjectKeyId == c.authorityKeyId
    then certs[i].subjectKeyId == c.authorityKeyId
    else certs[i].subject == c.issuer
  }

  function CandidateList(certs: seq<Cert>, c: Cert): (cs: seq<nat>)
    ensures forall i: nat :: i in cs <==> Candidate(certs, i, c)
    ensures InRange(cs, |certs|)
  {
    var byKey := if c.authorityKeyId.Some? then Positions(KeyIds(certs), c.authorityKeyId) else [];
    assert byKey != [] ==> byKey[0] in byKey;
    assert forall j :: 0 <= j < |certs| && c.authorityKeyId.Some? && certs[j].subjectKeyId == c.authorityKeyId ==> j in byKey;
    if byKey != [] then byKey else Positions(Subjects(certs), Some(c.issuer))
  }

  predicate InRange(cs: seq<nat>, n: nat) { forall k :: 0 <= k < |cs| ==> cs[k] < n }

  function Signers(certs: seq<Cert>, cs: seq<nat>, c: Cert, opts: Options): (ps: seq<nat>)
    requires InRange(cs, |certs|)
    ensures forall i: nat :: i in ps <==> i in cs && opts.signs(certs[i], c)
    ensures InRange(ps, |certs|)
    decreases |cs|
  {
    if cs == [] then [] else
      var init, last := cs[..|cs| - 1], cs[|cs| - 1];
      assert cs == init + [last];
      Signers(certs, init, c, opts) + if opts.signs(certs[last], c) then [last] else []
  }

  /** The candidates that signed c. */
  function Parents(certs: seq<Cert>, c: Cert, opts: Options): (ps: seq<nat>)
    ensures forall i: nat :: i in ps <==> Candidate(certs, i, c) && opts.signs(certs[i], c)
    ensures InRange(ps, |certs|)
  {
    Signers(certs, CandidateList(certs, c), c, opts)
  }

  predicate SameCert(a: Cert, b: Cert) { a.raw == b.raw && a.subject == b.subject }

  class Pool {
    var certs: seq<Cert>
    var bySubjectKeyId: map<nat, seq<nat>>
    var byName: map<nat, seq<nat>>

    constructor ()
      ensures Valid() && certs == []
    {
      certs, bySubjectKeyId, byName := [], map[], map[];
    }

    ghost predicate Valid()
      reads this
    {
      && Indexes(byName, Subjects(certs)) && Indexes(bySubjectKeyId, KeyIds(certs))
      && forall i, j :: 0 <= i < j < |certs| ==> !SameCert(certs[i], certs[j])
    }

    /** contains: found through the name index, compared byte for byte. */
    method Contains(c: Cert) returns (found: bool)
      requires Valid()
      ensures found <==> exists i :: 0 <= i < |certs| && SameCert(certs[i], c)
    {
      hide Subjects, KeyIds;
      var candidates := Lookup(byName, c.subject);
      for k := 0 to |candidates|
        invariant forall j :: 0 <= j < k ==> candidates[j] < |certs| && certs[candidates[j]].raw != c.raw
      {
        assert candidates[k] in Lookup(byName, c.subject);
        if certs[candidates[k]].raw == c.raw {
          assert SameCert(certs[candidates[k]], c);
          return true;
        }
      }
      forall i: nat | i < |certs|
        ensures !SameCert(certs[i], c)
      {
        assert i in candidates <==> certs[i].subject == c.subject;
      }
      return false;
    }

    /** AddCert: appended and indexed, unless it is there already. */
    method AddCert(c: Cert)
      requires Valid()
      modifies this
      ensures Valid()
      ensures certs == if exists i :: 0 <= i < |old(certs)| && SameCert(old(certs)[i], c)
                       then old(certs) else old(certs) + [c]
    {
      hide Indexes;
      var there := Contains(c);
      if there { return; }
      var n := |certs|;
      ghost var was := certs;
      certs := certs + [c];
      assert KeyIds(certs) == KeyIds(was) + [c.subjectKeyId];
      assert Subjects(certs) == Subjects(was) + [Some(c.subject)];
      if c.subjectKeyId.Some? {
        var keyId := c.subjectKeyId.value;
        IndexAdd(bySubjectKeyId, KeyIds(was), keyId);
        bySubjectKeyId := bySubjectKeyId[keyId := Lookup(bySubjectKeyId, keyId) + [n]];
      } else {
        IndexSkip(bySubjectKeyId, KeyIds(was));
      }
      IndexAdd(byName, Subjects(was), c.subject);
      byName := byName[c.subject := Lookup(byName, c.subject) + [n]];
    }

    method Candidates(c: Cert) returns (cs: seq<nat>)
      requires Valid()
      ensures cs == CandidateList(certs, c)
    {
      hide Subjects, KeyIds, Positions;
      cs := [];
      if c.authorityKeyId.Some? {
        cs := Lookup(bySubjectKeyId, c.authorityKeyId.value);
      }
      if |cs| == 0 {
        cs := Lookup(byName, c.issuer);
      }
    }

    /** findVerifiedParents: exactly the candidates that signed c, in the pool's order. */
    method FindVerifiedParents(c: Cert, opts: Options) returns (parents: seq<nat>)
      requires Valid()
      ensures parents == Parents(certs, c, opts)
      ensures forall i: nat :: i in parents <==> Candidate(certs, i, c) && opts.signs(certs[i], c)
    {
      hide Valid, CandidateList, Candidate;
      var cs := Candidates(c);
      parents := [];
      for k := 0 to |cs|
        invariant parents == Signers(certs, cs[..k], c, opts)
      {
        assert cs[..k + 1][..k] == cs[..k];
        if opts.signs(certs[cs[k]], c) {
          parents := parents + [cs[k]];
        }
      }
      assert cs[..|cs|] == cs;
    }
  }
}
