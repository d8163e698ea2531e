/** Certificates, the checks made on one, and what makes a chain of them sound
    (section 6.1 of RFC 5280). Signature checking, name matching and the clock are
    parameters. */
module Certificates {
  import opened Text

  /** Byte strings that are only ever compared. */
  type Name = nat

  datatype Cert = Cert(
    raw: nat, subject: Name, issuer: Name, subjectKeyId: Option<nat>, authorityKeyId: Option<nat>,
    notBefore: int, notAfter: int, permitted: seq<Name>,
    basicConstraintsValid: bool, isCA: bool, maxPathLen: int,
    extKeyUsage: seq<int>, unknownExtKeyUsage: nat)

  type Chain = seq<Cert>

  datatype Role = Leaf | Intermediate | Root

  datatype Error =
    | NameMismatch | Expired | NotAuthorizedForName | NotAuthorizedToSign | TooManyIntermediates
    | UnknownAuthority | IncompatibleUsage | NotParsed | UnhandledCriticalExtension | NoRoots | BadHostname

  /** signs(p, c): the signature on c checks out under p. matches(d, n): the host name d
      satisfies the constraint n. */
  datatype Options = Options(now: int, dnsName: Name, signs: (Cert, Cert) -> bool, matches: (Name, Name) -> bool)

  // What isValid tests of c as the next certificate after the chain, in its order.

  predicate Named(c: Cert, chain: Chain) { chain == [] || chain[|chain| - 1].issuer == c.subject }

  predicate InTime(c: Cert, opts: Options) { c.notBefore <= opts.now <= c.notAfter }

  predicate Permits(c: Cert, opts: Options) {
    c.permitted == [] || exists i :: 0 <= i < |c.permitted| && opts.matches(opts.dnsName, c.permitted[i])
  }

  predicate MaySign(c: Cert, role: Role) { role == Intermediate ==> c.basicConstraintsValid && c.isCA }

  predicate WithinLimit(c: Cert, chain: Chain) {
    c.basicConstraintsValid && c.maxPathLen >= 0 ==> |chain| - 1 <= c.maxPathLen
  }

  predicate ValidNext(c: Cert, role: Role, chain: Chain, opts: Options) {
    Named(c, chain) && InTime(c, opts) && Permits(c, opts) && MaySign(c, role) && WithinLimit(c, chain)
  }

  /** isValid: no error exactly for a valid certificate, and otherwise that of the first
      test that fails. */
  method IsValid(c: Cert, role: Role, chain: Chain, opts: Options) returns (e: Option<Error>)
    ensures e.None? <==> ValidNext(c, role, chain, opts)
    ensures e == Some(NameMismatch) <==> !Named(c, chain)
    ensures e == Some(Expired) <==> Named(c, chain) && !InTime(c, opts)
    ensures e == Some(NotAuthorizedForName) <==> Named(c, chain) && InTime(c, opts) && !Permits(c, opts)
    ensures e == Some(NotAuthorizedToSign) <==>
      Named(c, chain) && InTime(c, opts) && Permits(c, opts) && !MaySign(c, role)
    ensures e == Some(TooManyIntermediates) <==>
      Named(c, chain) && InTime(c, opts) && Permits(c, opts) && MaySign(c, role) && !WithinLimit(c, chain)
  {
    if |chain| > 0 {
      var child := chain[|chain| - 1];
      if child.issuer != c.subject { return Some(NameMismatch); }
    }
    if opts.now < c.notBefore || opts.now > c.notAfter { return Some(Expired); }
    if |c.permitted| > 0 {
      var ok, i := false, 0;
      while i < |c.permitted| && !ok
        invariant 0 <= i <= |c.permitted|
        invariant ok <==> exists k :: 0 <= k < i && opts.matches(opts.dnsName, c.permitted[k])
      {
        ok := opts.matches(opts.dnsName, c.permitted[i]);
        i := i + 1;
      }
      if !ok { return Some(NotAuthorizedForName); }
    }
    if role == Intermediate && (!c.basicConstraintsValid || !c.isCA) { return Some(NotAuthorizedToSign); }
    if c.basicConstraintsValid && c.maxPathLen >= 0 {
      var numIntermediates := |chain| - 1;
      if numIntermediates > c.maxPathLen { return Some(TooManyIntermediates); }
    }
    return None;
  }

  // ---- chains

  predicate Distinct(chain: Chain) {
    forall i, j :: 0 <= i < j < |chain| ==> chain[i].raw != chain[j].raw
  }

  /** Certificate i was signed by certificate i + 1, which is valid in its place. */
  predicate Link(chain: Chain, i: nat, role: Role, opts: Options)
    requires i + 1 < |chain|
  {
    opts.signs(chain[i + 1], chain[i]) && ValidNext(chain[i + 1], role, chain[..i + 1], opts)
  }

  /** A chain under construction: from the leaf through valid intermediates. */
  predicate Partial(chain: Chain, leaf: Cert, intermediates: set<Cert>, opts: Options) {
    && chain != [] && chain[0] == leaf && Distinct(chain)
    && (forall i :: 0 <= i < |chain| - 1 ==> chain[i + 1] in intermediates && Link(chain, i, Intermediate, opts))
  }

  /** A finished chain: it starts at the leaf, ends in a root, repeats no certificate,
      each certificate was signed by the next and names it as issuer, and all but the
      leaf are in time, permit the host, may sign if they are intermediates, and allow
      as many intermediates as stand below them. */
  predicate SoundChain(chain: Chain, leaf: Cert, intermediates: set<Cert>, roots: set<Cert>, opts: Options) {
    var n := |chain| - 1;
    && n >= 1 && Distinct(chain) && chain[0] == leaf && chain[n] in roots
    && (forall k :: 0 < k < n ==> chain[k] in intermediates && chain[k].basicConstraintsValid && chain[k].isCA)
    && (forall k :: 0 < k <= n ==> opts.signs(chain[k], chain[k - 1]) && chain[k - 1].issuer == chain[k].subject)
    && (forall k :: 0 < k <= n ==> chain[k].notBefore <= opts.now <= chain[k].notAfter)
    && (forall k :: 0 < k <= n && chain[k].permitted != [] ==>
          exists i :: 0 <= i < |chain[k].permitted| && opts.matches(opts.dnsName, chain[k].permitted[i]))
    && (forall k :: 0 < k <= n && chain[k].basicConstraintsValid && chain[k].maxPathLen >= 0 ==>
          k - 1 <= chain[k].maxPathLen)
  }

  predicate NotIn(c: Cert, chain: Chain) {
    forall i :: 0 <= i < |chain| ==> chain[i].raw != c.raw
  }

  lemma ExtendPartial(chain: Chain, c: Cert, leaf: Cert, intermediates: set<Cert>, opts: Options)
    requires Partial(chain, leaf, intermediates, opts) && NotIn(c, chain) && c in intermediates
    requires opts.signs(c, chain[|chain| - 1]) && ValidNext(c, Intermediate, chain, opts)
    ensures Partial(chain + [c], leaf, intermediates, opts)
  {
    hide ValidNext;
    var longer := chain + [c];
    forall i | 0 <= i < |longer| - 1
      ensures longer[i + 1] in intermediates && Link(longer, i, Intermediate, opts)
    {
      if i < |chain| - 1 {
        assert Link(chain, i, Intermediate, opts);
        assert longer[..i + 1] == chain[..i + 1];
      } else {
        assert longer[..i + 1] == chain;
      }
    }
  }

  lemma FinishChain(chain: Chain, root: Cert, leaf: Cert, intermediates: set<Cert>, roots: set<Cert>, opts: Options)
    requires Partial(chain, leaf, intermediates, opts) && NotIn(root, chain) && root in roots
    requires opts.signs(root, chain[|chain| - 1]) && ValidNext(root, Root, chain, opts)
    ensures SoundChain(chain + [root], leaf, intermediates, roots, opts)
  {
    hide Permits, Link, ValidNext;
    var longer, n := chain + [root], |chain|;
    forall k | 0 < k <= n
      ensures opts.signs(longer[k], longer[k - 1]) && longer[k - 1].issuer == longer[k].subject
      ensures longer[k].notBefore <= opts.now <= longer[k].notAfter && Permits(longer[k], opts)
      ensures longer[k].basicConstraintsValid && longer[k].maxPathLen >= 0 ==> k - 1 <= longer[k].maxPathLen
      ensures k < n ==> longer[k] in intermediates && longer[k].basicConstraintsValid && longer[k].isCA
    {
      LinkAt(chain, root, leaf, intermediates, opts, k);
      FieldsAt(longer, k, if k < n then Intermediate else Root, opts);
    }
    PermitsFields(longer, opts);
  }

  /** What is valid in its place, on the fields. */
  predicate ValidAt(chain: Chain, k: nat, role: Role, opts: Options)
    requires 0 < k < |chain|
  {
    var c := chain[k];
    && chain[k - 1].issuer == c.subject && c.notBefore <= opts.now <= c.notAfter && Permits(c, opts)
    && (role == Intermediate ==> c.basicConstraintsValid && c.isCA)
    && (c.basicConstraintsValid && c.maxPathLen >= 0 ==> k - 1 <= c.maxPathLen)
  }

  lemma FieldsAt(chain: Chain, k: nat, role: Role, opts: Options)
    requires 0 < k < |chain| && ValidNext(chain[k], role, chain[..k], opts)
    ensures ValidAt(chain, k, role, opts)
  {
    hide Permits;
  }

  lemma LinkAt(chain: Chain, root: Cert, leaf: Cert, intermediates: set<Cert>, opts: Options, k: nat)
    requires Partial(chain, leaf, intermediates, opts) && 0 < k <= |chain|
    requires opts.signs(root, chain[|chain| - 1]) && ValidNext(root, Root, chain, opts)
    ensures var longer := chain + [root];
      && opts.signs(longer[k], longer[k - 1])
      && ValidNext(longer[k], if k < |chain| then Intermediate else Root, longer[..k], opts)
      && (k < |chain| ==> longer[k] in intermediates)
  {
    hide ValidNext, Distinct;
    var longer := chain + [root];
    if k < |chain| {
      assert Link(chain, k - 1, Intermediate, opts);
      assert longer[..k] == chain[..k];
    } else {
      assert longer[..k] == chain;
    }
  }

  lemma PermitsFields(chain: Chain, opts: Options)
    ensures forall k :: 0 <= k < |chain| && Permits(chain[k], opts) && chain[k].permitted != [] ==>
      exists i :: 0 <= i < |chain[k].permitted| && opts.matches(opts.dnsName, chain[k].permitted[i])
  {}

  /** The links of a sound chain. */
  lemma SoundLinks(chain: Chain, k: nat, leaf: Cert, intermediates: set<Cert>, roots: set<Cert>, opts: Options)
    requires SoundChain(chain, leaf, intermediates, roots, opts) && 0 < k < |chain|
    ensures opts.signs(chain[k], chain[k - 1])
    ensures ValidNext(chain[k], if k == |chain| - 1 then Root else Intermediate, chain[..k], opts)
  {}

  lemma PartialParts(chain: Chain, leaf: Cert, intermediates: set<Cert>, opts: Options)
    requires Partial(chain, leaf, intermediates, opts)
    ensures chain != [] && Distinct(chain) && chain[0] == leaf
  {}
}
