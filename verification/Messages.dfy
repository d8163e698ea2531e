/** The messages of the consensus protocol and the fields the handlers read. */
module Messages {
  import opened Text

  /** Node ids are only ever compared for equality. */
  type NodeId = nat
  type Digest = string
  type Hash = string

  datatype Block = Block(number: uint64, valid: int)

  /** Block.Hash: the printed height. */
  function BlockHash(b: Block): (h: Hash) { Itoa(AsInt64(b.number)) }

  datatype Request = Request(reqId: uint64, sender: NodeId, view: uint64,
                             height: uint64, hash: Hash, block: Block)

  /** newhashReq: the printed request id. */
  function RequestDigest(req: Request): (d: Digest) { Itoa(AsInt64(req.reqId)) }

  datatype PrePrepare = PrePrepare(sender: NodeId, view: uint64, reqId: uint64,
                                   digest: Digest, request: Request)

  datatype Prepare = Prepare(sender: NodeId, view: uint64, reqId: uint64,
                             digest: Digest, exe: string)

  datatype VoteResult = VoteResult(sender: NodeId, height: uint64, hash: Hash, opinion: bool)

  datatype Commit = Commit(sender: NodeId, view: uint64, reqId: uint64,
                           digest: Digest, vr: VoteResult)

  datatype Checkpoint = Checkpoint(sender: NodeId, height: uint64, reqId: uint64, hash: Hash)

  datatype Message =
    | RequestMsg(request: Request)
    | PrePrepareMsg(prePrepare: PrePrepare)
    | PrepareMsg(prepare: Prepare)
    | CommitMsg(commit: Commit)
    | CheckpointMsg(checkpoint: Checkpoint)

  function Sender(m: Message): (s: NodeId) {
    match m
    case RequestMsg(r) => r.sender
    case PrePrepareMsg(p) => p.sender
    case PrepareMsg(p) => p.sender
    case CommitMsg(c) => c.sender
    case CheckpointMsg(c) => c.sender
  }

  /** The check at the end of RecvPrePrepare (eth/pbft-core.go:613-618), which
      comes after the request has been stored. */
  predicate DigestMatches(p: PrePrepare) { p.digest == RequestDigest(p.request) }
}
