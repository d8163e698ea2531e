# Verified models of a consortium chain node

Dafny models of the node's protocol, encoding and cryptographic code, with proofs of what
that code promises. Code that changes state is modelled as classes and loops proved
against functions; the functions carry the theorems. `dafny verify dfyconfig.toml` checks
everything.

## What is modelled

**Consensus** (`Text`, `Sets`, `Messages`, `Quorum`, `Votes`, `BlockPool`, `Node`, `NodeFacts`,
`NodeQuorum`, `NodeFlow`, `NodeEffects`, `Consensus`, `Agreement`, `Disagreement`, `Handlers`). The
three-phase protocol of section 4.2 of Castro and Liskov, "Practical Byzantine Fault
Tolerance" (OSDI 1999), as this node runs it. `Node` gives each handler as a step on the
node's state; `Handlers` is the imperative worker, each method proved equal to its step.
`Consensus` puts N such nodes on a network that only grows: any message of a faulty member
may arrive at any time, a message of a correct member only after it was sent, and messages
may repeat and overtake each other. A handler is one atomic step, and the compensation
call inside the pre-prepare handler belongs to that step. View and membership are fixed.

Three findings shape the statements. The pre-prepare handler stores a request under the
digest that the message names without comparing it with the request (the comparison at
`eth/pbft-core.go:613-618` is made only for a request not yet stored, and by then it always
is), so agreement on *proposed* heights holds only when pre-prepares carry the digest
of their request; `Disagreement` gives the run that shows it, `NodeQuorum.StoreSoundIff`
the exact condition, and `Consensus.AgreementAtVotedHeight` the form that needs no
condition. The 64-bit request counter can be raised by a request that is then rejected,
and wraps around, after which ids repeat and one quorum can commit two requests;
`Disagreement` gives that run too. And `prepared` counts entries, not senders;
until the vote is sent this makes no difference, which is an invariant of all handlers.

**Secret sharing** (`Galois`, `LogTables`, `FieldOps`, `Polynomials`, `Shamir`). Field
multiplication is defined bit by bit and its laws are proved from linearity; the two
tables are checked entry by entry against it.

**RLP** (`RlpFormat`, `RlpEncoder`, `RlpBuffer`, `RlpStream`, `RlpRaw`), Appendix B of the
Ethereum Yellow Paper, over the generic item type: a byte string or a list of items.
`RlpFormat` holds the recursive encoding and a recursive-descent parser with the decoder's
errors; the two-buffer encoder, the streaming reader and the stack-machine decoder are
proved against them.

**Framing** (`Bytes`, `Sm3`, `Frames`, `FrameRW`). RLPx frames over the incremental SM3
hash, for every compression function, key stream and block cipher. `Sum` of that hash
changes its state, unlike its comment says; lockstep rests on both ends summing alike.

**Sponge** (`Sponge`). The buffered Keccak sponge for every permutation.

**Certificates** (`Certificates`, `CertPool`, `ChainSearch`, `Chains`, `KeyUsage`).
`ChainSearch` gives the cached search as a function; the cache can make it miss a chain,
and a condition on the pools is proved under which it does not.

**Dialing** (`Dialing`, `DialServer`), **subprotocols** (`Protocols`), **SM4** (`Sm4Tables`, `Sm4`,
`Sm4Example`)
and **SM2 limbs** (`Sm2Limbs`, `Sm2Products`).

Random bytes, times, signature checks, name matching, lookup results and the order in
which maps are walked are parameters or left open, so the theorems hold for all of them.

## Model

| member | source | states |
|---|---|---|
| `Agreement.Agreement` | eth/pbft-core.go:1184-1372 | In every run with a correct leader and at most (N-1)/3 faulty members, two requests for one height that any two correct nodes, at any two moments of the run, took as concluded are the same request, leader retries included; pre-prepares must carry the digest of their own request and the request counter must not wrap around. |
| `Agreement.AgreementOnProposals` | eth/pbft-core_basic.go:559-588 | The same of commit quorums on the network: two requests of the leader for one height never both gather commits from a quorum of members. |
| `Agreement.RunAgreement` | eth/pbft-core.go:307-379 | The invariant behind it over whole runs: the leader's ids stay unique and below its counter, and every commit of a correct node goes back to a request of the leader at the height voted. |
| `NodeEffects.HeadMovesIff` | eth/pbft-core.go:1184-1372 | Over all states and inputs: the chain head moves exactly when a commit of a new sender, above the head, completes a quorum of commits for a prepared and stored request and the votes held are positive; it moves by one. |
| `NodeEffects.CheckpointPostedIff` | eth/pbft-core.go:1323-1372 | A checkpoint is posted exactly when such a commit brings a positive or a negative verdict, and names its height, id and hash. |
| `NodeEffects.DecidedForgets` | eth/worker.go:1483-1498 | On such a verdict exactly the certificates and requests up to that id are gone, and the others are as they were. |
| `NodeEffects.VotesSay` | eth/pbft-core.go:802-905 | Every vote a node casts, in any state and on any input, names the height and hash of the request stored under its digest, and is in favour if and only if the block, from the pool or else from the request, is valid and a quorum of prepares carries one non-empty dependency graph. |
| `NodeEffects.VotesOnPrepareIff` | eth/pbft-core.go:718-950 | A prepare makes the node vote if and only if it is the first of its sender for a stored request above the head at a height not voted yet, and completes the quorum of prepares behind the pre-prepare held; voted heights behind the head are then forgotten and no others. |
| `NodeEffects.LatePrePrepareVotes` | eth/pbft-core.go:990-1038 | A pre-prepare that arrives after its quorum of prepares makes the node vote at once, through the compensation call. |
| `NodeEffects.StepPosts` | eth/pbft-core.go:393-706 | Prepares and pre-prepares under the node's own name answer the message received, with its view, id and digest. |
| `NodeEffects.RequestPostedIff` | eth/pbft-core.go:307-379 | A proposal is posted exactly for a block above the head, under the next id, with the height, hash and block proposed. |
| `NodeEffects.CertificatesHold` | eth/pbft-core.go:517-706 | On no input but a request does a certificate change the digest of its pre-prepare, and no input makes it forget that the prepare or the vote was sent. |
| `NodeEffects.RequestHoldsIff` | eth/pbft-core.go:393-508 | A request changes that digest if and only if it is taken up while its certificate holds a pre-prepare with another digest. |
| `NodeEffects.CheckpointEffect` | eth/pbft-core.go:1391-1460 | What a checkpoint changes: the checkpoint height grows to its own, the pool loses its heights, checkpoints behind the head are forgotten, and nothing else. |
| `Agreement.ConclusionQuorum` | eth/pbft-core_basic.go:559-588 | When a correct node counts a request as committed, commits for it from a quorum of distinct members are on the network. |
| `Agreement.NetGrows` | eth/pbft-core_basic.go:158-244 | Messages are never withdrawn, so duplication and reordering by forwarding are covered. |
| `Consensus.AgreementAtVotedHeight` | eth/pbft-core.go:882-905 | Without any condition on digests or the counter: quorums of commits that name the same height are for the same request id. |
| `Consensus.RunInvariant` | eth/pbft-core.go:393-1460 | Every reachable state of the system: stored prepares and commits were deliverable, a correct node's votes are recorded and one per height. |
| `Consensus.StepInvariant` | eth/pbft-core.go:393-1460 | Every allowed event at any correct node keeps that invariant. |
| `Disagreement.AgreementNeedsMatchingDigests` | eth/pbft-core.go:556-568 | A concrete run of four members with one faulty, the counter never wrapping, in which a pre-prepare with a foreign digest makes two requests for height 3 both gather commit quorums: the digest condition of agreement cannot be dropped. |
| `Disagreement.AgreementNeedsCounter` | eth/pbft-core.go:307-379 | A concrete run of the same members, all digests matching, in which a request gathers a commit quorum, the counter is raised by a request that is then rejected and wraps around, and a different request for the same height gets the same id, so that one quorum commits both: the counter condition of agreement cannot be dropped. |
| `Agreement.ProposalIdNewIff` | eth/pbft-core.go:307-379 | A proposal gets an id above all earlier ones if and only if the counter is not at its largest value. |
| `NodeFacts.CommitOncePerHeight` | eth/pbft-core.go:763-779 | In every run of a node, over any inputs, no height is voted twice although the record of votes is pruned: a voted height is recorded or below the head, and the head never moves back. |
| `NodeFacts.StepVotes` | eth/pbft-core.go:802-905 | One step keeps that: at most one vote, above the head, at a height not recorded, and recorded afterwards. |
| `NodeQuorum.VoteRestsOnQuorum` | eth/pbft-core.go:750-795 | In every run in which pre-prepares carry their request's digest, a vote is backed by prepares of at least a quorum of pairwise distinct senders matching view, id and digest, although the code counts entries and the compensation path may repeat a sender. |
| `NodeQuorum.StepSound` | eth/pbft-core.go:990-1038 | Every handler keeps certificates such that counting matching prepares counts distinct senders until the vote is sent. |
| `NodeQuorum.StoreSoundIff` | eth/pbft-core.go:556-568 | Accepting a pre-prepare leaves every stored request under its own digest if and only if it is rejected, its digest is known already, or its digest is that of its request. |
| `NodeQuorum.RunSound` | eth/pbft-core.go:517-1038 | The certificate invariant over whole runs from a fresh node. |
| `NodeFlow.ReceiveFlows` | eth/pbft-core_basic.go:158-244 | Whatever a handler stores or posts comes from its state, from the message handled, or is its own: nothing is attributed to another sender. |
| `Quorum.QuorumFormula` | eth/pbft-core_basic.go:107-125 | For two and three nodes the special cases agree with N - N/3. |
| `Quorum.QuorumsShareCorrect` | eth/pbft-core_basic.go:107-125 | With at most (N-1)/3 faulty members two quorums have a correct member in common. |
| `Text.DigestInjective` | eth/pbft-core.go:135-137 | Printing a 64-bit request id as a signed decimal gives different digests to different ids. |
| `Text.DecimalValue` | eth/pbft-core.go:135-137 | The printed digits read back as the number. |
| `Votes.VerdictFinal` | eth/pbft-core_basic.go:595-627 | A positive or a negative verdict stays the same under every extension of the commits by members that have not voted. |
| `Votes.FuturePositiveExact` | eth/pbft-core_basic.go:595-627 | The undecided verdict is given exactly when the quorum in favour is not there yet and some extension by further members reaches it. |
| `Votes.NoOppositeVerdicts` | eth/pbft-core_basic.go:595-627 | When no sender votes two ways, no two nodes hold a positive and a negative verdict on one request. |
| `Votes.CountIsSenders` | eth/pbft-core_basic.go:530-554 | Where no two matching prepares share a sender, the number of entries is the number of senders. |
| `Handlers.Worker.IsPrepared` | eth/pbft-core_basic.go:530-554 | The counting loop decides whether a quorum of matching prepares is there. |
| `Handlers.Worker.IsCommitted` | eth/pbft-core_basic.go:559-588 | Prepared, and commits of a quorum of distinct senders. |
| `Handlers.Worker.CountSenders` | eth/pbft-core_basic.go:566-588 | The loop with a map of senders counts each sender of matching commits once. |
| `Handlers.Worker.Tally` | eth/pbft-core_basic.go:595-614 | The first vote of each sender counts, for or against; the three counters are the sizes of those sets of senders. |
| `Handlers.Worker.VerdictFrom` | eth/pbft-core_basic.go:595-627 | The verdict of the counters is the verdict on the set of voters. |
| `Handlers.Worker.ConsensusExe` | eth/pbft-core_basic.go:631-665 | A non-empty execution result is returned exactly when some result is shared by a quorum of matching prepares, and it is one with the most. |
| `Handlers.Worker.RecvRequest` | eth/pbft-core.go:393-508 | The handler with its rejections refines the node's step on a request. |
| `Handlers.Worker.RecvPrePrepare` | eth/pbft-core.go:517-706 | The handler with the compensation call refines the node's step on a pre-prepare. |
| `Handlers.Worker.RecvPrepare` | eth/pbft-core.go:718-950 | The handler refines the node's step on a prepare, duplicates of a sender ignored. |
| `Handlers.Worker.RecvPrepareNotTransfer` | eth/pbft-core.go:958-1176 | The compensation form refines its step, without the check for a repeated sender. |
| `Handlers.Worker.RecordVote` | eth/pbft-core.go:891-905 | The look under the lock: reports an earlier vote at the height, otherwise records it, and prunes exactly the heights below the head. |
| `Handlers.Worker.OpinionOn` | eth/pbft-core.go:802-861 | The opinion sent: the block, from the pool or else from the request, is valid, and a quorum of prepares shares an execution result. |
| `Handlers.Worker.RecvCommit` | eth/pbft-core.go:1184-1372 | The handler refines the node's step on a commit: one commit per sender, conclusion on a positive verdict, clean-up. |
| `Handlers.Worker.RecvCheckpoint` | eth/pbft-core.go:1391-1460 | The handler refines the node's step on a checkpoint: pool and checkpoints are pruned. |
| `Handlers.Worker.RemoveOldMessages` | eth/worker.go:1483-1498 | Both deletion loops together leave exactly the certificates and requests above the id. |
| `BlockPool.RunConsistent` | eth/pbft-core_basic.go:302-396 | Through every run of puts, checkpoint deletions whose hash is that of their height, and expirations: heartbeat keys are the stored hashes, each hash is stored at one height, no height has an empty table. |
| `BlockPool.DeleteConsistentIff` | eth/pbft-core_basic.go:341-384 | A checkpoint deletion keeps the two indexes consistent if and only if the hash it names is not stored at a greater height. |
| `BlockPool.PutConsistent` | eth/pbft-core_basic.go:302-340 | Storing a block with its heartbeat keeps the indexes consistent. |
| `BlockPool.WithoutConsistent` | eth/pbft-core.go:1836-1864 | Removing any set of hashes keeps the indexes consistent. |
| `BlockPool.PutFound` | eth/pbft-core_basic.go:302-340 | After a put its block is found and everything else as before; a hash keeps its first heartbeat. |
| `BlockPool.DeleteFound` | eth/pbft-core_basic.go:341-384 | After a checkpoint deletion exactly the blocks above the height are found. |
| `BlockPool.EvictFound` | eth/pbft-core.go:1836-1864 | After eviction exactly the blocks whose heartbeat is older than the lifetime are gone. |
| `BlockPool.BlockIndex.Delete` | eth/pbft-core_basic.go:341-384 | The deletion loop leaves exactly the heights above. |
| `BlockPool.BlockIndex.DeleteByHash` | eth/pbft-core_basic.go:386-396 | Removes the hash from its table, and the table when it becomes empty. |
| `BlockPool.BlockIndex.HeightOf` | eth/pbft-core_basic.go:398-413 | Finds a height at which the hash is stored, if there is one. |
| `BlockPool.BlockIndex.ExpireAll` | eth/pbft-core.go:1836-1864 | One pass of the expiration loop removes exactly the hashes whose heartbeat is too old, and reports whether the next height was among them. |
| `Shamir.RoundTrip` | crypto-gm/shamir/shamir.go:154-261 | For every secret, every 2 <= threshold <= parts <= 255, every choice of coefficients and coordinates: Combine on any threshold or more different shares, in any order, returns the secret. |
| `Shamir.SplitHides` | crypto-gm/shamir/shamir.go:154-207 | Any threshold - 1 shares would have come out the same for every other secret of that length, under exactly one choice of coefficients. |
| `Shamir.BelowThreshold` | crypto-gm/shamir/shamir.go:44-59 | The same for polynomials: the draw that fits given parts to another secret exists and is unique. |
| `Shamir.Split` | crypto-gm/shamir/shamir.go:154-207 | All refusals in order, a failure of the random source, or one value per secret byte and part with the coordinate in the last byte. |
| `Shamir.Combine` | crypto-gm/shamir/shamir.go:211-261 | All refusals (too few, too short, unequal, duplicate), or every byte interpolated at the origin. |
| `Shamir.SplitAcceptedIff` | crypto-gm/shamir/shamir.go:154-170 | Exactly what Split accepts, and each refusal. |
| `Shamir.CombinedIff` | crypto-gm/shamir/shamir.go:211-243 | Exactly which parts Combine puts together, and the length of the secret. |
| `Shamir.Evaluate` | crypto-gm/shamir/shamir.go:44-59 | The Horner loop over table multiplication gives the value of the polynomial, at the origin too. |
| `Shamir.InterpolatePolynomial` | crypto-gm/shamir/shamir.go:62-80 | For distinct samples the nested loops give the value at x of every polynomial through the points that has at most as many coefficients as there are points. |
| `Polynomials.InterpolationUnique` | crypto-gm/shamir/shamir.go:62-80 | Through points of distinct abscissas goes exactly one polynomial with as many coefficients as points. |
| `Polynomials.TooManyRoots` | crypto-gm/shamir/shamir.go:62-80 | A polynomial with as many distinct roots as coefficients is zero. |
| `FieldOps.MultIsMul` | crypto-gm/shamir/shamir.go:113-141 | Multiplication by logarithm tables is polynomial multiplication modulo the field polynomial, for all 65536 pairs, zero included. |
| `FieldOps.DivMult` | crypto-gm/shamir/shamir.go:83-110 | Division by table is the inverse of multiplication by table, for every non-zero divisor. |
| `Galois.MulAssoc` | crypto-gm/shamir/shamir.go:113-141 | Multiplication in the field is associative. |
| `Galois.MulAdd` | crypto-gm/shamir/shamir.go:145-147 | Multiplication distributes over the exclusive-or addition. |
| `Galois.MulComm` | crypto-gm/shamir/shamir.go:113-141 | Multiplication is commutative. |
| `LogTables.Steps` | crypto-gm/shamir/tables.go:8-41 | Along the whole logarithm table, tripling an element adds eight to its logarithm. |
| `LogTables.Inverses` | crypto-gm/shamir/tables.go:44-76 | The exponential of the logarithm of every non-zero element is the element. |
| `RlpFormat.DecodeInverse` | rlp/decode.go:116-126 | A byte string decodes to an item if and only if it is that item's encoding: decoding is a two-sided inverse, and no other byte string is accepted. |
| `RlpFormat.PrefixFree` | rlp/decode.go:927-987 | No encoding begins another one. |
| `RlpFormat.TrailingData` | rlp/decode.go:116-126 | The complaint about more than one value is made exactly when a proper prefix is itself a value. |
| `RlpFormat.ParseEncoded` | rlp/decode.go:494-516 | An encoding followed by anything parses to its item and uses exactly its bytes. |
| `RlpFormat.ParsedIsEncoded` | rlp/decode.go:494-516 | What was used for a parsed item is its canonical encoding. |
| `RlpFormat.ReadHeader` | rlp/decode.go:927-987 | Every canonical header is read back as its kind and size. |
| `RlpFormat.HeaderRead` | rlp/decode.go:927-987 | Every accepted header is the canonical one for its kind and size. |
| `RlpFormat.HeadErrors` | rlp/decode.go:894-987 | Which error a header gives, and exactly when: end of input, a size not in its shortest form, or a value that runs past its list or the input. |
| `RlpFormat.UintInverse` | rlp/decode.go:726-757 | An integer is accepted with a value if and only if the bytes used are the encoding of that value and it fits the width. |
| `RlpStream.DecodeBytes` | rlp/decode.go:116-126 | The stream machine on a whole input gives the specified result or error, and succeeds on exactly the encodings. |
| `RlpStream.DecodeUint` | rlp/decode.go:221-229 | The integer path accepts exactly the encodings of integers within the width. |
| `RlpStream.DecodeUintPrefix` | rlp/decode.go:221-229 | The value of an integer at the front and what is left unread. |
| `RlpStream.StackOrdered` | rlp/decode.go:1041-1059 | The stack invariant level by level: positions do not pass sizes and every open list ends within its parent. |
| `RlpStream.Stream.WillRead` | rlp/decode.go:1041-1059 | Charges the innermost list and the limit, or fails without charging anything. |
| `RlpStream.Stream.ReadUint` | rlp/decode.go:989-1013 | A big-endian number through the zero-padded buffer, leading zeros refused. |
| `RlpStream.Stream.ReadKind` | rlp/decode.go:927-987 | The header of the next value with its exact error, and how far the input moves. |
| `RlpStream.Stream.Peek` | rlp/decode.go:894-925 | Reads a header once; later calls repeat the answer or the error until the value is consumed. |
| `RlpStream.Stream.Bytes` | rlp/decode.go:671-692 | The string ahead, refusing a single byte that should encode itself. |
| `RlpStream.Stream.Uint` | rlp/decode.go:726-757 | The number ahead, with each of its errors. |
| `RlpStream.Stream.BeginList` | rlp/decode.go:780-792 | Enters a list: what may be read is its payload. |
| `RlpStream.Stream.EndList` | rlp/decode.go:796-811 | Leaves a list only at its end and counts it in the parent. |
| `RlpStream.Stream.DecodeInterface` | rlp/decode.go:494-516 | One value by the stack machine is one value by recursive descent: same item or error, same bytes used. |
| `RlpStream.Stream.DecodeListSlice` | rlp/decode.go:306-319 | A whole list, its elements and its end. |
| `RlpStream.Stream.DecodeSliceElems` | rlp/decode.go:321-348 | The element loop up to the end of the list. |
| `RlpEncoder.MergeIsEncode` | rlp/encode.go:232-248 | Payload bytes and list headers of one item merge to its Appendix B encoding. |
| `RlpEncoder.MergeItem` | rlp/encode.go:203-248 | The same inside any larger buffer. |
| `RlpEncoder.PartSizes` | rlp/encode.go:219-230 | Payload bytes and header bytes add up to the length of the encoding. |
| `RlpEncoder.PutInt` | rlp/encode.go:604-659 | The shortest big-endian form in each of the eight cases. |
| `RlpEncoder.IntSize` | rlp/encode.go:662-668 | The number of bytes that form takes. |
| `RlpBuffer.PutHead` | rlp/encode.go:151-160 | The header for any 64-bit size. |
| `RlpBuffer.EncBuf.EncodeString` | rlp/encode.go:192-211 | Appends the encoding of a string. |
| `RlpBuffer.EncBuf.WriteUint` | rlp/encode.go:395-409 | Appends the encoding of a number. |
| `RlpBuffer.EncBuf.ListEnd` | rlp/encode.go:219-226 | The back-filled size is what was written since, nested headers included. |
| `RlpBuffer.EncBuf.WriteItem` | rlp/encode.go:512-530 | An item leaves exactly its payload part, its headers and their size in the buffers. |
| `RlpBuffer.EncBuf.ToBytes` | rlp/encode.go:232-248 | The merge into one slice of the computed size. |
| `RlpBuffer.EncBuf.ToWriter` | rlp/encode.go:250-272 | The same bytes to a writer, or the prefix it took and its failure. |
| `RlpBuffer.EncodeToBytes` | rlp/encode.go:98-106 | The slice is the item's encoding. |
| `RlpBuffer.EncodeTo` | rlp/encode.go:81-94 | The writer gets the encoding or, failing, a prefix of it. |
| `RlpBuffer.EncodeToReader` | rlp/encode.go:113-120 | The reader holds the encoding and the size is its exact length. |
| `RlpBuffer.EncReader.Next` | rlp/encode.go:308-340 | The next piece and what remains make up what remained before. |
| `RlpBuffer.EncReader.Read` | rlp/encode.go:283-304 | Fills any buffer with the bytes that come next; the end is reported exactly when nothing remains. |
| `RlpBuffer.ReadInPieces` | rlp/encode.go:283-304 | For every item and every sequence of buffer sizes the reads joined are the encoding, and the end is reported by exactly the reads that reach past its last byte. |
| `RlpRaw.ReadersAgree` | rlp/raw.go:86-125 | The slice-based header reader and the stream's accept the same first values and split them alike. |
| `RlpRaw.KindOfEncoded` | rlp/raw.go:86-125 | The first of any encoded values is found with its kind and content, whatever follows. |
| `RlpRaw.Split` | rlp/raw.go:39-45 | Content and rest partition the input after the header. |
| `RlpRaw.CountValues` | rlp/raw.go:74-84 | Counts n if and only if the input is n framed values in a row, so that the count is unique and an error means no such row. |
| `RlpRaw.CountEncoded` | rlp/raw.go:74-84 | The encodings of n items in a row count as n. |
| `Sm3.ChunkingIrrelevant` | crypto-gm/sm3/sm3.go:147-159 | Any cutting of a message into writes leaves the same digest, length and pending bytes, for every compression function. |
| `Sm3.HashOfChunks` | crypto-gm/sm3/sm3.go:164-185 | Writing chunks and summing gives the compression of the whole message followed by a marker byte, the fewest zeros that complete a block, and the length in bits, highest byte first; stated for every such ending, without the function that builds it. |
| `Sm3.LengthValue` | crypto-gm/sm3/sm3.go:38-45 | The eight bytes written read back as the length, highest byte first. |
| `Sm3.AbsorbBlocks` | crypto-gm/sm3/sm3.go:52-107 | Each whole block is compressed once, in order. |
| `Sm3.SumAgain` | crypto-gm/sm3/sm3.go:161-185 | Contrary to its comment Sum moves the running digest: a second Sum hashes the padding a second time. |
| `Sm3.Hash.Write` | crypto-gm/sm3/sm3.go:147-159 | The state after a write. |
| `Sm3.Hash.Update` | crypto-gm/sm3/sm3.go:52-107 | The block loop compresses all whole blocks in order. |
| `Sm3.Hash.Pad` | crypto-gm/sm3/sm3.go:28-50 | The padding loop ends on a block boundary, so its panic is never reached; marker, zeros, and the length highest byte first. |
| `Sm3.Hash.Sum` | crypto-gm/sm3/sm3.go:164-185 | The digest returned and the state it leaves behind. |
| `FrameRW.Converse` | p2p/rlpx.go:615-709 | Two ends with equal keys and mirrored hash states, any interleaving of writes and reads by both, every payload in any chunks: each read gives the next message the other end wrote, oversized messages are refused, no MAC check fails, and each reader is in the state its writer was in after the same messages, with the rest of the frames on the wire. |
| `FrameRW.Push` | p2p/rlpx.go:615-656 | A frame written keeps writer and reader in step, the frame being the last on the wire. |
| `FrameRW.Pull` | p2p/rlpx.go:658-709 | A frame read is the next message written, and keeps writer and reader in step. |
| `Frames.Lockstep` | p2p/rlpx.go:615-709 | The frames of any run of messages, read from the state they were written from, are those messages, and leave the state the writer ended in. |
| `Frames.MessageDelivered` | p2p/rlpx.go:615-709 | One message from equal states. |
| `Frames.DeliveredIff` | p2p/rlpx.go:619-623 | Of the messages that the size check lets through, one arrives if and only if its 32-bit size addition does not wrap around. |
| `Frames.WireIs` | p2p/rlpx.go:615-656 | The bytes of a frame, deciphered and with their MACs, described without the functions that build them. |
| `Frames.ReceivedPasses` | p2p/rlpx.go:658-709 | Every message delivered came in a frame whose two MACs are right and whose content is its code and payload. |
| `Frames.PassingReceived` | p2p/rlpx.go:658-709 | Every such frame is delivered, whatever its padding and the rest of its header. |
| `Frames.ReceiveFailures` | p2p/rlpx.go:658-709 | Exactly when the reader complains of a short read, of the header MAC or of the frame MAC. |
| `Frames.Int24RoundTrip` | p2p/rlpx.go:721-729 | Reading a written 24-bit size gives it back. |
| `FrameRW.UpdateMac` | p2p/rlpx.go:711-719 | The bytes hashed, xored with the seed, are the block cipher of the first half of the sum; the first half of the new sum is returned, and the hash is left where two sums leave it. |
| `FrameRW.Endpoint.WriteMsg` | p2p/rlpx.go:615-656 | Refuses an oversized frame with nothing changed, or puts on the wire: an enciphered header of three size bytes, the RLP list of two empty strings and zeros; its MAC; the enciphered code, payload and fewer than sixteen zeros; and the frame MAC, seeded with the sum over the data. |
| `FrameRW.Endpoint.WriteData` | p2p/rlpx.go:636-648 | Code, payload chunks and padding through the tee are one ciphertext and one hash write. |
| `FrameRW.Endpoint.ReadMsg` | p2p/rlpx.go:658-709 | The message or the failure the wire bytes call for, with the state after it. |
| `FrameRW.Endpoint.ReadHeader` | p2p/rlpx.go:661-671 | The header MAC is checked before the size is deciphered. |
| `FrameRW.Endpoint.ReadData` | p2p/rlpx.go:680-698 | The frame MAC is checked before the content is deciphered. |
| `Sponge.HashInPieces` | crypto/sha3/sha3.go:126-182 | For every cutting of the input into writes and of the output into reads, the reads joined are pad, absorb and squeeze of the writes joined (sections 4 and 5.1 of FIPS 202), for every permutation. |
| `Sponge.Hasher.Write` | crypto/sha3/sha3.go:126-158 | Fast and slow path absorb the data, and the buffer stays shorter than the rate. |
| `Sponge.Hasher.PadAndPermute` | crypto/sha3/sha3.go:99-122 | Padding in the buffer, also when one byte takes both ends, is the padding of the message. |
| `Sponge.Hasher.Read` | crypto/sha3/sha3.go:161-182 | The next bytes of the output, wherever earlier reads stopped. |
| `Sponge.PadInPlace` | crypto/sha3/sha3.go:99-117 | The padded block. |
| `Sponge.Sum` | crypto/sha3/sha3.go:186-193 | From the absorbing state: input followed by the digest, the hash left unchanged. |
| `Sponge.XorInTwice` | crypto/sha3/sha3.go:99-122 | A block xored into the state twice leaves no trace. |
| `Sponge.ShortMessage` | crypto/sha3/sha3.go:99-182 | For a message of one block, every byte of output is read off the permutation iterated on the message, the domain byte, zeros and the closing bit. |
| `Chains.Builder.BuildFromLeaf` | crypto-gm/sm2/verify.go:299-306 | From the leaf: every chain returned starts at the leaf, ends in a root, repeats no certificate, has all links signed and valid and shown by the pools; no root that vouches for the leaf is missed; in pools with no path length limit below the number of intermediates, equal bytes only of equal certificates and no certificate in both, it succeeds if and only if such a chain exists. |
| `Chains.Builder.BuildChains` | crypto-gm/sm2/verify.go:341-397 | The recursion with its shared cache returns exactly the chains of the functional search and leaves exactly its cache; it terminates, because every step uses up a pool certificate; no error exactly when there is a chain. |
| `ChainSearch.BuildSound` | crypto-gm/sm2/verify.go:341-397 | From any chain under construction and any sound cache: all chains found are sound, the cache stays sound whatever prefix it was filled under, and nothing in it changes. |
| `ChainSearch.BuildCovers` | crypto-gm/sm2/verify.go:341-381 | Every root that completes the chain does so in the result, and all that is cached for every intermediate that extends it is in the result. |
| `ChainSearch.SearchFindsIff` | crypto-gm/sm2/verify.go:361-381 | The condition under which the cache loses nothing: in plain pools the search finds a chain if and only if there is one. |
| `ChainSearch.BuildBlocked` | crypto-gm/sm2/verify.go:361-381 | Behind it: when nothing is found, every intermediate in the cache leads to a root only through a certificate of the chain at hand. |
| `ChainSearch.CacheLosesChain` | crypto-gm/sm2/verify.go:374-380 | Four certificates for which the search fails although a sound chain exists: the answer cached under a longer prefix, where the path length limit of the root was passed, is reused under a shorter one. |
| `Chains.Builder.WithRoots` | crypto-gm/sm2/verify.go:342-359 | Exactly the chains closed by a root that signed the last certificate, is new to the chain and valid. |
| `Chains.Builder.WithIntermediates` | crypto-gm/sm2/verify.go:361-381 | The loop over the intermediates in pool order is the functional one, cache and all. |
| `Chains.Builder.Through` | crypto-gm/sm2/verify.go:374-380 | The cached answer, or the answer built under this prefix and then cached. |
| `Certificates.IsValid` | crypto-gm/sm2/verify.go:189-246 | Exactly which test fails first: issuer name, dates, name constraints, authority to sign, path length. |
| `Certificates.ExtendPartial` | crypto-gm/sm2/verify.go:334-339 | A chain grows by a valid, new, signing intermediate. |
| `Certificates.FinishChain` | crypto-gm/sm2/verify.go:334-339 | A chain closed by a valid, new, signing root is sound, stated on the fields: names, signatures, dates, name constraints, authority, path lengths. |
| `Certificates.SoundLinks` | crypto-gm/sm2/verify.go:189-246 | And every certificate of a sound chain passes the tests in its place. |
| `CertPool.Pool.AddCert` | crypto-gm/sm2/cert_pool.go:156-175 | The list grows by a new certificate only, and both indexes keep listing exactly the positions of each key, in order. |
| `CertPool.Pool.Contains` | crypto-gm/sm2/cert_pool.go:140-153 | True exactly for a certificate of the pool. |
| `CertPool.Pool.FindVerifiedParents` | crypto-gm/sm2/cert_pool.go:116-138 | Exactly the candidates, by key id or else by name, that signed the certificate, in pool order. |
| `KeyUsage.CheckChainForKeyUsage` | crypto-gm/sm2/verify.go:493-552 | Accepts exactly when some requested usage is allowed by every certificate of the chain (or marked invalid on entry). |
| `KeyUsage.CrossOut` | crypto-gm/sm2/verify.go:522-546 | One certificate crosses out exactly the usages it does not support. |
| `KeyUsage.SurvivesIff` | crypto-gm/sm2/verify.go:493-552 | What an accepted usage means on the fields of the certificates. |
| `KeyUsage.FindChains` | crypto-gm/sm2/verify.go:299-306 | A root is its own chain; otherwise all chains are trusted, directly rooted ones are not missed, and in plain pools there is one if and only if a sound chain exists. |
| `KeyUsage.Verify` | crypto-gm/sm2/verify.go:257-332 | Success exactly with at least one chain; every certificate of every chain is in time and permits the host; all chains are trusted, on their fields, and usable; a directly rooted certificate is not missed; with any usage requested and plain pools, success if and only if a sound chain exists. |
| `DialServer.Server.Run` | p2p/server.go:544-609 | Over every run of events, with any delay before each scheduling and any wait before each event: outstanding dials have distinct targets equal to the keys of dialing, dialing and history are disjoint, dynamic peers and dials together stay within the limit, at most sixteen tasks run, and a dial whose target is connected was made before the target connected. |
| `DialServer.Server.ScheduleTasks` | p2p/server.go:522-543 | No task is lost, started twice or overtaken; no dial is made to a node that is connected or whose last dial ended less than thirty seconds ago; a dial to a connected node is started if and only if one waits in the part of the queue there is room for. |
| `DialServer.Server.OutstandingDial` | p2p/server.go:522-543 | No outstanding dial, running or queued, goes to a node whose last dial ended less than thirty seconds ago, and one goes to a connected node only if that node connected after the dial was made. |
| `DialServer.ConnectedNodeDialed` | p2p/server.go:534-536 | For any more than sixteen static nodes, a run in which a node that connected while its dial was queued is dialed: queued dials are not checked again. |
| `DialServer.Server.StartTasks` | p2p/server.go:522-532 | Starts from the front while there is room. |
| `DialServer.Server.Finish` | p2p/server.go:561-567 | A finished task leaves, its target moves to the history. |
| `DialServer.Server.DelTask` | p2p/server.go:513-520 | Removes one copy. |
| `DialServer.Server.AddPeer` | p2p/server.go:578-598 | A dynamic peer comes from a running dynamic dial, so the limit holds. |
| `Dialing.DialState.NewTasks` | p2p/dial.go:145-219 | New dials only to unknown nodes and up to the dynamic limit; every static node is dialed or known; dynamic dials only to random nodes up to half of the need and to lookup results in order, which are used up; a lookup exactly when candidates run short; a wait exactly when nothing else is to do. |
| `Dialing.DialState.NewDials` | p2p/dial.go:158-205 | The dials alone: never a known node, every static node dialed or known, the dynamic limit kept, and how many dynamic dials remain wanted. |
| `Dialing.DialState.DialMore` | p2p/dial.go:186-205 | Random candidates and lookup results are used in order, and lookup results are consumed as tried. |
| `Dialing.DialState.TaskDone` | p2p/dial.go:222-231 | What each finished task changes. |
| `Dialing.DialState.Expire` | p2p/dial.go:346-350 | Drops exactly the entries whose time has passed. |
| `Dialing.DialState.AddHistory` | p2p/dial.go:335-337 | The entry is added in the order of expiration. |
| `Protocols.MatchProtocols` | p2p/peer.go:334-357 | Every name shared gets its highest shared version and a range; ranges follow one another from the base length in the order of names. |
| `Protocols.PeersAgree` | p2p/peer.go:334-357 | Two peers that give equal lengths to what they share compute the same ranges. |
| `Protocols.CodeDelivered` | p2p/peer.go:411-466 | A code written by one protocol falls in the range of the protocol of that name and version on the other side, in no other, and comes out as the same local code. |
| `Protocols.RangesDisjoint` | p2p/peer.go:334-357 | Ranges do not meet and start after the base codes. |
| `Protocols.MatchNegotiated` | p2p/peer.go:334-357 | Giving back the range of an older version leaves the layout contiguous. |
| `Protocols.LengthIs` | p2p/peer.go:340-353 | The length of a match is that of the first protocol with its name and version. |
| `Protocols.GetProto` | p2p/peer.go:411-418 | Finds the owner of a code in whatever order the map is walked, or reports that there is none. |
| `Protocols.SortCaps` | p2p/peer.go:335 | A sorted permutation of the capabilities. |
| `Sm4.DecryptEncrypt` | crypto-gm/sm4/sm4.go:186-215 | For all round keys and all blocks, decryption after encryption is the identity. |
| `Sm4.EncryptDecrypt` | crypto-gm/sm4/sm4.go:186-215 | And encryption after decryption. |
| `Sm4.TableRound` | crypto-gm/sm4/sm4.go:82-156 | For every word the four table lookups are the substitution layer followed by the linear layer (section 6 of GB/T 32907-2016). |
| `Sm4Tables.TablesJoinLayers` | crypto-gm/sm4/sm4.go:63-156 | Each of the 1024 table entries is the linear layer of its S-box entry in its place. |
| `Sm4.CryptBlock` | crypto-gm/sm4/sm4.go:186-215 | The in-place rounds by table compute the cipher of the standard, in both directions. |
| `Sm4.Pass` | crypto-gm/sm4/sm4.go:202-210 | Four in-place rounds are four rounds of the standard. |
| `Sm4.GenerateSubKeys` | crypto-gm/sm4/sm4.go:217-230 | The round keys are the words of the key expansion recurrence. |
| `Sm4.KeyLinearIs` | crypto-gm/sm4/sm4.go:158-160 | The linear layer of the key schedule, determined by linearity, rotation and its value at one bit. |
| `Sm4.LinearIs` | crypto-gm/sm4/sm4.go:186-215 | The linear layer of the rounds, determined in the same way. |
| `Sm4.CkFormula` | crypto-gm/sm4/sm4.go:51-60 | Byte j of key parameter i is 7(4i + j) modulo 256. |
| `Sm4.ZeroKeyStart` | crypto-gm/sm4/sm4.go:46-49 | The key schedule starts from the system parameters. |
| `Sm4Example.KeysAre` | crypto-gm/sm4/sm4.go:217-230 | The thirty-two round keys of the example of the standard. |
| `Sm4Example.Example` | crypto-gm/sm4/sm4.go:186-235 | Encrypting the example block of the standard gives the ciphertext it prints. |
| `Sm4.EncryptBlock` | crypto-gm/sm4/sm4.go:232-235 | Encryption under the expanded key. |
| `Sm4.DecryptBlock` | crypto-gm/sm4/sm4.go:237-240 | Decryption gives back whatever was encrypted with the same key. |
| `Sm2Limbs.Add` | crypto-gm/sm2/p256.go:587-604 | The sum modulo the prime within the same limb bounds, result and arguments possibly shared. |
| `Sm2Limbs.Sub` | crypto-gm/sm2/p256.go:607-627 | The difference modulo the prime within the same limb bounds, through wrapping 32-bit arithmetic. |
| `Sm2Limbs.ReduceCarry` | crypto-gm/sm2/p256.go:780-797 | The carry table stands for carry times 2^257 modulo the prime, and limbs stay in bounds. |
| `Sm2Limbs.Zero31Value` | crypto-gm/sm2/p256.go:584 | The constant added before subtracting is eight times the prime. |
| `Sm2Limbs.FromBig` | crypto-gm/sm2/p256.go:1001-1022 | The limbs of a times 2^257 modulo the prime. |
| `Sm2Limbs.ToBig` | crypto-gm/sm2/p256.go:1026-1041 | The value of the limbs times the inverse of 2^257, modulo the prime. |
| `Sm2Limbs.BigRoundTrip` | crypto-gm/sm2/p256.go:1001-1041 | To limbs and back is reduction modulo the prime. |
| `Sm2Limbs.SameBig` | crypto-gm/sm2/p256.go:1026-1041 | Limbs equal modulo the prime convert to the same integer. |
| `Sm2Products.MulAccumulate` | crypto-gm/sm2/p256.go:630-716 | The seventeen accumulators make exactly the product and none overflows 64 bits. |
| `Sm2Products.SquareAccumulate` | crypto-gm/sm2/p256.go:720-771 | Those of squaring make exactly the square and equal those of multiplying by itself. |
| `Sm2Products.ProductFrom` | crypto-gm/sm2/p256.go:630-716 | The diagonal sums with doubled odd-odd terms weigh in as the product. |

## Left out

- Handlers.Worker: nil requests and blocks inside messages, signatures on votes, JSON and compression of messages, and time stamps other than pool heartbeats.
- Fine interleaving of goroutines inside one handler: steps are atomic.
- Liveness, view change, leader election, leases, `ResetConData` and synchronisation: never driven or not called.
- Block construction, transaction dependency and validation: a block's opinion is an arbitrary flag of the block.
- Consensus.AgreementAtVotedHeight: speaks of the height named in the commits; for the height of the proposals see Agreement.AgreementOnProposals and its conditions.
- Agreement.AgreementOnProposals: one direction only; that neither condition can be dropped is shown by two runs in Disagreement, each breaking the conclusion and only that condition, not by an equivalence over runs.
- Shamir.Split: works on sequences, not on slices updated in place; the coordinates are given as bytes.
- RLP of structs, maps, arrays, optional values, big integers and booleans, and the type cache: reflection around the generic item.
- `Stream.Raw`: on strings of 56 or more bytes it writes a header that the encoder would not.
- RlpStream.Stream: streams without a limit or with a limit beyond the data are not covered; decoding from a byte slice always sets the limit.
- RlpRaw.Split: excludes the one input 0x81 alone, for which the code reads past the end; RlpRaw.CountValues excludes inputs whose last value is that byte.
- RlpBuffer.EncBuf: a list header is named by its position, not by a reference.
- Item sizes are below 2^64, as they are in memory.
- Frames: a connection whose writes fail is not modelled, and a message's size field is the length of its payload.
- Frames.DeliveredIff: says nothing about which error the reader meets when a size wraps around.
- Sm3: the compression function and the byte order of digest words are parameters.
- Sponge.Sum: only from the absorbing state; cloning a squeezing sponge uses the buffer's capacity and is not modelled.
- Sponge: the 25 lanes are taken as 200 bytes; lane byte order is not modelled.
- Certificates.IsValid: the matching of one name constraint is a parameter.
- Chains.Builder.BuildChains: the hint inside the unknown-authority error is not modelled.
- ChainSearch.SearchFindsIff: says that some chain is found, not that all are; chains through a cached intermediate keep the prefix they were built under.
- KeyUsage.Verify: host name matching, system roots and PEM parsing.
- DialServer.Server: the connection set-up itself; endpoint resolution and its back-off; a resolved node is assumed to keep its id.
- Dialing.DialState: the history heap is an ordered list; map order is arbitrary.
- Protocols.MatchProtocols: offsets are not bounded to 64 bits; names stand for strings in their order; the variant for node type 4 is left out.
- Sm4: modes of operation, key files and the cipher object.
- Sm2Products.MulAccumulate: stops before `sm2P256ReduceDegree`; no statement about the reduction, the point formulas or scalar multiplication.
- Sockets, handshakes, key files, configuration, logging, timers, metrics, the foreign secp256k1 code and `crypto/shamir`, whose code is the same.
