# A verified model of the KRON mobile mesh DAG

KRON is a ledger without blocks: phones attach signed vertices that approve two parents,
keep a local graph and ledger, reconcile with whoever they meet, log what they store and
print their addresses as `kron1…`. This project models that system in Dafny and proves what
it is for: nodes conserve value over whole runs, the two ways to compute a ledger agree,
replicas converge, a crashed node restarts with exactly what can be read back from its
files, and addresses are parsed exactly.

Each part of the system appears twice where it works in place: as a function on values that
says what a step does, and as a class or a loop proved to take those steps. Results about
whole runs, interleavings and restarts are proved about the functions.

| module | what it models |
|---|---|
| Economics, Ledgers, History | monetary policy, transfer and mint, the account of a ledger by faucet and applied vertices |
| Graphs, Ancestry, Building, Weights | admission checks, bounded ancestor walks, the graph laws, exactness of cumulative weights |
| Dags, Conflicts, Settlement, Steps, Overflows, Runs, Safety | the node as a value: attach, accept, merge, rebuild; the invariant and what holds over every run |
| Admission, Acceptance | admission, payout, wire accept and rebuild in terms of a vertex's fields and the ledger's numbers |
| Refinement | batch ledger against incremental ledger |
| Replicas, Reordering, Agreement, Divergence | replicas with different attach orders: what they share, when they agree, how they come apart |
| Engine | `KronDAG` as an object with the source's fields, every method tied to a value function |
| Reconciliation, Kahn, TopoOrder, MeshMerge, Exchange | inventories, Have/Need, the topological sort of a batch, merge and exchange |
| Ingestion, Protocol, SyncRound, SyncPeer, Replies, Wire, Convergence | the lockstep sync protocol as two peers over FIFO channels, its code, its answers to any message, its messages as bytes and what it does for the ledgers |
| Bytes, Codec, Spellings, Wal, Persistence, Recovery | byte codecs, every byte string they read, checksummed records, the vertex log, snapshots, restart |
| Checksum, Generator, Arithmetic, Regroup, Bech32 | `kron1…` addresses after BIP-173, the checksum as a polynomial remainder |
| Transactions, Miner | vertices and relay lists; parent selection and the miner tick |

Conventions. A vertex id, hash or address is the number its 32 bytes spell, so `<` is byte
order. Hashing, ML-DSA verification and key validity are verdicts carried by a vertex or
function parameters. Random choices and the iteration order of hash sets are nondeterministic,
so results hold for all of them. Machine arithmetic is written out: saturating and checked
additions, 64-bit bounds, casts to 32 bits.

Assumptions of the run theorems, all checkable by a caller: an offered vertex has a non-null
id and an amount plus fee that fits 64 bits (`Settlement.Offered`); faucet plus hard cap fits
64 bits, and so does 20,200 times the number of vertices (`History.Room`). The second bound
is needed because relay credits also accumulate recycled fees, which no supply cap limits.
Runs within these bounds reach every precondition of the later theorems
(`Safety.RunKeeps`, `Persistence.LiveRestartable`, `SyncRound.LiveReplica`).

## The main operations

Hardest first, with the results that say what each does without naming the function that
computes it.

1. Sync round: every interleaving ends in the union or in the stated failure
   (`SyncRound.LiveNodesConverge`, `SyncRound.RoundExact`, `SyncRound.RoundBeyond`); any message
   in any state (`Replies.OutcomesExact`, `Replies.LoopAnswers`).
2. Wire accept: one vertex's effect, or everything settled anew (`Acceptance.AcceptExact`,
   `Admission.AdmissionExact`).
3. Attach, mint and relay payout: `Admission.PayoutExact`, `Admission.RelayPayout`,
   `Acceptance.CreditProven`, `Safety.ConservedOverRuns`, `Economics.EmissionSchedule`.
4. Rebuild and replica agreement: `Acceptance.RebuildExact`, `Overflows.OverflowExact`,
   `Overflows.OverflowLeaves`, `Agreement.AgreementExact`, `Replicas.MostApprovedWins`.
5. Merge and exchange: `MeshMerge.BatchExact`, `Kahn.KahnOrderExact`, `Exchange.ExchangeExact`,
   `Exchange.ExchangeIsUnion`.
6. Inventories: `Reconciliation.InventoryExact`, `Reconciliation.NeedAdvertised`,
   `Reconciliation.HaveCovers`, `Reconciliation.HaveExact`.
7. Boot from log and snapshot: `Recovery.LiveCrash`, `Recovery.AlteredRecord`,
   `Recovery.AlteredSnapshot`, `Recovery.SnapshotExact`, `Persistence.ReingestExact`.
8. Codec: `Spellings.DecodesExactly`, `Spellings.ReencodesExactly`, `Codec.DecodeInverts`,
   `Recovery.DecodedVertex`, `Wal.ReadRecordExact`, `Wire.HashesExact`, `Wire.InventoryExact`.
9. Parent selection and miner tick: `Miner.TicketsExact`, `Miner.ApproversDraw`,
   `Miner.SelectParents`, `Miner.MinerTick`, `Miner.PreparedExact`.
10. Addresses: `Bech32.DecodesExactly`, `Bech32.AddressExact`, `Generator.PolymodExact`.

## What the proofs brought out

Where the code does less than its documentation or a first reading suggests, a lemma gives
an input that shows it and another states exactly when it does meet the property.

- The code credits the whole faucet before a replay and clears nonces, while attaching genesis
  leaves its key at nonce 1. A rebuild therefore returns the ledger of the attaches if and only
  if nobody spends from the genesis key (`Refinement.BatchRefinesIncremental`,
  `Refinement.GenesisKeyShows`).
- A vertex with relay proofs does not survive its own codec (`Codec.DecodeInverts`). A log is
  read up to the first such vertex, so a restart is complete if and only if there is none
  (`Wal.LogExact`, `Recovery.CleanRestart`); a peer that is sent one gives up the round
  (`SyncRound.RoundExact`).
- The decoder does not look behind a signature inside its length-prefixed field, so one vertex has
  many byte strings under one id (`Spellings.DecodesExactly`); decodable bytes are its canonical
  ones if and only if it has no relay proofs and that length is 2,425
  (`Spellings.ReencodesExactly`).
- Snapshots carry the faucet and are written at every eighth confirmed vertex only. After a crash
  in between, the node restarts with an older faucet or none (`Recovery.LiveCrash`): its graph is
  restored, its ledger if and only if no credit is missing and nobody spends from the genesis key
  (`Persistence.FaucetDecides`).
- A merge keeps what it stored before a bad body without rebuilding
  (`MeshMerge.PartialMergeShows`). It succeeds if and only if every new body is sound, and the
  ledger accounts for every stored vertex afterwards if and only if that is so or the first new
  body in Kahn order is already unsound (`MeshMerge.MergeExact`, `MeshMerge.BatchExact`).
- Nothing on the insert path checks amounts, so an oversized one is met by the replay
  (`MeshMerge.OverflowShows`). A rebuild fails if and only if it reaches one with its nonce due
  (`Overflows.OverflowExact`); a caller rules that out by checking the sums of what is stored.
- `parent_closure` reports one vertex past the walk bound, the weight walk does not
  (`Ancestry.ParentClosureExact`, `Ancestry.BumpedExact`). Beyond the bound an inventory leaves
  vertices out and an exchange can fail (`Exchange.LongChainFails`); it stores the union if and
  only if all that is lacked is advertised (`Exchange.ExchangeIsUnion`). In a sync round the same
  holds for the initiator; the responder always ends with the union (`SyncRound.RoundBeyond`).
- The comment on the conflict rule (src/dag/engine.rs:692-694) says that rank decides spends
  that overlap in balance. The code never looks at rank there: of two surviving spends of a
  sender a rebuild can only drop the higher nonce, in every attach order
  (`Agreement.LowerKept`), also when it outranks the lower one (`Divergence.OverlapShows`). So
  rank decides if and only if the lower nonce outranks the higher (`Agreement.RankExact`), as it
  does where spends approve the sender's earlier ones (`Agreement.ChainsByRank`). The model
  follows the code.
- Which spends are due, and paid for, when they are reached can depend on the attach order
  (`Divergence.NonceOrderShows`, `Divergence.ReceiptOrderShows`). If faucet and chained ancestors
  pay for every surviving spend (`Agreement.Funds`), replicas drop the same vertices in every
  attach order if and only if ancestry orders each spend that can be reached against its
  successor (`Agreement.AgreementExact`).
- Replicas without any conflict can still disagree on a balance when their attach orders differ
  around a halving (`Divergence.HalvingOrderShows`). They agree on an account if and only if
  mints paid it the same in total (`Replicas.BalancesExact`), as they do wherever each vertex
  earns the same subsidy in both orders (`Replicas.ReplicasAgree`).

## Model

| member | source | states |
|---|---|---|
| SyncRound.LiveNodesConverge | src/p2p/mesh.rs:643-756 | Two nodes that any allowed runs from one genesis have reached, with at most 1,000 vertices each: every interleaving of a round between them is bounded and ends, in failure exactly if one of them lacks a vertex with relay proofs, otherwise with both vertex sets equal to the union |
| SyncRound.RoundNeverFails | src/p2p/mesh.rs:643-756 | For every interleaving of two peers running a sync round over FIFO channels, neither missing a vertex with relay proofs, taken as far as one likes: neither peer meets an unexpected or undecodable message, some move is possible unless both have returned with nothing in flight, and the round ends after exactly 2 * (gaps + 9) moves, the gaps being what each side lacks of the other |
| SyncRound.RoundExact | src/p2p/mesh.rs:643-756 | In every interleaving between nodes within the closure bound, once nothing can move, a peer has failed if and only if the other had a vertex with relay proofs that it lacked, and both have returned if and only if neither had one; before that no peer fails without such a vertex |
| SyncRound.RoundBeyond | src/p2p/mesh.rs:643-756 | A round between any two nodes that agree on the parents of what both store, inventories complete or not: it ends for both exactly if no body that is sent carries relay proofs; then the responder holds the union, because the offer names what the inventories left out, and the initiator holds the union if and only if the responder advertises all that it lacks |
| SyncRound.EveryIngestFits | src/p2p/mesh.rs:725-732 | At every point of every interleaving each peer holds its starting graph plus a prefix of the bodies it lacked, in the other's attach order; each of those bodies finds both parents stored and is stored as new |
| SyncRound.RoundConverges | src/p2p/mesh.rs:643-704 | When a round has ended each side stores its own vertices and the other's, body by body, both nodes satisfy the ledger and graph invariant and neither faucet has changed |
| Convergence.RoundMakesTwins | src/p2p/mesh.rs:643-704 | After a round between nodes that agreed on the vertices they shared both store the same map with the same weights, so rebuilds pick the same losers and winners; with equal faucets the two are replicas to which the agreement results apply |
| SyncRound.StuckExact | src/p2p/mesh.rs:643-756 | On script, a world in which nobody can move is one in which each side has failed exactly if something it was sent cannot be read, and in which both have returned with nothing in flight exactly if all of it can; no other deadlock |
| SyncRound.MoveKeeps | src/p2p/mesh.rs:643-756 | Whatever peer moves, the whole world stays a function of four counters (sent and read by each side), and exactly one counter advances by one |
| SyncRound.RequestsExact | src/p2p/mesh.rs:663-699 | Within the closure bound each side's Need is exactly what the other stores and it lacks, and the responder's second look at the initiator's Have adds nothing |
| SyncRound.RequestsWhole | src/p2p/mesh.rs:689-699 | Beyond it the second look is what makes the responder's Need everything it lacks; the initiator's is what the responder advertises |
| SyncRound.ScriptLegible | src/p2p/mesh.rs:396-494 | With inventories within 4096 hashes every request and inventory of the round decodes; the bodies a side sends all decode if and only if none of the missing vertices carries relay proofs |
| Ingestion.IngestBodies | src/dag/engine.rs:631-644 | Accepting a replica's missing bodies in its attach order stores every one of them, parents first, and yields the union of the two vertex maps with the invariant intact |
| SyncPeer.Initiate | src/p2p/mesh.rs:648-671 | The initiator's straight-line code, run on any inbox, ends in the state and with the messages that the protocol's peer has after reading that inbox |
| SyncPeer.Respond | src/p2p/mesh.rs:672-719 | The same for the responder, the branch for a peer that opens with an inventory included |
| SyncPeer.ReceiveBodies | src/p2p/mesh.rs:721-756 | The receive loop follows the protocol's peer for every inbox, error exits included |
| SyncPeer.ReceiveOne | src/p2p/mesh.rs:726-744 | One pass of the receive loop: ingest, answer Need and Have, answer Ping, stop on Done, fail on anything else |
| Wire.WireExact | src/p2p/mesh.rs:344-494 | A message arrives as it was sent if and only if its hash lists are within 4096 and its body carries no relay proofs; any other is a bad frame |
| Wire.InventorySurvives | src/p2p/mesh.rs:425-494 | An inventory survives its encoding exactly when tips and recent hashes together are within the bound |
| Wire.HashesSurvive | src/p2p/mesh.rs:396-423 | A hash list survives its encoding exactly when it is within the bound |
| Replies.OutcomesExact | src/p2p/mesh.rs:643-756 | In any state and for any message: a peer gives up exactly on what cannot be read or what this read does not expect, returns exactly on the Done it waits for, and only a body changes its node, as a wire accept does |
| Replies.LoopAnswers | src/p2p/mesh.rs:721-756 | What the receive loop answers: bodies to a Need, to a Have a Need for exactly what is lacked of it, if anything, a Pong to a Ping, its own Done on the accepting side, nothing to a body or a Pong |
| Replies.InventoryFirst | src/p2p/mesh.rs:706-719 | A responder that is met with an inventory answers with its own and a Need for what it sees lacking, and waits for bodies without a Done to send |
| Replies.BodiesAnswer | src/dag/engine.rs:157-164 | Asked for any hashes, known or not, a node sends exactly the stored bodies among them, in attach order |
| Wire.HashesExact | src/p2p/mesh.rs:396-423 | Bytes are a hash list if and only if they are what a writer writes for it and it is within 4096; trailing bytes are refused |
| Wire.InventoryExact | src/p2p/mesh.rs:425-494 | Bytes start with an inventory if and only if they start with what a writer writes for it and tips and recent hashes together are within 4096 |
| Wire.HashAt | src/p2p/mesh.rs:396-403 | Byte layout of a hash list: the count in four little-endian bytes, then hash i big-endian at 4 + 32 i |
| Wire.KindsExact | src/p2p/mesh.rs:344-394 | Kind bytes 2, 3, 10, 11, 12, 13 and 14 name the seven messages; a frame that decodes is of the kind of what it decodes to |
| Acceptance.AcceptExact | src/dag/engine.rs:416-505 | A sound vertex that is due and paid for leaves every conflict as it was and moves supply, count and each balance, relay credit and nonce by its own effect alone, by wire as well as locally; any other sound vertex is refused locally without a trace, its nonce judged before its balance, and by wire stored and everything settled anew |
| Acceptance.RebuildExact | src/dag/engine.rs:695-760 | After a rebuild the conflict entry of every stored vertex, position by position: the rival that outranks it and every other rival, if there is one; otherwise the null parent exactly if its nonce differs from the number of its sender's spends applied before it, or faucet and those applied before it leave less than amount plus fee; otherwise none |
| Acceptance.CreditProven | src/dag/tx.rs:96-138 | After any run an account has relay credit only if a stored vertex that is not in conflict carries a valid proof of that phone |
| Acceptance.OverflowStores | src/dag/engine.rs:476-505 | When only the mint overflows the vertex stays stored and its nonce used, and it does not count as confirmed |
| Admission.AdmissionExact | src/dag/engine.rs:422-441 | Over the fields of a vertex: when it is admitted, and for each refusal exactly when it is given, the first parent that is not stored named |
| Admission.ProofsExact | src/dag/tx.rs:111-138 | Relay proofs verify if and only if each is valid and names a listed relay, and each listed relay has one |
| Admission.StoredExact | src/dag/engine.rs:422-441 | Every vertex of a reachable graph has the right fee, its sender's key, a valid signature and only valid relay proofs, one at least for each relay it lists |
| Admission.RelayPayout | src/dag/minting.rs:78-99 | What one confirmed vertex credits to an account as a relay: a fifth of subsidy and fee, rounded up, in equal parts to the phones with a valid proof, the first of which also takes the rest; nothing to anyone else |
| Admission.PayoutExact | src/dag/minting.rs:60-110 | What one confirmed vertex does to a balance: amount and fee, four fifths of subsidy and fee rounded down to the sender, all of it if no phone relayed, and relay parts |
| Economics.SubsidyExact | src/economics/mod.rs:86-98 | For any count and supply the subsidy is 100,000 units shifted right once per 126,144,000 vertices, clipped at what is left of the cap |
| Safety.ConservedOverRuns | src/dag/engine.rs:416-505 | After any run of credits, attaches, wire accepts, merges (failed ones included) and rebuilds: balances sum to faucet plus supply, the supply is the emission schedule at the confirmed count, and the graph laws hold |
| Safety.RunKeeps | src/dag/engine.rs:221-793 | The invariant of a node holds in every reachable state; without merges nothing is ever left unsettled |
| Safety.RunGrows | src/dag/engine.rs:221-793 | No run changes the genesis or a stored vertex, or takes one away |
| Safety.OneSpendPerNonce | src/dag/engine.rs:443-495 | At most one vertex per sender and nonce affects balances |
| Safety.NoncesExact | src/dag/engine.rs:443-495 | For every sender but the genesis key the vertices that affect balances carry exactly the nonces below next_nonce |
| Safety.NonceLadder | src/dag/engine.rs:443-495 | Applied spends of one sender climb the nonces without gap or repetition |
| Safety.CountsBalance | src/dag/engine.rs:695-760 | Confirmed vertices, conflicts, unsettled ones and genesis account for every stored vertex; without the unsettled ones if and only if there are none |
| Safety.GenesisInv | src/dag/engine.rs:105-122 | A fresh node satisfies the invariant, its genesis key at nonce 1 |
| Runs.StepKeeps | src/dag/engine.rs:221-793 | Every step of a node keeps the invariant |
| Runs.AcceptKeeps | src/dag/engine.rs:631-644 | An offered vertex that passes the checks is stored, applied or as a conflict; any other is refused without a trace; the invariant holds either way |
| Runs.MergeKeeps | src/dag/sync.rs:295-334 | A successful merge settles everything it stored; a failed one leaves exactly what it stored unsettled and ledger and conflicts untouched |
| Steps.AttachClean | src/dag/engine.rs:416-505 | With room an attach applies the vertex or changes nothing, and never overflows |
| Steps.AttachKeeps | src/dag/engine.rs:443-505 | A successful attach appends the vertex to the applied ones and keeps the invariant |
| Steps.InsertKeeps | src/dag/engine.rs:648-690 | Storing without applying leaves the vertex unsettled and everything else as it was |
| Steps.CreditKeeps | src/dag/engine.rs:221-229 | A faucet credit moves one balance and one faucet entry by the same amount and keeps the invariant |
| Steps.RebuildSettles | src/dag/engine.rs:695-760 | From any well-stocked graph a rebuild succeeds, settles every vertex and changes neither graph nor faucet |
| Steps.ReplayLaw | src/dag/engine.rs:731-750 | A replay never fails with room, and its ledger is explained by what it applied |
| Steps.StoredFee | src/dag/engine.rs:648-668 | Every stored vertex passed the fee, key, signature and relay-proof checks |
| History.NeverOverflows | src/dag/engine.rs:762-793 | With room for faucet, cap and relay credits no transfer and no mint overflows |
| History.ExplainedStep | src/dag/engine.rs:762-793 | Applying a vertex extends, address by address, the account of balances, relay credits and nonces by that vertex |
| History.ApplyAt | src/dag/engine.rs:762-793 | What one applied vertex does to one address: amount, fee, miner share, relay share and nonce |
| History.SoundStep | src/dag/minting.rs:60-110 | Applying a vertex keeps balances = faucet + supply and the bound on relay credits |
| Ledgers.ApplyConserves | src/dag/engine.rs:762-793 | Applying a vertex changes the sum of balances by what it changes the supply, for any relay list and for self-transfers |
| Ledgers.MintSum | src/dag/minting.rs:60-110 | A mint puts exactly subsidy plus fee into circulation |
| Ledgers.TransferSum | src/dag/engine.rs:772-788 | A transfer removes exactly the fee, also when sender and recipient coincide |
| Ledgers.PartsAddUp | src/dag/minting.rs:78-90 | Relay parts add up to the relay total; all are equal but the first, which takes the dust |
| Economics.ShareSplit | src/economics/mod.rs:73-80 | Miner and relay share add up to the pool; the miner's is 80 percent rounded down |
| Economics.EmissionSchedule | src/economics/mod.rs:86-98 | Supply after n mints is min(cap, sum of shifted subsidies); it equals the cap exactly from 560,256,000 on; no subsidy is partial |
| Economics.ScheduleMeetsCap | src/economics/mod.rs:86-98 | The uncapped schedule meets the cap exactly, in the fifth era |
| Economics.SubsidyIsFull | src/economics/mod.rs:86-98 | Before the cap every subsidy is the full shifted amount and positive |
| Refinement.BatchRefinesIncremental | src/dag/engine.rs:416-505 | After any run of credits and attaches a rebuild succeeds; it returns the same balances, relay credits, supply, count and (genesis key aside) nonces, and it finds no losers, each if and only if no stored user vertex spends from the genesis key |
| Refinement.GenesisKeyShows | src/dag/engine.rs:443-505 | A run of one credit and one attach, a spend from the genesis key: the attach confirms it and a rebuild drops it |
| Refinement.IncrementalStep | src/dag/engine.rs:416-505 | Credits and attaches keep a state in which every applied vertex could still pay with the whole faucet credited first |
| Replicas.ReplicasAgree | src/dag/engine.rs:695-793 | Replicas with the same vertices and faucet pick the same same-nonce losers and winners; with equal replay losers they agree on nonces, supply and count, and, where each applied vertex earns the same subsidy in both orders, on every balance and relay credit |
| Replicas.BalancesExact | src/dag/engine.rs:731-793 | Replicas whose rebuilds drop the same vertices agree on a balance if and only if, over both orders, miner and relay shares paid that account the same in total; transfers and fees make no difference |
| Replicas.FirstEraAlike | src/dag/engine.rs:731-750 | Up to the first halving each vertex earns the same subsidy in every order |
| Divergence.HalvingOrderShows | src/dag/engine.rs:731-750 | Two runs with the same vertices and faucet, no conflict and the same nonces that leave one balance 50,000 units apart: the attach orders differ at a halving |
| Agreement.AgreementExact | src/dag/engine.rs:692-750 | For a vertex set whose surviving spends are all funded (by the faucet and by what ancestors with an unbroken nonce chain pay in): replicas drop the same vertices, and reach the same nonces, in every attach order if and only if ancestry orders each spend with such a chain against its successor; then the dropped vertices are exactly the beaten ones and those without a chain |
| Agreement.FirstEraExact | src/dag/engine.rs:692-793 | Under the same funding and up to the first halving, replicas agree on the whole ledger in every attach order if and only if ancestry decides in that sense |
| Agreement.DecidedBalances | src/dag/engine.rs:731-793 | Under the same funding and where ancestry decides, two replicas agree on a balance if and only if mints over the vertices that are neither beaten nor without a chain paid the account the same in total |
| Agreement.NothingDroppedExact | src/dag/engine.rs:692-750 | Under the same funding no attach order loses anything if and only if no two spends share sender and nonce and each spend has its predecessor among its ancestors |
| Agreement.NoncesDecide | src/dag/engine.rs:721-758 | Two replicas agree on every nonce if and only if their rebuilds drop the same vertices |
| Agreement.DecidedDrops | src/dag/engine.rs:721-750 | Under the same funding and where ancestry decides, a rebuild drops exactly the same-nonce losers and the spends without an unbroken chain of ancestors, whatever its attach order |
| Agreement.UndecidedSplits | src/dag/engine.rs:721-750 | Under the same funding and where it does not, two attach orders of the same vertices exist of which one applies a spend that the other drops |
| Agreement.ReplayRule | src/dag/engine.rs:731-750 | Under the same funding a replay applies a survivor if and only if its nonce is 0 or its predecessor was applied before it |
| Agreement.LowerKept | src/dag/engine.rs:731-750 | Whatever the funds and the attach order, a rebuild that keeps one surviving spend of a sender keeps those of lower nonce |
| Agreement.RankExact | src/dag/engine.rs:692-750 | When a rebuild keeps exactly one of two surviving spends of a sender it is the one of lower nonce, so the kept one outranks the other if and only if the lower nonce outranks the higher |
| Agreement.ChainsByRank | src/dag/engine.rs:692-750 | Where each spend approves the sender's earlier ones, every such pair is decided by rank, whatever the funds |
| Agreement.AncestorOutranks | src/dag/engine.rs:530-560 | An ancestor outranks every vertex above it |
| Divergence.OverlapShows | src/dag/engine.rs:692-694 | Two runs with the same two spends of 600,000 out of 1,000,000, attached in either order: both drop the higher nonce although it outranks the lower one |
| Divergence.NonceOrderShows | src/dag/engine.rs:731-750 | Two runs with the same two funded spends: the one that attached nonce 1 first drops it, the other applies both |
| Divergence.ReceiptOrderShows | src/dag/engine.rs:731-788 | Two runs with the same payment and a spend of the received money beside it: one attach order applies both, the other drops the spend, though no nonce is open |
| Reordering.OrderBuilds | src/dag/engine.rs:416-441 | Any listing of a vertex set that puts the genesis first and parents before children is the attach order of a reachable graph |
| Reordering.EveryRebuildReached | src/dag/engine.rs:221-229 | Every state that a rebuild of a replica can give is reached by a run of credits, wire accepts and one rebuild |
| Replicas.SameWeights | src/dag/engine.rs:530-560 | Replicas of one vertex set have the same cumulative weights |
| Replicas.MostApprovedWins | src/dag/engine.rs:705-719 | The rival a rebuild keeps is the one the most vertices approve, the larger id on a tie |
| Conflicts.GroupByNonce | src/dag/engine.rs:697-703 | The grouping pass lists every user spend under its sender and nonce, once |
| Conflicts.HighestRanked | src/dag/engine.rs:711-712 | The last of a group sorted by rank outranks every other member |
| Conflicts.PickLosers | src/dag/engine.rs:705-719 | The losers are exactly the spends some rival outranks, each with the winner of its group |
| Dags.LoserHasWinner | src/dag/engine.rs:705-719 | Every same-nonce loser has a winner that no rival outranks |
| Dags.WinnerUnique | src/dag/engine.rs:705-719 | and only one |
| Reconciliation.NeedExact | src/dag/reconciliation.rs:85-127 | For a remote inventory built by from_dag within the closure bound, need is exactly remote minus local |
| Reconciliation.HaveCovers | src/dag/reconciliation.rs:129-163 | have never misses what we store and the remote lacks, however much its inventory leaves out |
| Reconciliation.HaveExact | src/dag/reconciliation.rs:129-163 | have, although its walk stops at advertised hashes, is exactly local minus remote |
| Reconciliation.NeedMeetsHave | src/dag/reconciliation.rs:76-83 | What A needs of B is what B has for A |
| Reconciliation.InventoryAdvertises | src/dag/reconciliation.rs:42-64 | An inventory lists stored vertices only, and all of them but genesis once the tip closures fit the bound |
| Reconciliation.FromDag | src/dag/reconciliation.rs:42-64 | The inventory loop: sorted tips, sorted bounded closures without genesis |
| Reconciliation.CollectNeed | src/dag/reconciliation.rs:85-127 | The need loops compute the missing advertised hashes and the holes under known tips, sorted |
| Reconciliation.CollectHave | src/dag/reconciliation.rs:129-163 | The have walk computes the vertices reachable from tips over unadvertised ones, sorted |
| Kahn.KahnOrderLaw | src/dag/sync.rs:392-419 | Kahn's order sequences dependencies first, and covers the batch if and only if there is no cycle |
| TopoOrder.TopoOrderIncoming | src/dag/sync.rs:355-420 | Missing parents and cycles are reported exactly; otherwise the deduplicated batch in Kahn order, each vertex once, dependencies first |
| TopoOrder.CountDeps | src/dag/sync.rs:365-390 | In-degrees and dependents agree with the dependency relation, or a missing parent is named |
| TopoOrder.RunQueue | src/dag/sync.rs:392-419 | The queue loop computes Kahn's order and never meets a missing key |
| TopoOrder.Release | src/dag/sync.rs:402-413 | Finishing one vertex lowers the right in-degrees and releases exactly the newly ready ones |
| Kahn.ShapeDecides | src/dag/sync.rs:355-420 | The order, the cycles and the missing parents of a batch depend only on its ids and, id by id, their parents |
| MeshMerge.BatchIndependent | src/dag/sync.rs:355-420 | Neither the order of a batch nor repetitions in it matter, also when one id comes with different relay sidecars: the ids are inserted in the same order and the same batches are refused |
| MeshMerge.MergeOfflineGraphs | src/dag/sync.rs:295-334 | A batch with a missing parent or a cycle changes nothing; any other is inserted in Kahn order and settled by one rebuild |
| MeshMerge.InsertAll | src/dag/sync.rs:302-328 | The insert loop, stopping at the first error |
| MeshMerge.MergeIsUnion | src/dag/sync.rs:295-334 | An Ok merge leaves local union batch, returns the number of new ids, restores the ledger invariant, and repeating it returns 0 and changes nothing |
| MeshMerge.MergeExact | src/dag/sync.rs:302-332 | A merge of an ordered batch succeeds if and only if every new body in it is sound; the count equation holds afterwards if and only if that is so or the first new body is already unsound |
| MeshMerge.BatchExact | src/dag/sync.rs:295-334 | The same for a batch as it is offered: it succeeds if and only if it can be ordered and each body is stored or sound, and the count equation fails exactly when a good new body precedes a bad one in Kahn order |
| MeshMerge.PartialMergeShows | src/dag/sync.rs:318-332 | A concrete batch whose second body is bad leaves its first one stored but neither confirmed nor in conflict |
| Overflows.OverflowExact | src/dag/engine.rs:731-768 | With room for faucet, cap and relay credits a rebuild succeeds if and only if the replay never reaches, with its nonce due, a vertex whose amount plus fee exceeds 64 bits; a caller rules that out beforehand by checking the sums of what is stored (Settlement.AllOffered), which Steps.RebuildSettles shows to suffice |
| MeshMerge.OverflowShows | src/dag/engine.rs:648-690 | A concrete merged vertex whose amount plus fee exceeds 64 bits makes the rebuild overflow |
| Exchange.ExchangeAndMerge | src/dag/sync.rs:423-432 | One exchange, from any inventory, is the merge of the remote bodies of what collect_need asks for |
| Exchange.ExchangeIsUnion | src/dag/sync.rs:423-432 | An exchange stores the union of the two replicas if and only if the inventory advertises everything the caller lacks; then it succeeds and settles the ledger |
| Exchange.ExchangeExact | src/dag/sync.rs:423-432 | From any inventory an exchange with a replica never meets a cycle or a bad body; it succeeds if and only if the parents of what it downloads are stored or downloaded, and otherwise changes nothing |
| Exchange.FittingAdvertises | src/dag/reconciliation.rs:42-64 | A replica whose tip closures fit the walk bound advertises all it stores to every replica with the same genesis |
| Exchange.LongChainFails | src/dag/sync.rs:423-432 | A replica with one tip and more than bound + 2 vertices cannot be fetched by a node that holds only the genesis: a parent is missing and nothing is stored |
| Exchange.UnionFits | src/dag/reconciliation.rs:42-64 | The union of two replicas whose tip closures fit the walk bound fits it too |
| Exchange.ExchangeBothWays | src/dag/sync.rs:423-432 | Between replicas whose tip closures fit the walk bound an exchange in one direction and then in the other succeeds both times and leaves the same vertex set on both, the same bodies if they agreed on the shared ones |
| Overflows.OverflowLeaves | src/dag/engine.rs:731-750 | A rebuild that overflows leaves graph, faucet and conflicts as they were, and the ledger of what it had applied before the oversized vertex whose nonce was due |
| Kahn.KahnOrderExact | src/dag/sync.rs:392-419 | Of two vertices the batch order puts first the one whose last dependency comes earlier, and the smaller id if they are released together |
| Kahn.FirstOffered | src/dag/sync.rs:359-362 | Of several vertices offered under one id the first is taken |
| Reconciliation.InventoryExact | src/dag/reconciliation.rs:42-64 | Field by field: tips and recent hashes in increasing order, the tips exactly the node's, recent hashes stored and never genesis, all other tips among them, and all of the node but genesis once the tip closures fit the bound |
| Reconciliation.NeedAdvertised | src/dag/reconciliation.rs:85-127 | For any inventory whatever, need is what it advertises, the null hash aside, and the node does not store |
| Building.GrownShaped | src/dag/engine.rs:476-489 | In every reachable graph the attach order lists the stored vertices once each with parents first, children invert the parent relation, and the tips are exactly the childless vertices |
| Building.InsertShaped | src/dag/engine.rs:476-489 | Storing one admitted vertex keeps those graph laws |
| Building.InsertGrown | src/dag/engine.rs:648-690 | A graph stays what inserting its own vertices in attach order builds |
| Building.BuildGrown | src/dag/engine.rs:588-593 | An admitted list builds a graph that lists it back |
| Weights.WeightsExact | src/dag/engine.rs:530-560 | Cumulative weights count the vertices that have a vertex in their ancestor closure, itself included, if and only if no vertex has more strict ancestors than the walk bound |
| Weights.WeightFalls | src/dag/engine.rs:530-560 | Within the bound the weight strictly decreases from parent to child |
| Weights.Acyclic | src/dag/engine.rs:507-520 | No vertex is among its own strict ancestors |
| Weights.GenesisBelow | src/dag/engine.rs:507-520 | Every stored vertex has genesis as an ancestor |
| Weights.TipAbove | src/dag/engine.rs:522-528 | Every stored vertex is an ancestor of some tip |
| Ancestry.BumpedExact | src/dag/engine.rs:530-560 | The bounded walk visits min(bound, all) strict ancestors: all of them if and only if they fit the bound |
| Ancestry.ParentClosureExact | src/dag/engine.rs:563-585 | parent_closure reports min(bound + 1, all) vertices: the closure if and only if it has at most bound + 1 |
| Ancestry.WalkStable | src/dag/engine.rs:530-560 | New vertices do not change a walk that starts inside the old ones |
| Recovery.LiveCrash | src/persist.rs:127-253 | Whenever a live node crashes, its log cut at any byte, with no snapshot file yet or with one from any earlier point of its run, it boots into genesis plus exactly the vertices whose records are whole, up to the first that carries relay proofs, with the faucet of that point and the ledger and conflicts a rebuild gives that graph; the snapshot it loads shows supply, counts, balances, faucet and tips of that point |
| Recovery.CrashRecovery | src/persist.rs:127-253 | The same for any snapshot file, or none, whose faucet leaves room |
| Recovery.CleanRestart | src/persist.rs:127-153 | From an uncut log and any snapshot file, or none, the boot restores every vertex and the ledger a rebuild gives them under the snapshot's faucet, if and only if no logged vertex carries relay proofs; otherwise it is the restart of the vertices before the first that does |
| Recovery.DagStore.AppendVertex | src/persist.rs:155-168 | Genesis is not logged; any other vertex adds exactly its record to the log; at every eighth confirmed vertex the snapshot is refreshed, with the node's supply, counts, balances, faucet and tips, and otherwise untouched |
| Recovery.DagStore.Load | src/persist.rs:127-153 | Boot from the two files follows the boot function in every outcome: corrupt snapshot, refused vertex, overflow, or a node together with the decoded snapshot |
| Persistence.RestartRestores | src/persist.rs:127-153 | Crediting the faucet map and replaying the stored vertices in attach order rebuilds vertices, order, children, tips and weights of the live graph, and the ledger equals a rebuild of the live node |
| Persistence.RestartFromCut | src/persist.rs:127-153 | The same for a log that ends after any whole record: the graph is that of the first k vertices |
| Persistence.RestartOfLocalRun | src/persist.rs:127-153 | After a run of credits and attaches a restart finds no conflict, and restores the live ledger (genesis-key nonce aside), each if and only if no stored user vertex spends from the genesis key |
| Persistence.FaucetDecides | src/persist.rs:127-153 | A restart of such a node with any faucet restores its graph, and restores its ledger if and only if the faucet is the live one and no stored user vertex spends from the genesis key |
| Persistence.EarlierFaucet | src/persist.rs:155-168 | A node that can be restarted can be restarted with the faucet of any earlier point of its run, or with none |
| Persistence.LiveRestartable | src/persist.rs:127-153 | Every node an allowed run reaches meets the conditions of the restart theorems |
| Persistence.LoadStore | src/persist.rs:133-152 | The load loop, imperative on a fresh node: known ids skipped, unknown parents dropped, any other refusal returned, one rebuild at the end |
| Persistence.CreditsExact | src/persist.rs:133-138 | Crediting a faucet map to a fresh node hands out exactly that map and keeps the invariant |
| Persistence.RecordsRebuild | src/persist.rs:139-150 | Replaying admitted vertices in attach order is accepted record by record and builds the same graph |
| Persistence.ExecPositive | src/dag/engine.rs:221-229 | No step leaves a zero entry in the faucet map |
| Wal.TornLog | src/persist.rs:230-253 | Reading a log cut at any byte yields exactly the vertices whose records lie wholly inside the cut, up to the first that carries relay proofs |
| Wal.LogExact | src/persist.rs:230-253 | A whole log reads back in full if and only if no vertex in it carries relay proofs; otherwise it reads up to the first that does |
| Wal.TornRecord | src/persist.rs:186-212 | No proper prefix of a record reads as a record |
| Wal.ReadsRecord | src/persist.rs:175-212 | A checksummed record reads back to its body, whatever follows it |
| Wal.LogMore | src/persist.rs:230-234 | Appending a vertex appends its record to the log |
| Wal.ReadLog | src/persist.rs:236-253 | The offset loop over the log computes the vertices up to the first record that does not read |
| Wal.ReadRecordAt | src/persist.rs:186-212 | One checksummed read at an offset: error order, bounds and the offset after it |
| Wal.SnapshotInverts | src/persist.rs:214-228 | A snapshot file decodes to the snapshot that was written: supply, counts, accounts, faucet and tips |
| Wal.TakesSnapshot | src/persist.rs:312-346 | The snapshot body decodes to what was encoded, maps included |
| Wal.TakesAccounts | src/persist.rs:291-310 | An account table, written in key order, reads back as the map it came from |
| Wal.ReadRecordExact | src/persist.rs:186-212 | Bytes read as a body and a rest if and only if they are the record of that body and the rest: nothing without its digest is ever read |
| Wal.FrameExact | src/persist.rs:175-212 | A frame around any body with any 32 checksum bytes reads exactly if those are the body's digest; otherwise it is a checksum mismatch |
| Wal.RecordIs | src/persist.rs:175-184 | A record is magic, version 1, four little-endian length bytes, body and the 32 bytes of its digest |
| Wal.FileHeaders | src/persist.rs:21-23 | Log records start with KRDW and 1, snapshots with KRDS and 1 |
| Wal.AlteredLog | src/persist.rs:236-253 | A record whose body or checksum was altered ends the log: what stands before it is read, it and what follows are not |
| Recovery.AlteredRecord | src/persist.rs:127-153 | With such a record a node boots as if the log had ended before it |
| Recovery.AlteredSnapshot | src/persist.rs:127-153 | A snapshot whose body or checksum was altered is refused, and the boot with it, whatever the log says |
| Recovery.SnapshotExact | src/persist.rs:89-98 | The snapshot file of a node reads back with its supply, confirmed count, vertex count, balances, faucet and sorted tips; the three numbers stand behind its header in this order |
| Recovery.DecodedVertex | src/dag/tx.rs:217-250 | The vertex that a log record or wire body stands for, by byte positions: parents, sender, recipient, amount, fee, nonce; the id is the digest of the first 1,469 bytes, key and signature are checked against sender and those bytes |
| Recovery.CarriedProofs | src/dag/tx.rs:124-136 | A carrier's proof is valid if its key hashes to the node it names and verifies the carrier message of this vertex |
| Persistence.ReingestExact | src/persist.rs:139-150 | Any record, not only one this node wrote: a known id and an orphan change nothing, a sound vertex is stored, anything else stops the boot |
| Codec.DecodeInverts | src/dag/tx.rs:195-321 | A vertex decodes to itself if and only if it carries no relay proofs; with proofs the decoder refuses the very bytes the encoder wrote |
| Codec.ReadsToProofs | src/dag/tx.rs:217-275 | Everything before the proofs, the recomputed id included, reads back for any vertex |
| Codec.FirstProofGarbled | src/dag/tx.rs:276-300 | The length written in front of a proof's key is taken for the key's own header: its low byte 0x25 is no scheme, so the proof never parses |
| Codec.WriteCanonical | src/dag/tx.rs:195-215 | The encoder's appends produce the canonical bytes |
| Codec.ReadCanonical | src/dag/tx.rs:217-321 | The offset-driven decoder agrees with the parser on every byte string, errors included |
| Codec.ReadSigner | src/dag/tx.rs:240-255 | Key and length-prefixed signature: checks, errors and offsets in the source's order |
| Codec.TakesBlob | src/crypto/lattice.rs:205-235 | A versioned blob reads back to its payload |
| Bytes.LERead | src/persist.rs:255-279 | A k-byte little-endian field reads back every value below 256^k |
| Bytes.FromBEInjective | src/dag/tx.rs:18 | A 32-byte digest and its number determine each other |
| Spellings.DecodesExactly | src/dag/tx.rs:217-321 | Bytes decode to a vertex if and only if they are a spelling of it: everything is fixed but unread bytes inside signature fields, and keys, sizes and counts are checked |
| Spellings.ReencodesExactly | src/dag/tx.rs:195-321 | Bytes that decode are the encoding of what they decode to if and only if it carries no relay proofs and the signature's length field says 2,425 |
| Spellings.SpellingAt | src/dag/tx.rs:70-81 | Where payload, key and signature stand in every decodable text |
| Spellings.KeyScheme | src/crypto/lattice.rs:213-230 | A key under the retired scheme is refused as obsolete, one with any other wrong header as malformed |
| Miner.SelectParents | src/dag/engine.rs:268-292 | For every random choice the parents are stored; two distinct tips once there are two, where two walks ended or another tip if they met, otherwise the tip and genesis |
| Miner.WalkToTip | src/dag/engine.rs:294-318 | A walk starts at genesis, follows drawn children, and ends at the first vertex without one, or, after 256 steps, at any tip |
| Miner.PickWeightedChild | src/dag/engine.rs:321-342 | A child is drawn by a ticket below the saturated total, each by as many tickets as Miner.TicketsExact says, and none only when there is no child |
| Miner.TicketsExact | src/dag/engine.rs:326-340 | As many of the tickets draw a child as its stored weight says, one if it has none or zero, whatever the iteration order |
| Miner.DrawChild | src/dag/engine.rs:334-341 | The countdown loop finds the holder of the ticket |
| Miner.CountTickets | src/dag/engine.rs:326-329 | The saturating sum of the shares |
| Miner.ComposedIsNew | src/dag/engine.rs:366-377 | A composed vertex is never a duplicate: its first parent is childless |
| Miner.ComposedAttaches | src/dag/engine.rs:345-388 | Composing on any selected parents and attaching succeeds if and only if the balance covers amount plus fee, and changes nothing otherwise |
| Miner.MinerTick | src/kron/miner.rs:105-168 | A tick attaches exactly when the host is admitted and the prepared balance covers it; the share is one unit at the fixed fee and the next nonce on selected parents, and is applied as the next confirmed vertex; the credit is 1,001 less the balance while at most genesis was stored and nothing afterwards; the outcome record matches |
| Miner.ApproversDraw | src/dag/engine.rs:321-342 | While no closure exceeds the walk bound each child holds exactly as many tickets as vertices approve it, itself included, whatever the iteration order |
| Miner.PreparedExact | src/kron/miner.rs:105-121 | Before composing, a tick stores genesis on a new node and credits the difference to 1,001 units to balance and faucet while nothing but genesis is stored; nothing else changes |
| Bech32.DecodesExactly | src/kron/bech32.rs:185-229 | A text decodes to p if and only if, ignorable characters dropped and not in mixed case, its lower-case form is the encoding of p |
| Bech32.RoundTrip | src/kron/bech32.rs:171-229 | decode_kron(encode_kron(p)) is p for every 32-byte p |
| Bech32.UpperRoundTrip | src/kron/bech32.rs:185-201 | The upper-case print of an address parses to the same payload |
| Bech32.IgnorableDropped | src/kron/bech32.rs:70-91 | An ignorable character anywhere in a text makes no difference to its decoding |
| Bech32.EncodeInjective | src/kron/bech32.rs:171-182 | Two payloads never share an address |
| Bech32.OneCharError | src/kron/bech32.rs:185-229 | Replacing any one data or checksum character by another of the set is always a checksum error |
| Bech32.EncodeKron | src/kron/bech32.rs:171-182 | The encoder loop computes the encoding |
| Bech32.DecodeKron | src/kron/bech32.rs:185-229 | The decoder, all error exits in order, computes the decoding |
| Bech32.PayloadRegroups | src/kron/bech32.rs:138-164 | 32 bytes are 52 groups with zero padding, and those groups are those bytes |
| Bech32.GroupsRegroup | src/kron/bech32.rs:138-164 | Groups that decode to 32 bytes are the groups of those bytes |
| Regroup.ConvertBits | src/kron/bech32.rs:138-164 | The accumulator loop regroups the big-endian number it reads, pads or refuses left-over bits |
| Checksum.ChecksumUnique | src/kron/bech32.rs:119-135 | Six trailing symbols verify if and only if they are the checksum of what precedes them, for any prefix and data |
| Checksum.SingleErrorDetected | src/kron/bech32.rs:131-135 | Replacing one symbol of a verified word is always noticed |
| Checksum.StepInjective | src/kron/bech32.rs:93-105 | For each symbol a round is injective on 30-bit states |
| Checksum.StepLinear | src/kron/bech32.rs:93-105 | A round is linear while the difference has not reached the top five bits |
| Checksum.TailAdds | src/kron/bech32.rs:119-129 | Six symbols in place of zeros are added to the remainder as one packed word |
| Checksum.RunPolymod | src/kron/bech32.rs:93-105 | The polymod loop with its inner generator loop |
| Checksum.MakeChecksum | src/kron/bech32.rs:119-129 | The checksum loop |
| Checksum.ExpandHrp | src/kron/bech32.rs:107-117 | The expansion of the human-readable part |
| Bech32.AddressExact | src/kron/bech32.rs:171-182 | A text is the address of 32 bytes if and only if it is kron1 and one character per symbol, 52 symbols that spell the bytes' number followed by four zero bits and six with which the polynomial of prefix and data is 1 modulo the BIP-173 generator |
| Bech32.RefusedEarly | src/kron/bech32.rs:185-203 | When text is refused as empty, mixed-case, too long or without separator |
| Bech32.RefusedData | src/kron/bech32.rs:196-222 | Behind the last separator: wrong prefix, short data, strange character, or the verdict of checksum and groups, in this order |
| Bech32.RefusedGroups | src/kron/bech32.rs:222-229 | Five left-over bits or more, or a set one, are bad padding; otherwise any length but 32 bytes is refused |
| Generator.PolymodExact | src/kron/bech32.rs:93-105 | The polymod of any symbols is the remainder, and the only one, of the polynomial with leading coefficient 1 and those symbols modulo the generator of BIP-173 over GF(32) |
| Generator.ShortExact | src/kron/bech32.rs:93-105 | Of up to five symbols it is 1 followed by them, coefficient by coefficient |
| Generator.VerifiesExactly | src/kron/bech32.rs:131-135 | A word verifies if and only if its polynomial, expanded prefix included, is 1 modulo the generator |
| Generator.MixIsMultiple | src/kron/bech32.rs:7-10 | The constants that the bits of an element of GF(32) select add up to that element times the lower terms of the generator |
| Checksum.KronExpands | src/kron/bech32.rs:107-117 | The prefix kron expands to 3, 3, 3, 3, 0, 11, 18, 15, 14 |
| Engine.KronDag.AttachAndVerifyTx | src/dag/engine.rs:416-505 | The in-place attach takes the node's fields through exactly the attach function, partial state on a mint overflow included |
| Engine.KronDag.AcceptWireVertex | src/dag/engine.rs:631-644 | The in-place wire accept follows the accept function in every outcome |
| Engine.KronDag.CheckAdmission | src/dag/engine.rs:422-441 | The admission checks shared by attach and graph insert, error by error in order |
| Engine.KronDag.CheckParentsOf | src/dag/engine.rs:507-520 | Genesis only on an empty graph; otherwise the first parent that is null or unknown is named |
| Engine.KronDag.InsertGraphOnlyInPlace | src/dag/engine.rs:648-690 | The in-place graph insert follows the insert function and keeps the graph grown |
| Engine.KronDag.ResolveConflictsAndRebuildLedger | src/dag/engine.rs:695-760 | The in-place rebuild follows the rebuild function; an overflow leaves the ledger half rebuilt and the conflicts as they were |
| Engine.KronDag.ReplayOrder | src/dag/engine.rs:721-750 | The replay loop over the attach order |
| Engine.KronDag.ReplayVertex | src/dag/engine.rs:743-749 | One replayed vertex: applied, an extra loser, or an overflow |
| Engine.KronDag.RecordConflicts | src/dag/engine.rs:752-758 | Losers map to winners, extra losers that are not there yet to the null parent |
| Engine.KronDag.ApplyLedgerEffects | src/dag/engine.rs:762-793 | The in-place ledger effects of one vertex |
| Engine.KronDag.MoveFunds | src/dag/engine.rs:763-788 | Nonce, cost, balance and recipient checks in order, then the move |
| Engine.KronDag.MintConfirmedTx | src/dag/minting.rs:60-110 | The in-place mint, with the state each overflow exit leaves |
| Engine.KronDag.PayRelays | src/dag/minting.rs:92-99 | The payout loop |
| Engine.KronDag.PayRelay | src/dag/minting.rs:92-99 | One relay payout: balance, then accrued credit |
| Engine.KronDag.CreditChecked | src/dag/engine.rs:182-193 | A checked credit fails exactly on overflow and otherwise adds the amount; a zero credit creates no account |
| Engine.KronDag.CreditAccount | src/dag/engine.rs:221-229 | A faucet credit adds to balance and faucet, each capped at 64 bits; a zero credit changes nothing |
| Engine.KronDag.StoreVertex | src/dag/engine.rs:675-688 | The insertion block shared by attach and graph insert |
| Engine.KronDag.IncrementAncestorWeights | src/dag/engine.rs:530-560 | The bounded depth-first loop raises exactly the vertices of the walk by one |
| Engine.KronDag.NoteChildInPlace | src/dag/engine.rs:522-528 | A child note adds the child and retires the parent as a tip |
| Engine.KronDag.ParentClosure | src/dag/engine.rs:563-585 | The closure loop computes the bounded closure walk |
| Engine.KronDag.TransactionsForInOrder | src/dag/engine.rs:157-164 | The stored bodies asked for, in attach order |
| Engine.KronDag.New | src/dag/engine.rs:85-103 | A new node is empty in every field |
| Transactions.UniqueRelays | src/dag/minting.rs:112-120 | First occurrences in order, computed by the growing-vector loop |
| Transactions.ProvenRelays | src/dag/tx.rs:96-107 | No relay is paid unless all proofs verify; then each proven node once |

## Left out

- Sockets, Noise sessions, handshakes, threads, timeouts, discovery, gossip, routing, the explorer, wallets and the command line: plumbing around the modelled core.
- ML-DSA-44, SHA-256, BIP39, hardware attestation and host checks: verdicts or function parameters here; ids are assumed injective in the signed payload where that matters (`Miner.Digest`).
- Display strings of sender and recipient and the `kron1` comparison inside signature verification: part of the signature verdict.
- Bounded socket buffers: channels are unbounded FIFO queues, so a deadlock of two peers that both block on a full buffer is not modelled.
- Hub rate limits, session limits and the wallet-submit session: every body is ingested.
- `SyncRound.RoundExact`: assumes inventories of at most 4096 hashes and tip closures within the walk bound (without the latter see `SyncRound.RoundBeyond`); a peer that fails closes its connection, which the other notices as a read error, and that last step is not modelled.
- The mesh hello and the frame header (magic, version, length): `Wire` starts at the frame kind and payload.
- `Agreement.AgreementExact`: assumes that faucet and chained ancestors pay for every surviving spend (`Agreement.Funds`); a spend that lives on minted shares or on money from vertices it does not approve can fail for lack of balance in some orders (`Divergence.ReceiptOrderShows`), and no condition for those is stated.
- `Agreement.FirstEraExact`: the same assumption.
- `Agreement.DecidedBalances`: the same assumption.
- `Agreement.NothingDroppedExact`: the same assumption.
- `Agreement.DecidedDrops`: the same assumption.
- `Agreement.UndecidedSplits`: the same assumption.
- `Agreement.ReplayRule`: the same assumption.
- `Safety.NoncesExact`: excludes the genesis key, whose nonce depends on whether a rebuild has run.
- `Reconciliation.NeedExact`: states the difference for inventories within the closure bound; beyond it an inventory omits vertices and the difference is smaller.
- Ranks between rebuilds: a winner is the most approved rival right after a rebuild (`Replicas.MostApprovedWins`); later vertices can change ranks without a new verdict, so nothing is claimed then.
- The sidecar of carriers (`relay_of`) and the dead paths around it: they never touch ledger or graph.
- `apply_dag_minting_natively`, `apply_dag_minting_as_miner`, `attach_vertex_unminted` and direct writes to the public counters: they sidestep the state machine.
- Records appended behind a torn record: a reader stops at the tear, so they are lost; nothing is claimed about them.
- File renames and flushes of the snapshot writer: a snapshot is either the old or the new bytes.
- `Conflicts.HighestRanked`: finds the last element of the sorted group by a scan instead of sorting in place; only that element is used.
- `Bech32.DecodeKron`: text is a sequence of characters; UTF-8 only enters through byte lengths.
- Error texts, logging, the amount parser and the reputation tables: easy members without state.
