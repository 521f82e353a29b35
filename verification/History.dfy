/** What a ledger is made of.  A ledger reached from faucet `f` by applying the
    vertices `h` is explained, address by address, by `f` and `h` alone; and with room
    for the faucet plus the cap no step can overflow. */
module History {
  import opened Basics
  import opened Economics
  import opened Transactions
  import opened Ledgers

  /** What the first k relay parts pay to `a`. */
  ghost function RelayPaid(relays: seq<Address>, parts: seq<nat>, k: nat, a: Address): nat
    requires k <= |relays| == |parts|
  {
    if k == 0 then 0
    else RelayPaid(relays, parts, k - 1, a) + (if relays[k - 1] == a then parts[k - 1] else 0)
  }

  /** What all relay parts of a pool pay to `a`. */
  ghost function RelayShare(relays: seq<Address>, pool: nat, a: Address): nat {
    RelayPaid(relays, RelayParts(DagRelayTotalOf(pool), |relays|), |relays|, a)
  }

  ghost function Pool(tx: DagTransaction, k: nat): nat { SubsidyAt(k) + tx.fee }

  /** Relay credit `a` earns from `tx` when it is the k-th confirmed vertex. */
  ghost function RelayDelta(tx: DagTransaction, k: nat, a: Address): nat {
    RelayShare(tx.ProvenRelayNodes(), Pool(tx, k), a)
  }

  /** Net change of the balance of `a` when `tx` is the k-th confirmed vertex. */
  ghost function Delta(tx: DagTransaction, k: nat, a: Address): int {
    (if a == tx.sender then MinerPaid(Pool(tx, k), tx.ProvenRelayNodes()) - tx.Cost() else 0)
    + (if a == tx.recipient then tx.amount as int else 0)
    + RelayDelta(tx, k, a)
  }

  ghost function Net(h: seq<DagTransaction>, a: Address): int {
    if h == [] then 0 else Net(h[..|h| - 1], a) + Delta(h[|h| - 1], |h| - 1, a)
  }

  ghost function CreditNet(h: seq<DagTransaction>, a: Address): nat {
    if h == [] then 0 else CreditNet(h[..|h| - 1], a) + RelayDelta(h[|h| - 1], |h| - 1, a)
  }

  /** How many vertices of `h` spend from `s`. */
  ghost function Count(h: seq<DagTransaction>, s: Address): nat {
    if h == [] then 0 else Count(h[..|h| - 1], s) + if h[|h| - 1].sender == s then 1 else 0
  }

  /** `l` is what faucet `f` and the applied vertices `h` make it; nonces start at `base`. */
  ghost predicate Explained(l: Ledger, f: map<Address, nat>, h: seq<DagTransaction>, base: map<Address, nat>) {
    && l.txCount == |h| && l.supply == Emitted(|h|)
    && (forall a :: At(l.balances, a) == At(f, a) + Net(h, a))
    && (forall a :: At(l.credits, a) == CreditNet(h, a))
    && (forall s :: At(l.nonces, s) == At(base, s) + Count(h, s))
  }

  /** Each vertex of `h` carries the nonce its sender had reached. */
  ghost predicate InNonceOrder(h: seq<DagTransaction>, base: map<Address, nat>) {
    forall i :: 0 <= i < |h| ==> h[i].nonce == At(base, h[i].sender) + Count(h[..i], h[i].sender)
  }

  // ------------------------------------------------- one step, one address

  lemma {:induction false} CreditRelaysAt(l: Ledger, relays: seq<Address>, parts: seq<nat>, k: nat, a: Address)
    requires k <= |relays| == |parts| && CreditRelays(l, relays, parts, k).1
    ensures var m := CreditRelays(l, relays, parts, k).0;
      && At(m.balances, a) == At(l.balances, a) + RelayPaid(relays, parts, k, a)
      && At(m.credits, a) == At(l.credits, a) + RelayPaid(relays, parts, k, a)
      && m.nonces == l.nonces && m.supply == l.supply && m.txCount == l.txCount
  {
    if k > 0 { CreditRelaysAt(l, relays, parts, k - 1, a); }
  }

  lemma PaidOutAt(l: Ledger, pool: nat, miner: Address, relays: seq<Address>, a: Address)
    requires PaidOut(l, pool, miner, relays).1
    ensures var m := PaidOut(l, pool, miner, relays).0;
      var paid := RelayShare(relays, pool, a);
      && At(m.balances, a) == At(l.balances, a) + (if a == miner then MinerPaid(pool, relays) else 0) + paid
      && At(m.credits, a) == At(l.credits, a) + paid
      && m.nonces == l.nonces && m.txCount == l.txCount && m.supply == l.supply
  {
    var parts := RelayParts(DagRelayTotalOf(pool), |relays|);
    CreditRelaysAt(l.(balances := Credit(l.balances, miner, MinerPaid(pool, relays))), relays, parts, |relays|, a);
  }

  lemma MintAt(l: Ledger, fee: nat, miner: Address, relays: seq<Address>, subsidy: nat, a: Address)
    requires NoDup(relays) && Mint(l, fee, miner, relays).1
    requires subsidy == GetCurrentTxSubsidy(l.txCount, l.supply)
    ensures var m := Mint(l, fee, miner, relays).0;
      var paid := RelayShare(relays, subsidy + fee, a);
      && At(m.balances, a) == At(l.balances, a) + (if a == miner then MinerPaid(subsidy + fee, relays) else 0) + paid
      && At(m.credits, a) == At(l.credits, a) + paid
      && m.nonces == l.nonces && m.txCount == l.txCount + 1 && m.supply == l.supply + subsidy
  {
    UniqueIdentity(relays);
    PaidOutAt(l, subsidy + fee, miner, relays, a);
  }

  lemma TransferAt(l: Ledger, tx: DagTransaction, a: Address)
    requires Transfer(l, tx).1 == Ok
    ensures var m := Transfer(l, tx).0;
      && At(m.balances, a) == At(l.balances, a) - (if a == tx.sender then tx.Cost() else 0)
                              + (if a == tx.recipient then tx.amount as int else 0)
      && At(m.nonces, a) == (if a == tx.sender then SatAdd(At(l.nonces, a), 1) else At(l.nonces, a))
      && m.credits == l.credits && m.supply == l.supply && m.txCount == l.txCount
  {}

  lemma ApplyWithAt(l: Ledger, tx: DagTransaction, relays: seq<Address>, subsidy: nat, a: Address)
    requires NoDup(relays) && subsidy == GetCurrentTxSubsidy(l.txCount, l.supply) && ApplyWith(l, tx, relays).1 == Ok
    ensures var m := ApplyWith(l, tx, relays).0;
      var paid := RelayShare(relays, subsidy + tx.fee, a);
      && At(m.balances, a) == At(l.balances, a) + (if a == tx.recipient then tx.amount as int else 0) + paid
                              + (if a == tx.sender then MinerPaid(subsidy + tx.fee, relays) - tx.Cost() else 0)
      && At(m.credits, a) == At(l.credits, a) + paid
      && At(m.nonces, a) == (if a == tx.sender then SatAdd(At(l.nonces, a), 1) else At(l.nonces, a))
      && m.txCount == l.txCount + 1 && m.supply == l.supply + subsidy
  {
    TransferAt(l, tx, a);
    MintAt(Transfer(l, tx).0, tx.fee, tx.sender, relays, subsidy, a);
  }

  /** An applied vertex moves `a` by Delta and nothing else. */
  lemma ApplyAt(l: Ledger, tx: DagTransaction, a: Address)
    requires l.supply == Emitted(l.txCount) && ApplyEffects(l, tx).1 == Ok
    ensures var m := ApplyEffects(l, tx).0;
      && At(m.balances, a) == At(l.balances, a) + Delta(tx, l.txCount, a)
      && At(m.credits, a) == At(l.credits, a) + RelayDelta(tx, l.txCount, a)
      && At(m.nonces, a) == (if a == tx.sender then SatAdd(At(l.nonces, a), 1) else At(l.nonces, a))
      && m.txCount == l.txCount + 1 && m.supply == Emitted(m.txCount)
  {
    hide ApplyWith, RelayShare, MinerPaid, GetCurrentTxSubsidy;
    ApplyWithAt(l, tx, tx.ProvenRelayNodes(), SubsidyAt(l.txCount), a);
  }

  lemma ApplyNonce(l: Ledger, tx: DagTransaction)
    requires ApplyEffects(l, tx).1 == Ok
    ensures tx.nonce == At(l.nonces, tx.sender)
  {}

  lemma {:induction false} CountBounded(h: seq<DagTransaction>, s: Address)
    ensures Count(h, s) <= |h|
  {
    if h != [] { CountBounded(h[..|h| - 1], s); }
  }

  /** Applying one more vertex extends the explanation by that vertex. */
  lemma ExplainedStep(l: Ledger, f: map<Address, nat>, h: seq<DagTransaction>, base: map<Address, nat>,
                      tx: DagTransaction)
    requires Explained(l, f, h, base) && InNonceOrder(h, base)
    requires At(base, tx.sender) + |h| < U64_MAX && ApplyEffects(l, tx).1 == Ok
    ensures Explained(ApplyEffects(l, tx).0, f, h + [tx], base) && InNonceOrder(h + [tx], base)
  {
    hide ApplyEffects, Delta, RelayDelta, InNonceOrder, Net, CreditNet, Count;
    var m, h' := ApplyEffects(l, tx).0, h + [tx];
    forall a
      ensures At(m.balances, a) == At(f, a) + Net(h', a) && At(m.credits, a) == CreditNet(h', a)
      ensures At(m.nonces, a) == At(base, a) + Count(h', a)
    {
      ExplainedStepAt(l, f, h, base, tx, a);
    }
    ApplyAt(l, tx, 0);
    ApplyNonce(l, tx);
    NonceOrderStep(h, base, tx);
  }

  ghost predicate ExplainedAt(l: Ledger, f: map<Address, nat>, h: seq<DagTransaction>,
                              base: map<Address, nat>, a: Address) {
    && At(l.balances, a) == At(f, a) + Net(h, a)
    && At(l.credits, a) == CreditNet(h, a)
    && At(l.nonces, a) == At(base, a) + Count(h, a)
  }

  lemma ExplainedStepAt(l: Ledger, f: map<Address, nat>, h: seq<DagTransaction>, base: map<Address, nat>,
                        tx: DagTransaction, a: Address)
    requires l.txCount == |h| && l.supply == Emitted(|h|) && ExplainedAt(l, f, h, base, a)
    requires At(base, tx.sender) + |h| < U64_MAX && ApplyEffects(l, tx).1 == Ok
    ensures ExplainedAt(ApplyEffects(l, tx).0, f, h + [tx], base, a)
  {
    hide ApplyEffects, Delta, RelayDelta, Emitted;
    assert (h + [tx])[..|h|] == h;
    ApplyAt(l, tx, a);
    CountBounded(h, a);
  }

  lemma NonceOrderStep(h: seq<DagTransaction>, base: map<Address, nat>, tx: DagTransaction)
    requires InNonceOrder(h, base) && tx.nonce == At(base, tx.sender) + Count(h, tx.sender)
    ensures InNonceOrder(h + [tx], base)
  {
    var h' := h + [tx];
    forall i | 0 <= i < |h'|
      ensures h'[i].nonce == At(base, h'[i].sender) + Count(h'[..i], h'[i].sender)
    {
      assert h'[..i] == if i < |h| then h[..i] else h;
    }
  }

  // ------------------------------------------------------------ no overflow

  /** Balances hold the faucet plus the supply; relay credits grow at most linearly. */
  ghost predicate Sound(l: Ledger, f: map<Address, nat>) {
    && Sum(l.balances) == Sum(f) + l.supply
    && l.supply == Emitted(l.txCount)
    && forall a :: At(l.credits, a) <= MAX_RELAY_TOTAL * l.txCount
  }

  /** Room for the faucet, the cap and n vertices' worth of relay credits. */
  ghost predicate Room(f: map<Address, nat>, n: nat) {
    Sum(f) + HARD_CAP <= U64_MAX && MAX_RELAY_TOTAL * n <= U64_MAX
  }

  lemma {:induction false} PartSumBelow(parts: seq<nat>, k: nat, n: nat)
    requires k <= n <= |parts|
    ensures PartSum(parts, k) <= PartSum(parts, n)
    decreases n
  {
    if k < n { PartSumBelow(parts, k, n - 1); }
  }

  lemma {:induction false} RelayPaidBelow(relays: seq<Address>, parts: seq<nat>, k: nat, a: Address)
    requires k <= |relays| == |parts|
    ensures RelayPaid(relays, parts, k, a) <= PartSum(parts, k)
  {
    if k > 0 { RelayPaidBelow(relays, parts, k - 1, a); }
  }

  lemma {:induction false} CreditRelaysFit(l: Ledger, relays: seq<Address>, parts: seq<nat>, k: nat)
    requires k <= |relays| == |parts| && Sum(l.balances) + PartSum(parts, |parts|) <= U64_MAX
    requires forall a :: At(l.credits, a) + PartSum(parts, |parts|) <= U64_MAX
    ensures CreditRelays(l, relays, parts, k).1
  {
    if k > 0 {
      CreditRelaysFit(l, relays, parts, k - 1);
      var a, m := relays[k - 1], CreditRelays(l, relays, parts, k - 1).0;
      CreditRelaysSum(l, relays, parts, k - 1);
      SumAtLeast(m.balances, a);
      CreditRelaysAt(l, relays, parts, k - 1, a);
      RelayPaidBelow(relays, parts, k - 1, a);
      PartSumBelow(parts, k, |parts|);
    }
  }

  lemma PaidOutFits(l: Ledger, pool: nat, miner: Address, relays: seq<Address>)
    requires pool <= INITIAL_TX_SUBSIDY + FIXED_TRANSACTION_FEE && Sum(l.balances) + pool <= U64_MAX
    requires forall a :: At(l.credits, a) + MAX_RELAY_TOTAL <= U64_MAX
    ensures At(l.balances, miner) + MinerPaid(pool, relays) <= U64_MAX && PaidOut(l, pool, miner, relays).1
  {
    var minerPaid, parts := MinerPaid(pool, relays), RelayParts(DagRelayTotalOf(pool), |relays|);
    PartsCoverPool(pool, relays);
    PartsAtMost(pool, relays);
    SumAtLeast(l.balances, miner);
    SumUpdate(l.balances, miner, At(l.balances, miner) + minerPaid);
    var paid := l.(balances := Credit(l.balances, miner, minerPaid));
    CreditRelaysFit(paid, relays, parts, |relays|);
  }

  lemma PartsAtMost(pool: nat, relays: seq<Address>)
    requires pool <= INITIAL_TX_SUBSIDY + FIXED_TRANSACTION_FEE
    ensures PartSum(RelayParts(DagRelayTotalOf(pool), |relays|), |relays|) <= MAX_RELAY_TOTAL
  {
    ShareSplit(pool);
    if relays != [] { PartsAddUp(DagRelayTotalOf(pool), |relays|); }
  }

  lemma MintFits(l: Ledger, fee: nat, miner: Address, nodes: seq<Address>)
    requires fee == FIXED_TRANSACTION_FEE && l.supply <= HARD_CAP && l.txCount < U64_MAX
    requires Sum(l.balances) + GetCurrentTxSubsidy(l.txCount, l.supply) + fee <= U64_MAX
    requires forall a :: At(l.credits, a) + MAX_RELAY_TOTAL <= U64_MAX
    ensures Mint(l, fee, miner, nodes).1
  {
    var pool := GetCurrentTxSubsidy(l.txCount, l.supply) + fee;
    PaidOutFits(l, pool, miner, Unique(nodes));
    PaidOutAt(l, pool, miner, Unique(nodes), 0);
  }

  /** With room, a vertex whose cost fits in 64 bits is applied or cleanly refused. */
  lemma NeverOverflows(l: Ledger, f: map<Address, nat>, tx: DagTransaction)
    requires Sound(l, f) && Room(f, l.txCount + 1)
    requires tx.fee == FIXED_TRANSACTION_FEE && tx.Cost() <= U64_MAX
    ensures ApplyEffects(l, tx).1 != Err(Overflow)
  {
    if tx.sender != tx.recipient { SumAtLeastTwo(l.balances, tx.sender, tx.recipient); }
    if Transfer(l, tx).1 == Ok {
      TransferSum(l, tx);
      forall a ensures At(l.credits, a) + MAX_RELAY_TOTAL <= U64_MAX {}
      MintFits(Transfer(l, tx).0, tx.fee, tx.sender, tx.ProvenRelayNodes());
    }
  }

  lemma RelayDeltaBelow(tx: DagTransaction, k: nat, a: Address)
    requires tx.fee == FIXED_TRANSACTION_FEE
    ensures RelayDelta(tx, k, a) <= MAX_RELAY_TOTAL
  {
    var relays := tx.ProvenRelayNodes();
    PartsAtMost(Pool(tx, k), relays);
    RelayPaidBelow(relays, RelayParts(DagRelayTotalOf(Pool(tx, k)), |relays|), |relays|, a);
  }

  lemma SoundStep(l: Ledger, f: map<Address, nat>, tx: DagTransaction)
    requires Sound(l, f) && tx.fee == FIXED_TRANSACTION_FEE && ApplyEffects(l, tx).1 == Ok
    ensures Sound(ApplyEffects(l, tx).0, f)
  {
    hide ApplyEffects, RelayDelta, GetCurrentTxSubsidy;
    ApplyConserves(l, tx);
    ApplyAt(l, tx, 0);
    forall a ensures At(ApplyEffects(l, tx).0.credits, a) <= MAX_RELAY_TOTAL * (l.txCount + 1) {
      ApplyAt(l, tx, a);
      RelayDeltaBelow(tx, l.txCount, a);
    }
  }
}
