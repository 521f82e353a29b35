/** The account ledger: `apply_ledger_effects` (src/dag/engine.rs) and
    `mint_confirmed_tx` (src/dag/minting.rs) as functions of the ledger value,
    including the half-written ledgers their Overflow exits leave behind. */
module Ledgers {
  import opened Basics
  import opened Economics
  import opened Transactions

  datatype Ledger = Ledger(
    balances: map<Address, nat>,
    nonces: map<Address, nat>,
    credits: map<Address, nat>,
    supply: nat,
    txCount: nat)

  /** Nonce check, then cost, balance and recipient-overflow checks, then the move. */
  function Transfer(l: Ledger, tx: DagTransaction): (Ledger, Outcome) {
    var expected := At(l.nonces, tx.sender);
    var from := At(l.balances, tx.sender);
    if tx.nonce != expected then (l, Err(DoubleSpend(tx.nonce)))
    else if tx.Cost() > U64_MAX then (l, Err(Overflow))
    else if from < tx.Cost() then (l, Err(InsufficientBalance))
    else if tx.sender == tx.recipient then
      (l.(balances := l.balances[tx.sender := from - tx.fee],
          nonces := l.nonces[tx.sender := SatAdd(expected, 1)]), Ok)
    else if At(l.balances, tx.recipient) + tx.amount > U64_MAX then (l, Err(Overflow))
    else
      (l.(balances := l.balances[tx.sender := from - tx.Cost()]
                                [tx.recipient := At(l.balances, tx.recipient) + tx.amount],
          nonces := l.nonces[tx.sender := SatAdd(expected, 1)]), Ok)
  }

  /** `credit_checked`: a zero credit creates no account. */
  function Credit(m: map<Address, nat>, a: Address, amount: nat): map<Address, nat> {
    if amount == 0 then m else m[a := At(m, a) + amount]
  }

  /** Equal parts of `total` for n relays; the first also takes the dust. */
  function RelayParts(total: nat, n: nat): (r: seq<nat>)
    ensures |r| == n
  {
    seq(n, i requires 0 <= i < n => total / n + if i == 0 then total % n else 0)
  }

  function CreditRelay(l: Ledger, a: Address, amount: nat): (Ledger, bool) {
    if amount > 0 && At(l.balances,
                        a) + amount > U64_MAX then (l.(balances := l.balances[a := At(l.balances, a)]), false)
    else
      var paid := l.(balances := Credit(l.balances, a, amount));
      if At(l.credits, a) + amount > U64_MAX then (paid.(credits := l.credits[a := At(l.credits, a)]), false)
      else (paid.(credits := l.credits[a := At(l.credits, a) + amount]), true)
  }

  /** The payout loop after its first k relays. */
  function CreditRelays(l: Ledger, relays: seq<Address>, parts: seq<nat>, k: nat): (Ledger, bool)
    requires k <= |relays| == |parts|
  {
    if k == 0 then (l, true)
    else
      var (m, ok) := CreditRelays(l, relays, parts, k - 1);
      if !ok then (m, false) else CreditRelay(m, relays[k - 1], parts[k - 1])
  }

  function MinerPaid(pool: nat, relays: seq<Address>): nat {
    if relays == [] then SatAdd(DagMinerShareOf(pool), DagRelayTotalOf(pool)) else DagMinerShareOf(pool)
  }

  /** The ledger once the miner and then every relay has been paid from `pool`. */
  function PaidOut(l: Ledger, pool: nat, miner: Address, relays: seq<Address>): (Ledger, bool) {
    CreditRelays(l.(balances := Credit(l.balances, miner, MinerPaid(pool, relays))),
                 relays, RelayParts(DagRelayTotalOf(pool), |relays|), |relays|)
  }

  function Mint(l: Ledger, fee: nat, miner: Address, nodes: seq<Address>): (Ledger, bool) {
    var subsidy := GetCurrentTxSubsidy(l.txCount, l.supply);
    var pool := subsidy + fee;
    var relays := Unique(nodes);
    var minerPaid := MinerPaid(pool, relays);
    if pool > U64_MAX then (l, false)
    else if minerPaid > 0 && At(l.balances, miner) + minerPaid > U64_MAX then
      (l.(balances := l.balances[miner := At(l.balances, miner)]), false)
    else
      var (m, ok) := PaidOut(l, pool, miner, relays);
      if !ok then (m, false)
      else if m.supply + subsidy > U64_MAX then (m, false)
      else if m.txCount + 1 > U64_MAX then (m.(supply := m.supply + subsidy), false)
      else (m.(supply := m.supply + subsidy, txCount := m.txCount + 1), true)
  }

  function ApplyWith(l: Ledger, tx: DagTransaction, relays: seq<Address>): (Ledger, Outcome) {
    var (moved, outcome) := Transfer(l, tx);
    if outcome != Ok then (l, outcome)
    else
      var (minted, ok) := Mint(moved, tx.fee, tx.sender, relays);
      if ok then (minted, Ok) else (minted, Err(Overflow))
  }

  function ApplyEffects(l: Ledger, tx: DagTransaction): (Ledger, Outcome) {
    ApplyWith(l, tx, tx.ProvenRelayNodes())
  }

  // ------------------------------------------------------------ conservation

  function PartSum(parts: seq<nat>, k: nat): nat
    requires k <= |parts|
  {
    if k == 0 then 0 else PartSum(parts, k - 1) + parts[k - 1]
  }

  lemma {:induction false} PartSumClosed(total: nat, n: nat, k: nat)
    requires k <= n
    ensures PartSum(RelayParts(total, n), k) == if k == 0 then 0 else k * (total / n) + total % n
  {
    if k > 0 { PartSumClosed(total, n, k - 1); }
  }

  /** The relay split burns nothing: the parts add up to the relay total.  They are equal but
      for the first, which also takes the dust, less than one unit per relay. */
  lemma PartsAddUp(total: nat, n: nat)
    requires n > 0
    ensures PartSum(RelayParts(total, n), n) == total
    ensures forall i :: 0 < i < n ==> RelayParts(total, n)[i] == RelayParts(total, n)[n - 1] <= RelayParts(total, n)[0]
    ensures RelayParts(total, n)[0] < RelayParts(total, n)[n - 1] + n
  {
    PartSumClosed(total, n, n);
    DustBelow(total, n);
  }

  lemma DustBelow(total: nat, n: nat)
    requires n > 0
    ensures 0 <= total % n < n && (n == 1 ==> total % n == 0)
  {}

  lemma {:induction false} CreditRelaysSum(l: Ledger, relays: seq<Address>, parts: seq<nat>, k: nat)
    requires k <= |relays| == |parts| && CreditRelays(l, relays, parts, k).1
    ensures var m := CreditRelays(l, relays, parts, k).0;
      && Sum(m.balances) == Sum(l.balances) + PartSum(parts, k)
      && m.supply == l.supply && m.txCount == l.txCount && m.nonces == l.nonces
  {
    if k > 0 {
      hide CreditRelay;
      CreditRelaysSum(l, relays, parts, k - 1);
      CreditRelaySum(CreditRelays(l, relays, parts, k - 1).0, relays[k - 1], parts[k - 1]);
    }
  }

  lemma CreditRelaySum(l: Ledger, a: Address, amount: nat)
    requires CreditRelay(l, a, amount).1
    ensures var m := CreditRelay(l, a, amount).0;
      && Sum(m.balances) == Sum(l.balances) + amount
      && m.supply == l.supply && m.txCount == l.txCount && m.nonces == l.nonces
  {
    SumUpdate(l.balances, a, At(l.balances, a) + amount);
  }

  /** Miner share plus relay parts: the whole pool reaches balances. */
  lemma PoolIsPaidOut(l: Ledger, pool: nat, miner: Address, relays: seq<Address>)
    requires pool <= INITIAL_TX_SUBSIDY + FIXED_TRANSACTION_FEE && PaidOut(l, pool, miner, relays).1
    ensures var m := PaidOut(l, pool, miner, relays).0;
      && Sum(m.balances) == Sum(l.balances) + pool
      && m.supply == l.supply && m.txCount == l.txCount && m.nonces == l.nonces
  {
    var minerPaid, parts := MinerPaid(pool, relays), RelayParts(DagRelayTotalOf(pool), |relays|);
    var paid := l.(balances := Credit(l.balances, miner, minerPaid));
    SumUpdate(l.balances, miner, At(l.balances, miner) + minerPaid);
    CreditRelaysSum(paid, relays, parts, |relays|);
    PartsCoverPool(pool, relays);
  }

  lemma PartsCoverPool(pool: nat, relays: seq<Address>)
    requires pool <= INITIAL_TX_SUBSIDY + FIXED_TRANSACTION_FEE
    ensures MinerPaid(pool, relays) + PartSum(RelayParts(DagRelayTotalOf(pool), |relays|), |relays|) == pool
  {
    ShareSplit(pool);
    if relays != [] { PartsAddUp(DagRelayTotalOf(pool), |relays|); }
  }

  /** A mint puts exactly subsidy + fee into circulation, for any relay list. */
  lemma MintSum(l: Ledger, fee: nat, miner: Address, nodes: seq<Address>)
    requires fee <= FIXED_TRANSACTION_FEE && Mint(l, fee, miner, nodes).1
    ensures var m := Mint(l, fee, miner, nodes).0;
      var subsidy := GetCurrentTxSubsidy(l.txCount, l.supply);
      && Sum(m.balances) == Sum(l.balances) + subsidy + fee
      && m.supply == l.supply + subsidy && m.txCount == l.txCount + 1 && m.nonces == l.nonces
  {
    PoolIsPaidOut(l, GetCurrentTxSubsidy(l.txCount, l.supply) + fee, miner, Unique(nodes));
  }

  /** A transfer only removes the fee, also when sender and recipient coincide. */
  lemma TransferSum(l: Ledger, tx: DagTransaction)
    requires Transfer(l, tx).1 == Ok
    ensures Sum(Transfer(l, tx).0.balances) == Sum(l.balances) - tx.fee
  {
    var from := At(l.balances, tx.sender);
    if tx.sender == tx.recipient {
      SumUpdate(l.balances, tx.sender, from - tx.fee);
    } else {
      SumUpdate(l.balances, tx.sender, from - tx.Cost());
      SumUpdate(l.balances[tx.sender := from - tx.Cost()], tx.recipient,
                At(l.balances, tx.recipient) + tx.amount);
    }
  }

  /** Applying a vertex changes the sum of balances by what it changes the supply. */
  lemma ApplyConserves(l: Ledger, tx: DagTransaction)
    requires tx.fee <= FIXED_TRANSACTION_FEE && ApplyEffects(l, tx).1 == Ok
    ensures var m := ApplyEffects(l, tx).0;
      && Sum(m.balances) - m.supply == Sum(l.balances) - l.supply
      && m.supply == l.supply + GetCurrentTxSubsidy(l.txCount, l.supply)
      && m.txCount == l.txCount + 1
  {
    TransferSum(l, tx);
    MintSum(Transfer(l, tx).0, tx.fee, tx.sender, tx.ProvenRelayNodes());
  }
}
