/** src/economics/mod.rs: the monetary policy in integer minor units, and the
    emission schedule it amounts to. */
module Economics {
  import opened Basics

  const HARD_CAP: nat := 24_000_000_000_000
  const FIXED_TRANSACTION_FEE: nat := 1_000
  const INITIAL_TX_SUBSIDY: nat := 100_000
  const TX_HALVING_INTERVAL: nat := 126_144_000
  const DAG_MINER_SHARE_PERCENT: nat := 80

  /** The confirmed-transaction count at which the supply reaches the cap. */
  const CAP_COUNT: nat := 560_256_000

  /** The largest total one vertex can pay its relays. */
  const MAX_RELAY_TOTAL: nat := 20_200

  /** `x >> k` on an unsigned integer. */
  function Shr(x: nat, k: nat): (r: nat)
    ensures r <= x
  {
    if k == 0 then x else Shr(x / 2, k - 1)
  }

  function GetCurrentTxSubsidy(globalTxCount: nat, currentSupply: nat): (s: nat)
    ensures currentSupply <= HARD_CAP ==> currentSupply + s <= HARD_CAP
    ensures s <= INITIAL_TX_SUBSIDY
  {
    var halvings := globalTxCount / TX_HALVING_INTERVAL;
    if halvings >= 64 || currentSupply >= HARD_CAP then 0
    else
      var subsidy := Shr(INITIAL_TX_SUBSIDY, halvings);
      var room := HARD_CAP - currentSupply;
      if subsidy > room then room else subsidy
  }

  /** 100,000 units, halved every 126,144,000 confirmed vertices, clipped at what is left of the
      cap of 24,000,000,000,000. */
  lemma SubsidyExact(n: nat, supply: nat)
    requires supply <= 24_000_000_000_000
    ensures var full, left := Shr(100_000, n / 126_144_000), 24_000_000_000_000 - supply;
      GetCurrentTxSubsidy(n, supply) == if full <= left then full else left
  {
    if n / 126_144_000 >= 64 { ShiftedOut(n / 126_144_000); }
  }

  lemma {:induction false} ShiftedOut(k: nat)
    requires k >= 17
    ensures Shr(100_000, k) == 0
  {
    ShrAdds(100_000, 5, k - 5);
    ShrAdds(3_125, 6, k - 11);
    ShrAdds(48, 6, k - 17);
    assert Shr(100_000, 5) == 3_125 && Shr(3_125, 6) == 48 && Shr(48, 6) == 0;
    ShrZero(k - 17);
  }

  lemma {:induction false} ShrAdds(x: nat, a: nat, b: nat)
    ensures Shr(x, a + b) == Shr(Shr(x, a), b)
    decreases a
  {
    if a > 0 { ShrAdds(x / 2, a - 1, b); }
  }

  lemma {:induction false} ShrZero(k: nat)
    ensures Shr(0, k) == 0
  {
    if k > 0 { ShrZero(k - 1); }
  }

  /** `pool.saturating_mul(80) / 100` */
  function DagMinerShareOf(pool: nat): nat {
    var product := pool * DAG_MINER_SHARE_PERCENT;
    (if product > U64_MAX then U64_MAX else product) / 100
  }

  /** Relay-phone remainder: `pool.saturating_sub(miner share)`. */
  function DagRelayTotalOf(pool: nat): nat {
    if DagMinerShareOf(pool) > pool then 0 else pool - DagMinerShareOf(pool)
  }

  /** The two shares of any pool a vertex can create add up to the pool; the miner's is 80
      percent rounded down. */
  lemma ShareSplit(pool: nat)
    requires pool <= INITIAL_TX_SUBSIDY + FIXED_TRANSACTION_FEE
    ensures DagMinerShareOf(pool) + DagRelayTotalOf(pool) == pool
    ensures 100 * DagMinerShareOf(pool) <= 80 * pool < 100 * DagMinerShareOf(pool) + 100
    ensures DagRelayTotalOf(pool) <= MAX_RELAY_TOTAL
  {}

  /** Supply after n mints, each minting what the policy allows at that point. */
  function Emitted(n: nat): (r: nat)
    ensures r <= HARD_CAP
  {
    if n == 0 then 0 else Emitted(n - 1) + GetCurrentTxSubsidy(n - 1, Emitted(n - 1))
  }

  /** The subsidy of the k-th confirmed transaction (counting from 0). */
  function SubsidyAt(k: nat): (r: nat)
    ensures r <= INITIAL_TX_SUBSIDY
  {
    GetCurrentTxSubsidy(k, Emitted(k))
  }

  /** The halving schedule without any cap: sum over i < n of the shifted subsidy. */
  function Schedule(n: nat): nat {
    if n == 0 then 0 else Schedule(n - 1) + Shr(INITIAL_TX_SUBSIDY, (n - 1) / TX_HALVING_INTERVAL)
  }

  /** Inside one era the schedule is a straight line. */
  lemma {:induction false} ScheduleEra(e: nat, r: nat)
    requires r <= TX_HALVING_INTERVAL
    ensures Schedule(e * TX_HALVING_INTERVAL + r)
         == Schedule(e * TX_HALVING_INTERVAL) + r * Shr(INITIAL_TX_SUBSIDY, e)
    decreases r
  {
    if r > 0 {
      ScheduleEra(e, r - 1);
      EraOf(e, r - 1);
      LineStep(r, Shr(INITIAL_TX_SUBSIDY, e));
    }
  }

  lemma EraOf(e: nat, r: nat)
    requires r < TX_HALVING_INTERVAL
    ensures (e * TX_HALVING_INTERVAL + r) / TX_HALVING_INTERVAL == e
  {}

  lemma LineStep(r: nat, s: nat)
    requires r > 0
    ensures r * s == (r - 1) * s + s
  {}

  lemma {:induction false} ScheduleMonotone(m: nat, n: nat)
    requires m <= n
    ensures Schedule(m) <= Schedule(n)
    decreases n
  {
    if m < n { ScheduleMonotone(m, n - 1); }
  }

  lemma ShiftedSubsidies()
    ensures Shr(INITIAL_TX_SUBSIDY, 0) == 100_000 && Shr(INITIAL_TX_SUBSIDY, 1) == 50_000
    ensures Shr(INITIAL_TX_SUBSIDY, 2) == 25_000 && Shr(INITIAL_TX_SUBSIDY, 3) == 12_500
    ensures Shr(INITIAL_TX_SUBSIDY, 4) == 6_250
  {}

  lemma EarlyShift(e: nat)
    requires e <= 4
    ensures Shr(INITIAL_TX_SUBSIDY, e) >= 6_250
  {
    ShiftedSubsidies();
    assert e == 0 || e == 1 || e == 2 || e == 3 || e == 4;
  }

  /** The uncapped schedule meets the cap exactly, 55,680,000 vertices into the fifth era. */
  lemma ScheduleMeetsCap(n: nat)
    requires n == CAP_COUNT
    ensures Schedule(n) == HARD_CAP
  {
    ShiftedSubsidies();
    var i := TX_HALVING_INTERVAL;
    ScheduleEra(0, i);
    ScheduleEra(1, i);
    ScheduleEra(2, i);
    ScheduleEra(3, i);
    ScheduleEra(4, n - 4 * i);
  }

  /** Before the cap every subsidy is the full shifted amount, and it is positive. */
  lemma SubsidyIsFull(n: nat)
    requires n < CAP_COUNT && Emitted(n) == Schedule(n)
    ensures SubsidyAt(n) == Shr(INITIAL_TX_SUBSIDY, n / TX_HALVING_INTERVAL) >= 6_250
    ensures Schedule(n) < HARD_CAP
  {
    EarlyShift(n / TX_HALVING_INTERVAL);
    ScheduleMonotone(n + 1, CAP_COUNT);
    ScheduleMeetsCap(CAP_COUNT);
  }

  /** The minted supply is the halving schedule clipped at the cap; it first equals the
      cap at CAP_COUNT; no subsidy is ever partial. */
  lemma {:induction false} EmissionSchedule(n: nat)
    ensures Emitted(n) == if Schedule(n) < HARD_CAP then Schedule(n) else HARD_CAP
    ensures Emitted(n) == HARD_CAP <==> n >= CAP_COUNT
    ensures SubsidyAt(n) == if n < CAP_COUNT then Shr(INITIAL_TX_SUBSIDY, n / TX_HALVING_INTERVAL) else 0
    ensures n <= CAP_COUNT ==> Emitted(n) == Schedule(n)
  {
    if n > 0 { EmissionSchedule(n - 1); }
    if n < CAP_COUNT {
      if n > 0 { SubsidyIsFull(n - 1); }
      SubsidyIsFull(n);
    } else {
      if n == CAP_COUNT { SubsidyIsFull(n - 1); }
      ScheduleMeetsCap(CAP_COUNT);
      ScheduleMonotone(CAP_COUNT, n);
    }
  }
}
