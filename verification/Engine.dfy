/** src/dag/engine.rs as an object: fields updated in place, proved to follow the value
    functions of Graphs, Ledgers and Dags step for step. */
module Engine {
  import opened Basics
  import opened Economics
  import opened Transactions
  import opened Ledgers
  import opened Graphs
  import opened Building
  import opened Ancestry
  import opened Dags
  import Conflicts

  class KronDag {
    var vertices: map<TxHash, DagTransaction>
    var children: map<TxHash, set<TxHash>>
    var tips: set<TxHash>
    var weights: map<TxHash, nat>
    var balances: map<Address, nat>
    var nextNonce: map<Address, nat>
    var genesisId: Option<TxHash>
    var relayCredits: map<Address, nat>
    var currentSupply: nat
    var dagTxCount: nat
    var attachOrder: seq<TxHash>
    var faucet: map<Address, nat>
    var conflicts: map<TxHash, TxHash>

    function GenesisId(): TxHash
      reads `genesisId
    {
      if genesisId.Some? then genesisId.value else NULL_PARENT
    }

    ghost function GraphView(): Graph
      reads this
    {
      Graph(vertices, children, tips, weights, attachOrder, GenesisId())
    }

    ghost function LedgerView(): Ledger
      reads `balances, `nextNonce, `relayCredits, `currentSupply, `dagTxCount
    {
      Ledger(balances, nextNonce, relayCredits, currentSupply, dagTxCount)
    }

    ghost function View(): Dag
      reads this
    {
      Dag(GraphView(), LedgerView(), faucet, conflicts)
    }

    /** Empty, or grown by admitted inserts. */
    ghost predicate Valid()
      reads this
    {
      GraphView() == EMPTY || Grown(GraphView())
    }

    constructor New()
      ensures View() == NEW && Valid()
    {
      vertices, children, tips, weights := map[], map[], {}, map[];
      balances, nextNonce, relayCredits := map[], map[], map[];
      genesisId, currentSupply, dagTxCount, attachOrder := None, 0, 0, [];
      faucet, conflicts := map[], map[];
    }

    // ---------------------------------------------------------------- ledger

    method CreditAccount(a: Address, amount: nat)
      modifies `balances, `faucet
      ensures View() == Dags.CreditAccount(old(View()), a, amount)
      ensures amount == 0 ==> View() == old(View())
      ensures amount > 0 ==> At(balances, a) == Lesser(At(old(balances), a) + amount, U64_MAX)
      ensures amount > 0 ==> At(faucet, a) == Lesser(At(old(faucet), a) + amount, U64_MAX)
    {
      if amount == 0 {
        return;
      }
      balances := balances[a := SatAdd(At(balances, a), amount)];
      faucet := faucet[a := SatAdd(At(faucet, a), amount)];
    }

    method CreditChecked(a: Address, amount: nat) returns (ok: bool)
      modifies `balances
      ensures ok <==> (amount == 0 || At(old(balances), a) + amount <= U64_MAX)
      ensures balances == if ok then Credit(old(balances), a, amount) else old(balances)[a := At(old(balances), a)]
      ensures amount == 0 ==> balances == old(balances)
      ensures ok && amount > 0 ==> balances == old(balances)[a := At(old(balances), a) + amount]
    {
      if amount == 0 {
        return true;
      }
      balances := balances[a := At(balances, a)];
      ok := balances[a] + amount <= U64_MAX;
      if ok {
        balances := balances[a := balances[a] + amount];
      }
    }

    /** One relay's payout: balance, then the accrued relay credit. */
    method PayRelay(a: Address, amount: nat) returns (ok: bool)
      modifies `balances, `relayCredits
      ensures (LedgerView(), ok) == CreditRelay(old(LedgerView()), a, amount)
    {
      ok := CreditChecked(a, amount);
      if ok {
        relayCredits := relayCredits[a := At(relayCredits, a)];
        ok := relayCredits[a] + amount <= U64_MAX;
        if ok {
          relayCredits := relayCredits[a := relayCredits[a] + amount];
          assert relayCredits == old(relayCredits)[a := At(old(relayCredits), a) + amount];
        }
      }
    }

    method PayRelays(relays: seq<Address>, parts: seq<nat>) returns (ok: bool)
      requires |relays| == |parts|
      modifies `balances, `relayCredits
      ensures (LedgerView(), ok) == CreditRelays(old(LedgerView()), relays, parts, |relays|)
    {
      for i := 0 to |relays|
        invariant (LedgerView(), true) == CreditRelays(old(LedgerView()), relays, parts, i)
        invariant nextNonce == old(nextNonce) && currentSupply == old(currentSupply) && dagTxCount == old(dagTxCount)
      {
        ok := PayRelay(relays[i], parts[i]);
        if !ok {
          StuckRelays(old(LedgerView()), relays, parts, i + 1);
          return;
        }
      }
      ok := true;
    }

    method MintConfirmedTx(fee: nat, miner: Address, relayNodes: seq<Address>) returns (ok: bool)
      modifies `balances, `relayCredits, `currentSupply, `dagTxCount
      ensures (LedgerView(), ok) == Mint(old(LedgerView()), fee, miner, relayNodes)
    {
      hide GetCurrentTxSubsidy, DagMinerShareOf, DagRelayTotalOf, RelayParts, CreditRelays, Unique;
      var subsidy := GetCurrentTxSubsidy(dagTxCount, currentSupply);
      var pool := subsidy + fee;
      if pool > U64_MAX {
        return false;
      }
      var minerShare, relayTotal := DagMinerShareOf(pool), DagRelayTotalOf(pool);
      var relays := UniqueRelays(relayNodes);
      var minerPaid := if relays == [] then SatAdd(minerShare, relayTotal) else minerShare;
      ok := CreditChecked(miner, minerPaid);
      if !ok {
        return;
      }
      ok := PayRelays(relays, RelayParts(relayTotal, |relays|));
      assert (LedgerView(), ok) == PaidOut(old(LedgerView()), pool, miner, relays);
      if !ok {
        return;
      }
      if currentSupply + subsidy > U64_MAX {
        return false;
      }
      currentSupply := currentSupply + subsidy;
      if dagTxCount + 1 > U64_MAX {
        return false;
      }
      dagTxCount := dagTxCount + 1;
    }

    /** The nonce, cost and balance checks and the move they guard. */
    method MoveFunds(tx: DagTransaction) returns (o: Outcome)
      modifies `balances, `nextNonce
      ensures (LedgerView(), o) == Transfer(old(LedgerView()), tx)
    {
      var expected := At(nextNonce, tx.sender);
      if tx.nonce != expected {
        return Err(DoubleSpend(tx.nonce));
      }
      if tx.amount + tx.fee > U64_MAX {
        return Err(DagError.Overflow);
      }
      var cost := tx.amount + tx.fee;
      var fromBal := At(balances, tx.sender);
      if fromBal < cost {
        return Err(InsufficientBalance);
      }
      if tx.sender == tx.recipient {
        balances := balances[tx.sender := fromBal - tx.fee];
      } else {
        if At(balances, tx.recipient) + tx.amount > U64_MAX {
          return Err(DagError.Overflow);
        }
        var newTo := At(balances, tx.recipient) + tx.amount;
        balances := balances[tx.sender := fromBal - cost];
        balances := balances[tx.recipient := newTo];
      }
      nextNonce := nextNonce[tx.sender := SatAdd(expected, 1)];
      o := Ok;
    }

    method ApplyLedgerEffects(tx: DagTransaction) returns (o: Outcome)
      modifies `balances, `nextNonce, `relayCredits, `currentSupply, `dagTxCount
      ensures (LedgerView(), o) == ApplyEffects(old(LedgerView()), tx)
    {
      o := MoveFunds(tx);
      if o == Ok {
        var relays := ProvenRelays(tx);
        var ok := MintConfirmedTx(tx.fee, tx.sender, relays);
        if !ok {
          o := Err(DagError.Overflow);
        }
      }
    }

    // ----------------------------------------------------------------- graph

    method NoteChildInPlace(parent: TxHash, child: TxHash)
      modifies `children, `tips
      ensures GraphView() == NoteChild(old(GraphView()), parent, child)
    {
      if parent == NULL_PARENT {
        return;
      }
      children := children[parent := KidsOf(children, parent) + {child}];
      tips := tips - {parent};
    }

    /** Raises every vertex the bounded walk visits by one. */
    method IncrementAncestorWeights(tx: DagTransaction)
      modifies `weights
      ensures weights == Raise(old(weights), Bumped(vertices, tx))
    {
      hide Walk, Raise;
      var stack := PushParents([], tx);
      assert stack == Parents(tx);
      var seen: set<TxHash> := {};
      var steps := 0;
      RaiseNone(weights);
      while stack != []
        invariant steps <= ANCESTOR_WALK_BOUND && NULL_PARENT !in stack
        invariant Walk(vertices, stack, seen, ANCESTOR_WALK_BOUND - steps) == Bumped(vertices, tx)
        invariant weights == Raise(old(weights), seen)
        decreases ANCESTOR_WALK_BOUND - steps, |stack|
      {
        var h := stack[|stack| - 1];
        WalkStep(vertices, stack, seen, ANCESTOR_WALK_BOUND - steps);
        stack := stack[..|stack| - 1];
        if h == NULL_PARENT || h in seen {
          continue;
        }
        if steps >= ANCESTOR_WALK_BOUND {
          seen := seen + {h};
          return;
        }
        RaiseOne(old(weights), seen, h);
        seen := seen + {h};
        steps := steps + 1;
        if h in weights {
          weights := weights[h := SatAdd(weights[h], 1)];
        }
        if h in vertices {
          stack := PushParents(stack, vertices[h]);
        }
      }
      WalkStep(vertices, stack, seen, ANCESTOR_WALK_BOUND - steps);
    }

    method PushParents(stack: seq<TxHash>, tx: DagTransaction) returns (r: seq<TxHash>)
      ensures r == stack + Parents(tx)
      ensures NULL_PARENT !in stack ==> NULL_PARENT !in r
    {
      r := stack;
      if tx.parent1 != NULL_PARENT {
        r := r + [tx.parent1];
      }
      if tx.parent2 != NULL_PARENT && tx.parent2 != tx.parent1 {
        r := r + [tx.parent2];
      }
    }

    /** The insertion block shared by attach and `insert_graph_only`. */
    method StoreVertex(tx: DagTransaction)
      modifies `vertices, `attachOrder, `weights, `children, `tips, `genesisId
      ensures GraphView() == Insert(old(GraphView()), tx)
    {
      var id := tx.id;
      vertices := vertices[id := tx];
      attachOrder := attachOrder + [id];
      weights := weights[id := 1];
      children := children[id := KidsOf(children, id)];
      tips := tips + {id};
      assert GraphView() == Place(old(GraphView()), tx);
      NoteChildInPlace(tx.parent1, id);
      if tx.parent2 != tx.parent1 {
        NoteChildInPlace(tx.parent2, id);
      }
      assert GraphView() == Link(Place(old(GraphView()), tx), tx);
      if tx.IsGenesis() {
        genesisId := Some(id);
      } else {
        IncrementAncestorWeights(tx);
      }
    }

    method CheckParentsOf(tx: DagTransaction) returns (o: Outcome)
      ensures o == CheckParents(vertices, tx)
    {
      if tx.IsGenesis() {
        if vertices != map[] {
          return Err(InvalidGenesis);
        }
        return Ok;
      }
      var parents := [tx.parent1, tx.parent2];
      for i := 0 to |parents|
        invariant forall j :: 0 <= j < i ==> parents[j] != NULL_PARENT && parents[j] in vertices
      {
        assert parents[0] == tx.parent1 && parents[1] == tx.parent2;
        if parents[i] == NULL_PARENT || parents[i] !in vertices {
          return Err(UnknownParent(parents[i]));
        }
      }
      assert parents[0] == tx.parent1 && parents[1] == tx.parent2;
      o := Ok;
    }

    /** The checks attach and graph insert share, in the source's order. */
    method CheckAdmission(tx: DagTransaction) returns (o: Outcome)
      ensures o == CheckVertex(vertices, tx)
    {
      if tx.id in vertices {
        return Err(DuplicateTx(tx.id));
      }
      o := CheckParentsOf(tx);
      if o != Ok {
        return;
      }
      if tx.IsGenesis() {
        if tx.fee != 0 {
          return Err(InvalidFee);
        }
      } else if tx.fee != FIXED_TRANSACTION_FEE {
        return Err(InvalidFee);
      }
      if !tx.keyMatchesSender {
        return Err(AddressMismatch);
      }
      if !tx.signatureValid {
        return Err(InvalidSignature);
      }
      if !tx.VerifyRelayProofs() {
        return Err(InvalidRelayProof);
      }
      o := Ok;
    }

    method InsertGraphOnlyInPlace(tx: DagTransaction) returns (o: Outcome)
      requires Valid() && tx.id != NULL_PARENT
      modifies `vertices, `attachOrder, `weights, `children, `tips, `genesisId
      ensures (View(), o) == InsertGraphOnly(old(View()), tx)
      ensures Valid()
    {
      o := CheckAdmission(tx);
      if o == Ok {
        ValidInsert(GraphView(), tx);
        StoreVertex(tx);
      }
    }

    method AttachAndVerifyTx(tx: DagTransaction) returns (o: Outcome)
      requires Valid() && tx.id != NULL_PARENT
      modifies this
      ensures (View(), o) == Attach(old(View()), tx)
      ensures Valid()
    {
      hide Insert, CheckVertex, Grown, Mint;
      o := CheckAdmission(tx);
      if o != Ok {
        return;
      }
      ValidInsert(GraphView(), tx);
      o := MoveFunds(tx);
      if o != Ok {
        return;
      }
      StoreVertex(tx);
      if !tx.IsGenesis() {
        var relays := ProvenRelays(tx);
        var ok := MintConfirmedTx(tx.fee, tx.sender, relays);
        if !ok {
          o := Err(DagError.Overflow);
        }
      }
    }

    /** One replayed vertex: apply it, or remember it as an extra loser. */
    method ReplayVertex(tx: DagTransaction, extra: seq<TxHash>) returns (extra': seq<TxHash>, failed: bool)
      requires tx.id in vertices && vertices[tx.id] == tx && !tx.IsGenesis()
      modifies `balances, `nextNonce, `relayCredits, `currentSupply, `dagTxCount
      ensures Replayed(LedgerView(), extra', failed)
           == ReplayOne(vertices, {}, Replayed(old(LedgerView()), extra, false), tx.id)
    {
      hide Transfer, Mint;
      extra', failed := extra, false;
      var o := ApplyLedgerEffects(tx);
      if o != Ok {
        if o.error.DoubleSpend? || o.error.InsufficientBalance? {
          RefusalKeeps(old(LedgerView()), tx);
          extra' := extra + [tx.id];
        } else {
          failed := true;
        }
      }
    }

    /** Replay of the attach order from the faucet, same-nonce losers left out. */
    method ReplayOrder(losers: set<TxHash>) returns (extra: seq<TxHash>, failed: bool)
      requires Valid()
      modifies `balances, `nextNonce, `relayCredits, `currentSupply, `dagTxCount
      ensures Replayed(LedgerView(), extra, failed)
           == Replay(vertices, attachOrder, losers, Baseline(faucet), |attachOrder|)
    {
      hide Grown, ReplayOne;
      balances, nextNonce, relayCredits, currentSupply, dagTxCount := faucet, map[], map[], 0, 0;
      extra, failed := [], false;
      for i := 0 to |attachOrder|
        invariant Replayed(LedgerView(), extra, false) == Replay(vertices, attachOrder, losers, Baseline(faucet), i)
      {
        var id := attachOrder[i];
        ReplayOneSkips(vertices, losers, Replayed(LedgerView(), extra, false), id);
        if id in losers || id !in vertices || vertices[id].IsGenesis() {
          continue;
        }
        ValidIds(GraphView(), id);
        extra, failed := ReplayVertex(vertices[id], extra);
        if failed {
          StuckReplay(vertices, attachOrder, losers, Baseline(faucet), i + 1);
          return;
        }
      }
      failed := false;
    }

    /** Losers to winners, then each extra loser that is not there yet to NULL_PARENT. */
    method RecordConflicts(winnerOf: map<TxHash, TxHash>, extra: seq<TxHash>)
      modifies `conflicts
      ensures conflicts.Keys == winnerOf.Keys + ToSet(extra)
      ensures forall a :: a in conflicts ==> conflicts[a] == if a in winnerOf then winnerOf[a] else NULL_PARENT
    {
      conflicts := winnerOf;
      for i := 0 to |extra|
        invariant conflicts.Keys == winnerOf.Keys + ToSet(extra[..i])
        invariant forall a :: a in conflicts ==> conflicts[a] == if a in winnerOf then winnerOf[a] else NULL_PARENT
      {
        assert extra[..i + 1] == extra[..i] + [extra[i]];
        if extra[i] !in conflicts {
          conflicts := conflicts[extra[i] := NULL_PARENT];
        }
      }
      assert extra[..|extra|] == extra;
    }

    /** Same-nonce losers first, then the replay; an overflow leaves the ledger half rebuilt
        and the conflicts as they were. */
    method ResolveConflictsAndRebuildLedger() returns (o: Outcome)
      requires Valid()
      modifies `balances, `nextNonce, `relayCredits, `currentSupply, `dagTxCount, `conflicts
      ensures (View(), o) == Rebuild(old(View()))
    {
      hide Grown, Replay, Losers, Conflicts.Grouped, Baseline, EMPTY;
      ValidGenesis(GraphView());
      var byNonce := Conflicts.GroupByNonce(vertices, GenesisId());
      var losers, winnerOf := Conflicts.PickLosers(vertices, weights, byNonce);
      var extra, failed := ReplayOrder(losers);
      if failed {
        return Err(DagError.Overflow);
      }
      RecordConflicts(winnerOf, extra);
      ConflictMapIs(vertices, weights, winnerOf, ToSet(extra), conflicts);
      o := Ok;
    }

    method AcceptWireVertex(tx: DagTransaction) returns (r: Accepted)
      requires Valid() && tx.id != NULL_PARENT
      modifies this
      ensures (View(), r) == Accept(old(View()), tx)
      ensures Valid()
    {
      hide Attach, Insert, CheckVertex, Grown, Rebuild;
      if tx.id in vertices {
        return Stored(false);
      }
      var o := AttachAndVerifyTx(tx);
      if o == Ok {
        return Stored(true);
      }
      if o.error.DoubleSpend? || o.error.InsufficientBalance? {
        o := InsertGraphOnlyInPlace(tx);
        if o != Ok {
          return Rejected(o.error);
        }
        o := ResolveConflictsAndRebuildLedger();
        return if o == Ok then Stored(true) else Rejected(o.error);
      }
      r := Rejected(o.error);
    }

    method TransactionsForInOrder(ids: seq<TxHash>) returns (out: seq<DagTransaction>)
      ensures out == BodiesInOrder(GraphView(), ToSet(ids), |attachOrder|)
    {
      var want := ToSet(ids);
      out := [];
      for i := 0 to |attachOrder|
        invariant out == BodiesInOrder(GraphView(), want, i)
      {
        if attachOrder[i] in want && attachOrder[i] in vertices {
          out := out + [vertices[attachOrder[i]]];
        }
      }
    }

    /** Everything reachable over parents from `id`, `id` included, up to the walk bound. */
    method ParentClosure(id: TxHash) returns (seen: set<TxHash>)
      ensures seen == ParentClosureOf(vertices, id)
    {
      hide ClosureWalk;
      StartClosure(vertices, id);
      seen := {};
      var stack := [id];
      var steps := 0;
      while stack != []
        invariant steps <= ANCESTOR_WALK_BOUND
        invariant ClosureWalk(vertices, stack, seen, ANCESTOR_WALK_BOUND - steps) == ParentClosureOf(vertices, id)
        decreases ANCESTOR_WALK_BOUND - steps, |stack|
      {
        var cur := stack[|stack| - 1];
        ghost var rest := stack[..|stack| - 1];
        ClosureStep(vertices, stack, seen, ANCESTOR_WALK_BOUND - steps);
        stack := stack[..|stack| - 1];
        if cur in seen {
          continue;
        }
        seen := seen + {cur};
        if steps >= ANCESTOR_WALK_BOUND {
          return;
        }
        steps := steps + 1;
        if cur in vertices {
          var tx := vertices[cur];
          if tx.parent1 != NULL_PARENT {
            stack := stack + [tx.parent1];
          }
          if tx.parent2 != NULL_PARENT {
            stack := stack + [tx.parent2];
          }
        }
        assert stack == rest + BothParentsOf(vertices, cur);
      }
      ClosureStep(vertices, stack, seen, ANCESTOR_WALK_BOUND - steps);
    }
  }

  // --------------------------------------------------------------- helpers

  lemma ConflictMapIs(vs: Vertices, weights: map<TxHash, nat>, winnerOf: map<TxHash, TxHash>,
                      extra: set<TxHash>, m: map<TxHash, TxHash>)
    requires winnerOf.Keys == Losers(vs, weights) && m.Keys == winnerOf.Keys + extra
    requires forall a :: a in winnerOf ==> winnerOf[a] == WinnerOf(vs, weights, a)
    requires forall a :: a in m ==> m[a] == if a in winnerOf then winnerOf[a] else NULL_PARENT
    ensures m == ConflictMap(vs, weights, extra)
  {
    hide Losers;
  }

  lemma RefusalKeeps(l: Ledger, tx: DagTransaction)
    requires ApplyEffects(l, tx).1 != Ok && ApplyEffects(l, tx).1 != Err(DagError.Overflow)
    ensures ApplyEffects(l, tx).0 == l
  {}

  lemma ReplayOneSkips(vs: Vertices, losers: set<TxHash>, r: Replayed, id: TxHash)
    ensures Skipped(vs, losers, id) ==> ReplayOne(vs, losers, r, id) == r
    ensures !Skipped(vs, losers, id) ==> ReplayOne(vs, losers, r, id) == ReplayOne(vs, {}, r, id)
  {}

  lemma {:induction false} StuckReplay(vs: Vertices, order: seq<TxHash>, losers: set<TxHash>, start: Ledger, k: nat)
    requires k <= |order| && Replay(vs, order, losers, start, k).failed
    ensures Replay(vs, order, losers, start, |order|) == Replay(vs, order, losers, start, k)
    decreases |order| - k
  {
    hide ApplyEffects;
    if k < |order| { StuckReplay(vs, order, losers, start, k + 1); }
  }

  lemma ValidGenesis(g: Graph)
    requires g == EMPTY || Grown(g)
    ensures g.genesis in g.vertices ==> g.vertices[g.genesis].IsGenesis()
  {
    if g != EMPTY {
      GrownShaped(g);
      assert FirstAt(g.vertices, g.order, 0);
    }
  }

  lemma ValidIds(g: Graph, id: TxHash)
    requires (g == EMPTY || Grown(g)) && id in g.vertices
    ensures g.vertices[id].id == id
  {
    if g != EMPTY { GrownShaped(g); }
  }

  /** Once a payout failed, later relays are not reached. */
  lemma {:induction false} StuckRelays(l: Ledger, relays: seq<Address>, parts: seq<nat>, k: nat)
    requires k <= |relays| == |parts| && !CreditRelays(l, relays, parts, k).1
    ensures CreditRelays(l, relays, parts, |relays|) == CreditRelays(l, relays, parts, k)
    decreases |relays| - k
  {
    if k < |relays| { StuckRelays(l, relays, parts, k + 1); }
  }

  lemma StartClosure(vs: Vertices, id: TxHash)
    ensures ParentClosureOf(vs, id) == ClosureWalk(vs, [id], {}, ANCESTOR_WALK_BOUND)
  {}

  lemma RaiseNone(w: map<TxHash, nat>)
    ensures Raise(w, {}) == w
  {}

  lemma RaiseOne(w: map<TxHash, nat>, s: set<TxHash>, h: TxHash)
    requires h !in s
    ensures Raise(w, s + {h}) == if h in w then Raise(w, s)[h := SatAdd(w[h], 1)] else Raise(w, s)
    ensures h in w <==> h in Raise(w, s)
    ensures h in w ==> Raise(w, s)[h] == w[h]
  {}

  lemma ValidInsert(g: Graph, tx: DagTransaction)
    requires g == EMPTY || Grown(g)
    requires tx.id != NULL_PARENT && CheckVertex(g.vertices, tx) == Ok
    ensures Grown(Insert(g, tx))
  {
    if g == EMPTY {
      BuildStep([], tx);
      BuildGrown([] + [tx]);
    } else {
      InsertGrown(g, tx);
    }
  }
}
