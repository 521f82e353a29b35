/** Grouping user spends by (sender, nonce) and ranking each group, as
    `resolve_conflicts_and_rebuild_ledger` does, against the declarative conflict rule. */
module Conflicts {
  import opened Basics
  import opened Transactions
  import opened Graphs
  import opened Dags

  type Key = (Address, nat)

  function KeyOf(tx: DagTransaction): Key { (tx.sender, tx.nonce as nat) }

  /** The user spends of `key` among the ids in `done`. */
  ghost function GroupOf(vs: Vertices, done: set<TxHash>, key: Key): set<TxHash> {
    set id | id in done && id in vs && !vs[id].IsGenesis() && KeyOf(vs[id]) == key
  }

  /** `m` lists every group of the ids in `done`, each id once. */
  ghost predicate Grouped(vs: Vertices, done: set<TxHash>, m: map<Key, seq<TxHash>>) {
    && (forall key :: key in m ==> NoDup(m[key]) && ToSet(m[key]) == GroupOf(vs, done, key))
    && (forall key :: key !in m ==> GroupOf(vs, done, key) == {})
  }

  lemma GroupMore(vs: Vertices, done: set<TxHash>, m: map<Key, seq<TxHash>>, id: TxHash)
    requires Grouped(vs, done, m) && id !in done && id in vs
    ensures vs[id].IsGenesis() ==> Grouped(vs, done + {id}, m)
    ensures !vs[id].IsGenesis() ==>
      var key := KeyOf(vs[id]);
      Grouped(vs, done + {id}, m[key := (if key in m then m[key] else []) + [id]])
  {
    forall key ensures GroupOf(vs, done + {id}, key)
      == GroupOf(vs, done, key) + if !vs[id].IsGenesis() && KeyOf(vs[id]) == key then {id} else {} {}
    if !vs[id].IsGenesis() {
      var key := KeyOf(vs[id]);
      var old' := if key in m then m[key] else [];
      assert ToSet(old') == GroupOf(vs, done, key);
      assert id !in ToSet(old');
      assert ToSet(old' + [id]) == ToSet(old') + {id};
    }
  }

  method GroupByNonce(vs: Vertices, genesis: TxHash) returns (byNonce: map<Key, seq<TxHash>>)
    requires genesis in vs ==> vs[genesis].IsGenesis()
    ensures Grouped(vs, vs.Keys, byNonce)
  {
    byNonce := map[];
    var todo := vs.Keys;
    while todo != {}
      invariant todo <= vs.Keys && Grouped(vs, vs.Keys - todo, byNonce)
      decreases todo
    {
      var id :| id in todo;
      GroupMore(vs, vs.Keys - todo, byNonce, id);
      assert vs.Keys - (todo - {id}) == vs.Keys - todo + {id};
      todo := todo - {id};
      if id == genesis || vs[id].IsGenesis() {
        continue;
      }
      var key := KeyOf(vs[id]);
      byNonce := byNonce[key := (if key in byNonce then byNonce[key] else []) + [id]];
    }
    assert vs.Keys - {} == vs.Keys;
  }

  /** The last of the group when sorted by rank. */
  method HighestRanked(weights: map<TxHash, nat>, group: seq<TxHash>) returns (w: TxHash)
    requires group != []
    ensures w in group && forall b :: b in group && b != w ==> Outranks(weights, w, b)
  {
    w := group[0];
    for i := 1 to |group|
      invariant w in group[..i] && forall b :: b in group[..i] && b != w ==> Outranks(weights, w, b)
    {
      assert group[..i + 1] == group[..i] + [group[i]];
      if Outranks(weights, group[i], w) {
        w := group[i];
      }
    }
    assert group[..|group|] == group;
  }

  /** In a complete group everyone but the highest ranked loses, and loses to it. */
  lemma GroupVerdict(vs: Vertices, weights: map<TxHash, nat>, key: Key, group: seq<TxHash>, w: TxHash)
    requires ToSet(group) == GroupOf(vs, vs.Keys, key) && w in group
    requires forall b :: b in group && b != w ==> Outranks(weights, w, b)
    ensures w !in Losers(vs, weights)
    ensures forall a :: a in group && a != w ==> a in Losers(vs, weights) && WinnerOf(vs, weights, a) == w
  {
    assert w in ToSet(group);
    forall b ensures !LosesTo(vs, weights, w, b) {
      assert LosesTo(vs, weights, w, b) ==> b in GroupOf(vs, vs.Keys, key);
      assert b in group <==> b in ToSet(group);
    }
    forall a | a in group && a != w ensures a in Losers(vs, weights) && WinnerOf(vs, weights, a) == w {
      assert a in ToSet(group);
      assert LosesTo(vs, weights, a, w);
      assert Wins(vs, weights, a, w);
      WinnerUnique(vs, weights, a, w, WinnerOf(vs, weights, a));
    }
  }

  /** The losers whose group has been looked at. */
  ghost function LosersAmong(vs: Vertices, weights: map<TxHash, nat>, keys: set<Key>): set<TxHash> {
    set a | a in Losers(vs, weights) && KeyOf(vs[a]) in keys
  }

  ghost predicate Judged(vs: Vertices, weights: map<TxHash, nat>, keys: set<Key>, winnerOf: map<TxHash, TxHash>) {
    && winnerOf.Keys == LosersAmong(vs, weights, keys)
    && forall a :: a in winnerOf ==> winnerOf[a] == WinnerOf(vs, weights, a)
  }

  method PickLosers(vs: Vertices, weights: map<TxHash, nat>, byNonce: map<Key, seq<TxHash>>)
      returns (losers: set<TxHash>, winnerOf: map<TxHash, TxHash>)
    requires Grouped(vs, vs.Keys, byNonce)
    ensures losers == Losers(vs, weights) == winnerOf.Keys
    ensures forall a :: a in losers ==> winnerOf[a] == WinnerOf(vs, weights, a)
  {
    losers, winnerOf := {}, map[];
    var todo := byNonce.Keys;
    assert byNonce.Keys - todo == {};
    while todo != {}
      invariant todo <= byNonce.Keys && losers == winnerOf.Keys
      invariant Judged(vs, weights, byNonce.Keys - todo, winnerOf)
      decreases todo
    {
      var key :| key in todo;
      var group := byNonce[key];
      ghost var seen := byNonce.Keys - todo;
      todo := todo - {key};
      assert byNonce.Keys - todo == seen + {key};
      if |group| <= 1 {
        LoneGroup(vs, weights, key, group, seen);
        continue;
      }
      var winner := HighestRanked(weights, group);
      GroupVerdict(vs, weights, key, group, winner);
      var newLosers := set id | id in group && id != winner;
      losers := losers + newLosers;
      winnerOf := winnerOf + map id | id in newLosers :: winner;
      GroupJudged(vs, weights, key, group, winner, seen);
    }
    AllJudged(vs, weights, byNonce);
  }

  lemma LoneGroup(vs: Vertices, weights: map<TxHash, nat>, key: Key, group: seq<TxHash>, seen: set<Key>)
    requires ToSet(group) == GroupOf(vs, vs.Keys, key) && |group| <= 1
    ensures LosersAmong(vs, weights, seen + {key}) == LosersAmong(vs, weights, seen)
  {
    forall a | a in Losers(vs, weights) ensures KeyOf(vs[a]) != key {
      var b :| LosesTo(vs, weights, a, b);
      assert a != b && (KeyOf(vs[a]) == key ==> a in ToSet(group) && b in ToSet(group));
    }
  }

  lemma GroupJudged(vs: Vertices, weights: map<TxHash, nat>, key: Key, group: seq<TxHash>, w: TxHash, seen: set<Key>)
    requires ToSet(group) == GroupOf(vs, vs.Keys, key) && w in group && w !in Losers(vs, weights)
    requires forall a :: a in group && a != w ==> a in Losers(vs, weights)
    ensures LosersAmong(vs, weights, seen + {key}) == LosersAmong(vs, weights, seen) + set id | id in group && id != w
  {
    forall a | a in Losers(vs, weights) && KeyOf(vs[a]) == key ensures a in group {
      var b :| LosesTo(vs, weights, a, b);
      assert a in GroupOf(vs, vs.Keys, key);
      assert a in ToSet(group);
    }
    forall a | a in group ensures a in vs && KeyOf(vs[a]) == key { assert a in ToSet(group); }
  }

  lemma AllJudged(vs: Vertices, weights: map<TxHash, nat>, byNonce: map<Key, seq<TxHash>>)
    requires Grouped(vs, vs.Keys, byNonce)
    ensures LosersAmong(vs, weights, byNonce.Keys - {}) == Losers(vs, weights)
  {
    forall a | a in Losers(vs, weights) ensures KeyOf(vs[a]) in byNonce {
      var b :| LosesTo(vs, weights, a, b);
      assert a in GroupOf(vs, vs.Keys, KeyOf(vs[a]));
    }
  }
}
