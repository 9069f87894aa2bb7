/** The archiver: it stores blocks in height order although they may arrive in any order. */
module Archiver {
  import opened Common

  datatype Request = GetBlock(height: nat) | Prune(height: nat)

  /** `best` is persisted with the blocks; `deferred` is kept in memory only. */
  datatype State = State(best: nat, db: map<nat, Block>, deferred: map<nat, Block>)
  {
    predicate Valid() {
      forall k | k in deferred :: deferred[k].height == k
    }
  }

  const Initial := State(0, map[], map[])

  /** What is left after a restart. */
  function Restart(s: State): State { s.(deferred := map[]) }

  function Defer(s: State, blk: Block): State {
    if blk.height in s.deferred then s else s.(deferred := s.deferred[blk.height := blk])
  }

  function Store(s: State, blk: Block): State {
    State(s.best + 1, s.db[blk.height := blk], s.deferred - {blk.height})
  }

  /** Heights deferred above `h`. */
  function Above(deferred: map<nat, Block>, h: nat): set<nat> {
    set k | k in deferred && k > h
  }

  /** Handles one block. Every recursive call uses up a deferred block. */
  function DigestBlock(s: State, blk: Block): (r: (State, seq<Request>))
    requires s.Valid()
    ensures r.0.Valid()
    decreases Above(s.deferred, blk.height)
  {
    if blk.height <= s.best then (s, [])
    else if blk.height != s.best + 1 then
      (Defer(s, blk), if blk.height - 1 in s.deferred then [] else [GetBlock(blk.height - 1)])
    else
      var s1 := Store(s, blk);
      if blk.height + 1 in s.deferred then
        assert blk.height + 1 in Above(s.deferred, blk.height);
        var (s2, reqs) := DigestBlock(s1, s.deferred[blk.height + 1]);
        (s2, [Prune(s1.best)] + reqs)
      else (s1, [Prune(s1.best)])
  }

  // ---------------------------------------------------------------- arrival order does not matter

  /** Everything held is a block of the chain, stored under its own height. */
  ghost predicate FromChain(s: State, chain: seq<Block>) {
    && s.best <= |chain|
    && (forall h :: h in s.db <==> 1 <= h <= s.best)
    && (forall h | h in s.db :: s.db[h] == chain[h - 1])
    && (forall h | h in s.deferred :: 1 <= h <= |chain| && s.deferred[h] == chain[h - 1])
  }

  ghost predicate ChainHeights(chain: seq<Block>) {
    forall k | 0 <= k < |chain| :: chain[k].height == k + 1
  }

  /** `seen` is the set of heights that have arrived. */
  ghost predicate Accounts(s: State, seen: set<nat>) {
    && (forall h | 1 <= h <= s.best :: h in seen)
    && (forall h :: h in s.deferred <==> h in seen && h > s.best)
  }

  /** At rest, nothing deferred could be stored. */
  ghost predicate AtRest(s: State) {
    s.best + 1 !in s.deferred
  }

  lemma StoreAccounts(s: State, blk: Block, seen: set<nat>)
    requires Accounts(s, seen) && blk.height == s.best + 1
    ensures Accounts(Store(s, blk), seen + {blk.height})
  {
  }

  lemma StoreFromChain(s: State, blk: Block, chain: seq<Block>)
    requires FromChain(s, chain) && blk.height == s.best + 1 <= |chain| && blk == chain[blk.height - 1]
    ensures FromChain(Store(s, blk), chain)
  {
  }

  /** Storing the next block and draining what was deferred behind it leaves exactly the arrived
      blocks, and nothing more to drain. */
  lemma {:induction false} Drain(s: State, blk: Block, chain: seq<Block>, seen: set<nat>)
    requires s.Valid() && FromChain(s, chain) && ChainHeights(chain) && Accounts(s, seen)
    requires blk.height == s.best + 1 <= |chain| && blk == chain[blk.height - 1]
    ensures var s' := DigestBlock(s, blk).0;
            FromChain(s', chain) && Accounts(s', seen + {blk.height}) && AtRest(s') && s'.best > s.best
    decreases Above(s.deferred, blk.height)
  {
    var s1 := Store(s, blk);
    var seen1 := seen + {blk.height};
    StoreAccounts(s, blk, seen);
    StoreFromChain(s, blk, chain);
    if blk.height + 1 in s.deferred {
      assert blk.height + 1 in Above(s.deferred, blk.height);
      assert blk.height + 1 in seen1;
      Drain(s1, s.deferred[blk.height + 1], chain, seen1);
      assert seen1 + {blk.height + 1} == seen1;
    }
  }

  /** One arrival, in any state at rest, in or out of order, new or repeated. */
  lemma Arrival(s: State, h: nat, chain: seq<Block>, seen: set<nat>)
    requires s.Valid() && FromChain(s, chain) && ChainHeights(chain) && Accounts(s, seen) && AtRest(s)
    requires 1 <= h <= |chain|
    ensures var s' := DigestBlock(s, chain[h - 1]).0;
            FromChain(s', chain) && Accounts(s', seen + {h}) && AtRest(s')
  {
    if h == s.best + 1 {
      Drain(s, chain[h - 1], chain, seen);
    }
  }

  function Heights(order: seq<nat>): set<nat> { set h | h in order }

  lemma HeightsSnoc(order: seq<nat>, h: nat)
    ensures Heights(order + [h]) == Heights(order) + {h}
  {
  }

  predicate Deliverable(chain: seq<Block>, order: seq<nat>) {
    forall i | 0 <= i < |order| :: 1 <= order[i] <= |chain|
  }

  /** The archiver after blocks of `chain` arrived at these heights, in this order. */
  function Deliver(chain: seq<Block>, order: seq<nat>): (s: State)
    requires Deliverable(chain, order)
    ensures s.Valid()
  {
    if order == [] then Initial
    else DigestBlock(Deliver(chain, order[..|order| - 1]), chain[order[|order| - 1] - 1]).0
  }

  lemma {:induction false} DeliverAccounts(chain: seq<Block>, order: seq<nat>)
    requires ChainHeights(chain)
    requires Deliverable(chain, order)
    ensures var s := Deliver(chain, order);
            FromChain(s, chain) && AtRest(s) && Accounts(s, Heights(order))
  {
    if order != [] {
      var n := |order| - 1;
      DeliverAccounts(chain, order[..n]);
      Arrival(Deliver(chain, order[..n]), order[n], chain, Heights(order[..n]));
      HeightsSnoc(order[..n], order[n]);
      assert order == order[..n] + [order[n]];
    }
  }

  /** The arrived heights determine the archiver. */
  lemma Determined(s: State, t: State, chain: seq<Block>, seen: set<nat>)
    requires FromChain(s, chain) && AtRest(s) && Accounts(s, seen)
    requires FromChain(t, chain) && AtRest(t) && Accounts(t, seen)
    ensures s == t
  {
    assert s.best + 1 !in seen && t.best + 1 !in seen;
    assert s.db == t.db && s.deferred == t.deferred;
  }

  /** Any two deliveries of the same heights, in whatever order and with whatever repetitions, leave
      the same database and the same deferred blocks. */
  lemma OrderInsensitive(chain: seq<Block>, p: seq<nat>, q: seq<nat>)
    requires ChainHeights(chain)
    requires Deliverable(chain, p)
    requires Heights(p) == Heights(q)
    ensures Deliverable(chain, q)
    ensures Deliver(chain, p) == Deliver(chain, q)
  {
    forall i | 0 <= i < |q| ensures 1 <= q[i] <= |chain| {
      assert q[i] in Heights(p);
    }
    DeliverAccounts(chain, p);
    DeliverAccounts(chain, q);
    Determined(Deliver(chain, p), Deliver(chain, q), chain, Heights(p));
  }

  // ---------------------------------------------------------------- what is asked of the atomizer

  /** Prune requests never exceed the stored height, and a block deferred behind a gap has had its
      predecessor deferred or requested. */
  ghost predicate Requested(s: State, sent: set<Request>) {
    && (forall r | r in sent && r.Prune? :: r.height <= s.best)
    && (forall k: nat :: Asked(s, sent, k))
  }

  /** If block `k` is deferred behind a gap, the one before it is deferred or has been asked for. */
  ghost predicate Asked(s: State, sent: set<Request>, k: nat) {
    k in s.deferred && k > s.best + 1 ==> k - 1 in s.deferred || GetBlock(k - 1) in sent
  }

  function Requests(reqs: seq<Request>): set<Request> { set r | r in reqs }

  lemma StoreRequests(s: State, blk: Block, sent: set<Request>)
    requires blk.height == s.best + 1 && Requested(s, sent)
    ensures Requested(Store(s, blk), sent + {Prune(s.best + 1)})
  {
    var t, more := Store(s, blk), sent + {Prune(s.best + 1)};
    forall k: nat ensures Asked(t, more, k) {
      assert Asked(s, sent, k);
    }
  }

  lemma DeferRequests(s: State, blk: Block, sent: set<Request>)
    requires blk.height > s.best + 1 && Requested(s, sent)
    ensures Requested(Defer(s, blk), sent + {GetBlock(blk.height - 1)})
    ensures blk.height - 1 in s.deferred ==> Requested(Defer(s, blk), sent)
  {
    var t, more := Defer(s, blk), sent + {GetBlock(blk.height - 1)};
    forall k: nat ensures Asked(t, more, k) {
      assert Asked(s, sent, k);
    }
    if blk.height - 1 in s.deferred {
      forall k: nat ensures Asked(t, sent, k) {
        assert Asked(s, sent, k);
      }
    }
  }

  lemma RequestsCons(r: Request, reqs: seq<Request>)
    ensures Requests([r] + reqs) == {r} + Requests(reqs)
    ensures Requests([]) == {} && Requests([r]) == {r}
  {
    assert forall x :: x in [r] + reqs <==> x == r || x in reqs;
  }

  lemma RequestsJoin(sent: set<Request>, r: Request, reqs: seq<Request>)
    ensures sent + {r} + Requests(reqs) == sent + Requests([r] + reqs)
  {
    RequestsCons(r, reqs);
  }

  lemma OutOfOrder(s: State, blk: Block, sent: set<Request>)
    requires s.Valid() && Requested(s, sent) && blk.height != s.best + 1
    ensures var (s', reqs) := DigestBlock(s, blk);
            Requested(s', sent + Requests(reqs)) && s'.best >= s.best
  {
    if blk.height > s.best {
      DeferRequests(s, blk, sent);
      RequestsCons(GetBlock(blk.height - 1), []);
    }
    assert sent + {} == sent;
    RequestsCons(GetBlock(0), []);
  }

  lemma InOrder(s: State, blk: Block, sent: set<Request>, after: State, reqs: seq<Request>)
    requires s.Valid() && blk.height == s.best + 1 && blk.height + 1 in s.deferred
    requires DigestBlock(Store(s, blk), s.deferred[blk.height + 1]) == (after, reqs)
    requires Requested(after, sent + {Prune(s.best + 1)} + Requests(reqs)) && after.best >= s.best + 1
    ensures var (s', rs) := DigestBlock(s, blk); Requested(s', sent + Requests(rs)) && s'.best >= s.best
  {
    RequestsJoin(sent, Prune(s.best + 1), reqs);
  }

  lemma {:induction false} DigestRequests(s: State, blk: Block, sent: set<Request>)
    requires s.Valid() && Requested(s, sent)
    ensures var (s', reqs) := DigestBlock(s, blk);
            Requested(s', sent + Requests(reqs)) && s'.best >= s.best
    decreases Above(s.deferred, blk.height)
  {
    if blk.height != s.best + 1 {
      OutOfOrder(s, blk, sent);
    } else {
      StoreRequests(s, blk, sent);
      var s1 := Store(s, blk);
      if blk.height + 1 in s.deferred {
        assert blk.height + 1 in Above(s.deferred, blk.height);
        var (s2, reqs) := DigestBlock(s1, s.deferred[blk.height + 1]);
        DigestRequests(s1, s.deferred[blk.height + 1], sent + {Prune(s1.best)});
        InOrder(s, blk, sent, s2, reqs);
      } else {
        RequestsCons(Prune(s1.best), []);
      }
    }
  }

  /** Every block that is stored makes the archiver let go of all below it. */
  lemma {:induction false} StoringPrunes(s: State, blk: Block)
    requires s.Valid() && blk.height == s.best + 1
    ensures var (t, reqs) := DigestBlock(s, blk); Prune(t.best) in reqs
    decreases Above(s.deferred, blk.height)
  {
    var s1 := Store(s, blk);
    if blk.height + 1 in s.deferred {
      assert blk.height + 1 in Above(s.deferred, blk.height);
      var (t, reqs) := DigestBlock(s1, s.deferred[blk.height + 1]);
      StoringPrunes(s1, s.deferred[blk.height + 1]);
      assert Prune(t.best) in [Prune(s1.best)] + reqs;
    }
  }
}
