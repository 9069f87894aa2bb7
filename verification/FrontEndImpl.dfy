/** The mutable front end of one replica. */
module FrontEndImpl {
  import opened Common
  import opened Shard
  import opened FrontEnd

  class Replica {
    const sentinels: Sentinels
    var pending: map<Hash, Gathering>
    var complete: seq<Aggregate>

    ghost function State(): State
      reads this
    {
      FrontEnd.State(pending, complete)
    }

    constructor (sentinels: Sentinels)
      ensures this.sentinels == sentinels && State() == Initial
    {
      this.sentinels := sentinels;
      pending := map[];
      complete := [];
    }

    /** Inserting into the attestation set keeps an element that is already there. */
    static method MergeHeights(heights: map<nat, nat>, attested: set<nat>, height: nat) returns (r: map<nat, nat>)
      ensures Merged(heights, attested, height, r)
    {
      r := heights;
      var left := attested;
      ghost var done: set<nat> := {};
      while left != {}
        invariant done + left == attested && Merged(heights, done, height, r)
        decreases left
      {
        var n :| n in left;
        MergeOne(heights, done, height, r, n);
        left, done := left - {n}, done + {n};
        if n !in r {
          r := r[n := height];
        }
      }
      assert done == attested;
    }

    /** The scan over the attestation set, which meets its elements in some order. */
    static method OldestHeight(heights: map<nat, nat>) returns (oldest: nat)
      ensures Scanned(heights, oldest)
    {
      oldest := 0;
      var left := heights.Keys;
      ghost var ks: seq<nat> := [];
      while left != {}
        invariant left <= heights.Keys && Distinct(ks)
        invariant forall k :: k in ks <==> k in heights && k !in left
        invariant oldest == Scan(HeightsBy(heights, ks))
        decreases left
      {
        var i :| i in left;
        ScanMore(heights, ks, i);
        left := left - {i};
        ks := ks + [i];
        if oldest == 0 || heights[i] < oldest {
          oldest := heights[i];
        }
      }
      assert Lists(ks, heights);
    }

    /** Whatever the heights are: attestations are merged, and once every input is attested the transaction is
        handed on with a height that the scan yields for some order. If no recorded height is 0 that is the
        oldest one. */
    method TxNotify(n: Notification)
      modifies this
      ensures !CheckAttestations(sentinels, n.tx) ==> State() == old(State())
      ensures var g := Gather(old(State()), n);
              CheckAttestations(sentinels, n.tx) ==>
                if |g.heights| != |g.tx.inputs|
                then State() == old(State()).(pending := old(pending)[n.tx.id := g])
                else HandedOn(old(State()), n.tx.id, g, State())
      ensures var g := Gather(old(State()), n);
              (forall i | i in g.heights :: g.heights[i] != 0) ==>
                State() == FrontEnd.TxNotify(sentinels, old(State()), n)
    {
      if !CheckAttestations(sentinels, n.tx) {
        return;
      }
      var g;
      if n.tx.id in pending {
        var h := MergeHeights(pending[n.tx.id].heights, n.attested, n.height);
        MergedIs(pending[n.tx.id].heights, n.attested, n.height, h);
        g := Gathering(pending[n.tx.id].tx, h);
      } else {
        var h := MergeHeights(map[], n.attested, n.height);
        MergedIs(map[], n.attested, n.height, h);
        g := Gathering(n.tx, h);
      }
      pending := pending[n.tx.id := g];
      if |g.heights| != |g.tx.inputs| {
        return;
      }
      HandOn(n.tx.id, g, old(State()));
      if forall i | i in g.heights :: g.heights[i] != 0 {
        HandedOnIs(sentinels, old(State()), n, State());
      }
    }

    method HandOn(id: Hash, g: Gathering, ghost before: State)
      requires pending == before.pending[id := g] && complete == before.complete
      modifies this
      ensures HandedOn(before, id, g, State())
    {
      pending := pending - {id};
      var oldest := OldestHeight(g.heights);
      assert before.pending[id := g] - {id} == before.pending - {id};
      complete := complete + [Aggregate(g.tx, oldest)];
    }

    /** Hands over the complete transactions as one batch and starts a new one. */
    method SendCompleteTxs() returns (batch: seq<Aggregate>, sent: bool)
      modifies `complete
      ensures complete == []
      ensures batch == old(complete) && (sent <==> batch != [])
    {
      batch := complete;
      complete := [];
      sent := batch != [];
    }
  }

  /** The gathering is gone, and its transaction is complete. */
  ghost predicate HandedOn(s: State, id: Hash, g: Gathering, t: State) {
    && t.pending == s.pending - {id} && |t.complete| == |s.complete| + 1
    && t.complete == s.complete + [t.complete[|s.complete|]]
    && t.complete[|s.complete|].tx == g.tx && Scanned(g.heights, t.complete[|s.complete|].oldest)
  }

  lemma HandedOnIs(c: Sentinels, s: State, n: Notification, t: State)
    requires CheckAttestations(c, n.tx)
    requires var g := Gather(s, n);
      && |g.heights| == |g.tx.inputs| && HandedOn(s, n.tx.id, g, t)
      && forall i | i in g.heights :: g.heights[i] != 0
    ensures t == FrontEnd.TxNotify(c, s, n)
  {
    ScannedIsOldest(Gather(s, n).heights, t.complete[|s.complete|].oldest);
  }

  ghost predicate Merged(heights: map<nat, nat>, attested: set<nat>, height: nat, r: map<nat, nat>) {
    r.Keys == heights.Keys + attested && forall i | i in r :: r[i] == if i in heights then heights[i] else height
  }

  lemma MergedIs(heights: map<nat, nat>, attested: set<nat>, height: nat, r: map<nat, nat>)
    requires Merged(heights, attested, height, r)
    ensures r == Attest(heights, attested, height)
  {
  }

  lemma MergeOne(heights: map<nat, nat>, attested: set<nat>, height: nat, r: map<nat, nat>, n: nat)
    requires Merged(heights, attested, height, r)
    ensures Merged(heights, attested + {n}, height, if n in r then r else r[n := height])
  {
  }

  lemma ScanMore(heights: map<nat, nat>, ks: seq<nat>, i: nat)
    requires (forall k | k in ks :: k in heights) && i in heights && i !in ks && Distinct(ks)
    ensures forall k | k in ks + [i] :: k in heights
    ensures Distinct(ks + [i])
    ensures var oldest := Scan(HeightsBy(heights, ks));
            Scan(HeightsBy(heights, ks + [i])) == if oldest == 0 || heights[i] < oldest then heights[i] else oldest
  {
    var more := ks + [i];
    assert more[..|ks|] == ks;
    assert HeightsBy(heights, more) == HeightsBy(heights, ks) + [heights[i]];
    assert HeightsBy(heights, more)[..|ks|] == HeightsBy(heights, ks);
  }
}
