/** What the steps of the deduplicating layer keep, and exactly when a write keeps it. */
module DedupProofs {
  import opened DiskTypes
  import opened DedupSpec

  // ---- pieces ------------------------------------------------------------------------------

  /** No trimmed block other than p was last left by this LBA. */
  ghost predicate NotRetiredElsewhere(t: Tables, p: nat, lba: nat)
    requires Shaped(t)
  {
    forall q :: 0 <= q < |t.blocks| && q != p && t.blocks[q].status == Trimmed ==> t.blocks[q].lba[0] != lba
  }

  /** Track p serves no valid LBA other than this one, which is on no other track. */
  ghost predicate Vacant(t: Tables, p: nat, lba: nat)
    requires Shaped(t)
  {
    && p < |t.blocks| && lba < |t.ltp|
    && t.blocks[p].refs == 0
    && (t.blocks[p].status == InUse ==> t.blocks[p].lba[0] == lba)
    && (t.ltp[lba].valid ==> t.ltp[lba].pba == p)
    && NotRetiredElsewhere(t, p, lba)
  }

  /** u is t except for track p and this LBA. */
  ghost predicate ChangedAt(t: Tables, u: Tables, p: nat, lba: nat, hash: string) {
    && p < |t.blocks| && lba < |t.ltp|
    && |u.blocks| == |t.blocks| && |u.ltp| == |t.ltp|
    && (forall q :: 0 <= q < |t.blocks| && q != p ==> u.blocks[q] == t.blocks[q])
    && (forall l :: 0 <= l < |t.ltp| && l != lba ==> u.ltp[l] == t.ltp[l])
    && u.ltp[lba] == Entry(p, hash, true, false)
  }

  /** A vacant track takes new content for one LBA. */
  lemma StoreKeeps(t: Tables, u: Tables, p: nat, lba: nat, hash: string)
    requires Consistent(t) && Vacant(t, p, lba) && hash != ""
    requires ChangedAt(t, u, p, lba, hash)
    requires var b := u.blocks[p]; b.hash == hash && b.status == InUse && b.refs == 0 && |b.lba| > 0 && b.lba[0] == lba
    ensures Consistent(u)
  {
    assert Shaped(u);
    assert Lists(u.blocks[p], lba);
    forall l | 0 <= l < |u.ltp| && u.ltp[l].valid && l != lba
      ensures u.ltp[l].pba != p
    {
      assert Lists(t.blocks[t.ltp[l].pba], l);
    }
    assert Forward(u);
    assert Backward(u) && Distinct(u);
    assert Retired(u);
  }

  /** u is t after one more LBA has joined the list of a block in use. */
  ghost predicate Joined(t: Tables, u: Tables, p: nat, lba: nat, hash: string) {
    && ChangedAt(t, u, p, lba, hash)
    && var b, c := t.blocks[p], u.blocks[p];
       && Serves(b, hash) && Serves(c, hash) && c.refs == b.refs + 1 && c.refs < |c.lba| && b.refs < |b.lba|
       && c.lba[c.refs] == lba
       && forall i :: 0 <= i <= b.refs ==> c.lba[i] == b.lba[i]
  }

  lemma JoinedForward(t: Tables, u: Tables, p: nat, lba: nat, hash: string)
    requires Consistent(t) && Joined(t, u, p, lba, hash) && !t.ltp[lba].valid
    ensures Shaped(u) && Forward(u)
  {
    assert Shaped(u);
    forall l | 0 <= l < |u.ltp| && u.ltp[l].valid
      ensures !u.ltp[l].trim && Serves(u.blocks[u.ltp[l].pba], u.ltp[l].hash) && Lists(u.blocks[u.ltp[l].pba], l)
    {
      if l != lba {
        assert Lists(t.blocks[t.ltp[l].pba], l);
        var i :| 0 <= i <= t.blocks[t.ltp[l].pba].refs && t.blocks[t.ltp[l].pba].lba[i] == l;
        assert u.blocks[u.ltp[l].pba].lba[i] == l;
      }
    }
  }

  lemma JoinedBackward(t: Tables, u: Tables, p: nat, lba: nat, hash: string)
    requires Consistent(t) && Joined(t, u, p, lba, hash) && !t.ltp[lba].valid && Shaped(u)
    ensures Backward(u) && Distinct(u)
  {
    forall q, i | 0 <= q < |u.blocks| && u.blocks[q].status == InUse && 0 <= i <= u.blocks[q].refs
      ensures u.ltp[u.blocks[q].lba[i]].valid && u.ltp[u.blocks[q].lba[i]].pba == q
    {
      if q != p || i < u.blocks[p].refs {
        assert u.blocks[q].lba[i] == t.blocks[q].lba[i];
        assert t.ltp[t.blocks[q].lba[i]].valid;
      }
    }
    forall i | 0 <= i <= t.blocks[p].refs
      ensures t.blocks[p].lba[i] != lba
    {
      assert t.ltp[t.blocks[p].lba[i]].valid;
    }
    assert ListedOnce(t.blocks[p]);
    assert ListedOnce(u.blocks[p]);
  }

  lemma JoinedRetired(t: Tables, u: Tables, p: nat, lba: nat, hash: string)
    requires Consistent(t) && Joined(t, u, p, lba, hash) && NotRetiredElsewhere(t, p, lba) && Shaped(u)
    ensures Retired(u)
  {
    forall q | 0 <= q < |u.blocks| && u.blocks[q].status == Trimmed
      ensures var e := u.ltp[u.blocks[q].lba[0]]; e.trim && e.pba == q && e.hash == u.blocks[q].hash
    {
      assert u.blocks[q] == t.blocks[q];
    }
  }

  /** A block in use gains one LBA that no block served. */
  lemma EnlistKeeps(t: Tables, u: Tables, p: nat, lba: nat, hash: string)
    requires Consistent(t) && Joined(t, u, p, lba, hash)
    requires !t.ltp[lba].valid && NotRetiredElsewhere(t, p, lba)
    ensures Consistent(u)
  {
    hide Joined, Forward, Backward, Distinct, Retired, NotRetiredElsewhere;
    JoinedForward(t, u, p, lba, hash);
    JoinedBackward(t, u, p, lba, hash);
    JoinedRetired(t, u, p, lba, hash);
  }

  function Transposed(p: nat, from: nat, to: nat): nat {
    if p == from then to else if p == to then from else p
  }

  /** The LBAs in the list of a block that holds data: exactly those that lead to it when it is in
      use, and the one that left it last when it is trimmed. */
  lemma ActiveExactly(t: Tables, p: nat, l: nat)
    requires Consistent(t) && p < |t.blocks| && t.blocks[p].status != Free && l < |t.ltp|
    ensures t.blocks[p].status == InUse ==> (l in Active(t.blocks[p]) <==> t.ltp[l].valid && t.ltp[l].pba == p)
    ensures t.blocks[p].status == Trimmed ==> (l in Active(t.blocks[p]) <==> l == t.blocks[p].lba[0])
    ensures l in Active(t.blocks[p]) ==> t.ltp[l].pba == p && (t.ltp[l].valid <==> t.blocks[p].status == InUse)
  {
    var b := t.blocks[p];
    if l in Active(b) {
      var i :| 0 <= i < |Active(b)| && Active(b)[i] == l;
      assert b.lba[i] == l;
    }
    if b.status == InUse && t.ltp[l].valid && t.ltp[l].pba == p {
      assert Lists(b, l);
      var i :| 0 <= i <= b.refs && b.lba[i] == l;
      assert Active(b)[i] == l;
    }
    if b.status == Trimmed {
      assert Active(b)[0] == b.lba[0];
    }
  }

  /** The LBA table after the exchange: an LBA on one of the two lists moves with its block. */
  ghost predicate Follows(t: Tables, u: Tables, from: nat, to: nat)
    requires from < |t.blocks| && to < |t.blocks| && t.blocks[from].refs < |t.blocks[from].lba| &&
             t.blocks[to].refs < |t.blocks[to].lba|
  {
    && |u.ltp| == |t.ltp| && |u.blocks| == |t.blocks|
    && (forall l :: 0 <= l < |t.ltp| ==>
          u.ltp[l] == t.ltp[l].(pba := if l in Active(t.blocks[from]) || l in Active(t.blocks[to])
            then Transposed(t.ltp[l].pba, from, to)
                                       else t.ltp[l].pba))
    && (forall p: nat :: p < |t.blocks| ==> u.blocks[p] == t.blocks[Transposed(p, from, to)])
  }

  /** The two loops of ltp_table_swap, entry by entry. */
  lemma RedirectTwice(ltp: seq<Entry>, a: seq<nat>, b: seq<nat>, from: nat, to: nat)
    requires (forall k :: 0 <= k < |a| ==> a[k] < |ltp|) && (forall k :: 0 <= k < |b| ==> b[k] < |ltp|) && from != to
    requires forall l :: 0 <= l < |ltp| && l in a ==> ltp[l].pba == from
    requires forall l :: 0 <= l < |ltp| && l in b ==> ltp[l].pba == to
    ensures var u := Redirect(Redirect(ltp, a, to), b, from);
            && |u| == |ltp|
            && forall l :: 0 <= l < |ltp| ==>
                 u[l] == ltp[l].(pba := if l in a || l in b then Transposed(ltp[l].pba, from, to) else ltp[l].pba)
  {
  }

  lemma ExchangeFollows(t: Tables, from: nat, to: nat)
    requires Consistent(t) && from < |t.blocks| && to < |t.blocks| && from != to
    requires t.blocks[from].status != Free && t.blocks[to].status != Free
    ensures Follows(t, Exchange(t, from, to), from, to)
  {
    hide Forward, Backward, Distinct, Retired, Redirect;
    forall l | 0 <= l < |t.ltp|
      ensures l in Active(t.blocks[from]) ==> t.ltp[l].pba == from
      ensures l in Active(t.blocks[to]) ==> t.ltp[l].pba == to
    {
      ActiveExactly(t, from, l);
      ActiveExactly(t, to, l);
    }
    RedirectTwice(t.ltp, Active(t.blocks[from]), Active(t.blocks[to]), from, to);
  }

  lemma FollowsForward(t: Tables, u: Tables, from: nat, to: nat)
    requires Consistent(t) && from < |t.blocks| && to < |t.blocks| && from != to
    requires t.blocks[from].status != Free && t.blocks[to].status != Free
    requires Follows(t, u, from, to)
    ensures Shaped(u) && Forward(u)
    ensures forall l :: 0 <= l < |t.ltp| && t.ltp[l].valid ==>
              u.ltp[l] == t.ltp[l].(pba := Transposed(t.ltp[l].pba, from, to))
  {
    assert Shaped(u);
    forall l | 0 <= l < |t.ltp| && t.ltp[l].valid
      ensures u.ltp[l] == t.ltp[l].(pba := Transposed(t.ltp[l].pba, from, to))
      ensures u.blocks[u.ltp[l].pba] == t.blocks[t.ltp[l].pba]
    {
      ActiveExactly(t, from, l);
      ActiveExactly(t, to, l);
    }
    forall l | 0 <= l < |u.ltp| && u.ltp[l].valid
      ensures !u.ltp[l].trim && Serves(u.blocks[u.ltp[l].pba], u.ltp[l].hash) && Lists(u.blocks[u.ltp[l].pba], l)
    {
      assert Lists(t.blocks[t.ltp[l].pba], l);
    }
  }

  lemma FollowsBackward(t: Tables, u: Tables, from: nat, to: nat)
    requires Consistent(t) && from < |t.blocks| && to < |t.blocks| && from != to
    requires t.blocks[from].status != Free && t.blocks[to].status != Free
    requires Follows(t, u, from, to) && Shaped(u)
    requires forall l :: 0 <= l < |t.ltp| && t.ltp[l].valid ==>
               u.ltp[l] == t.ltp[l].(pba := Transposed(t.ltp[l].pba, from, to))
    ensures Backward(u) && Distinct(u)
  {
    forall p, i | 0 <= p < |u.blocks| && u.blocks[p].status == InUse && 0 <= i <= u.blocks[p].refs
      ensures u.ltp[u.blocks[p].lba[i]].valid && u.ltp[u.blocks[p].lba[i]].pba == p
    {
      var q := Transposed(p, from, to);
      var l := t.blocks[q].lba[i];
      assert t.ltp[l].valid && t.ltp[l].pba == q;
    }
    forall p | 0 <= p < |u.blocks| && u.blocks[p].status == InUse
      ensures ListedOnce(u.blocks[p])
    {
      var q := Transposed(p, from, to);
      assert ListedOnce(t.blocks[q]);
    }
  }

  lemma FollowsRetired(t: Tables, u: Tables, from: nat, to: nat)
    requires Consistent(t) && from < |t.blocks| && to < |t.blocks| && from != to
    requires t.blocks[from].status != Free && t.blocks[to].status != Free
    requires Follows(t, u, from, to) && Shaped(u)
    ensures Retired(u)
  {
    forall p | 0 <= p < |u.blocks| && u.blocks[p].status == Trimmed
      ensures var e := u.ltp[u.blocks[p].lba[0]]; e.trim && e.pba == p && e.hash == u.blocks[p].hash
    {
      var q := Transposed(p, from, to);
      var l := t.blocks[q].lba[0];
      assert t.ltp[l].trim && t.ltp[l].pba == q && t.ltp[l].hash == t.blocks[q].hash;
      ActiveExactly(t, q, l);
      ActiveExactly(t, from, l);
      ActiveExactly(t, to, l);
    }
  }

  /** Two tracks that hold data change places: every valid LBA moves with its block, so it still
      reaches the same hash, list and count. */
  lemma ExchangeKeeps(t: Tables, from: nat, to: nat)
    requires Consistent(t) && from < |t.blocks| && to < |t.blocks| && from != to
    requires t.blocks[from].status != Free && t.blocks[to].status != Free
    ensures var u := Exchange(t, from, to);
            && Consistent(u)
            && (forall p: nat :: p < |t.blocks| ==> u.blocks[p] == t.blocks[Transposed(p, from, to)])
            && (forall l :: 0 <= l < |t.ltp| && t.ltp[l].valid ==>
                  && u.ltp[l] == t.ltp[l].(pba := Transposed(t.ltp[l].pba, from, to))
                  && u.blocks[u.ltp[l].pba] == t.blocks[t.ltp[l].pba])
  {
    var u := Exchange(t, from, to);
    ExchangeFollows(t, from, to);
    FollowsForward(t, u, from, to);
    FollowsBackward(t, u, from, to);
    FollowsRetired(t, u, from, to);
  }

  lemma FollowsTwice(t: Tables, u: Tables, v: Tables, from: nat, to: nat)
    requires from < |t.blocks| && to < |t.blocks| && from != to
    requires t.blocks[from].refs < |t.blocks[from].lba| && t.blocks[to].refs < |t.blocks[to].lba|
    requires |u.blocks| == |t.blocks| && u.blocks[from] == t.blocks[to] && u.blocks[to] == t.blocks[from]
    requires Follows(t, u, from, to) && Follows(u, v, from, to)
    ensures v.blocks == t.blocks && v.ltp == t.ltp
  {
    forall p | 0 <= p < |t.blocks|
      ensures v.blocks[p] == t.blocks[p]
    {
      assert v.blocks[p] == u.blocks[Transposed(p, from, to)];
    }
    forall l | 0 <= l < |t.ltp|
      ensures v.ltp[l] == t.ltp[l]
    {
      var e := u.ltp[l];
      assert e.pba == if l in Active(t.blocks[from]) || l in Active(t.blocks[to])
        then Transposed(t.ltp[l].pba, from, to) else t.ltp[l].pba;
    }
  }

  /** Exchanging the same two tracks twice restores both tables. */
  lemma ExchangeTwice(t: Tables, from: nat, to: nat)
    requires Consistent(t) && from < |t.blocks| && to < |t.blocks| && from != to
    requires t.blocks[from].status != Free && t.blocks[to].status != Free
    ensures Consistent(Exchange(t, from, to))
    ensures Exchange(Exchange(t, from, to), from, to) == t
  {
    var u := Exchange(t, from, to);
    ExchangeKeeps(t, from, to);
    ExchangeFollows(t, from, to);
    ExchangeFollows(u, from, to);
    FollowsTwice(t, u, Exchange(u, from, to), from, to);
  }
}
