/** What a block swap achieves, and the one comparison behind most writes that lose the mapping. */
module DedupLimits {
  import opened DiskTypes
  import opened DedupSpec
  import opened DedupWrite
  import opened DedupPlacement

  // ---- block swaps -------------------------------------------------------------------------

  function SharedTops(blocks: seq<Block>): set<nat> {
    set p | 0 <= p < |blocks| && Candidate(blocks, p)
  }

  /** Track q loses its sharers, which go to the bottom p if q is another track. */
  lemma SharersMove(b: seq<Block>, c: seq<Block>, p: nat, q: nat)
    requires |c| == |b| && p < |b| && q < |b| && c[q].refs == 0
    requires forall r :: 0 <= r < |b| && r != p && r != q ==> c[r] == b[r]
    requires if p == q then b[p].refs == 0 else !IsTop(p) && Candidate(b, q)
    ensures SharedTops(c) == if p == q then SharedTops(b) else SharedTops(b) - {q}
    ensures |SharedTops(c)| == if p == q then |SharedTops(b)| else |SharedTops(b)| - 1
  {
    forall r: nat | r < |b|
      ensures r in SharedTops(c) <==> r in SharedTops(b) && (p == q || r != q)
    {
    }
    assert SharedTops(c) == if p == q then SharedTops(b) else SharedTops(b) - {q};
    assert p != q ==> q in SharedTops(b);
  }

  lemma UpdatedShape(t: Tables, p: nat, below: bool)
    requires Consistent(t) && p < |t.blocks| && t.blocks[p].status == InUse && t.blocks[p].refs == 0
    ensures var (v, q), top := Updated(t, p, below), BestTop(t.blocks, |t.blocks|);
            && |v.blocks| == |t.blocks| && v.blocks[q].refs == 0
            && (forall r :: 0 <= r < |t.blocks| && r != p && r != q ==> v.blocks[r] == t.blocks[r])
            && if WantsSwap(t.blocks, p, below) && top.Some?
               then q == top.value && v.blocks[p] == t.blocks[q] && !IsTop(p) else q == p
  {
  }

  lemma UpdateShape(t: Tables, lba: nat, hash: string, env: Env)
    requires Consistent(t) && lba < |t.ltp| && t.ltp[lba].valid && t.ltp[lba].hash != hash && PickOk(t, env)
    requires t.blocks[t.ltp[lba].pba].refs == 0
    ensures var p, top := t.ltp[lba].pba, BestTop(t.blocks, |t.blocks|);
            var u, q := Write(t, lba, hash, env).0, if WantsSwap(t.blocks, p, env.below) && top.Some? then top.value
              else p;
            && Write(t, lba, hash, env).1 == Done && lba < |u.ltp|
            && |u.blocks| == |t.blocks| && u.ltp[lba].pba == q && u.blocks[q].refs == 0
            && (q != p ==> u.blocks[p] == t.blocks[q] && !IsTop(p))
            && forall r :: 0 <= r < |t.blocks| && r != p && r != q ==> u.blocks[r] == t.blocks[r]
  {
    hide Updated, WantsSwap, BestTop;
    UpdatedShape(t, t.ltp[lba].pba, env.below);
  }

  /** New content for an unshared LBA on a bottom beside a track in use, while a top is shared: the LBA trades
      places with the first of the most shared tops, exactly that top stops being shared, and its block is now the
      bottom's. Any other update leaves the LBA on its track and the shared tops alone. */
  lemma SwapProgress(t: Tables, lba: nat, hash: string, env: Env)
    requires Consistent(t) && lba < |t.ltp| && t.ltp[lba].valid && t.ltp[lba].hash != hash && PickOk(t, env)
    requires t.blocks[t.ltp[lba].pba].refs == 0
    ensures Write(t, lba, hash, env).1 == Done
    ensures var u, p := Write(t, lba, hash, env).0, t.ltp[lba].pba;
            var q := u.ltp[lba].pba;
            if p % 2 == 0 && Beside(t.blocks, p, env.below) && SharedTops(t.blocks) != {} then
              && MostShared(t.blocks, q)
              && u.blocks[p] == t.blocks[q]
              && SharedTops(u.blocks) == SharedTops(t.blocks) - {q}
              && |SharedTops(u.blocks)| == |SharedTops(t.blocks)| - 1
            else q == p && SharedTops(u.blocks) == SharedTops(t.blocks)
  {
    hide WantsSwap, Beside, MostShared, BestTop, Write;
    var u, p := Write(t, lba, hash, env).0, t.ltp[lba].pba;
    UpdateShape(t, lba, hash, env);
    WantsSwapExactly(t.blocks, p, env.below);
    BestTopExactly(t.blocks);
    SharedTopsExactly(t.blocks);
    SharersMove(t.blocks, u.blocks, p, u.ltp[lba].pba);
  }

  lemma SharedTopsExactly(blocks: seq<Block>)
    ensures SharedTops(blocks) != {} <==> exists t: nat :: SharedTop(blocks, t)
    ensures forall q: nat :: MostShared(blocks, q) ==> SharedTop(blocks, q)
  {
    forall t: nat
      ensures t in SharedTops(blocks) <==> SharedTop(blocks, t)
    {
    }
  }

  // ---- the count of block 0 ----------------------------------------------------------------

  /** A rewrite of unchanged content is safe while block 0 is referenced at least as often. */
  lemma RewriteSafeBelowBlockZero(t: Tables, lba: nat, heap: nat -> nat)
    requires Consistent(t) && lba < |t.ltp| && t.ltp[lba].valid
    requires t.blocks[t.ltp[lba].pba].refs <= t.blocks[0].refs
    ensures WriteGuard(t, lba, t.ltp[lba].hash, heap)
  {
    var b := t.blocks[t.ltp[lba].pba];
    assert Lists(b, lba);
    var i :| 0 <= i <= b.refs && b.lba[i] == lba;
    assert Load(b, i, heap) == lba;
  }

  /** A duplicate write is safe while block 0 is referenced at most as often: the opposite comparison. */
  lemma DuplicateSafeAboveBlockZero(t: Tables, lba: nat, hash: string, heap: nat -> nat)
    requires Consistent(t) && lba < |t.ltp| && !t.ltp[lba].valid && !t.ltp[lba].trim
    requires FindHash(t.blocks, hash, 0).Some?
    requires t.blocks[0].refs <= t.blocks[FindHash(t.blocks, hash, 0).value].refs + 1
    requires hash != ""
    ensures WriteGuard(t, lba, hash, heap)
  {
    var p := FindHash(t.blocks, hash, 0).value;
    var b := t.blocks[p];
    if b.status != Trimmed {
      InvalidIsNotListed(t, p, lba);
      assert forall i: nat :: i <= b.refs ==> Load(b, i, heap) != lba;
    }
  }

  /** With the block's own count in place of block 0's, both walks would always be safe. */
  lemma OwnCountWouldDo(t: Tables, p: nat, lba: nat, heap: nat -> nat)
    requires Consistent(t) && p < |t.blocks| && t.blocks[p].status == InUse && lba < |t.ltp|
    ensures t.ltp[lba].valid && t.ltp[lba].pba == p ==> Meets(t.blocks[p], lba, t.blocks[p].refs, heap)
    ensures var b := Gain(t, p).blocks[p];
            !t.ltp[lba].valid && Meets(b, lba, b.refs, heap) ==> Load(b, b.refs, heap) == lba
  {
    var b := t.blocks[p];
    if t.ltp[lba].valid && t.ltp[lba].pba == p {
      assert Lists(b, lba);
      var i :| 0 <= i <= b.refs && b.lba[i] == lba;
      assert Load(b, i, heap) == lba;
    }
    if !t.ltp[lba].valid {
      InvalidIsNotListed(t, p, lba);
      assert forall i: nat :: i <= b.refs ==> Load(b, i, heap) != lba;
    }
  }
}
