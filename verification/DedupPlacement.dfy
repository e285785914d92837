/** Where a write of the deduplicating layer puts its content, and how many accesses that takes, described by the
    tables alone. */
module DedupPlacement {
  import opened DiskTypes
  import opened DedupSpec

  // ---- new content for an LBA that has a track -------------------------------------------------

  /** A top that several LBAs share. */
  predicate SharedTop(blocks: seq<Block>, t: nat) {
    t < |blocks| && t % 2 == 1 && blocks[t].status == InUse && blocks[t].refs > 0
  }

  /** Track p has a neighbour in use. For track 0 the code also asks the word in front of the table. */
  ghost predicate Beside(blocks: seq<Block>, p: nat, below: bool) {
    (exists r: nat :: r < |blocks| && (r + 1 == p || r == p + 1) && blocks[r].status == InUse) || (p == 0 && below)
  }

  /** New content for track p is worth a swap: the track is an unshared bottom beside a track in use, and there is
      a shared top. */
  ghost predicate SwapIsDue(blocks: seq<Block>, p: nat, below: bool) {
    && p < |blocks| && p % 2 == 0 && blocks[p].refs == 0 && Beside(blocks, p, below)
    && exists t: nat :: SharedTop(blocks, t)
  }

  /** The first of the most shared tops. */
  ghost predicate MostShared(blocks: seq<Block>, q: nat) {
    && SharedTop(blocks, q)
    && forall t: nat :: SharedTop(blocks, t) ==>
         if t < q then blocks[t].refs < blocks[q].refs else blocks[t].refs <= blocks[q].refs
  }

  /** The track q that new content for track p ends on. */
  ghost predicate Lands(blocks: seq<Block>, p: nat, below: bool, q: nat) {
    if SwapIsDue(blocks, p, below) then MostShared(blocks, q) else q == p
  }

  lemma WantsSwapExactly(blocks: seq<Block>, p: nat, below: bool)
    requires p < |blocks|
    ensures WantsSwap(blocks, p, below) <==> p % 2 == 0 && blocks[p].refs == 0 && Beside(blocks, p, below)
  {
    if Beside(blocks, p, below) && !(p == 0 && below) {
      var r: nat :| r < |blocks| && (r + 1 == p || r == p + 1) && blocks[r].status == InUse;
    }
    if WantsSwap(blocks, p, below) && !(p == 0 && below) {
      assert (p > 0 && blocks[p - 1].status == InUse) || blocks[p + 1].status == InUse;
    }
  }

  lemma BestTopExactly(blocks: seq<Block>)
    ensures match BestTop(blocks, |blocks|)
            case None => !exists t: nat :: SharedTop(blocks, t)
            case Some(q) => MostShared(blocks, q)
  {
    hide BestTop;
    assert forall t: nat :: SharedTop(blocks, t) <==> Candidate(blocks, t);
  }

  lemma UpdateLands(t: Tables, p: nat, below: bool)
    requires Shaped(t) && p < |t.blocks| && t.blocks[p].status != Free
    ensures Lands(t.blocks, p, below, Updated(t, p, below).1)
  {
    hide Beside, WantsSwap, BestTop, BlockSwap;
    WantsSwapExactly(t.blocks, p, below);
    BestTopExactly(t.blocks);
  }

  /** Other content for an LBA with a track, valid or trimmed, ends on that track, or on the first of the most
      shared tops exactly when a swap is due. */
  lemma RewriteLands(t: Tables, lba: nat, hash: string, env: Env)
    requires Consistent(t) && lba < |t.ltp| && PickOk(t, env)
    requires (t.ltp[lba].valid || t.ltp[lba].trim) && t.ltp[lba].hash != hash
    ensures var u := Write(t, lba, hash, env).0;
            lba < |u.ltp| && u.ltp[lba].valid && Lands(t.blocks, t.ltp[lba].pba, env.below, u.ltp[lba].pba)
  {
    hide Updated, Lands, Finish;
    UpdateLands(t, t.ltp[lba].pba, env.below);
    FinishKeepsLtp(Searched(t, lba, hash, env).value, lba, hash, env.heap);
  }

  lemma FinishKeepsLtp(s: Search, lba: nat, hash: string, heap: nat -> nat)
    requires Addressable(s)
    ensures Finish(s, lba, hash, heap).0.ltp == s.t.ltp && Finish(s, lba, hash, heap).1 in {Done, SharedUpdate}
  {
  }

  // ---- content for an LBA without a track ------------------------------------------------------

  /** A first write: content that is on the disk already, in a block in use or a trimmed one, costs no track; the
      LBA joins the lowest track that has it. Other content goes to the track of the allocator. */
  lemma FirstWriteLands(t: Tables, lba: nat, hash: string, env: Env)
    requires Consistent(t) && lba < |t.ltp| && PickOk(t, env) && !t.ltp[lba].valid && !t.ltp[lba].trim && hash != ""
    ensures var (u, o) := Write(t, lba, hash, env);
            if exists p: nat :: p < |t.blocks| && t.blocks[p].hash == hash then
              && o == Done && lba < |u.ltp| && u.used == t.used
              && var q := u.ltp[lba].pba;
                 && q < |t.blocks| && t.blocks[q].hash == hash
                 && (forall p: nat :: p < q ==> t.blocks[p].hash != hash)
                 && (forall p: nat :: p < |t.blocks| && p != q ==> p < |u.blocks| && u.blocks[p] == t.blocks[p])
            else if env.pick.Some? then
              o == Done && lba < |u.ltp| && u.ltp[lba].pba == env.pick.value && u.used == t.used + 1
            else o == DiskFull && u == t
  {
    var f := FindHash(t.blocks, hash, 0);
    if f.Some? {
      assert t.blocks[f.value].hash == hash;
    }
  }

  /** A list is made longer exactly when it is full, and then to twice its capacity. */
  lemma ListGrowsExactly(t: Tables, p: nat, lba: nat, last: nat, heap: nat -> nat)
    requires p < |t.blocks| && t.blocks[p].refs <= |t.blocks[p].lba| && |t.blocks[p].lba| > 0
    ensures var b, d := t.blocks[p], EnlistWithin(t, p, lba, last, heap).blocks[p];
            |d.lba| == if b.refs == |b.lba| then 2 * |b.lba| else |b.lba|
  {
    hide Meets;
  }

  // ---- accesses --------------------------------------------------------------------------------

  /** How often the tracks have been written. */
  function Accesses(blocks: seq<Block>): nat {
    if blocks == [] then 0 else Accesses(blocks[..|blocks| - 1]) + blocks[|blocks| - 1].count
  }

  lemma {:induction false} OneBlockChanges(blocks: seq<Block>, p: nat, b: Block)
    requires p < |blocks|
    ensures Accesses(blocks[p := b]) == Accesses(blocks) - blocks[p].count + b.count
    decreases |blocks|
  {
    var n := |blocks| - 1;
    if p == n {
      assert blocks[p := b][..n] == blocks[..n];
    } else {
      assert blocks[p := b][..n] == blocks[..n][p := b];
      OneBlockChanges(blocks[..n], p, b);
    }
  }

  lemma SwapAccesses(t: Tables, from: nat, to: nat)
    requires ListsInRange(t, from) && ListsInRange(t, to) && from != to
    ensures var u := BlockSwap(t, from, to);
            && Accesses(u.blocks) == Accesses(t.blocks) + 1
            && from < |u.blocks| && u.blocks[from].refs == t.blocks[to].refs
  {
    hide Redirect;
    var mid := Touch(t, to).blocks;
    OneBlockChanges(t.blocks, to, mid[to]);
    OneBlockChanges(mid, from, mid[to]);
    OneBlockChanges(mid[from := mid[to]], to, mid[from]);
  }

  lemma UpdateAccesses(t: Tables, p: nat, below: bool)
    requires Shaped(t) && p < |t.blocks| && t.blocks[p].status != Free
    ensures var (u, q) := Updated(t, p, below);
            && Accesses(u.blocks) == Accesses(t.blocks) + (if q != p then 1 else 0)
            && u.blocks[q].refs == t.blocks[p].refs && (q != p ==> t.blocks[p].refs == 0)
  {
    hide Accesses, BlockSwap;
    var top := BestTop(t.blocks, |t.blocks|);
    if WantsSwap(t.blocks, p, below) && top.Some? {
      SwapAccesses(t, top.value, p);
    }
  }

  /** The end of a write: one access for content that is stored, and none for content that is there. */
  lemma FinishAccesses(s: Search, lba: nat, hash: string, heap: nat -> nat)
    requires Addressable(s)
    ensures var (u, o) := Finish(s, lba, hash, heap);
            Accesses(u.blocks) == Accesses(s.t.blocks) + if s.pass || s.t.blocks[s.p].refs > 0 then 0 else 1
  {
    hide Accesses;
    var u := Finish(s, lba, hash, heap).0;
    OneBlockChanges(s.t.blocks, s.p, u.blocks[s.p]);
    assert u.blocks == s.t.blocks[s.p := u.blocks[s.p]];
  }

  /** The search: one access when it swaps two tracks. */
  lemma SearchAccesses(t: Tables, lba: nat, hash: string, env: Env)
    requires Consistent(t) && lba < |t.ltp| && PickOk(t, env) && Searched(t, lba, hash, env).Some?
    ensures var e, s := t.ltp[lba], Searched(t, lba, hash, env).value;
            && |s.t.ltp| == |t.ltp| && s.t.ltp[lba].pba == s.p
            && Accesses(s.t.blocks) == Accesses(t.blocks) +
                 (if (e.valid || e.trim) && e.hash != hash && s.p != e.pba then 1 else 0)
            && (s.pass || s.t.blocks[s.p].refs > 0 <==>
                 if !e.valid && !e.trim then FindHash(t.blocks, hash, 0).Some?
                 else e.hash == hash || t.blocks[e.pba].refs > 0)
            && (s.p != e.pba && (e.valid || e.trim) && e.hash != hash ==> t.blocks[e.pba].refs == 0)
  {
    hide Accesses, Updated;
    var e, s := t.ltp[lba], Searched(t, lba, hash, env).value;
    if (e.valid || e.trim) && e.hash != hash {
      UpdateAccesses(t, e.pba, env.below);
    } else {
      assert s.t.blocks == t.blocks[s.p := s.t.blocks[s.p]];
      OneBlockChanges(t.blocks, s.p, s.t.blocks[s.p]);
    }
  }

  /** What a write that completes costs: one access for content that is stored and one more when the tracks are
      swapped for it; content that its LBA joins or already has costs none. */
  lemma WriteAccesses(t: Tables, lba: nat, hash: string, env: Env)
    requires Consistent(t) && lba < |t.ltp| && PickOk(t, env) && Write(t, lba, hash, env).1 == Done
    ensures var e, u := t.ltp[lba], Write(t, lba, hash, env).0;
            && lba < |u.ltp|
            && Accesses(u.blocks) == Accesses(t.blocks) +
                 if e.valid || e.trim then
                   if e.hash == hash then 0 else if u.ltp[lba].pba != e.pba then 2
                   else if t.blocks[e.pba].refs > 0 then 0 else 1
                 else if exists p: nat :: p < |t.blocks| && t.blocks[p].hash == hash then 0 else 1
  {
    hide Accesses, Updated, Finish;
    var e, s := t.ltp[lba], Searched(t, lba, hash, env).value;
    FinishAccesses(s, lba, hash, env.heap);
    FinishKeepsLtp(s, lba, hash, env.heap);
    SearchAccesses(t, lba, hash, env);
    assert FindHash(t.blocks, hash, 0).Some? ==> t.blocks[FindHash(t.blocks, hash, 0).value].hash == hash;
  }
}
