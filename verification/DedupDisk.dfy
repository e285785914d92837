/** The deduplicating disk itself: the block table, the LBA table and the hash index, updated in place
    (src/lba.c, src/pba.c, src/active_swap.c, src/block_swap.c, src/chs.c). */
module DedupDisk {
  import opened DiskTypes
  import opened DedupSpec
  import opened DedupWrite
  import opened DedupRuns
  import opened DedupPlacement
  import opened HashIndex

  function BlockKeys(blocks: seq<Block>): (keys: seq<string>)
    ensures |keys| == |blocks|
    ensures forall i :: 0 <= i < |blocks| ==> keys[i] == blocks[i].hash
  {
    seq(|blocks|, i requires 0 <= i < |blocks| => blocks[i].hash)
  }

  lemma BlockKeysUpdate(blocks: seq<Block>, p: nat, b: Block)
    requires p < |blocks|
    ensures BlockKeys(blocks[p := b]) == BlockKeys(blocks)[p := b.hash]
  {
  }

  /** The index holds every non-empty block hash as often as the blocks do; a cell is free for every
      block without content. */
  ghost predicate Mirrors(cells: seq<Cell>, blocks: seq<Block>) {
    |cells| == |blocks| && Keys(cells) == multiset(BlockKeys(blocks))
  }

  /** What phase 1 of the allocator knows: the bottoms below `current` are taken, all other tracks are
      free, and at least as many blocks count as used. Afterwards nothing is promised. */
  ghost predicate Placed(blocks: seq<Block>, used: nat, phase1: bool, current: nat, full: bool) {
    phase1 ==>
      && |blocks| % 2 == 0 && current % 2 == 0 && current + 2 <= |blocks|
      && (full ==> current + 2 == |blocks|)
      && (forall p :: 0 <= p < |blocks| ==> (IsFree(blocks[p].status) <==> IsTop(p) || (!full && current <= p)))
      && (if full then |blocks| / 2 else current / 2) <= used
  }

  lemma TwoKeys(s: seq<string>, i: nat, j: nat)
    requires i < |s| && j < |s| && i != j && s[j] != ""
    ensures s[i] in multiset(s) && s[j] in multiset(s) - multiset{s[i]}
  {
    assert s[i := ""][j] == s[j];
    assert s[j] in multiset(s[i := ""]);
  }

  /** Two keys leave and come back. */
  lemma OutAndIn(m: multiset<string>, a: string, b: string)
    requires a in m && b in m - multiset{a}
    ensures var out := m - multiset{a} + multiset{""} - multiset{b} + multiset{""};
            out - multiset{""} + multiset{b} - multiset{""} + multiset{a} == m
  {
  }

  lemma SwappedSeq(s: seq<string>, i: nat, j: nat)
    requires i < |s| && j < |s| && i != j
    ensures multiset(s[i := s[j]][j := s[i]]) == multiset(s)
  {
    var r := s[i := s[j]];
    assert multiset(r) == multiset(s) - multiset{s[i]} + multiset{s[j]};
    assert multiset(r[j := s[i]]) == multiset(r) - multiset{r[j]} + multiset{s[i]};
  }

  /** Two blocks change places: the same hashes, taken out of the index and put back. */
  lemma SwappedKeys(blocks: seq<Block>, from: nat, to: nat)
    requires from < |blocks| && to < |blocks| && from != to && blocks[to].hash != ""
    ensures var m, a, b := multiset(BlockKeys(blocks)), blocks[from].hash, blocks[to].hash;
            && a in m && b in m - multiset{a}
            && m - multiset{a} + multiset{""} - multiset{b} + multiset{""} - multiset{""} +
               multiset{b} - multiset{""} + multiset{a} == m
            && multiset(BlockKeys(blocks[from := blocks[to]][to := blocks[from]])) == m
  {
    var keys := BlockKeys(blocks);
    TwoKeys(keys, from, to);
    OutAndIn(multiset(keys), keys[from], keys[to]);
    BlockKeysUpdate(blocks, from, blocks[to]);
    BlockKeysUpdate(blocks[from := blocks[to]], to, blocks[from]);
    SwappedSeq(keys, from, to);
  }

  lemma ShiftedList(b: Block, index: nat, list: seq<nat>)
    requires index <= b.refs < |b.lba| == |list|
    requires forall k :: 0 <= k < b.refs ==> list[k] == b.lba[if k < index then k else k + 1]
    requires forall k :: b.refs <= k < |b.lba| ==> list[k] == b.lba[k]
    ensures list == Delisted(b, index).lba
  {
  }

  lemma SwapEitherWay(s: seq<Block>, i: nat, j: nat)
    requires i < |s| && j < |s| && i != j
    ensures s[i := s[j]][j := s[i]] == s[j := s[i]][i := s[j]]
  {
  }

  lemma TouchedKeys(t: Tables, p: nat)
    requires p < |t.blocks|
    ensures |Touch(t, p).blocks| == |t.blocks| && BlockKeys(Touch(t, p).blocks) == BlockKeys(t.blocks)
  {
  }

  lemma RekeyedBlocks(t: Tables, p: nat, lba: nat, hash: string)
    requires p < |t.blocks| && |t.blocks[p].lba| > 0
    ensures multiset(BlockKeys(Store(t, p, lba, hash).blocks)) ==
            multiset(BlockKeys(t.blocks)) - multiset{t.blocks[p].hash} + multiset{hash}
  {
    var u := Store(t, p, lba, hash);
    assert u.blocks == t.blocks[p := u.blocks[p]];
    BlockKeysUpdate(t.blocks, p, u.blocks[p]);
    assert BlockKeys(t.blocks)[p] == t.blocks[p].hash;
  }

  lemma UpdatedPlaces(t: Tables, p: nat, below: bool, phase1: bool, current: nat, full: bool)
    requires Shaped(t) && p < |t.blocks| && t.blocks[p].status != Free
    requires Placed(t.blocks, t.used, phase1, current, full)
    ensures var (u, q) := Updated(t, p, below);
            Placed(u.blocks, u.used, phase1, current, full) && u.blocks[q].status in {InUse, Trimmed}
  {
  }

  /** Before the end of a write, only the allocator takes tracks, and no step frees one. */
  lemma SearchPlaces(t: Tables, lba: nat, hash: string, env: Env, phase1: bool, current: nat, full: bool)
    requires Consistent(t) && lba < |t.ltp| && (t.ltp[lba].trim || t.ltp[lba].valid) && PickOk(t, env)
    requires Placed(t.blocks, t.used, phase1, current, full)
    ensures var s := Searched(t, lba, hash, env).value;
            && Placed(s.t.blocks, s.t.used, phase1, current, full)
            && s.t.blocks[s.p].status in {InUse, Trimmed}
  {
    if t.ltp[lba].hash != hash {
      hide Updated, Placed;
      UpdatedPlaces(t, t.ltp[lba].pba, env.below, phase1, current, full);
    }
  }

  /** The end of a write: a booked track comes into use and is counted. */
  lemma FinishPlaces(s: Search, lba: nat, hash: string, heap: nat -> nat, phase1: bool, current: nat, full: bool)
    requires Addressable(s) && s.t.blocks[s.p].status in {Booked, InUse, Trimmed}
    requires s.pass || s.t.blocks[s.p].refs > 0 ==> s.t.blocks[s.p].status != Booked
    requires Placed(s.t.blocks, if s.t.blocks[s.p].status == Booked then s.t.used + 1 else s.t.used, phase1, current,
             full)
    ensures var u := Finish(s, lba, hash, heap).0; Placed(u.blocks, u.used, phase1, current, full)
  {
  }

  lemma NothingIndexed(cells: seq<Cell>, blocks: seq<Block>)
    requires |cells| == |blocks|
    requires forall i :: 0 <= i < |cells| ==> cells[i] == Null && blocks[i].hash == ""
    ensures Mirrors(cells, blocks)
  {
    assert CellKeys(cells) == BlockKeys(blocks);
  }

  lemma NoTopYet(s: seq<Block>)
    ensures BestTop(s, 0) == None && (|s| > 0 ==> BestTop(s, 1) == None)
  {
  }

  /** From one top to the next. */
  lemma BestTopNext(s: seq<Block>, i: nat)
    requires i < |s| && IsTop(i)
    ensures var best := BestTop(s, i);
            BestTop(s, i + 1) == if s[i].status == InUse && s[i].refs > (if best.Some? then s[best.value].refs else 0)
              then Some(i) else best
    ensures i + 2 <= |s| ==> BestTop(s, i + 2) == BestTop(s, i + 1)
  {
    hide BestTop;
    BestTopOnce(s, i);
    if i + 2 <= |s| {
      BottomIsNoCandidate(s, i + 1);
      BestTopOnce(s, i + 1);
    }
  }

  lemma BottomIsNoCandidate(s: seq<Block>, b: nat)
    requires !IsTop(b)
    ensures !Candidate(s, b)
  {
  }

  lemma BestTopOnce(s: seq<Block>, i: nat)
    requires i < |s|
    ensures var best := BestTop(s, i);
            BestTop(s, i + 1) == if Candidate(s, i) && (best.None? || s[i].refs > s[best.value].refs) then Some(i)
              else best
  {
  }

  lemma SearchReady(t: Tables, lba: nat, hash: string, env: Env)
    requires Consistent(t) && lba < |t.ltp| && PickOk(t, env) && hash != "" && Searched(t, lba, hash, env).Some?
    ensures var s := Searched(t, lba, hash, env).value;
            && s.t.blocks[s.p].status in {Booked, InUse, Trimmed}
            && (s.pass || s.t.blocks[s.p].refs > 0 ==> s.t.blocks[s.p].status != Booked)
  {
    if t.ltp[lba].trim || t.ltp[lba].valid {
      hide Searched, Consistent;
      SearchPlaces(t, lba, hash, env, false, 0, false);
    }
  }

  class Disk {
    const blocks: array<Block>
    const ltp: array<Entry>
    const index: HashTable
    /** current_use_block_num */
    var used: nat
    /** current_block_swap_count */
    var swaps: nat
    /** The allocator's phase, its track, and phase1_is_full. */
    var phase1: bool
    var current: nat
    var full: bool

    ghost function View(): Tables
      reads this`used, blocks, ltp
    {
      Tables(blocks[..], ltp[..], used)
    }

    ghost predicate Indexed()
      reads blocks, index.cells
    {
      index.Valid() && Mirrors(index.cells[..], blocks[..])
    }

    ghost predicate Settled()
      reads this`used, this`phase1, this`current, this`full, blocks
    {
      Placed(blocks[..], used, phase1, current, full)
    }

    ghost predicate Valid()
      reads this, blocks, ltp, index.cells
    {
      Consistent(View()) && Indexed() && Settled()
    }

    /** init_disk for sizes in GB: a GB holds 512 tracks of 2 MB. */
    constructor (physicalSize: nat, logicalSize: nat, heap: nat -> nat)
      requires physicalSize > 0
      ensures Valid() && Fresh(View()) && phase1
      ensures blocks.Length == 512 * physicalSize && ltp.Length == 512 * logicalSize
      ensures fresh(blocks) && fresh(ltp) && fresh(index) && fresh(index.cells)
    {
      hide Consistent, Mirrors;
      blocks := new Block[512 * physicalSize](_ => Block("", [heap(0), heap(1)], Free, 0, 0));
      ltp := new Entry[512 * logicalSize](_ => Entry(0, "", false, false));
      index := new HashTable(512 * physicalSize);
      used, swaps := 0, 0;
      phase1, current, full := true, 0, false;
      new;
      FreshIsConsistent(View());
      NothingIndexed(index.cells[..], blocks[..]);
    }

    // ---- searches --------------------------------------------------------------------------

    /** is_in_storage: in phase 1 every second track, and no more of them than blocks count as used;
        the answer is that of a whole-disk scan. */
    method IsInStorage(hash: string) returns (r: Option<nat>)
      requires Shaped(View()) && Settled() && hash != ""
      ensures r == FindHash(blocks[..], hash, 0)
    {
      var i := 0;
      if phase1 {
        var num := 0;
        while num < blocks.Length / 2 && num < used
          invariant i == 2 * num && i <= blocks.Length
          invariant FindHash(blocks[..], hash, 0) == FindHash(blocks[..], hash, i)
        {
          if blocks[i].hash == hash {
            return Some(i);
          }
          assert blocks[i + 1].hash == "";
          assert FindHash(blocks[..], hash, i + 1) == FindHash(blocks[..], hash, i + 2);
          i, num := i + 2, num + 1;
        }
        assert forall k :: i <= k < blocks.Length ==> blocks[k].hash == "";
        return None;
      }
      while i < blocks.Length
        invariant i <= blocks.Length
        invariant FindHash(blocks[..], hash, 0) == FindHash(blocks[..], hash, i)
      {
        if blocks[i].hash == hash {
          return Some(i);
        }
        i := i + 1;
      }
      return None;
    }

    /** find_swapped_pba: the same walk over the blocks in use. */
    method FindSwappedPba(hash: string) returns (r: Option<nat>)
      requires Shaped(View()) && Settled() && hash != ""
      ensures r == FindInUse(blocks[..], hash, 0)
    {
      var i := 0;
      if phase1 {
        var num := 0;
        while num < blocks.Length / 2 && num < used
          invariant i == 2 * num && i <= blocks.Length
          invariant FindInUse(blocks[..], hash, 0) == FindInUse(blocks[..], hash, i)
        {
          if blocks[i].status == InUse && blocks[i].hash == hash {
            return Some(i);
          }
          assert blocks[i + 1].hash == "";
          assert FindInUse(blocks[..], hash, i + 1) == FindInUse(blocks[..], hash, i + 2);
          i, num := i + 2, num + 1;
        }
        assert forall k :: i <= k < blocks.Length ==> blocks[k].hash == "";
        return None;
      }
      while i < blocks.Length
        invariant i <= blocks.Length
        invariant FindInUse(blocks[..], hash, 0) == FindInUse(blocks[..], hash, i)
      {
        if blocks[i].status == InUse && blocks[i].hash == hash {
          return Some(i);
        }
        i := i + 1;
      }
      return None;
    }

    /** find_empty_block_swap: the first of the most referenced tops in use. */
    method FindEmptyBlockSwap() returns (r: Option<nat>)
      ensures r == BestTop(blocks[..], blocks.Length)
    {
      hide BestTop;
      r := None;
      var most := 0;
      var i := 1;
      ghost var s := blocks[..];
      NoTopYet(s);
      while i < blocks.Length
        invariant i % 2 == 1 && i <= blocks.Length + 1
        invariant r == BestTop(s, if i <= blocks.Length then i else blocks.Length)
        invariant most == if r.Some? then s[r.value].refs else 0
      {
        if blocks[i].status == InUse && blocks[i].refs > most {
          most, r := blocks[i].refs, Some(i);
        }
        BestTopNext(s, i);
        i := i + 2;
      }
    }

    /** is_lba_in_storage, with the count of block 0 as its bound. */
    method IsLbaInStorage(p: nat, lba: nat, heap: nat -> nat) returns (found: bool)
      requires p < blocks.Length
      ensures found == Meets(blocks[p], lba, blocks[0].refs, heap)
    {
      var i := 0;
      while i < blocks[0].refs + 1
        invariant i <= blocks[0].refs + 1
        invariant forall k: nat :: k < i ==> Load(blocks[p], k, heap) != lba
      {
        if Load(blocks[p], i, heap) == lba {
          return true;
        }
        i := i + 1;
      }
      return false;
    }

    // ---- block swap ------------------------------------------------------------------------

    /** chs_write. */
    method ChsWrite(p: nat)
      requires p < blocks.Length && blocks[p].status in {Booked, InUse, Trimmed}
      modifies blocks, this`used
      ensures View() == Touch(old(View()), p)
      ensures blocks[..] == old(blocks[..])[p := old(blocks[p]).(status := InUse, count := old(blocks[p]).count + 1)]
      ensures used == old(used) + if old(blocks[p]).status == InUse then 0 else 1
    {
      if blocks[p].status != InUse {
        blocks[p] := blocks[p].(status := InUse);
        used := used + 1;
      }
      blocks[p] := blocks[p].(count := blocks[p].count + 1);
      assert blocks[..] == Touch(old(View()), p).blocks;
    }

    /** One loop of ltp_table_swap: every LBA that block p lists is sent to track q. */
    method RedirectList(p: nat, q: nat)
      requires p < blocks.Length && ListsInRange(View(), p)
      modifies ltp
      ensures ltp[..] == Redirect(old(ltp[..]), Active(blocks[p]), q)
    {
      hide BlockOk;
      var i := 0;
      ghost var active := Active(blocks[p]);
      while i < blocks[p].refs + 1
        invariant i <= |active|
        invariant forall k :: 0 <= k < i ==> active[..i][k] < ltp.Length
        invariant ltp[..] == Redirect(old(ltp[..]), active[..i], q)
      {
        var l := blocks[p].lba[i];
        ghost var before := ltp[..];
        ltp[l] := ltp[l].(pba := q);
        assert ltp[..] == before[l := before[l].(pba := q)];
        assert active[..i + 1][..i] == active[..i];
        i := i + 1;
      }
      assert active[..i] == active;
    }

    /** ltp_table_swap. */
    method LtpTableSwap(from: nat, to: nat)
      requires ListsInRange(View(), from) && ListsInRange(View(), to)
      modifies ltp
      ensures ltp[..] == Redirect(Redirect(old(ltp[..]), Active(blocks[from]), to), Active(blocks[to]), from)
    {
      RedirectList(from, to);
      RedirectList(to, from);
    }

    /** block_info_swap: every index walk in it ends, and the index still mirrors the blocks. */
    method BlockInfoSwap(from: nat, to: nat)
      requires from < blocks.Length && to < blocks.Length && from != to
      requires Indexed() && blocks[from].hash != "" && blocks[to].hash != ""
      modifies blocks, index.cells
      ensures Indexed()
      ensures blocks[..] == old(blocks[..])[from := old(blocks[to])][to := old(blocks[from])]
    {
      hide WellFormed, BlockKeys, Keys;
      ghost var was := blocks[..];
      SwappedKeys(was, from, to);
      RemoveKeys(blocks[from].hash, blocks[to].hash);
      blocks[from], blocks[to] := blocks[to], blocks[from];
      assert blocks[..] == was[from := was[to]][to := was[from]];
      AddKey(blocks[from].hash, from);
      AddKey(blocks[to].hash, to);
    }

    method RemoveKeys(a: string, b: string)
      requires index.Valid() && a in Keys(index.cells[..]) && b in Keys(index.cells[..]) - multiset{a}
      modifies index.cells
      ensures index.Valid()
      ensures Keys(index.cells[..]) == Keys(old(index.cells[..])) - multiset{a} + multiset{""} - multiset{b} +
              multiset{""}
    {
      RemoveKey(a);
      RemoveKey(b);
    }

    /** deleteItem for a key that the index holds. */
    method RemoveKey(hash: string)
      requires index.Valid() && hash in Keys(index.cells[..])
      modifies index.cells
      ensures index.Valid()
      ensures Keys(index.cells[..]) == Keys(old(index.cells[..])) - multiset{hash} + multiset{""}
    {
      KeyIsBounded(index.cells[..], hash);
      var _ := index.DeleteItem(hash);
    }

    /** insert, where a cell is known to be free. */
    method AddKey(hash: string, p: nat)
      requires index.Valid() && hash != "" && "" in Keys(index.cells[..])
      modifies index.cells
      ensures index.Valid()
      ensures Keys(index.cells[..]) == Keys(old(index.cells[..])) - multiset{""} + multiset{hash}
      ensures exists slot :: 0 <= slot < index.cells.Length && KeyOf(old(index.cells[slot])) == "" &&
                index.cells[..] == old(index.cells[..])[slot := Item(hash, p)]
    {
      index.Insert(hash, p);
    }

    /** DEDU_createBlockSwap: the top is read, the bottom is written, the tracks change places. */
    method CreateBlockSwap(from: nat, to: nat)
      requires ListsInRange(View(), from) && ListsInRange(View(), to) && from != to
      requires Indexed() && blocks[from].hash != "" && blocks[to].hash != ""
      requires blocks[to].status in {InUse, Trimmed}
      modifies this`used, this`swaps, blocks, ltp, index.cells
      ensures Indexed() && swaps == old(swaps) + 1
      ensures View() == BlockSwap(old(View()), from, to)
    {
      hide WellFormed, BlockKeys, Keys;
      swaps := swaps + 1;
      TouchedKeys(View(), to);
      ChsWrite(to);
      ghost var mid := View();
      LtpTableSwap(from, to);
      BlockInfoSwap(to, from);
      SwapEitherWay(mid.blocks, from, to);
    }

    /** DEDU_update with DEDU_run_block_swap; `below` is the word in front of the block table. */
    method DedupUpdate(p: nat, below: bool) returns (q: nat)
      requires Shaped(View()) && Indexed() && p < blocks.Length && blocks[p].status != Free
      modifies this`used, this`swaps, blocks, ltp, index.cells
      ensures Indexed()
      ensures (View(), q) == Updated(old(View()), p, below)
      ensures Lands(old(blocks[..]), p, below, q) && swaps == old(swaps) + if q != p then 1 else 0
    {
      UpdateLands(View(), p, below);
      if !IsTop(p) {
        var previous := if p > 0 then blocks[p - 1].status == InUse else below;
        if previous || blocks[p + 1].status == InUse {
          if blocks[p].refs == 0 {
            var top := FindEmptyBlockSwap();
            if top.Some? {
              CreateBlockSwap(top.value, p);
              return top.value;
            }
          }
        }
      }
      return p;
    }

    // ---- allocation ------------------------------------------------------------------------

    /** zalloc_find_next_pba. Phase 1 takes the bottoms in order; the later phases are represented by a
        choice among the free tracks. */
    method FindNextPba() returns (r: Option<nat>)
      requires Shaped(View()) && Settled()
      modifies this`phase1, this`current, this`full, blocks
      ensures r.Some? ==> r.value < blocks.Length && old(blocks[r.value]).status == Free
      ensures r.Some? ==> blocks[..] == old(blocks[..])[r.value := old(blocks[r.value]).(status := Booked)]
      ensures r.Some? ==> Placed(blocks[..], used + 1, phase1, current, full)
      ensures r.None? ==> blocks[..] == old(blocks[..]) && Settled()
      ensures r.None? ==> forall p :: 0 <= p < blocks.Length ==> !IsFree(blocks[p].status)
      ensures old(phase1 && !full) ==> r == Some(old(current))
    {
      while phase1
        invariant blocks[..] == old(blocks[..]) && Settled()
        invariant phase1 ==> current == old(current) && full == old(full)
        invariant old(phase1 && !full) ==> phase1
        decreases if phase1 then 1 else 0
      {
        var track := current;
        if full {
          var i := 0;
          while i <= blocks.Length - 2
            invariant i % 2 == 0
          {
            if IsFree(blocks[i].status) {
              assert false;
            }
            i := i + 2;
          }
          phase1, current := false, blocks.Length - 1;
        }
        if track == blocks.Length - 2 {
          full := true;
        } else {
          current := current + 2;
        }
        if IsFree(blocks[track].status) {
          blocks[track] := blocks[track].(status := Booked);
          return Some(track);
        }
      }
      if exists p :: 0 <= p < blocks.Length && IsFree(blocks[p].status) {
        var p :| 0 <= p < blocks.Length && IsFree(blocks[p].status);
        blocks[p] := blocks[p].(status := Booked);
        return Some(p);
      }
      return None;
    }

    // ---- writes ----------------------------------------------------------------------------

    /** dedupe_update_ltp_table. */
    method UpdateLtpTable(lba: nat, p: nat, hash: string)
      requires lba < ltp.Length
      modifies ltp
      ensures View() == Link(old(View()), lba, p, hash)
    {
      ltp[lba] := Entry(p, hash, true, false);
      assert ltp[..] == old(ltp[..])[lba := Entry(p, hash, true, false)];
    }

    method RaiseCount(p: nat)
      requires p < blocks.Length
      modifies blocks
      ensures View() == Gain(old(View()), p)
    {
      blocks[p] := blocks[p].(refs := blocks[p].refs + 1);
      assert blocks[..] == Gain(old(View()), p).blocks;
    }

    /** A trimmed LBA gets its old content back: its block may have been moved by a swap. */
    method Relocate(p: nat, hash: string) returns (q: nat)
      requires Shaped(View()) && Settled() && Indexed() && p < blocks.Length && hash != ""
      modifies blocks
      ensures Indexed()
      ensures q == (if old(blocks[p]).hash == hash then p
                    else match FindInUse(old(blocks[..]), hash, 0) case Some(m) => m case None => p)
      ensures q < blocks.Length
      ensures View() == if old(blocks[p]).hash == hash || old(blocks[q]).status == Trimmed then old(View())
              else Gain(old(View()), q)
    {
      q := p;
      if blocks[p].hash != hash {
        var moved := FindSwappedPba(hash);
        if moved.Some? {
          q := moved.value;
        }
        if blocks[q].status != Trimmed {
          RaiseCount(q);
          assert BlockKeys(blocks[..]) == BlockKeys(old(blocks[..]));
        }
      }
    }

    /** The branch of dedupe_pba_search for a trimmed LBA. */
    method SearchTrimmedLba(lba: nat, hash: string, heap: nat -> nat, below: bool, ghost env: Env)
        returns (p: nat, pass: bool)
      requires Valid() && lba < ltp.Length && ltp[lba].trim && hash != ""
      requires env == Env(heap, below, None)
      modifies this`used, this`swaps, blocks, ltp, index.cells
      ensures Search(View(), p, pass) == SearchTrimmed(old(View()), lba, hash, env)
      ensures Indexed()
      ensures swaps == old(swaps) + if old(ltp[lba]).hash != hash && p != old(ltp[lba]).pba then 1 else 0
    {
      p := ltp[lba].pba;
      if ltp[lba].hash != hash {
        p := DedupUpdate(p, below);
        UpdateLtpTable(lba, p, hash);
        return p, false;
      }
      p := Relocate(p, hash);
      UpdateLtpTable(lba, p, hash);
      return p, true;
    }

    /** Its branch for a valid LBA. */
    method SearchValidLba(lba: nat, hash: string, heap: nat -> nat, below: bool, ghost env: Env)
        returns (p: nat, pass: bool)
      requires Valid() && lba < ltp.Length && ltp[lba].valid && hash != ""
      requires env == Env(heap, below, None)
      modifies this`used, this`swaps, blocks, ltp, index.cells
      ensures Search(View(), p, pass) == SearchValid(old(View()), lba, hash, env)
      ensures Indexed()
      ensures swaps == old(swaps) + if old(ltp[lba]).hash != hash && p != old(ltp[lba]).pba then 1 else 0
    {
      p := ltp[lba].pba;
      if ltp[lba].hash != hash {
        p := DedupUpdate(p, below);
        UpdateLtpTable(lba, p, hash);
        return p, false;
      }
      return p, true;
    }

    /** The content is on the disk already: the LBA joins its block, or revives it. */
    method Share(p: nat, lba: nat, hash: string) returns (pass: bool)
      requires Shaped(View()) && Indexed() && Settled() && p < blocks.Length && lba < ltp.Length &&
               blocks[p].status != Free
      modifies blocks, ltp
      ensures Indexed() && Settled()
      ensures pass == (old(blocks[p]).status == Trimmed)
      ensures View() == Link(if pass
              then old(View()).(blocks :=
                old(blocks[..])[p := old(blocks[p]).(status := InUse, lba := old(blocks[p]).lba[0 := lba])])
                             else Gain(old(View()), p), lba, p, hash)
    {
      UpdateLtpTable(lba, p, hash);
      if blocks[p].status != Trimmed {
        RaiseCount(p);
        pass := false;
      } else {
        blocks[p] := blocks[p].(status := InUse, lba := blocks[p].lba[0 := lba]);
        pass := true;
      }
      assert BlockKeys(blocks[..]) == BlockKeys(old(blocks[..]));
    }

    /** What is left of dedupe_pba_search: the LBA is written for the first time. */
    method SearchFreshLba(lba: nat, hash: string, heap: nat -> nat, below: bool)
        returns (r: Option<nat>, pass: bool, ghost env: Env)
      requires Valid() && lba < ltp.Length && !ltp[lba].valid && hash != ""
      modifies this`phase1, this`current, this`full, blocks, ltp
      ensures env.heap == heap && env.below == below && PickOk(old(View()), env)
      ensures SearchFresh(old(View()), lba, hash, env) == if r.None? then None else Some(Search(View(), r.value, pass))
      ensures Indexed()
      ensures r.None? ==> View() == old(View()) && forall p :: 0 <= p < blocks.Length ==> !IsFree(blocks[p].status)
      ensures Placed(blocks[..], if r.Some? && blocks[r.value].status == Booked then used + 1 else used, phase1,
              current, full)
    {
      env := Env(heap, below, None);
      var found := IsInStorage(hash);
      if found.Some? {
        pass := Share(found.value, lba, hash);
        return found, pass, env;
      }
      var pick := FindNextPba();
      env := Env(heap, below, pick);
      if pick.Some? {
        BlockKeysUpdate(old(blocks[..]), pick.value, blocks[pick.value]);
        UpdateLtpTable(lba, pick.value, hash);
      }
      return pick, false, env;
    }

    /** dedupe_pba_search. */
    method PbaSearch(lba: nat, hash: string, heap: nat -> nat, below: bool)
        returns (r: Option<nat>, pass: bool, ghost env: Env)
      requires Valid() && lba < ltp.Length && hash != ""
      modifies this, blocks, ltp, index.cells
      ensures env.heap == heap && env.below == below && PickOk(old(View()), env)
      ensures Searched(old(View()), lba, hash, env) == if r.None? then None else Some(Search(View(), r.value, pass))
      ensures Indexed()
      ensures var e := old(ltp[lba]);
              swaps == old(swaps) +
                if (e.valid || e.trim) && e.hash != hash && r.Some? && r.value != e.pba then 1 else 0
      ensures r.None? ==> View() == old(View()) && forall p :: 0 <= p < blocks.Length ==> !IsFree(blocks[p].status)
      ensures Placed(blocks[..], if r.Some? && blocks[r.value].status == Booked then used + 1 else used, phase1,
              current, full)
    {
      hide Placed, Mirrors, SearchTrimmed, SearchValid, SearchFresh;
      var e := ltp[lba];
      env := Env(heap, below, None);
      if e.trim && !(blocks[e.pba].status == InUse && e.valid) {
        ghost var was := View();
        var p, pass' := SearchTrimmedLba(lba, hash, heap, below, env);
        SearchPlaces(was, lba, hash, env, phase1, current, full);
        return Some(p), pass', env;
      }
      if !e.trim && blocks[e.pba].status == InUse && e.valid {
        ghost var was := View();
        var p, pass' := SearchValidLba(lba, hash, heap, below, env);
        SearchPlaces(was, lba, hash, env, phase1, current, full);
        return Some(p), pass', env;
      }
      r, pass, env := SearchFreshLba(lba, hash, heap, below);
    }

    /** The end of dedupe_lba_write for a shared block: increase_storage_lba_capacity when the list is
        full, then the walk of is_lba_in_storage. */
    method EnlistLba(p: nat, lba: nat, heap: nat -> nat)
      requires p < blocks.Length && 0 < blocks[p].refs <= |blocks[p].lba|
      modifies blocks
      ensures View() == Enlist(old(View()), p, lba, heap)
    {
      var refs := blocks[p].refs;
      if refs + 1 > |blocks[p].lba| {
        blocks[p] := Grown(blocks[p], heap);
      }
      assert blocks[0].refs == old(blocks[0].refs);
      var found := IsLbaInStorage(p, lba, heap);
      if !found {
        blocks[p] := blocks[p].(lba := blocks[p].lba[refs := lba]);
      }
      assert blocks[..] == Enlist(old(View()), p, lba, heap).blocks;
    }

    /** Its end for an unshared block: the index moves to the new hash, and the block is written. Both
        index walks end because the index mirrors the blocks. */
    method StoreBlock(p: nat, lba: nat, hash: string)
      requires Indexed() && p < blocks.Length && |blocks[p].lba| > 0 && hash != ""
      requires blocks[p].status in {Booked, InUse, Trimmed} && blocks[p].hash in multiset(BlockKeys(blocks[..]))
      modifies blocks, index.cells, this`used
      ensures Indexed()
      ensures View() == Store(old(View()), p, lba, hash)
    {
      ghost var was := View();
      Rekey(p, blocks[p].hash, hash);
      blocks[p] := blocks[p].(lba := blocks[p].lba[0 := lba], hash := hash);
      assert blocks[..] == was.blocks[p := was.blocks[p].(lba := was.blocks[p].lba[0 := lba], hash := hash)];
      ChsWrite(p);
      RekeyedBlocks(was, p, lba, hash);
    }

    method Rekey(p: nat, out: string, into: string)
      requires index.Valid() && out in Keys(index.cells[..]) && into != ""
      modifies index.cells
      ensures index.Valid()
      ensures Keys(index.cells[..]) == Keys(old(index.cells[..])) - multiset{out} + multiset{into}
    {
      RemoveKey(out);
      AddKey(into, p);
    }

    /** The part of dedupe_lba_write behind the search. */
    method FinishWrite(p: nat, pass: bool, lba: nat, hash: string, heap: nat -> nat) returns (o: Outcome)
      requires Addressable(Search(View(), p, pass)) && Indexed() && hash != ""
      requires blocks[p].status in {Booked, InUse, Trimmed}
      requires pass || blocks[p].refs > 0 ==> blocks[p].status != Booked
      requires Placed(blocks[..], if blocks[p].status == Booked then used + 1 else used, phase1, current, full)
      modifies this`used, blocks, index.cells
      ensures (View(), o) == Finish(Search(old(View()), p, pass), lba, hash, heap)
      ensures Indexed() && Settled()
    {
      hide Placed;
      FinishPlaces(Search(View(), p, pass), lba, hash, heap, phase1, current, full);
      if blocks[p].refs > 0 {
        if hash != blocks[p].hash {
          return SharedUpdate;
        }
        EnlistLba(p, lba, heap);
        assert BlockKeys(blocks[..]) == BlockKeys(old(blocks[..]));
      } else if !pass {
        assert BlockKeys(blocks[..])[p] == blocks[p].hash;
        StoreBlock(p, lba, hash);
      }
      return Done;
    }

    /** dedupe_lba_write for one block. It does what Write says, so a write that completes leaves a valid
        disk exactly when its guard held. The bound test turns away what lies behind the table, except for
        the first LBA there. */
    method LbaWrite(lba: nat, hash: string, heap: nat -> nat, below: bool) returns (o: Outcome, ghost env: Env)
      requires Valid() && lba != ltp.Length && hash != ""
      modifies this, blocks, ltp, index.cells
      ensures env.heap == heap && env.below == below && PickOk(old(View()), env)
      ensures o == OutOfRange <==> lba >= ltp.Length
      ensures o == OutOfRange ==> Valid() && View() == old(View())
      ensures o != OutOfRange ==> (View(), o) == Write(old(View()), lba, hash, env)
      ensures o == Done ==> (Valid() <==> WriteGuard(old(View()), lba, hash, heap))
      ensures o == DiskFull ==> Valid() && forall p :: 0 <= p < blocks.Length ==> !IsFree(blocks[p].status)
      ensures Indexed() && Settled()
      ensures o != OutOfRange ==>
                var e := old(ltp[..])[lba];
                ((e.valid || e.trim) && e.hash != hash ==> Lands(old(blocks[..]), e.pba, below, ltp[lba].pba)) &&
                swaps == old(swaps) +
                  if (e.valid || e.trim) && e.hash != hash && ltp[lba].pba != e.pba then 1 else 0
      ensures o == OutOfRange ==> swaps == old(swaps)
    {
      hide Forward, Backward, Distinct, Retired, WriteGuard, Mirrors, Searched, Lands, Finish, Placed, BlockOk,
        Accesses;
      ghost var was := View();
      if lba > ltp.Length {
        return OutOfRange, Env(heap, below, None);
      }
      var r, pass;
      r, pass, env := PbaSearch(lba, hash, heap, below);
      WriteKeepsExactly(was, lba, hash, env);
      if (was.ltp[lba].valid || was.ltp[lba].trim) && was.ltp[lba].hash != hash {
        RewriteLands(was, lba, hash, env);
      }
      if r.None? {
        return DiskFull, env;
      }
      SearchReady(was, lba, hash, env);
      SearchAccesses(was, lba, hash, env);
      FinishKeepsLtp(Search(View(), r.value, pass), lba, hash, heap);
      o := FinishWrite(r.value, pass, lba, hash, heap);
    }

    // ---- trims -----------------------------------------------------------------------------

    /** delete_lba_in_storage. */
    method DeleteLbaInStorage(p: nat, lba: nat) returns (found: bool)
      requires p < blocks.Length && blocks[p].refs < |blocks[p].lba|
      modifies blocks
      ensures found <==> Position(old(blocks[p]), lba, 0).Some?
      ensures blocks[..] == match Position(old(blocks[p]), lba, 0)
                            case None => old(blocks[..])
                            case Some(i) => old(blocks[..])[p := Delisted(old(blocks[p]), i)]
    {
      ghost var b := blocks[p];
      var num := blocks[p].refs + 1;
      var index := 0;
      while index < num && blocks[p].lba[index] != lba
        invariant index <= num && Position(b, lba, 0) == Position(b, lba, index)
      {
        index := index + 1;
      }
      if index == num {
        return false;
      }
      ShiftList(p, index);
      return true;
    }

    /** The second loop of delete_lba_in_storage. */
    method ShiftList(p: nat, index: nat)
      requires p < blocks.Length && index <= blocks[p].refs < |blocks[p].lba|
      modifies blocks
      ensures blocks[..] == old(blocks[..])[p := Delisted(old(blocks[p]), index)]
    {
      ghost var was := blocks[..];
      ghost var b := blocks[p];
      var num := blocks[p].refs + 1;
      var i := index;
      ghost var list := b.lba;
      while i < num - 1
        invariant index <= i <= num - 1
        invariant |list| == |b.lba| && blocks[..] == was[p := b.(lba := list)]
        invariant forall k :: 0 <= k < i ==> list[k] == b.lba[if k < index then k else k + 1]
        invariant forall k :: i <= k < |b.lba| ==> list[k] == b.lba[k]
      {
        blocks[p] := blocks[p].(lba := blocks[p].lba[i := blocks[p].lba[i + 1]]);
        list := list[i := list[i + 1]];
        assert blocks[..] == was[p := b.(lba := list)];
        i := i + 1;
      }
      ShiftedList(b, index, list);
    }

    /** dedupe_trim once it has accepted the request. Its two failure exits are dead when the block is in
        use and lists the LBA. */
    method ReleaseLba(lba: nat)
      requires lba < ltp.Length && ltp[lba].pba < blocks.Length
      requires var b := blocks[ltp[lba].pba]; b.refs < |b.lba| && b.status == InUse && Position(b, lba, 0).Some?
      modifies blocks, ltp
      ensures ltp[..] == old(ltp[..])[lba := old(ltp[lba]).(trim := true, valid := false)]
      ensures var p := old(ltp[lba]).pba;
              var d := Delisted(old(blocks[p]), Position(old(blocks[p]), lba, 0).value);
              blocks[..] == old(blocks[..])[p := if d.refs > 0 then d.(refs := d.refs - 1) else d.(status := Trimmed)]
    {
      hide Position, Delisted;
      ltp[lba] := ltp[lba].(trim := true, valid := false);
      var p := ltp[lba].pba;
      if blocks[p].status != InUse {
        assert false;
      }
      var deleted := DeleteLbaInStorage(p, lba);
      if !deleted {
        assert false;
      }
      ReleaseBlock(p);
    }

    /** One reference less, or a block that serves no LBA any more. */
    method ReleaseBlock(p: nat)
      requires p < blocks.Length
      modifies blocks
      ensures blocks[..] == old(blocks[..])[p := var b := old(blocks[p]);
              if b.refs > 0 then b.(refs := b.refs - 1) else b.(status := Trimmed)]
    {
      if blocks[p].refs > 0 {
        blocks[p] := blocks[p].(refs := blocks[p].refs - 1);
      } else {
        blocks[p] := blocks[p].(status := Trimmed);
      }
    }

    /** dedupe_trim. */
    method DedupeTrim(lba: nat, hash: string)
      requires Valid() && lba < ltp.Length
      modifies blocks, ltp
      ensures Valid()
      ensures View() == Trim(old(View()), lba, hash).0
    {
      ghost var was := View();
      TrimKeeps(was, lba, hash);
      var e := ltp[lba];
      if e.valid && hash == e.hash && !e.trim {
        ReleaseLba(lba);
        assert View() == Trim(was, lba, hash).0;
        BlockKeysUpdate(was.blocks, e.pba, blocks[e.pba]);
        assert BlockKeys(blocks[..]) == BlockKeys(was.blocks);
      }
    }
  }

  lemma KeyIsBounded(cells: seq<Cell>, key: string)
    requires key in Keys(cells)
    ensures Bounded(cells, key)
  {
    var j :| 0 <= j < |cells| && CellKeys(cells)[j] == key;
    assert Stops(cells[j], key);
  }
}
