/** Batches in place (src/batch.c): growable tables, the sort, batch_extend, and batch_write, which writes a
    batch and charges its closure. */
module Batch {
  import opened DiskTypes
  import opened BatchSpec
  import opened Record

  const BLOCK_SIZE: nat := TRACK_SIZE

  // ---- sorting -----------------------------------------------------------------------------

  function Insert(e: Entry, s: seq<Entry>): seq<Entry> {
    if s == [] then [e]
    else if s[|s| - 1].pba <= e.pba then s + [e]
    else Insert(e, s[..|s| - 1]) + [s[|s| - 1]]
  }

  /** The batch in the order of its tracks. */
  function SortBatch(s: seq<Entry>): seq<Entry> {
    if s == [] then [] else Insert(s[|s| - 1], SortBatch(s[..|s| - 1]))
  }

  lemma {:induction false} InsertAdds(e: Entry, s: seq<Entry>)
    ensures multiset(Insert(e, s)) == multiset(s) + multiset{e}
  {
    if s != [] && s[|s| - 1].pba > e.pba {
      InsertAdds(e, s[..|s| - 1]);
      assert s == s[..|s| - 1] + [s[|s| - 1]];
    }
  }

  lemma SortedSnoc(s: seq<Entry>, e: Entry)
    requires Sorted(s) && !e.isVirtual && forall x :: x in s ==> x.pba <= e.pba
    ensures Sorted(s + [e])
  {
  }

  lemma EntryAlone(e: Entry)
    requires !e.isVirtual
    ensures Sorted([e])
  {
  }

  lemma LastIsLargest(s: seq<Entry>)
    requires Sorted(s) && s != []
    ensures Sorted(s[..|s| - 1]) && !s[|s| - 1].isVirtual
    ensures forall x :: x in s ==> x.pba <= s[|s| - 1].pba
    ensures forall x :: x in s[..|s| - 1] ==> x in s
  {
  }

  lemma {:induction false} InsertSorts(e: Entry, s: seq<Entry>)
    requires Sorted(s) && !e.isVirtual
    ensures Sorted(Insert(e, s))
  {
    hide Sorted;
    if s == [] {
      EntryAlone(e);
    } else {
      var r, l := s[..|s| - 1], s[|s| - 1];
      LastIsLargest(s);
      if l.pba <= e.pba {
        SortedSnoc(s, e);
      } else {
        InsertSorts(e, r);
        InsertAdds(e, r);
        assert forall x :: x in Insert(e, r) ==> x in multiset(r) + multiset{e};
        SortedSnoc(Insert(e, r), l);
      }
    }
  }

  /** Sorting keeps the batch and orders it. */
  lemma {:induction false} SortBatchSorts(s: seq<Entry>)
    requires forall i :: 0 <= i < |s| ==> !s[i].isVirtual
    ensures Sorted(SortBatch(s)) && multiset(SortBatch(s)) == multiset(s) && |SortBatch(s)| == |s|
  {
    if s != [] {
      var r, l := s[..|s| - 1], s[|s| - 1];
      assert s == r + [l];
      SortBatchSorts(r);
      InsertSorts(l, SortBatch(r));
      InsertAdds(l, SortBatch(r));
      assert |multiset(SortBatch(s))| == |multiset(s)|;
    }
  }

  // ---- growable tables ---------------------------------------------------------------------

  /** bb_head_t; the capacity is the length of the array. */
  class Table {
    var entries: array<Entry>
    var size: nat

    ghost predicate Valid()
      reads this
    {
      0 < entries.Length && size <= entries.Length
    }

    ghost function Contents(): seq<Entry>
      reads this, entries
      requires Valid()
    {
      entries[..size]
    }

    constructor (capacity: nat)
      requires capacity > 0
      ensures Valid() && Contents() == [] && fresh(entries) && entries.Length == capacity
    {
      entries := new Entry[capacity](_ => Entry(0, false));
      size := 0;
    }

    /** bb_table_add: a full table is first moved to one of twice the capacity. */
    method Add(p: nat, isVirtual: bool)
      requires Valid()
      modifies this, entries
      ensures Valid() && Contents() == old(Contents()) + [Entry(p, isVirtual)]
      ensures if old(size) < old(entries.Length) then entries == old(entries)
              else fresh(entries) && entries.Length == 2 * old(entries.Length)
    {
      ghost var was := Contents();
      if entries.Length <= size {
        var larger := new Entry[2 * entries.Length];
        forall i | 0 <= i < size {
          larger[i] := entries[i];
        }
        entries := larger;
      }
      entries[size] := Entry(p, isVirtual);
      size := size + 1;
      assert entries[..size] == was + [Entry(p, isVirtual)];
    }

    /** bb_table_get_last_pba. */
    method GetLastPba() returns (r: Option<nat>)
      requires Valid()
      ensures r == if Contents() == [] then None else Some(Contents()[size - 1].pba)
    {
      if size == 0 {
        return None;
      }
      return Some(entries[size - 1].pba);
    }

    /** bb_table_modify_last_to_physical. */
    method ModifyLastToPhysical()
      requires Valid()
      modifies entries
      ensures Contents() == if old(Contents()) == [] then []
              else old(Contents())[size - 1 := Physical(old(Contents())[size - 1].pba)]
    {
      if size == 0 {
        return;
      }
      ghost var was := Contents();
      entries[size - 1] := Entry(entries[size - 1].pba, false);
      assert entries[..size] == was[size - 1 := Physical(was[size - 1].pba)];
    }
  }

  /** Stands for the C library's qsort with batch_cmp. */
  method Qsort(a: array<Entry>, n: nat)
    requires n <= a.Length && forall i :: 0 <= i < n ==> !a[i].isVirtual
    modifies a
    ensures a[..n] == SortBatch(old(a[..n]))
    ensures a[n..] == old(a[n..])
  {
    SortBatchSorts(a[..n]);
    var s := SortBatch(a[..n]);
    forall i | 0 <= i < n {
      a[i] := s[i];
    }
  }

  // ---- the disk under a batch ----------------------------------------------------------------

  function LiveTracks(tracks: seq<Track>): (live: seq<bool>)
    ensures |live| == |tracks|
    ensures forall p :: 0 <= p < |tracks| ==> live[p] == (tracks[p].status in {Booked, InUse})
  {
    seq(|tracks|, p requires 0 <= p < |tracks| => IsLive(tracks[p].status))
  }

  /** How often a track is batched. */
  function Times(batch: seq<Entry>, p: nat): nat {
    if batch == [] then 0 else Times(batch[..|batch| - 1], p) + if batch[|batch| - 1].pba == p then 1 else 0
  }

  /** Every batched track is in use afterwards and counted once per entry; other tracks are as before. */
  ghost predicate Written(before: seq<Track>, after: seq<Track>, batch: seq<Entry>) {
    && |after| == |before|
    && forall p :: 0 <= p < |before| ==>
         after[p] == before[p].(status := if Times(batch, p) > 0 then InUse else before[p].status,
           count := before[p].count + Times(batch, p))
  }

  class Disk {
    const tracks: array<Track>
    var used: nat
    /** total_write_block_size */
    var writeBlockSize: nat

    constructor (size: nat)
      ensures fresh(tracks) && tracks.Length == size && used == 0 && writeBlockSize == 0
      ensures forall p :: 0 <= p < size ==> tracks[p] == Track(Free, 0, 0)
    {
      tracks := new Track[size](_ => Track(Free, 0, 0));
      used := 0;
      writeBlockSize := 0;
    }

    /** chs_write. */
    method ChsWrite(p: nat)
      requires p < tracks.Length && tracks[p].status in {Booked, InUse, Trimmed}
      modifies tracks, this`used
      ensures tracks[..] == old(tracks[..])[p := old(tracks[p]).(status := InUse, count := old(tracks[p]).count + 1)]
      ensures used == old(used) + if old(tracks[p]).status == InUse then 0 else 1
    {
      if tracks[p].status != InUse {
        tracks[p] := tracks[p].(status := InUse);
        used := used + 1;
      }
      tracks[p] := tracks[p].(count := tracks[p].count + 1);
    }

    /** pba_write: every entry of the batch is written; `used` grows by the tracks that come into use. */
    method PbaWrite(t: Table) returns (sum: nat)
      requires t.Valid()
      requires forall i :: 0 <= i < t.size ==>
                 t.entries[i].pba < tracks.Length && tracks[t.entries[i].pba].status in {Booked, InUse, Trimmed}
      modifies tracks, this`used, this`writeBlockSize
      ensures sum == t.size && writeBlockSize == old(writeBlockSize) + sum * BLOCK_SIZE
      ensures Written(old(tracks[..]), tracks[..], t.Contents())
      ensures used - old(used) == |InUseTracks(tracks[..])| - |InUseTracks(old(tracks[..]))|
    {
      ghost var was := tracks[..];
      ghost var batch := t.Contents();
      var i := 0;
      assert batch[..0] == [];
      while i < t.size
        invariant i <= t.size
        invariant Written(was, tracks[..], batch[..i])
        invariant used - old(used) == |InUseTracks(tracks[..])| - |InUseTracks(was)|
        invariant writeBlockSize == old(writeBlockSize)
      {
        ghost var now := tracks[..];
        ChsWrite(t.entries[i].pba);
        WrittenOneMore(was, now, tracks[..], batch, i);
        i := i + 1;
      }
      assert batch[..i] == batch;
      writeBlockSize := writeBlockSize + t.size * BLOCK_SIZE;
      return t.size;
    }
  }

  /** b_table_head_t: the batch and its extended table. */
  class Batch {
    const block: Table
    const extend: Table

    ghost predicate Valid()
      reads this, block, extend
    {
      block.Valid() && extend.Valid() && block != extend && block.entries != extend.entries
    }

    /** What batch_add may be followed by. */
    ghost predicate Clean()
      reads this, block, block.entries, extend
      requires Valid()
    {
      extend.size == 0 && forall i :: 0 <= i < block.size ==> !block.entries[i].isVirtual
    }

    /** init_batch_table */
    constructor ()
      ensures Valid() && Clean() && block.Contents() == []
      ensures fresh(block) && fresh(extend) && fresh(block.entries) && fresh(extend.entries)
    {
      block := new Table(4096);
      extend := new Table(3 * 4096);
    }

    /** batch_add */
    method BatchAdd(p: nat)
      requires Valid() && Clean()
      modifies block, block.entries
      ensures Valid() && Clean() && block.Contents() == old(block.Contents()) + [Physical(p)]
      ensures block.entries == old(block.entries) || fresh(block.entries)
    {
      ghost var was := block.Contents();
      block.Add(p, false);
      assert forall i :: 0 <= i < block.size ==> block.entries[i] == block.Contents()[i];
    }

    /** A top in batch_extend: it may be there already, on behalf of the bottom below it. */
    method ExtendTop(e: Entry)
      requires Valid() && IsTop(e.pba)
      modifies extend, extend.entries
      ensures Valid() && (extend.entries == old(extend.entries) || fresh(extend.entries))
      ensures forall live :: extend.Contents() == ExtendOne(old(extend.Contents()), e, live)
      ensures block.Contents() == old(block.Contents())
    {
      var last := extend.GetLastPba();
      if last == Some(e.pba) {
        extend.ModifyLastToPhysical();
      } else {
        extend.Add(e.pba, e.isVirtual);
      }
    }

    /** The top below a bottom, unless the table ends with it. */
    method ExtendBelow(track: nat, disk: Disk)
      requires Valid() && track < disk.tracks.Length
      modifies extend, extend.entries
      ensures Valid() && (extend.entries == old(extend.entries) || fresh(extend.entries))
      ensures var add := track > 0 && LiveAt(LiveTracks(disk.tracks[..]), track - 1) &&
              !EndsWith(old(extend.Contents()), track - 1);
              extend.Contents() == WithVirtual(old(extend.Contents()), if add then track - 1 else 0, add)
      ensures block.Contents() == old(block.Contents())
    {
      if track > 0 && IsLive(disk.tracks[track - 1].status) {
        var last := extend.GetLastPba();
        if last != Some(track - 1) {
          extend.Add(track - 1, true);
        }
      }
    }

    /** A bottom in batch_extend: its live neighbours go with it. */
    method ExtendBottom(e: Entry, disk: Disk)
      requires Valid() && e.pba < disk.tracks.Length && !IsTop(e.pba)
      modifies extend, extend.entries
      ensures Valid() && (extend.entries == old(extend.entries) || fresh(extend.entries))
      ensures extend.Contents() == ExtendOne(old(extend.Contents()), e, LiveTracks(disk.tracks[..]))
      ensures block.Contents() == old(block.Contents())
    {
      hide ExtendOne, EndsWith;
      BottomTable(extend.Contents(), e, LiveTracks(disk.tracks[..]));
      ExtendBelow(e.pba, disk);
      extend.Add(e.pba, e.isVirtual);
      if e.pba != disk.tracks.Length - 1 && IsLive(disk.tracks[e.pba + 1].status) {
        extend.Add(e.pba + 1, true);
      }
    }

    /** One round of batch_extend. */
    method ExtendRound(e: Entry, disk: Disk)
      requires Valid() && e.pba < disk.tracks.Length
      modifies extend, extend.entries
      ensures Valid() && (extend.entries == old(extend.entries) || fresh(extend.entries))
      ensures extend.Contents() == ExtendOne(old(extend.Contents()), e, LiveTracks(disk.tracks[..]))
      ensures block.Contents() == old(block.Contents())
    {
      hide ExtendOne, LiveTracks;
      if IsTop(e.pba) {
        ExtendTop(e);
      } else {
        ExtendBottom(e, disk);
      }
    }

    /** batch_extend */
    method BatchExtend(disk: Disk) returns (size: nat)
      requires Valid() && Clean()
      requires forall i :: 0 <= i < block.size ==> block.entries[i].pba < disk.tracks.Length
      modifies extend, extend.entries
      ensures Valid() && size == extend.size && (extend.entries == old(extend.entries) || fresh(extend.entries))
      ensures extend.Contents() == Extend(block.Contents(), LiveTracks(disk.tracks[..]))
      ensures block.Contents() == old(block.Contents())
      ensures block.size == 0 ==> extend.entries == old(extend.entries) && extend.entries[..] == old(extend.entries[..])
    {
      hide ExtendOne, LiveTracks;
      ghost var live := LiveTracks(disk.tracks[..]);
      ghost var batch := block.Contents();
      var i := 0;
      while i < block.size
        invariant i <= block.size && Valid()
        invariant extend.entries == old(extend.entries) || fresh(extend.entries)
        invariant block.Contents() == batch
        invariant block.size == 0 ==>
                    extend.entries == old(extend.entries) && extend.entries[..] == old(extend.entries[..])
        invariant extend.Contents() == Extend(batch[..i], live)
      {
        assert batch[..i + 1][..i] == batch[..i];
        ExtendRound(block.entries[i], disk);
        i := i + 1;
      }
      assert batch[..i] == batch;
      return extend.size;
    }

    /** batch_sync */
    method BatchSync()
      requires Valid() && Clean()
      modifies block.entries
      ensures block.Contents() == SortBatch(old(block.Contents()))
    {
      if block.size == 0 {
        return;
      }
      Qsort(block.entries, block.size);
    }

    /** batch_clear */
    method BatchClear()
      requires Valid()
      modifies block, extend
      ensures Valid() && block.Contents() == [] && extend.size == 0
      ensures block.entries == old(block.entries) && extend.entries == old(extend.entries)
    {
      block.size := 0;
      extend.size := 0;
    }

    /** batch_write: the batch is sorted and closed, every batched track is written, and the closure is
        charged. For an empty batch the charge is that of the entry left in the first cell. */
    method BatchWrite(disk: Disk, report: Report, ghost order: seq<Entry>) returns (count: nat)
      requires Valid() && Clean() && order == SortBatch(block.Contents())
      requires forall i :: 0 <= i < |order| ==>
                 order[i].pba < disk.tracks.Length && disk.tracks[order[i].pba].status in {Booked, InUse, Trimmed}
      modifies block, block.entries, extend, extend.entries, disk.tracks, disk`used, disk`writeBlockSize, report
      ensures Valid() && Clean() && block.Contents() == []
      ensures count == |order| && disk.writeBlockSize == old(disk.writeBlockSize) + count * BLOCK_SIZE
      ensures Written(old(disk.tracks[..]), disk.tracks[..], order)
      ensures disk.used - old(disk.used) == |InUseTracks(disk.tracks[..])| - |InUseTracks(old(disk.tracks[..]))|
      ensures report.Writes() == Plus(old(report.Writes()),
                Total(Runs(ChargedTable(order, LiveTracks(old(disk.tracks[..])), old(extend.entries[0])))))
      ensures var table := ChargedTable(order, LiveTracks(old(disk.tracks[..])), old(extend.entries[0]));
              && report.writeTime - old(report.writeTime) ==
                 L_SEEK * (|Runs(table)| + 2 * |MixedRuns(Runs(table))|) +
                 (L_ROTATIONAL + L_TRANSFER) * (|table| + 2 * |Concat(MixedRuns(Runs(table)))|)
              && report.rereadSize - old(report.rereadSize) == TRACK_SIZE * |Concat(MixedRuns(Runs(table)))|
      ensures |order| > 0 ==>
                (report.writeSize - old(report.writeSize) == disk.writeBlockSize - old(disk.writeBlockSize) <==>
                  TopsOnce(old(block.Contents())))
      ensures |order| > 0 ==>
                var live := LiveTracks(old(disk.tracks[..]));
                report.rewriteSize - old(report.rewriteSize) ==
                  (|Rewritten(old(block.Contents()), live)| + Again(order, live)) * TRACK_SIZE
    {
      hide SortBatch, Extend, ChargedTable, Charged, Total, Runs, Plus, LiveTracks, InUseTracks, Written, TopsOnce,
        Rewritten, Again, Concat, MixedRuns;
      SortBatchSorts(block.Contents());
      ghost var was, writes := block.Contents(), report.Writes();
      BatchSync();
      assert block.Contents() == order;
      assert forall i :: 0 <= i < block.size ==> block.entries[i] == order[i];
      var _ := BatchExtend(disk);
      ChargedAfterExtend(order, LiveTracks(disk.tracks[..]), extend.entries[..], extend.size, old(extend.entries[0]));
      count := disk.PbaWrite(block);
      report.RecordWrite(extend.entries, extend.size);
      Accounted(writes, report.Writes(), was, LiveTracks(old(disk.tracks[..])), old(extend.entries[0]));
      BatchClear();
    }

    /** The loop of lba_write: `found` has the track of each LBA of the request, and none for an LBA that belongs
        to another file. */
    method Gather(found: seq<Option<nat>>) returns (rejected: nat)
      requires Valid() && Clean() && block.Contents() == []
      modifies block, block.entries
      ensures Valid() && Clean() && block.Contents() == Accepted(found) && rejected == |found| - |Accepted(found)|
      ensures block.entries == old(block.entries) || fresh(block.entries)
    {
      var i := 0;
      rejected := 0;
      while i < |found|
        invariant i <= |found| && Valid() && Clean() && block.Contents() == Accepted(found[..i])
        invariant rejected == i - |Accepted(found[..i])|
        invariant block.entries == old(block.entries) || fresh(block.entries)
      {
        assert found[..i + 1][..i] == found[..i];
        if found[i].Some? {
          BatchAdd(found[i].value);
        } else {
          rejected := rejected + 1;
        }
        i := i + 1;
      }
      assert found[..i] == found;
    }

    /** lba_write, after pba_search: the tracks are written as often as they were found, whatever their order, and
        the disk and the report agree on the bytes exactly when no top was found twice. A request none of whose
        LBAs is accepted is not charged. */
    method LbaWrite(found: seq<Option<nat>>, disk: Disk, report: Report) returns (count: nat)
      requires Valid() && Clean() && block.Contents() == []
      requires forall i :: 0 <= i < |found| && found[i].Some? ==>
                 found[i].value < disk.tracks.Length && disk.tracks[found[i].value].status in {Booked, InUse, Trimmed}
      modifies block, block.entries, extend, extend.entries, disk.tracks, disk`used, disk`writeBlockSize, report
      ensures Valid() && Clean() && block.Contents() == []
      ensures count == |Accepted(found)| && disk.writeBlockSize == old(disk.writeBlockSize) + count * BLOCK_SIZE
      ensures Written(old(disk.tracks[..]), disk.tracks[..], Accepted(found))
      ensures disk.used - old(disk.used) == |InUseTracks(disk.tracks[..])| - |InUseTracks(old(disk.tracks[..]))|
      ensures report.Writes() == Plus(old(report.Writes()),
                Total(Runs(Extend(SortBatch(Accepted(found)), LiveTracks(old(disk.tracks[..]))))))
      ensures var table := Extend(SortBatch(Accepted(found)), LiveTracks(old(disk.tracks[..])));
              && report.writeTime - old(report.writeTime) ==
                 L_SEEK * (|Runs(table)| + 2 * |MixedRuns(Runs(table))|) +
                 (L_ROTATIONAL + L_TRANSFER) * (|table| + 2 * |Concat(MixedRuns(Runs(table)))|)
              && report.rereadSize - old(report.rereadSize) == TRACK_SIZE * |Concat(MixedRuns(Runs(table)))|
      ensures report.writeSize - old(report.writeSize) == disk.writeBlockSize - old(disk.writeBlockSize) <==>
              TopsOnce(Accepted(found))
    {
      hide Concat, MixedRuns, SortBatch, Extend, Charged, Total, Runs, Plus, LiveTracks, InUseTracks, Written,
        TopsOnce, Rewritten, Again;
      ghost var was := disk.tracks[..];
      AcceptedAreFound(found);
      SortBatchSorts(Accepted(found));
      var rejected := Gather(found);
      if rejected == |found| {
        assert Accepted(found) == [];
        NothingWritten(was, report.Writes());
        return 0;
      }
      ghost var order := SortBatch(Accepted(found));
      assert forall i :: 0 <= i < |order| ==> order[i] in multiset(Accepted(found));
      count := BatchWrite(disk, report, order);
      WrittenInAnyOrder(was, disk.tracks[..], order, Accepted(found));
    }
  }

  /** The batch that a request adds up to. */
  function Accepted(found: seq<Option<nat>>): seq<Entry> {
    if found == [] then []
    else Accepted(found[..|found| - 1]) + if found[|found| - 1].Some? then [Physical(found[|found| - 1].value)] else []
  }

  lemma {:induction false} AcceptedAreFound(found: seq<Option<nat>>)
    ensures forall e :: e in Accepted(found) <==> !e.isVirtual && Some(e.pba) in found
  {
    if found != [] {
      var r, l := found[..|found| - 1], found[|found| - 1];
      assert found == r + [l];
      AcceptedAreFound(r);
    }
  }

  lemma {:induction false} TimesCounts(batch: seq<Entry>, p: nat)
    requires forall e :: e in batch ==> !e.isVirtual
    ensures Times(batch, p) == multiset(batch)[Physical(p)]
  {
    if batch != [] {
      var r, l := batch[..|batch| - 1], batch[|batch| - 1];
      assert batch == r + [l];
      TimesCounts(r, p);
    }
  }

  lemma WrittenInAnyOrder(before: seq<Track>, after: seq<Track>, s: seq<Entry>, t: seq<Entry>)
    requires Written(before, after, s) && multiset(s) == multiset(t)
    requires forall e :: e in t ==> !e.isVirtual
    ensures Written(before, after, t)
  {
    assert forall e :: e in s ==> e in multiset(t);
    forall p: nat
      ensures Times(s, p) == Times(t, p)
    {
      TimesCounts(s, p);
      TimesCounts(t, p);
    }
  }

  lemma NothingWritten(tracks: seq<Track>, charge: Charge)
    ensures Written(tracks, tracks, []) && TopsOnce([])
    ensures forall live :: Extend(SortBatch([]), live) == [] && Plus(charge, Total(Runs([]))) == charge
    ensures |Runs([])| == |MixedRuns(Runs([]))| == |Concat(MixedRuns(Runs([])))| == 0
  {
  }

  lemma Accounted(before: Charge, after: Charge, batch: seq<Entry>, live: seq<bool>, stale: Entry)
    requires forall e :: e in batch ==> !e.isVirtual
    requires after == Plus(before, Total(Runs(ChargedTable(SortBatch(batch), live, stale))))
    ensures batch != [] ==> (after.written - before.written == |batch| * BLOCK_SIZE <==> TopsOnce(batch))
    ensures batch != [] ==>
              after.rewritten - before.rewritten ==
              (|Rewritten(batch, live)| + Again(SortBatch(batch), live)) * TRACK_SIZE
  {
    hide Total, Runs, Extend, SortBatch, TopsOnce, DisturbsOnce, Rewritten, Again;
    SortBatchSorts(batch);
    BatchIsConserved(batch, live);
  }

  /** What batch_write charges: the closure, or for an empty batch the entry `stale` in the first cell. */
  function ChargedTable(order: seq<Entry>, live: seq<bool>, stale: Entry): seq<Entry> {
    if order == [] then [stale] else Extend(order, live)
  }

  lemma ChargedAfterExtend(order: seq<Entry>, live: seq<bool>, cells: seq<Entry>, size: nat, stale: Entry)
    requires Sorted(order)
    requires size <= |cells| && 0 < |cells| && cells[..size] == Extend(order, live)
    requires order == [] ==> cells[0] == stale
    ensures Charged(cells, size) == ChargedTable(order, live, stale)
  {
    ExtendEndsNear(order, live);
  }

  // ---- conservation --------------------------------------------------------------------------

  lemma {:induction false} OnceAsCount(s: seq<Entry>, x: Entry)
    ensures multiset(s)[x] <= 1 <==> forall i, j :: 0 <= i < j < |s| && s[j] == x ==> s[i] != x
  {
    if s != [] {
      var r, l := s[..|s| - 1], s[|s| - 1];
      assert s == r + [l];
      OnceAsCount(r, x);
      if l == x && multiset(s)[x] >= 2 {
        assert x in r;
        var i :| 0 <= i < |r| && r[i] == x;
        assert s[i] == x && s[|s| - 1] == x;
      } else if multiset(r)[x] >= 2 {
        var i, j :| 0 <= i < j < |r| && r[j] == x && r[i] == x;
        assert s[i] == x && s[j] == x;
      } else if l == x {
        forall i, j | 0 <= i < j < |s| && s[j] == x
          ensures s[i] != x
        {
          assert s[i] == r[i] && r[i] in r;
        }
      }
    }
  }

  lemma OnceTransfers(s: seq<Entry>, t: seq<Entry>)
    requires multiset(s) == multiset(t)
    requires forall e :: e in s ==> !e.isVirtual
    ensures TopsOnce(s) ==> TopsOnce(t)
    ensures forall live :: DisturbsOnce(s, live) ==> DisturbsOnce(t, live)
  {
    forall i, j | 0 <= i < j < |t| && t[i].pba == t[j].pba
      ensures exists k, l :: 0 <= k < l < |s| && s[k].pba == s[l].pba == t[j].pba
    {
      assert t[i] in multiset(s) && t[j] in multiset(s);
      assert t[i] == t[j];
      OnceAsCount(t, t[j]);
      OnceAsCount(s, t[j]);
    }
  }

  /** What a batch is charged: its bytes as written, exactly when no top is in it twice, and otherwise less;
      and one track rewritten for each live top that is next to one of its bottoms and not in it, exactly when no
      bottom beside a live top is in it twice, and otherwise more. */
  lemma BatchIsConserved(batch: seq<Entry>, live: seq<bool>)
    requires forall e :: e in batch ==> !e.isVirtual
    ensures var c := Total(Runs(Extend(SortBatch(batch), live)));
            && c.written <= |batch| * BLOCK_SIZE
            && (c.written == |batch| * BLOCK_SIZE <==> TopsOnce(batch))
            && c.rewritten == (|Rewritten(batch, live)| + Again(SortBatch(batch), live)) * TRACK_SIZE
            && (c.rewritten == |Rewritten(batch, live)| * TRACK_SIZE <==> DisturbsOnce(batch, live))
  {
    hide Total, Runs, Extend, SortBatch, TopsOnce, DisturbsOnce, Rewritten, Again;
    SortedBatch(batch);
    SortedIsConserved(SortBatch(batch), live);
    RewrittenTransfers(batch, SortBatch(batch), live);
  }

  lemma SortedBatch(batch: seq<Entry>)
    requires forall e :: e in batch ==> !e.isVirtual
    ensures var order := SortBatch(batch);
            && Sorted(order) && |order| == |batch| && multiset(order) == multiset(batch)
            && (TopsOnce(order) <==> TopsOnce(batch)) &&
               forall live :: DisturbsOnce(order, live) <==> DisturbsOnce(batch, live)
  {
    hide SortBatch, TopsOnce, DisturbsOnce, Sorted;
    var order := SortBatch(batch);
    SortBatchSorts(batch);
    assert forall e :: e in order ==> e in multiset(batch);
    OnceTransfers(batch, order);
    OnceTransfers(order, batch);
  }

  lemma SortedIsConserved(order: seq<Entry>, live: seq<bool>)
    requires Sorted(order)
    ensures var c := Total(Runs(Extend(order, live)));
            && c.written == (|order| - RepeatedTops(order)) * BLOCK_SIZE
            && (RepeatedTops(order) == 0 <==> TopsOnce(order))
            && c.rewritten == (|Rewritten(order, live)| + Again(order, live)) * TRACK_SIZE
            && (Again(order, live) == 0 <==> DisturbsOnce(order, live))
  {
    hide Total, Runs, Extend, TopsOnce, DisturbsOnce, Again, Sorted, Rewritten, Physicals, Virtuals, RepeatedTops;
    ChargeOfTable(Extend(order, live));
    PhysicalsOfExtend(order, live);
    NoRepeatedTops(order);
    VirtualsOfExtend(order, live);
    NoneAgain(order, live);
  }

  lemma RewrittenTransfers(s: seq<Entry>, t: seq<Entry>, live: seq<bool>)
    requires multiset(s) == multiset(t)
    ensures Rewritten(s, live) == Rewritten(t, live)
  {
    assert forall e :: e in s <==> e in multiset(s);
    assert forall e :: e in t <==> e in multiset(t);
  }

  /** An empty batch still costs an access to one track, whichever was first in the table last time. */
  lemma EmptyBatchIsCharged(live: seq<bool>, stale: Entry)
    ensures var c := Total(Runs(ChargedTable([], live, stale)));
            c == if stale.isVirtual then Charge(3 * AccessTime(1), 0, TRACK_SIZE, TRACK_SIZE)
              else Charge(AccessTime(1), TRACK_SIZE, 0, 0)
  {
    FirstRun([stale]);
    assert [stale][..1] == [stale];
    CloseRun([], [stale]);
    assert [] + [[stale]] == [[stale]];
    RunSoFar([stale]);
  }

  lemma WrittenOneMore(was: seq<Track>, now: seq<Track>, next: seq<Track>, batch: seq<Entry>, i: nat)
    requires i < |batch| && Written(was, now, batch[..i]) && batch[i].pba < |now|
    requires next == now[batch[i].pba := now[batch[i].pba].(status := InUse, count := now[batch[i].pba].count + 1)]
    ensures Written(was, next, batch[..i + 1])
    ensures |InUseTracks(next)| == |InUseTracks(now)| + if now[batch[i].pba].status == InUse then 0 else 1
  {
    assert batch[..i + 1][..i] == batch[..i];
    assert InUseTracks(next) == InUseTracks(now) + {batch[i].pba};
  }
}
