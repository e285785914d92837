/** The cost of batched disk accesses (src/record_op.c): record_write and record_delete charge an extended
    table run by run. */
module Record {
  import opened BatchSpec

  /** Nanoseconds and bytes. */
  const L_SEEK: nat := 8000000
  const L_ROTATIONAL: nat := 8330000
  const L_TRANSFER: nat := 13443282
  const TRACK_SIZE: nat := 4096 * 512

  // ---- runs --------------------------------------------------------------------------------

  /** Splits a table where a track is not the successor of the one before it. */
  function Runs(s: seq<Entry>): (r: seq<seq<Entry>>)
    ensures s != [] ==> r != []
    ensures forall i :: 0 <= i < |r| ==> r[i] != []
    ensures s != [] ==> r[|r| - 1][|r[|r| - 1]| - 1] == s[|s| - 1]
  {
    if s == [] then []
    else
      var runs, e := Runs(s[..|s| - 1]), s[|s| - 1];
      if runs != [] && s[|s| - 2].pba + 1 == e.pba then runs[..|runs| - 1] + [runs[|runs| - 1] + [e]]
      else runs + [[e]]
  }

  function Concat(runs: seq<seq<Entry>>): seq<Entry> {
    if runs == [] then [] else Concat(runs[..|runs| - 1]) + runs[|runs| - 1]
  }

  ghost predicate Consecutive(run: seq<Entry>) {
    forall i :: 0 <= i < |run| - 1 ==> run[i].pba + 1 == run[i + 1].pba
  }

  /** No run could be longer: it ends where the next one does not go on. */
  ghost predicate Maximal(runs: seq<seq<Entry>>) {
    forall i :: 0 <= i < |runs| - 1 && runs[i] != [] && runs[i + 1] != [] ==>
        runs[i][|runs[i]| - 1].pba + 1 != runs[i + 1][0].pba
  }

  lemma ConcatSnoc(runs: seq<seq<Entry>>, run: seq<Entry>)
    ensures Concat(runs + [run]) == Concat(runs) + run
  {
    assert (runs + [run])[..|runs|] == runs;
  }

  lemma {:induction false} RunsCover(s: seq<Entry>)
    ensures Concat(Runs(s)) == s
  {
    hide Concat;
    if s == [] {
      NoRuns();
    } else {
      var t, e := s[..|s| - 1], s[|s| - 1];
      var runs := Runs(t);
      RunsCover(t);
      if runs != [] && s[|s| - 2].pba + 1 == e.pba {
        var init, last := runs[..|runs| - 1], runs[|runs| - 1];
        ConcatSnoc(init, last);
        ConcatSnoc(init, last + [e]);
        assert runs == init + [last];
      } else {
        ConcatSnoc(runs, [e]);
      }
    }
  }

  lemma NoRuns()
    ensures Runs([]) == [] && Concat([]) == []
  {
  }

  lemma {:induction false} RunsAreConsecutive(s: seq<Entry>)
    ensures forall i :: 0 <= i < |Runs(s)| ==> Consecutive(Runs(s)[i])
  {
    if s != [] {
      var t, e := s[..|s| - 1], s[|s| - 1];
      var runs := Runs(t);
      RunsAreConsecutive(t);
      if runs != [] && s[|s| - 2].pba + 1 == e.pba {
        var last := runs[|runs| - 1];
        assert Consecutive(last) && last[|last| - 1] == t[|t| - 1];
        assert Consecutive(last + [e]);
      } else {
        assert Consecutive([e]);
      }
    }
  }

  lemma LongerLastRun(runs: seq<seq<Entry>>, e: Entry)
    requires Maximal(runs) && runs != [] && runs[|runs| - 1] != []
    ensures Maximal(runs[..|runs| - 1] + [runs[|runs| - 1] + [e]])
  {
  }

  lemma AnotherRun(runs: seq<seq<Entry>>, e: Entry)
    requires Maximal(runs)
    requires runs != [] ==> runs[|runs| - 1] != [] && runs[|runs| - 1][|runs[|runs| - 1]| - 1].pba + 1 != e.pba
    ensures Maximal(runs + [[e]])
  {
  }

  lemma {:induction false} RunsEndProperly(s: seq<Entry>)
    ensures Maximal(Runs(s))
  {
    if s != [] {
      var t, e := s[..|s| - 1], s[|s| - 1];
      var runs := Runs(t);
      RunsEndProperly(t);
      if runs != [] && s[|s| - 2].pba + 1 == e.pba {
        LongerLastRun(runs, e);
      } else {
        AnotherRun(runs, e);
      }
    }
  }

  /** The runs are the table cut into maximal stretches of consecutive tracks. */
  lemma RunsAreMaximal(s: seq<Entry>)
    ensures Concat(Runs(s)) == s && Maximal(Runs(s))
    ensures forall i :: 0 <= i < |Runs(s)| ==> Runs(s)[i] != [] && Consecutive(Runs(s)[i])
  {
    RunsCover(s);
    RunsAreConsecutive(s);
    RunsEndProperly(s);
  }

  // ---- charges -----------------------------------------------------------------------------

  /** What a table adds to the report: the time, and the bytes written, rewritten and read again. */
  datatype Charge = Charge(time: nat, written: nat, rewritten: nat, reread: nat)

  function AccessTime(tracks: nat): nat {
    L_SEEK + tracks * (L_ROTATIONAL + L_TRANSFER)
  }

  /** A run without virtual entries is written once. A run with one is read, written to a temporary area
      and written back, and all of it is read. */
  function RunCharge(run: seq<Entry>): Charge {
    if Virtuals(run) == 0 then Charge(AccessTime(|run|), |run| * TRACK_SIZE, 0, 0)
    else Charge(3 * AccessTime(|run|), Physicals(run) * TRACK_SIZE, Virtuals(run) * TRACK_SIZE, |run| * TRACK_SIZE)
  }

  function Plus(a: Charge, b: Charge): Charge {
    Charge(a.time + b.time, a.written + b.written, a.rewritten + b.rewritten, a.reread + b.reread)
  }

  function Total(runs: seq<seq<Entry>>): Charge {
    if runs == [] then Charge(0, 0, 0, 0) else Plus(Total(runs[..|runs| - 1]), RunCharge(runs[|runs| - 1]))
  }

  /** Some track of the run is only rewritten. */
  predicate Mixed(run: seq<Entry>) {
    exists i :: 0 <= i < |run| && run[i].isVirtual
  }

  /** The runs that have to be read and written twice. */
  function MixedRuns(runs: seq<seq<Entry>>): seq<seq<Entry>> {
    if runs == [] then []
    else MixedRuns(runs[..|runs| - 1]) + if Mixed(runs[|runs| - 1]) then [runs[|runs| - 1]] else []
  }

  lemma {:induction false} MixedRunsExactly(runs: seq<seq<Entry>>, run: seq<Entry>)
    ensures multiset(MixedRuns(runs))[run] == if Mixed(run) then multiset(runs)[run] else 0
  {
    if runs != [] {
      var init, last := runs[..|runs| - 1], runs[|runs| - 1];
      MixedRunsExactly(init, run);
      assert runs == init + [last];
    }
  }

  lemma {:induction false} VirtualsExactly(run: seq<Entry>)
    ensures Virtuals(run) > 0 <==> Mixed(run)
  {
    if run != [] {
      var n := |run| - 1;
      VirtualsExactly(run[..n]);
      assert forall i :: 0 <= i < n ==> run[..n][i] == run[i];
      if Mixed(run[..n]) {
        var i :| 0 <= i < n && run[..n][i].isVirtual;
        assert run[i].isVirtual;
      }
    }
  }

  lemma OneRunMore(runs: seq<seq<Entry>>)
    requires runs != []
    ensures var init, last := runs[..|runs| - 1], runs[|runs| - 1];
            && |Concat(runs)| == |Concat(init)| + |last|
            && |MixedRuns(runs)| == |MixedRuns(init)| + (if Mixed(last) then 1 else 0)
            && |Concat(MixedRuns(runs))| == |Concat(MixedRuns(init))| + (if Mixed(last) then |last| else 0)
            && Total(runs).time == Total(init).time + (if Mixed(last) then 3 else 1) * AccessTime(|last|)
            && Total(runs).reread == Total(init).reread + if Mixed(last) then |last| * TRACK_SIZE else 0
  {
    hide Virtuals, Physicals, Mixed, AccessTime;
    var init, last := runs[..|runs| - 1], runs[|runs| - 1];
    VirtualsExactly(last);
    if Mixed(last) {
      ConcatSnoc(MixedRuns(init), last);
      assert MixedRuns(runs) == MixedRuns(init) + [last];
    } else {
      assert MixedRuns(runs) == MixedRuns(init);
    }
  }

  lemma CostAdds(runs: nat, mixed: nat, tracks: nat, mixedTracks: nat, n: nat, again: bool)
    ensures var more := if again then 1 else 0;
            L_SEEK * (runs + 2 * mixed) + (L_ROTATIONAL + L_TRANSFER) * (tracks + 2 * mixedTracks) +
            (if again then 3 else 1) * AccessTime(n) ==
            L_SEEK * (runs + 1 + 2 * (mixed + more)) +
            (L_ROTATIONAL + L_TRANSFER) * (tracks + n + 2 * (mixedTracks + if again then n else 0))
  {
  }

  /** The cost of a table in time and in bytes read again: a seek for each run and two more for a run with a
      virtual entry; a rotation and a transfer for each track, and two more for a track of such a run. */
  lemma {:induction false} CostOfRuns(runs: seq<seq<Entry>>)
    ensures Total(runs).time == L_SEEK * (|runs| + 2 * |MixedRuns(runs)|) +
                                (L_ROTATIONAL + L_TRANSFER) * (|Concat(runs)| + 2 * |Concat(MixedRuns(runs))|)
    ensures Total(runs).reread == TRACK_SIZE * |Concat(MixedRuns(runs))|
  {
    hide Concat, MixedRuns, Mixed, AccessTime, Total;
    if runs == [] {
      NoCost();
    } else {
      var init, last := runs[..|runs| - 1], runs[|runs| - 1];
      CostOfRuns(init);
      OneRunMore(runs);
      CostAdds(|init|, |MixedRuns(init)|, |Concat(init)|, |Concat(MixedRuns(init))|, |last|, Mixed(last));
    }
  }

  lemma NoCost()
    ensures Concat([]) == [] && MixedRuns([]) == [] && Total([]) == Charge(0, 0, 0, 0)
  {
  }

  lemma {:induction false} CountsOfConcat(s: seq<Entry>, t: seq<Entry>)
    ensures Physicals(s + t) == Physicals(s) + Physicals(t) && Virtuals(s + t) == Virtuals(s) + Virtuals(t)
    decreases |t|
  {
    if t == [] {
      assert s + t == s;
    } else {
      assert (s + t)[..|s + t| - 1] == s + t[..|t| - 1];
      CountsOfConcat(s, t[..|t| - 1]);
    }
  }

  lemma NoEntries()
    ensures Physicals([]) == 0 && Virtuals([]) == 0
  {
  }

  /** However a table falls into runs, its physical entries are written and its virtual ones rewritten. */
  lemma {:induction false} TotalCounts(runs: seq<seq<Entry>>)
    ensures Total(runs).written == Physicals(Concat(runs)) * TRACK_SIZE
    ensures Total(runs).rewritten == Virtuals(Concat(runs)) * TRACK_SIZE
  {
    hide Physicals, Virtuals;
    NoEntries();
    if runs != [] {
      var init, last := runs[..|runs| - 1], runs[|runs| - 1];
      TotalCounts(init);
      CountsOfConcat(Concat(init), last);
      PhysicalsAndVirtuals(last);
    }
  }

  /** Conservation: the bytes charged for a table are those of its entries. */
  lemma ChargeOfTable(s: seq<Entry>)
    ensures Total(Runs(s)).written == Physicals(s) * TRACK_SIZE
    ensures Total(Runs(s)).rewritten == Virtuals(s) * TRACK_SIZE
  {
    TotalCounts(Runs(s));
    RunsCover(s);
  }

  lemma CostOfTable(s: seq<Entry>)
    ensures Total(Runs(s)).time == L_SEEK * (|Runs(s)| + 2 * |MixedRuns(Runs(s))|) +
                                   (L_ROTATIONAL + L_TRANSFER) * (|s| + 2 * |Concat(MixedRuns(Runs(s)))|)
    ensures Total(Runs(s)).reread == TRACK_SIZE * |Concat(MixedRuns(Runs(s)))|
  {
    hide Runs, Concat, MixedRuns, Total;
    CostOfRuns(Runs(s));
    RunsCover(s);
  }

  /** Two neighbouring tracks: one seek, two rotations and two transfers. When one of them is only rewritten,
      three times as much. */
  lemma CostOfTwo(t: nat, anyVirtual: bool)
    ensures Total(Runs([Entry(t, false), Entry(t + 1, anyVirtual)])).time == if anyVirtual then 154639692 else 51546564
  {
    var s := [Entry(t, false), Entry(t + 1, anyVirtual)];
    assert Runs(s) == [s] by {
      FirstRun(s);
      NextRun(s, 0, [], [s[0]]);
      assert s[..2] == s && [s[0]] + [s[1]] == s;
    }
    CostOfTable(s);
    assert s[1].isVirtual == anyVirtual && |s| == 2 && !s[0].isVirtual;
    assert Mixed(s) <==> anyVirtual;
    assert [s][..0] == [];
    assert MixedRuns([s]) == if anyVirtual then [s] else [];
    ConcatSnoc([], s);
  }

  // ---- the report --------------------------------------------------------------------------

  /** What record_write and record_delete charge for: the table, but for an empty one the entry that was
      left in its first cell. */
  function Charged(table: seq<Entry>, size: nat): seq<Entry>
    requires size <= |table| && 0 < |table|
  {
    table[..if size == 0 then 1 else size]
  }

  // ---- steps of the scan -------------------------------------------------------------------

  lemma FirstRun(s: seq<Entry>)
    requires s != []
    ensures Runs(s[..1]) == [[s[0]]] && Physicals([]) == 0 && Virtuals([]) == 0
    ensures Total([]) == Charge(0, 0, 0, 0) && forall c: Charge :: Plus(c, Total([])) == c
  {
    assert s[..1][..0] == [];
    assert Runs(s[..1][..0]) == [];
  }

  /** The counts of a run, with and without its last entry. */
  lemma RunSoFar(run: seq<Entry>)
    requires run != []
    ensures Physicals(run) == Physicals(run[..|run| - 1]) + if run[|run| - 1].isVirtual then 0 else 1
    ensures Virtuals(run) == Virtuals(run[..|run| - 1]) + if run[|run| - 1].isVirtual then 1 else 0
  {
  }

  lemma {:induction false} FirstVirtual(run: seq<Entry>)
    ensures run != [] && run[0].isVirtual ==> Virtuals(run) > 0
    decreases |run|
  {
    if |run| > 1 {
      FirstVirtual(run[..|run| - 1]);
    }
  }

  /** One more entry goes on with the last run or begins another. */
  lemma NextRun(s: seq<Entry>, i: nat, runs: seq<seq<Entry>>, run: seq<Entry>)
    requires i + 1 < |s| && Runs(s[..i + 1]) == runs + [run]
    ensures Runs(s[..i + 2]) == if s[i].pba + 1 == s[i + 1].pba then runs + [run + [s[i + 1]]]
            else runs + [run] + [[s[i + 1]]]
  {
    assert s[..i + 2][..i + 1] == s[..i + 1];
    assert (runs + [run])[..|runs|] == runs;
  }

  lemma ChargeMore(c: Charge, runs: seq<seq<Entry>>, run: seq<Entry>)
    ensures Plus(Plus(c, Total(runs)), RunCharge(run)) == Plus(c, Plus(Total(runs), RunCharge(run)))
  {
    hide Total, RunCharge;
  }

  lemma CloseRun(runs: seq<seq<Entry>>, run: seq<Entry>)
    ensures Total(runs + [run]) == Plus(Total(runs), RunCharge(run))
  {
    assert (runs + [run])[..|runs|] == runs;
  }

  lemma Added(before: Charge, after: Charge, c: Charge)
    requires after == Plus(before, c)
    ensures after.time == before.time + c.time && after.written == before.written + c.written
    ensures after.rewritten == before.rewritten + c.rewritten && after.reread == before.reread + c.reread
  {
  }

  class Report {
    /** total_access_time; normal.total_write_time; normal.total_write_size; total_write_size;
        total_rewrite_size; total_reread_size */
    var accessTime: nat
    var writeTime: nat
    var normalWriteSize: nat
    var writeSize: nat
    var rewriteSize: nat
    var rereadSize: nat
    /** total_delete_time, total_delete_write_size, total_delete_rewrite_size, total_delete_reread_size */
    var deleteTime: nat
    var deleteWriteSize: nat
    var deleteRewriteSize: nat
    var deleteRereadSize: nat

    ghost function Writes(): Charge
      reads this
    {
      Charge(writeTime, writeSize, rewriteSize, rereadSize)
    }

    ghost function Deletes(): Charge
      reads this
    {
      Charge(deleteTime, deleteWriteSize, deleteRewriteSize, deleteRereadSize)
    }

    method RecordWritePhysicalTracks(tracks: nat)
      modifies this
      ensures Writes() == Plus(old(Writes()),
              Charge(L_SEEK + tracks * (L_ROTATIONAL + L_TRANSFER), tracks * TRACK_SIZE, 0, 0))
      ensures accessTime - old(accessTime) == writeTime - old(writeTime) &&
              normalWriteSize - old(normalWriteSize) == writeSize - old(writeSize)
      ensures Deletes() == old(Deletes())
    {
      accessTime := accessTime + (L_SEEK + tracks * (L_ROTATIONAL + L_TRANSFER));
      writeTime := writeTime + (L_SEEK + tracks * (L_ROTATIONAL + L_TRANSFER));
      normalWriteSize := normalWriteSize + tracks * TRACK_SIZE;
      writeSize := writeSize + tracks * TRACK_SIZE;
    }

    method RecordWriteVirtualTracks(tracks: nat, physical: nat)
      requires physical <= tracks
      modifies this
      ensures Writes() == Plus(old(Writes()),
              Charge(3 * (L_SEEK + tracks * (L_ROTATIONAL + L_TRANSFER)), physical * TRACK_SIZE,
                (tracks - physical) * TRACK_SIZE, tracks * TRACK_SIZE))
      ensures accessTime - old(accessTime) == writeTime - old(writeTime) &&
              normalWriteSize - old(normalWriteSize) == writeSize - old(writeSize)
      ensures Deletes() == old(Deletes())
    {
      var reread := L_SEEK + tracks * (L_ROTATIONAL + L_TRANSFER);
      var write := 2 * (L_SEEK + tracks * (L_ROTATIONAL + L_TRANSFER));
      accessTime := accessTime + (reread + write);
      writeTime := writeTime + (write + reread);
      rewriteSize := rewriteSize + (tracks - physical) * TRACK_SIZE;
      rereadSize := rereadSize + tracks * TRACK_SIZE;
      normalWriteSize := normalWriteSize + physical * TRACK_SIZE;
      writeSize := writeSize + physical * TRACK_SIZE;
    }

    method RecordDeletePhysicalTracks(tracks: nat)
      modifies this
      ensures Deletes() == Plus(old(Deletes()),
              Charge(L_SEEK + tracks * (L_ROTATIONAL + L_TRANSFER), tracks * TRACK_SIZE, 0, 0))
      ensures accessTime - old(accessTime) == deleteTime - old(deleteTime)
      ensures Writes() == old(Writes()) && normalWriteSize == old(normalWriteSize)
    {
      accessTime := accessTime + (L_SEEK + tracks * (L_ROTATIONAL + L_TRANSFER));
      deleteTime := deleteTime + (L_SEEK + tracks * (L_ROTATIONAL + L_TRANSFER));
      deleteWriteSize := deleteWriteSize + tracks * TRACK_SIZE;
    }

    method RecordDeleteVirtualTracks(tracks: nat, physical: nat)
      requires physical <= tracks
      modifies this
      ensures Deletes() == Plus(old(Deletes()),
              Charge(3 * (L_SEEK + tracks * (L_ROTATIONAL + L_TRANSFER)), physical * TRACK_SIZE,
                (tracks - physical) * TRACK_SIZE, tracks * TRACK_SIZE))
      ensures accessTime - old(accessTime) == deleteTime - old(deleteTime)
      ensures Writes() == old(Writes()) && normalWriteSize == old(normalWriteSize)
    {
      var read := L_SEEK + tracks * (L_ROTATIONAL + L_TRANSFER);
      var write := 2 * (L_SEEK + tracks * (L_ROTATIONAL + L_TRANSFER));
      accessTime := accessTime + (read + write);
      deleteTime := deleteTime + (write + read);
      deleteWriteSize := deleteWriteSize + physical * TRACK_SIZE;
      deleteRewriteSize := deleteRewriteSize + (tracks - physical) * TRACK_SIZE;
      deleteRereadSize := deleteRereadSize + tracks * TRACK_SIZE;
    }

    /** The end of a run in record_write. */
    method WriteRun(tracks: nat, physical: nat, anyVirtual: bool, ghost run: seq<Entry>)
      requires tracks == |run| && physical == Physicals(run) && (anyVirtual <==> Virtuals(run) > 0)
      modifies this
      ensures Writes() == Plus(old(Writes()), RunCharge(run))
      ensures accessTime - old(accessTime) == writeTime - old(writeTime)
      ensures normalWriteSize - old(normalWriteSize) == writeSize - old(writeSize) && Deletes() == old(Deletes())
    {
      PhysicalsAndVirtuals(run);
      if anyVirtual {
        RecordWriteVirtualTracks(tracks, physical);
      } else {
        RecordWritePhysicalTracks(tracks);
      }
    }

    /** record_write: every maximal run of the charged entries is charged once. */
    method RecordWrite(m: array<Entry>, size: nat)
      requires size <= m.Length && 0 < m.Length
      modifies this
      ensures Writes() == Plus(old(Writes()), Total(Runs(Charged(m[..], size))))
      ensures var runs := Runs(Charged(m[..], size));
              && writeTime - old(writeTime) ==
                 L_SEEK * (|runs| + 2 * |MixedRuns(runs)|) +
                 (L_ROTATIONAL + L_TRANSFER) * (|Charged(m[..], size)| + 2 * |Concat(MixedRuns(runs))|)
              && writeSize - old(writeSize) == TRACK_SIZE * Physicals(Charged(m[..], size))
              && rewriteSize - old(rewriteSize) == TRACK_SIZE * Virtuals(Charged(m[..], size))
              && rereadSize - old(rereadSize) == TRACK_SIZE * |Concat(MixedRuns(runs))|
      ensures accessTime - old(accessTime) == writeTime - old(writeTime)
      ensures normalWriteSize - old(normalWriteSize) == writeSize - old(writeSize) && Deletes() == old(Deletes())
    {
      hide Runs, RunCharge, Total, Plus, Physicals, Virtuals, Concat, MixedRuns;
      var tracks, physical := 1, 0;
      var track, virtual := m[0].pba, m[0].isVirtual;
      var anyVirtual := virtual;
      var i := 0;
      ghost var s := m[..];
      ghost var runs, run := [], [m[0]];
      FirstRun(s);
      while i < size && i + 1 < size
        invariant i <= size && (size > 0 ==> i < size)
        invariant track == m[i].pba && virtual == m[i].isVirtual
        invariant Runs(s[..i + 1]) == runs + [run] && run != [] && run[|run| - 1] == m[i]
        invariant tracks == |run| && physical == Physicals(run[..|run| - 1])
        invariant anyVirtual <==> Virtuals(run[..|run| - 1]) > 0 || (runs == [] && s[0].isVirtual)
        invariant runs == [] ==> run[0] == s[0]
        invariant Writes() == Plus(old(Writes()), Total(runs))
        invariant accessTime - old(accessTime) == writeTime - old(writeTime)
        invariant normalWriteSize - old(normalWriteSize) == writeSize - old(writeSize) && Deletes() == old(Deletes())
      {
        RunSoFar(run);
        FirstVirtual(run);
        NextRun(s, i, runs, run);
        if virtual {
          anyVirtual := true;
        } else {
          physical := physical + 1;
        }
        var next := m[i + 1].pba;
        if track + 1 == next {
          tracks := tracks + 1;
          run := run + [s[i + 1]];
          assert run[..|run| - 1] == run[..tracks - 1];
        } else {
          WriteRun(tracks, physical, anyVirtual, run);
          ChargeMore(old(Writes()), runs, run);
          CloseRun(runs, run);
          runs, run := runs + [run], [s[i + 1]];
          tracks, physical, anyVirtual := 1, 0, false;
        }
        track, virtual := next, m[i + 1].isVirtual;
        i := i + 1;
      }
      RunSoFar(run);
      FirstVirtual(run);
      if virtual {
        anyVirtual := true;
      } else {
        physical := physical + 1;
      }
      WriteRun(tracks, physical, anyVirtual, run);
      ChargeMore(old(Writes()), runs, run);
      CloseRun(runs, run);
      assert Charged(s, size) == s[..i + 1];
      CostOfTable(Charged(s, size));
      ChargeOfTable(Charged(s, size));
      Added(old(Writes()), Writes(), Total(Runs(Charged(s, size))));
    }

    /** The end of a run in record_delete. */
    method DeleteRun(tracks: nat, physical: nat, anyVirtual: bool, ghost run: seq<Entry>)
      requires tracks == |run| && physical == Physicals(run) && (anyVirtual <==> Virtuals(run) > 0)
      modifies this
      ensures Deletes() == Plus(old(Deletes()), RunCharge(run))
      ensures accessTime - old(accessTime) == deleteTime - old(deleteTime)
      ensures Writes() == old(Writes()) && normalWriteSize == old(normalWriteSize)
    {
      PhysicalsAndVirtuals(run);
      if anyVirtual {
        RecordDeleteVirtualTracks(tracks, physical);
      } else {
        RecordDeletePhysicalTracks(tracks);
      }
    }

    /** record_delete: every maximal run of the charged entries is charged once. */
    method RecordDelete(m: array<Entry>, size: nat)
      requires size <= m.Length && 0 < m.Length
      modifies this
      ensures Deletes() == Plus(old(Deletes()), Total(Runs(Charged(m[..], size))))
      ensures var runs := Runs(Charged(m[..], size));
              && deleteTime - old(deleteTime) ==
                 L_SEEK * (|runs| + 2 * |MixedRuns(runs)|) +
                 (L_ROTATIONAL + L_TRANSFER) * (|Charged(m[..], size)| + 2 * |Concat(MixedRuns(runs))|)
              && deleteWriteSize - old(deleteWriteSize) == TRACK_SIZE * Physicals(Charged(m[..], size))
              && deleteRewriteSize - old(deleteRewriteSize) == TRACK_SIZE * Virtuals(Charged(m[..], size))
              && deleteRereadSize - old(deleteRereadSize) == TRACK_SIZE * |Concat(MixedRuns(runs))|
      ensures accessTime - old(accessTime) == deleteTime - old(deleteTime)
      ensures Writes() == old(Writes()) && normalWriteSize == old(normalWriteSize)
    {
      hide Runs, RunCharge, Total, Plus, Physicals, Virtuals, Concat, MixedRuns;
      var tracks, physical := 1, 0;
      var track, virtual := m[0].pba, m[0].isVirtual;
      var anyVirtual := virtual;
      var i := 0;
      ghost var s := m[..];
      ghost var runs, run := [], [m[0]];
      FirstRun(s);
      while i < size && i + 1 < size
        invariant i <= size && (size > 0 ==> i < size)
        invariant track == m[i].pba && virtual == m[i].isVirtual
        invariant Runs(s[..i + 1]) == runs + [run] && run != [] && run[|run| - 1] == m[i]
        invariant tracks == |run| && physical == Physicals(run[..|run| - 1])
        invariant anyVirtual <==> Virtuals(run[..|run| - 1]) > 0 || (runs == [] && s[0].isVirtual)
        invariant runs == [] ==> run[0] == s[0]
        invariant Deletes() == Plus(old(Deletes()), Total(runs))
        invariant accessTime - old(accessTime) == deleteTime - old(deleteTime)
        invariant Writes() == old(Writes()) && normalWriteSize == old(normalWriteSize)
      {
        RunSoFar(run);
        FirstVirtual(run);
        NextRun(s, i, runs, run);
        if virtual {
          anyVirtual := true;
        } else {
          physical := physical + 1;
        }
        var next := m[i + 1].pba;
        if track + 1 == next {
          tracks := tracks + 1;
          run := run + [s[i + 1]];
          assert run[..|run| - 1] == run[..tracks - 1];
        } else {
          DeleteRun(tracks, physical, anyVirtual, run);
          ChargeMore(old(Deletes()), runs, run);
          CloseRun(runs, run);
          runs, run := runs + [run], [s[i + 1]];
          tracks, physical, anyVirtual := 1, 0, false;
        }
        track, virtual := next, m[i + 1].isVirtual;
        i := i + 1;
      }
      RunSoFar(run);
      FirstVirtual(run);
      if virtual {
        anyVirtual := true;
      } else {
        physical := physical + 1;
      }
      DeleteRun(tracks, physical, anyVirtual, run);
      ChargeMore(old(Deletes()), runs, run);
      CloseRun(runs, run);
      assert Charged(s, size) == s[..i + 1];
      CostOfTable(Charged(s, size));
      ChargeOfTable(Charged(s, size));
      Added(old(Deletes()), Deletes(), Total(Runs(Charged(s, size))));
    }
  }
}
