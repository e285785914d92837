/** Batches as values: the rewrite closure that batch_extend computes (src/batch.c), and what it keeps of
    the batch. */
module BatchSpec {
  import opened DiskTypes

  /** bb_entry_t: a track, and whether it is only rewritten on behalf of a bottom. */
  datatype Entry = Entry(pba: nat, isVirtual: bool)

  function Physical(p: nat): Entry {
    Entry(p, false)
  }

  function Virtual(p: nat): Entry {
    Entry(p, true)
  }

  // ---- the closure -------------------------------------------------------------------------

  predicate EndsWith(ext: seq<Entry>, p: nat) {
    |ext| > 0 && ext[|ext| - 1].pba == p
  }

  predicate LiveAt(live: seq<bool>, p: nat) {
    p < |live| && live[p]
  }

  /** One round of batch_extend. */
  function ExtendOne(ext: seq<Entry>, e: Entry, live: seq<bool>): seq<Entry> {
    var t := e.pba;
    if IsTop(t) then
      if EndsWith(ext, t) then ext[|ext| - 1 := Physical(t)] else ext + [e]
    else
      var below := if t > 0 && LiveAt(live, t - 1) && !EndsWith(ext, t - 1) then ext + [Virtual(t - 1)] else ext;
      below + [e] + if LiveAt(live, t + 1) then [Virtual(t + 1)] else []
  }

  function Extend(batch: seq<Entry>, live: seq<bool>): seq<Entry> {
    if batch == [] then []
    else ExtendOne(Extend(batch[..|batch| - 1], live), batch[|batch| - 1], live)
  }

  // ---- what it is for ----------------------------------------------------------------------

  /** A sorted batch of written tracks. */
  ghost predicate Sorted(batch: seq<Entry>) {
    && (forall i :: 0 <= i < |batch| ==> !batch[i].isVirtual)
    && (forall i, j :: 0 <= i < j < |batch| ==> batch[i].pba <= batch[j].pba)
  }

  /** No bottom is written twice. A top may be. */
  ghost predicate BottomsOnce(batch: seq<Entry>) {
    forall i, j :: 0 <= i < j < |batch| && !IsTop(batch[j].pba) ==> batch[i].pba != batch[j].pba
  }

  ghost predicate TopsOnce(batch: seq<Entry>) {
    forall i, j :: 0 <= i < j < |batch| && IsTop(batch[j].pba) ==> batch[i].pba != batch[j].pba
  }

  ghost predicate Ascending(s: seq<Entry>) {
    forall i, j :: 0 <= i < j < |s| ==> s[i].pba < s[j].pba
  }

  /** A top in use next to a written bottom. */
  predicate Disturbed(batch: seq<Entry>, live: seq<bool>, p: int) {
    p >= 0 && IsTop(p) && LiveAt(live, p) && (Physical(p - 1) in batch || Physical(p + 1) in batch)
  }

  /** The extended table holds the batch and the tops it disturbs, and nothing else; an entry is physical
      exactly when its track is written. */
  predicate ClosesAt(ext: seq<Entry>, batch: seq<Entry>, live: seq<bool>, p: nat) {
    && (Physical(p) in ext <==> Physical(p) in batch)
    && (Virtual(p) in ext <==> Disturbed(batch, live, p) && Physical(p) !in batch)
  }

  ghost predicate Closes(ext: seq<Entry>, batch: seq<Entry>, live: seq<bool>) {
    forall p: nat :: ClosesAt(ext, batch, live, p)
  }

  /** Where the closure of a batch ends: with its last track, or the top that this disturbs above it. */
  ghost predicate EndsNear(ext: seq<Entry>, batch: seq<Entry>, live: seq<bool>) {
    if batch == [] then ext == []
    else
      var t := batch[|batch| - 1].pba;
      |ext| > 0 && ext[|ext| - 1] == if !IsTop(t) && LiveAt(live, t + 1) then Virtual(t + 1) else Physical(t)
  }

  lemma AscendingSnoc(s: seq<Entry>, e: Entry)
    requires Ascending(s) && (s == [] || s[|s| - 1].pba < e.pba)
    ensures Ascending(s + [e])
  {
  }

  lemma NothingBeyond(s: seq<Entry>, p: nat, v: bool)
    requires Ascending(s) && (s == [] || s[|s| - 1].pba < p)
    ensures Entry(p, v) !in s
  {
  }

  lemma OnlyLast(s: seq<Entry>, p: nat)
    requires Ascending(s) && EndsWith(s, p)
    ensures Ascending(s[..|s| - 1] + [Physical(p)])
    ensures Physical(p) !in s[..|s| - 1] && Virtual(p) !in s[..|s| - 1]
    ensures s == s[..|s| - 1] + [s[|s| - 1]] && s[|s| - 1 := Physical(p)] == s[..|s| - 1] + [Physical(p)]
  {
  }

  /** How far the closure of the earlier tracks reaches. */
  lemma ReachesUpTo(ext: seq<Entry>, batch: seq<Entry>, e: Entry, live: seq<bool>)
    requires Sorted(batch + [e]) && EndsNear(ext, batch, live)
    ensures IsTop(e.pba) ==> ext == [] || ext[|ext| - 1].pba <= e.pba
    ensures !IsTop(e.pba) && Physical(e.pba) !in batch ==> ext == [] || ext[|ext| - 1].pba < e.pba
  {
    if batch != [] {
      var last := batch[|batch| - 1];
      assert (batch + [e])[|batch| - 1] == last && (batch + [e])[|batch|] == e;
      assert last in batch;
      assert !last.isVirtual;
    }
  }

  lemma InSnoc(s: seq<Entry>, e: Entry, x: Entry)
    ensures x in s + [e] <==> x in s || x == e
  {
    assert (s + [e])[|s|] == e;
    if x in s {
      var i :| 0 <= i < |s| && s[i] == x;
      assert (s + [e])[i] == x;
    }
  }

  /** What a batched track changes about the disturbed tops. */
  lemma DisturbedSnoc(batch: seq<Entry>, e: Entry, live: seq<bool>, p: nat)
    requires !e.isVirtual
    ensures IsTop(e.pba) ==> (Disturbed(batch + [e], live, p) <==> Disturbed(batch, live, p))
    ensures !IsTop(e.pba) ==>
              (Disturbed(batch + [e], live, p) <==>
                Disturbed(batch, live, p) || (LiveAt(live, p) && (p + 1 == e.pba || p == e.pba + 1)))
  {
    if p > 0 {
      InSnoc(batch, e, Physical(p - 1));
    }
    InSnoc(batch, e, Physical(p + 1));
  }

  /** A top joins the closure. */
  lemma TopRound(ext: seq<Entry>, batch: seq<Entry>, e: Entry, live: seq<bool>)
    requires !e.isVirtual && IsTop(e.pba) && (ext == [] || ext[|ext| - 1].pba <= e.pba)
    requires Ascending(ext) && Closes(ext, batch, live)
    ensures var x := ExtendOne(ext, e, live); Ascending(x) && Closes(x, batch + [e], live)
  {
    hide Disturbed;
    var t := e.pba;
    var x := ExtendOne(ext, e, live);
    var rest := if EndsWith(ext, t) then ext[..|ext| - 1] else ext;
    if EndsWith(ext, t) {
      OnlyLast(ext, t);
    } else {
      AscendingSnoc(ext, e);
      NothingBeyond(ext, t, true);
    }
    assert x == rest + [e];
    forall p: nat
      ensures ClosesAt(x, batch + [e], live, p)
    {
      assert ClosesAt(ext, batch, live, p);
      InSnoc(rest, e, Physical(p));
      InSnoc(rest, e, Virtual(p));
      InSnoc(batch, e, Physical(p));
      DisturbedSnoc(batch, e, live, p);
      if EndsWith(ext, t) {
        InSnoc(rest, ext[|ext| - 1], Physical(p));
        InSnoc(rest, ext[|ext| - 1], Virtual(p));
      }
    }
  }

  /** Virtual neighbours of a bottom: one more entry, for a live top that is not yet in the table. */
  function WithVirtual(ext: seq<Entry>, p: nat, add: bool): seq<Entry> {
    if add then ext + [Virtual(p)] else ext
  }

  lemma WithVirtualKeeps(ext: seq<Entry>, q: nat, add: bool)
    requires Ascending(ext) && (add ==> ext == [] || ext[|ext| - 1].pba < q)
    ensures var x := WithVirtual(ext, q, add);
            && Ascending(x) && (if add then EndsWith(x, q) else x == ext)
            && (forall p: nat :: Physical(p) in x <==> Physical(p) in ext)
            && (forall p: nat :: Virtual(p) in x <==> Virtual(p) in ext || (add && p == q))
  {
    if add {
      AscendingSnoc(ext, Virtual(q));
      forall p: nat
        ensures Physical(p) in ext + [Virtual(q)] <==> Physical(p) in ext
        ensures Virtual(p) in ext + [Virtual(q)] <==> Virtual(p) in ext || p == q
      {
        InSnoc(ext, Virtual(q), Physical(p));
        InSnoc(ext, Virtual(q), Virtual(p));
      }
    }
  }

  /** The entries that a bottom brings into the table. */
  lemma BottomBrings(ext: seq<Entry>, e: Entry, live: seq<bool>)
    requires !e.isVirtual && !IsTop(e.pba) && (ext == [] || ext[|ext| - 1].pba < e.pba) && Ascending(ext)
    ensures var x, t := ExtendOne(ext, e, live), e.pba;
            && Ascending(x)
            && (forall p: nat :: Physical(p) in x <==> Physical(p) in ext || p == t)
            && (forall p: nat :: Virtual(p) in x <==>
               Virtual(p) in ext || (LiveAt(live, p) && (p == t + 1 || (p + 1 == t && !EndsWith(ext, p)))))
  {
    hide Ascending, WithVirtual;
    var t := e.pba;
    var add := t > 0 && LiveAt(live, t - 1) && !EndsWith(ext, t - 1);
    var below := WithVirtual(ext, if add then t - 1 else 0, add);
    BottomTable(ext, e, live);
    WithVirtualKeeps(ext, if add then t - 1 else 0, add);
    AscendingSnoc(below, e);
    WithVirtualKeeps(below + [e], t + 1, LiveAt(live, t + 1));
    forall p: nat
      ensures Physical(p) in below + [e] <==> Physical(p) in ext || p == t
      ensures Virtual(p) in below + [e] <==> Virtual(p) in below
    {
      InSnoc(below, e, Physical(p));
      InSnoc(below, e, Virtual(p));
    }
  }

  /** A bottom joins the closure, with the live tops around it. */
  lemma BottomRound(ext: seq<Entry>, batch: seq<Entry>, e: Entry, live: seq<bool>)
    requires !e.isVirtual && !IsTop(e.pba) && (ext == [] || ext[|ext| - 1].pba < e.pba)
    requires Ascending(ext) && Closes(ext, batch, live)
    ensures var x := ExtendOne(ext, e, live); Ascending(x) && Closes(x, batch + [e], live)
  {
    hide Disturbed, Ascending, ExtendOne, EndsWith;
    var t := e.pba;
    var x := ExtendOne(ext, e, live);
    BottomBrings(ext, e, live);
    forall p: nat
      ensures ClosesAt(x, batch + [e], live, p)
    {
      assert ClosesAt(ext, batch, live, p);
      InSnoc(batch, e, Physical(p));
      DisturbedSnoc(batch, e, live, p);
      LastIsThere(ext, p);
      if t <= p || (p + 1 == t && !EndsWith(ext, p)) {
        BeyondLast(ext, p, t);
      }
    }
  }

  lemma BeyondLast(ext: seq<Entry>, p: nat, t: nat)
    requires Ascending(ext) && (ext == [] || ext[|ext| - 1].pba < t)
    requires t <= p || (p + 1 == t && !EndsWith(ext, p))
    ensures Physical(p) !in ext && Virtual(p) !in ext
  {
    NothingBeyond(ext, p, false);
    NothingBeyond(ext, p, true);
  }

  lemma LastIsThere(ext: seq<Entry>, p: nat)
    ensures EndsWith(ext, p) ==> Physical(p) in ext || Virtual(p) in ext
  {
    if EndsWith(ext, p) {
      assert ext[|ext| - 1] in ext;
    }
  }

  lemma BottomTable(ext: seq<Entry>, e: Entry, live: seq<bool>)
    requires !IsTop(e.pba)
    ensures var t := e.pba;
            var add := t > 0 && LiveAt(live, t - 1) && !EndsWith(ext, t - 1);
            ExtendOne(ext, e, live) ==
            WithVirtual(WithVirtual(ext, if add then t - 1 else 0, add) + [e], t + 1, LiveAt(live, t + 1))
  {
  }

  // ---- the whole batch ---------------------------------------------------------------------

  lemma SortedPrefix(batch: seq<Entry>)
    requires Sorted(batch) && batch != []
    ensures Sorted(batch[..|batch| - 1])
    ensures BottomsOnce(batch) ==> BottomsOnce(batch[..|batch| - 1])
    ensures TopsOnce(batch) ==> TopsOnce(batch[..|batch| - 1])
  {
  }

  lemma EndsNearRound(ext: seq<Entry>, batch: seq<Entry>, e: Entry, live: seq<bool>)
    requires !e.isVirtual
    ensures EndsNear(ExtendOne(ext, e, live), batch + [e], live)
  {
    assert (batch + [e])[|batch|] == e;
  }

  lemma ExtendEndsNear(batch: seq<Entry>, live: seq<bool>)
    requires Sorted(batch)
    ensures EndsNear(Extend(batch, live), batch, live)
  {
    if batch != [] {
      EndsNearRound(Extend(batch[..|batch| - 1], live), batch[..|batch| - 1], batch[|batch| - 1], live);
    }
  }

  /** For a sorted batch that writes no bottom twice, the extended table is strictly ascending, and it is
      the exact rewrite closure. */
  lemma {:induction false} ExtendCloses(batch: seq<Entry>, live: seq<bool>)
    requires Sorted(batch) && BottomsOnce(batch)
    ensures Ascending(Extend(batch, live)) && Closes(Extend(batch, live), batch, live)
  {
    if batch != [] {
      var r, e := batch[..|batch| - 1], batch[|batch| - 1];
      assert batch == r + [e];
      SortedPrefix(batch);
      ExtendCloses(r, live);
      ExtendEndsNear(r, live);
      var ext := Extend(r, live);
      ReachesUpTo(ext, r, e, live);
      if IsTop(e.pba) {
        TopRound(ext, r, e, live);
      } else {
        NotBefore(batch);
        BottomRound(ext, r, e, live);
      }
    }
  }

  lemma NotBefore(batch: seq<Entry>)
    requires BottomsOnce(batch) && batch != [] && !IsTop(batch[|batch| - 1].pba)
    ensures Physical(batch[|batch| - 1].pba) !in batch[..|batch| - 1]
  {
  }

  lemma ExtendGrows(ext: seq<Entry>, e: Entry, live: seq<bool>)
    ensures |ext| <= |ExtendOne(ext, e, live)| <= |ext| + 3
    ensures forall i :: 0 <= i < |ext| ==> ExtendOne(ext, e, live)[i].pba == ext[i].pba
  {
  }

  lemma {:induction false} ExtendIsAtMostTriple(batch: seq<Entry>, live: seq<bool>)
    ensures |Extend(batch, live)| <= 3 * |batch|
  {
    if batch != [] {
      ExtendIsAtMostTriple(batch[..|batch| - 1], live);
      ExtendGrows(Extend(batch[..|batch| - 1], live), batch[|batch| - 1], live);
    }
  }

  /** Every time a bottom is batched it takes an entry of its own. */
  lemma {:induction false} BottomIndex(batch: seq<Entry>, live: seq<bool>, j: nat)
    requires j < |batch| && !IsTop(batch[j].pba)
    ensures exists m ::
              |Extend(batch[..j], live)| <= m < |Extend(batch, live)| && Extend(batch, live)[m].pba == batch[j].pba
    decreases |batch|
  {
    var r, e := batch[..|batch| - 1], batch[|batch| - 1];
    var ext := Extend(r, live);
    if j == |batch| - 1 {
      var below := if e.pba > 0 && LiveAt(live, e.pba - 1) && !EndsWith(ext, e.pba - 1) then ext + [Virtual(e.pba - 1)]
        else ext;
      assert Extend(batch, live)[|below|] == e;
    } else {
      assert r[..j] == batch[..j];
      BottomIndex(r, live, j);
      var m :| |Extend(r[..j], live)| <= m < |ext| && ext[m].pba == r[j].pba;
      ExtendGrows(ext, e, live);
      assert Extend(batch, live)[m].pba == batch[j].pba;
    }
  }

  /** The table is strictly ascending exactly when no bottom is written twice. */
  lemma AscendingExactly(batch: seq<Entry>, live: seq<bool>)
    requires Sorted(batch)
    ensures Ascending(Extend(batch, live)) <==> BottomsOnce(batch)
  {
    if BottomsOnce(batch) {
      ExtendCloses(batch, live);
    } else {
      var i, j :| 0 <= i < j < |batch| && !IsTop(batch[j].pba) && batch[i].pba == batch[j].pba;
      var front := batch[..j];
      BottomIndex(front, live, i);
      var m :| |Extend(front[..i], live)| <= m < |Extend(front, live)| && Extend(front, live)[m].pba == front[i].pba;
      BottomIndex(batch, live, j);
      var n :| |Extend(batch[..j], live)| <= n < |Extend(batch, live)| && Extend(batch, live)[n].pba == batch[j].pba;
      ExtendPrefix(batch, live, j);
      assert Extend(batch, live)[m].pba == Extend(batch, live)[n].pba;
    }
  }

  lemma {:induction false} ExtendPrefix(batch: seq<Entry>, live: seq<bool>, j: nat)
    requires j <= |batch|
    ensures |Extend(batch[..j], live)| <= |Extend(batch, live)|
    ensures forall i :: 0 <= i < |Extend(batch[..j], live)| ==>
              Extend(batch, live)[i].pba == Extend(batch[..j], live)[i].pba
    decreases |batch|
  {
    if j == |batch| {
      assert batch[..j] == batch;
    } else {
      var r := batch[..|batch| - 1];
      assert r[..j] == batch[..j];
      ExtendPrefix(r, live, j);
      ExtendGrows(Extend(r, live), batch[|batch| - 1], live);
    }
  }

  // ---- counting ----------------------------------------------------------------------------

  function Physicals(s: seq<Entry>): nat {
    if s == [] then 0 else Physicals(s[..|s| - 1]) + if s[|s| - 1].isVirtual then 0 else 1
  }

  function Virtuals(s: seq<Entry>): nat {
    if s == [] then 0 else Virtuals(s[..|s| - 1]) + if s[|s| - 1].isVirtual then 1 else 0
  }

  /** How often a top is batched again. */
  function RepeatedTops(batch: seq<Entry>): nat {
    if batch == [] then 0
    else
      var r, e := batch[..|batch| - 1], batch[|batch| - 1];
      RepeatedTops(r) + if IsTop(e.pba) && Physical(e.pba) in r then 1 else 0
  }

  lemma PhysicalsSnoc(s: seq<Entry>, e: Entry)
    ensures Physicals(s + [e]) == Physicals(s) + if e.isVirtual then 0 else 1
  {
    assert (s + [e])[..|s|] == s;
  }

  lemma PhysicalsOfBottom(ext: seq<Entry>, e: Entry, live: seq<bool>)
    requires !e.isVirtual && !IsTop(e.pba)
    ensures Physicals(ExtendOne(ext, e, live)) == Physicals(ext) + 1
  {
    hide ExtendOne, Physicals;
    var add := e.pba > 0 && LiveAt(live, e.pba - 1) && !EndsWith(ext, e.pba - 1);
    var below := WithVirtual(ext, if add then e.pba - 1 else 0, add);
    BottomTable(ext, e, live);
    PhysicalsSnoc(ext, Virtual(if add then e.pba - 1 else 0));
    PhysicalsSnoc(below, e);
    PhysicalsSnoc(below + [e], Virtual(e.pba + 1));
  }

  /** The physical entries that one batched track adds. */
  lemma PhysicalsRound(ext: seq<Entry>, e: Entry, live: seq<bool>)
    requires !e.isVirtual
    ensures Physicals(ExtendOne(ext, e, live)) ==
            Physicals(ext) + if IsTop(e.pba) && EndsWith(ext, e.pba) && !ext[|ext| - 1].isVirtual then 0 else 1
  {
    if !IsTop(e.pba) {
      PhysicalsOfBottom(ext, e, live);
    } else if EndsWith(ext, e.pba) {
      var r := ext[..|ext| - 1];
      assert ext[|ext| - 1 := Physical(e.pba)] == r + [Physical(e.pba)];
      PhysicalsSnoc(r, Physical(e.pba));
    } else {
      PhysicalsSnoc(ext, e);
    }
  }

  /** A top is batched again exactly when its own physical entry ends the table. */
  lemma TopAgain(ext: seq<Entry>, r: seq<Entry>, e: Entry, live: seq<bool>)
    requires Sorted(r + [e]) && IsTop(e.pba) && EndsNear(ext, r, live)
    ensures EndsWith(ext, e.pba) && !ext[|ext| - 1].isVirtual <==> Physical(e.pba) in r
  {
    if r != [] {
      var last := r[|r| - 1];
      assert last == (r + [e])[|r| - 1] && last == Physical(last.pba) && last in r;
      if Physical(e.pba) in r {
        var i :| 0 <= i < |r| && r[i] == Physical(e.pba);
        assert (r + [e])[i].pba <= (r + [e])[|r| - 1].pba <= (r + [e])[|r|].pba;
      }
    }
  }

  /** The table has one physical entry per batched track, except that a repeated top is merged. */
  lemma {:induction false} PhysicalsOfExtend(batch: seq<Entry>, live: seq<bool>)
    requires Sorted(batch)
    ensures Physicals(Extend(batch, live)) + RepeatedTops(batch) == |batch|
  {
    if batch != [] {
      var r, e := batch[..|batch| - 1], batch[|batch| - 1];
      assert batch == r + [e];
      assert !e.isVirtual;
      SortedPrefix(batch);
      PhysicalsOfExtend(r, live);
      PhysicalsRound(Extend(r, live), e, live);
      ExtendEndsNear(r, live);
      if IsTop(e.pba) {
        TopAgain(Extend(r, live), r, e, live);
      }
    }
  }

  lemma {:induction false} NoRepeatedTops(batch: seq<Entry>)
    requires Sorted(batch)
    ensures RepeatedTops(batch) == 0 <==> TopsOnce(batch)
  {
    if batch != [] {
      var r, e := batch[..|batch| - 1], batch[|batch| - 1];
      SortedPrefix(batch);
      NoRepeatedTops(r);
      if IsTop(e.pba) && Physical(e.pba) in r {
        var i :| 0 <= i < |r| && r[i] == Physical(e.pba);
        assert batch[i].pba == batch[|batch| - 1].pba;
      }
      if TopsOnce(r) && !(IsTop(e.pba) && Physical(e.pba) in r) {
        forall i, j | 0 <= i < j < |batch| && IsTop(batch[j].pba)
          ensures batch[i].pba != batch[j].pba
        {
          if j < |r| {
            assert r[i].pba != r[j].pba;
          } else {
            assert r[i] == Physical(r[i].pba) && r[i] in r;
          }
        }
      }
    }
  }

  /** The tops that a batch forces the disk to rewrite. */
  function Rewritten(batch: seq<Entry>, live: seq<bool>): set<nat> {
    set p | 0 <= p < |live| && Disturbed(batch, live, p) && Physical(p) !in batch
  }

  /** The live tops beside a bottom. */
  function LiveSides(live: seq<bool>, t: nat): nat {
    (if t > 0 && LiveAt(live, t - 1) then 1 else 0) + if LiveAt(live, t + 1) then 1 else 0
  }

  /** How many live tops lie beside bottoms that are batched again, once for each time. */
  function Again(batch: seq<Entry>, live: seq<bool>): nat {
    if batch == [] then 0
    else
      var r, e := batch[..|batch| - 1], batch[|batch| - 1];
      Again(r, live) + if !IsTop(e.pba) && Physical(e.pba) in r then LiveSides(live, e.pba) else 0
  }

  lemma VirtualsSnoc(s: seq<Entry>, e: Entry)
    ensures Virtuals(s + [e]) == Virtuals(s) + if e.isVirtual then 1 else 0
  {
    assert (s + [e])[..|s|] == s;
  }

  lemma VirtualsOfBottom(ext: seq<Entry>, e: Entry, live: seq<bool>)
    requires !e.isVirtual && !IsTop(e.pba)
    ensures var t := e.pba;
            Virtuals(ExtendOne(ext, e, live)) ==
            Virtuals(ext) + (if t > 0 && LiveAt(live, t - 1) && !EndsWith(ext, t - 1) then 1 else 0) +
              (if LiveAt(live, t + 1) then 1 else 0)
  {
    hide ExtendOne, Virtuals;
    var t := e.pba;
    var add := t > 0 && LiveAt(live, t - 1) && !EndsWith(ext, t - 1);
    var below := WithVirtual(ext, if add then t - 1 else 0, add);
    BottomTable(ext, e, live);
    VirtualsSnoc(ext, Virtual(if add then t - 1 else 0));
    VirtualsSnoc(below, e);
    VirtualsSnoc(below + [e], Virtual(t + 1));
  }

  /** The virtual entries that one batched track adds; a top that is there already loses one. */
  lemma {:induction false} VirtualsRound(ext: seq<Entry>, e: Entry, live: seq<bool>)
    requires !e.isVirtual
    ensures var t := e.pba;
            Virtuals(ExtendOne(ext, e, live)) ==
            if IsTop(t) then Virtuals(ext) - (if EndsWith(ext, t) && ext[|ext| - 1].isVirtual then 1 else 0)
            else
              Virtuals(ext) + (if t > 0 && LiveAt(live, t - 1) && !EndsWith(ext, t - 1) then 1 else 0) +
              (if LiveAt(live, t + 1) then 1 else 0)
  {
    var t := e.pba;
    if !IsTop(t) {
      VirtualsOfBottom(ext, e, live);
    } else if EndsWith(ext, t) {
      var r := ext[..|ext| - 1];
      assert ext[|ext| - 1 := Physical(t)] == r + [Physical(t)];
      VirtualsSnoc(r, Physical(t));
    } else {
      VirtualsSnoc(ext, e);
    }
  }

  /** What the end of the table says about the batch, when the next track comes. */
  lemma EndTells(ext: seq<Entry>, r: seq<Entry>, e: Entry, live: seq<bool>)
    requires Sorted(r + [e]) && EndsNear(ext, r, live)
    ensures var t := e.pba;
            && (forall p: nat :: Physical(p) in r ==> p <= t)
            && (IsTop(t) && Physical(t) !in r ==>
                 (EndsWith(ext, t) && ext[|ext| - 1].isVirtual <==> LiveAt(live, t) && Physical(t - 1) in r))
            && (IsTop(t) && Physical(t) in r ==> !(EndsWith(ext, t) && ext[|ext| - 1].isVirtual))
            && (!IsTop(t) && t > 0 && LiveAt(live, t - 1) ==>
                  (EndsWith(ext, t - 1) <==> Physical(t) !in r && (Physical(t - 1) in r || Physical(t - 2) in r)))
  {
    forall p: nat | Physical(p) in r
      ensures p <= e.pba && p <= r[|r| - 1].pba
    {
      var i :| 0 <= i < |r| && r[i] == Physical(p);
      assert (r + [e])[i].pba <= (r + [e])[|r| - 1].pba <= (r + [e])[|r|].pba;
    }
    if r != [] {
      var last := r[|r| - 1];
      assert last == (r + [e])[|r| - 1] && last == Physical(last.pba) && last in r;
      assert (r + [e])[|r| - 1].pba <= (r + [e])[|r|].pba;
    }
  }

  lemma InRewritten(batch: seq<Entry>, live: seq<bool>, p: nat)
    ensures p in Rewritten(batch, live) <==> Disturbed(batch, live, p) && Physical(p) !in batch
  {
  }

  /** What one batched track changes about the tops that are rewritten. */
  lemma RewrittenRound(r: seq<Entry>, e: Entry, live: seq<bool>)
    requires !e.isVirtual && forall p: nat :: Physical(p) in r ==> p <= e.pba
    ensures var t, was, now := e.pba, Rewritten(r, live), Rewritten(r + [e], live);
            && (Physical(t) in r ==> now == was)
            && (Physical(t) !in r && IsTop(t) ==>
                 now == was - {t} && (t in was <==> LiveAt(live, t) && Physical(t - 1) in r))
            && (Physical(t) !in r && !IsTop(t) ==>
                  && now == was + (if t > 0 && LiveAt(live, t - 1) && Physical(t - 1) !in r then {t - 1} else {}) +
                     (if LiveAt(live, t + 1) then {t + 1} else {})
                  && t + 1 !in was
                  && (t > 0 && LiveAt(live, t - 1) && Physical(t - 1) !in r ==>
                       (t - 1 in was <==> Physical(t - 2) in r)))
  {
    var t := e.pba;
    forall p: nat
      ensures Disturbed(r + [e], live, p) <==>
              Disturbed(r, live, p) || (!IsTop(t) && LiveAt(live, p) && (p + 1 == t || p == t + 1))
      ensures Physical(p) in r + [e] <==> Physical(p) in r || p == t
      ensures p in Rewritten(r, live) <==> Disturbed(r, live, p) && Physical(p) !in r
      ensures p in Rewritten(r + [e], live) <==> Disturbed(r + [e], live, p) && Physical(p) !in r + [e]
    {
      DisturbedSnoc(r, e, live, p);
      InSnoc(r, e, Physical(p));
      InRewritten(r, live, p);
      InRewritten(r + [e], live, p);
      if Physical(t) in r && !IsTop(t) && LiveAt(live, p) && (p + 1 == t || p == t + 1) {
        assert Disturbed(r, live, p);
      }
    }
  }

  lemma RewrittenCount(r: seq<Entry>, e: Entry, live: seq<bool>)
    requires !e.isVirtual && forall p: nat :: Physical(p) in r ==> p <= e.pba
    ensures var t, was, now := e.pba, Rewritten(r, live), Rewritten(r + [e], live);
            |now| == if Physical(t) in r then |was|
                     else if IsTop(t) then |was| - (if LiveAt(live, t) && Physical(t - 1) in r then 1 else 0)
                     else |was| + (if t > 0 && LiveAt(live, t - 1) && Physical(t - 1) !in r && Physical(t - 2) !in r
                       then 1 else 0) + (if LiveAt(live, t + 1) then 1 else 0)
  {
    hide Rewritten, Disturbed;
    RewrittenRound(r, e, live);
  }

  /** The virtual entries of any sorted batch: one for each live top that is next to a written bottom and not
      written itself, and one more for each live top beside a bottom whenever that bottom is repeated. */
  lemma {:induction false} VirtualsOfExtend(batch: seq<Entry>, live: seq<bool>)
    requires Sorted(batch)
    ensures Virtuals(Extend(batch, live)) == |Rewritten(batch, live)| + Again(batch, live)
  {
    hide Rewritten, ExtendOne, EndsWith, EndsNear, Virtuals, Sorted;
    if batch == [] {
      NothingRewritten(live);
    } else {
      var r, e := batch[..|batch| - 1], batch[|batch| - 1];
      assert batch == r + [e];
      SortedPrefix(batch);
      LastIsPhysical(batch);
      VirtualsOfExtend(r, live);
      VirtualsRound(Extend(r, live), e, live);
      ExtendEndsNear(r, live);
      EndTells(Extend(r, live), r, e, live);
      RewrittenCount(r, e, live);
    }
  }

  lemma NothingRewritten(live: seq<bool>)
    ensures Rewritten([], live) == {} && Virtuals([]) == 0
  {
  }

  lemma LastIsPhysical(batch: seq<Entry>)
    requires Sorted(batch) && batch != []
    ensures !batch[|batch| - 1].isVirtual
  {
  }

  /** No bottom beside a live top is written twice. */
  ghost predicate DisturbsOnce(batch: seq<Entry>, live: seq<bool>) {
    forall i, j :: 0 <= i < j < |batch| && !IsTop(batch[j].pba) && LiveSides(live, batch[j].pba) > 0 ==>
        batch[i].pba != batch[j].pba
  }

  lemma DisturbsOnceSnoc(r: seq<Entry>, e: Entry, live: seq<bool>)
    requires forall i :: 0 <= i < |r| ==> !r[i].isVirtual
    ensures DisturbsOnce(r + [e], live) <==>
            DisturbsOnce(r, live) && !(!IsTop(e.pba) && LiveSides(live, e.pba) > 0 && Physical(e.pba) in r)
  {
    hide LiveSides;
    var s := r + [e];
    assert forall i :: 0 <= i < |r| ==> s[i] == r[i] && r[i] == Physical(r[i].pba) && r[i] in r;
    if DisturbsOnce(s, live) {
      assert DisturbsOnce(r, live);
      if Physical(e.pba) in r {
        var i :| 0 <= i < |r| && r[i] == Physical(e.pba);
        assert s[i].pba == s[|r|].pba;
      }
    } else {
      var i, j :| 0 <= i < j < |s| && !IsTop(s[j].pba) && LiveSides(live, s[j].pba) > 0 && s[i].pba == s[j].pba;
      if j < |r| {
        assert r[i].pba == r[j].pba;
      } else {
        assert r[i] == Physical(e.pba);
      }
    }
  }

  lemma {:induction false} NoneAgain(batch: seq<Entry>, live: seq<bool>)
    requires Sorted(batch)
    ensures Again(batch, live) == 0 <==> DisturbsOnce(batch, live)
  {
    hide DisturbsOnce, LiveSides;
    if batch == [] {
      NothingDisturbed(live);
    } else {
      var r, e := batch[..|batch| - 1], batch[|batch| - 1];
      assert batch == r + [e];
      SortedPrefix(batch);
      NoneAgain(r, live);
      DisturbsOnceSnoc(r, e, live);
    }
  }

  lemma NothingDisturbed(live: seq<bool>)
    ensures DisturbsOnce([], live)
  {
  }

  lemma {:induction false} PhysicalsAndVirtuals(s: seq<Entry>)
    ensures Physicals(s) + Virtuals(s) == |s|
  {
    if s != [] {
      PhysicalsAndVirtuals(s[..|s| - 1]);
    }
  }
}
