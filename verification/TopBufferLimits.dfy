/** A run that the build with a top buffer does not survive: the tops run out before the buffer is full. */
module TopBufferLimits {
  import opened DiskTypes
  import opened TopBufferSpec
  import opened ZoneAllocation
  import opened TopBufferRoutes
  import opened TopBufferDisk

  /** The tracks of one gigabyte. */
  const MAX: nat := 512

  // ---- filling the disk ------------------------------------------------------------------------

  /** LBAs 0 up to k have been written once each, under one fid. */
  ghost predicate Filled(s: State, z: Position, k: nat) {
    && Steady(s, z, MAX) && s.pairs == 0 && |s.ltp| == MAX && k <= 510
    && At(z, k, 128) && Untouched(FreeTracks(s.tracks), k, MAX)
    && !z.initialized && (z.phase != Phase1 ==> z.enabled)
    && (forall l :: 0 <= l < MAX ==> (s.ltp[l].valid <==> l < k))
    && (forall l :: 0 <= l < k ==> s.ltp[l] == LtpEntry(Order(l, MAX), 0, true))
    && (forall p :: 0 <= p < MAX ==> s.ptt[p].kind == Normal)
  }

  /** The first 510 allocations leave buffering on: they end before the last tops of phase 3. */
  lemma BufferingStaysOn(z: Position, free: seq<bool>, k: nat)
    requires Zoned(z, MAX, 0) && |free| == MAX && At(z, k, 128) && Untouched(free, k, MAX) && k < 510
    requires !z.initialized && (z.phase != Phase1 ==> z.enabled)
    ensures var y := Allocate(z, free, MAX, 0).0; !y.initialized && (y.phase != Phase1 ==> y.enabled)
  {
    hide Rank, Order;
    AdvanceKeeps(z, MAX, 0);
    OrderThenRank(k, 128);
    OrderByPhase(k, 128);
    if k == 256 {
      AdvanceKeeps(Advance(z, MAX), MAX, 0);
    }
  }

  lemma FillStep(s: State, z: Position, k: nat, data: Data, route: Route)
    requires Filled(s, z, k) && k < 510 && RouteOk(s, z, MAX, k, route)
    ensures Filled(Routed(s, z, MAX, k, 0, data, route), Moved(s, z, MAX, route), k + 1)
    ensures route.NewTrack? && !route.reclaimed
  {
    hide Owned, Accounted, Paired, Zoned, Pending, At, Untouched, Order, Rank, Allocate;
    var free := FreeTracks(s.tracks);
    NthAllocation(z, free, k, 128);
    BufferingStaysOn(z, free, k);
    TakeNext(free, k, 128);
    RouteStores(s, z, MAX, k, 0, data, route);
    PlacedTracks(s, Order(k, MAX), k, 0, data);
  }

  // ---- updating it -----------------------------------------------------------------------------

  function FreeSet(tracks: seq<Track>): set<nat> {
    set p | 0 <= p < |tracks| && IsFree(tracks[p].status)
  }

  /** LBAs 0 up to j have been written a second time. */
  ghost predicate Updated(s: State, z: Position, j: nat) {
    && Steady(s, z, MAX) && |s.ltp| == MAX && j <= 2
    && z.phase == Phase3 && z.enabled && z.maxPairs == 10 && s.pairs == j
    && (forall l :: 0 <= l < 3 ==> s.ltp[l] == LtpEntry(2 * l, 0, true))
    && (forall l :: j <= l < 3 ==> s.ptt[2 * l].kind == Normal)
    && |FreeSet(s.tracks)| == 2 - j
  }

  lemma TwoTopsLeft(s: State, z: Position)
    requires Filled(s, z, 510)
    ensures Updated(s, z, 0)
  {
    hide Sound, Pending;
    assert forall p :: 0 <= p < MAX ==> (FreeTracks(s.tracks)[p] <==> p == 505 || p == 509);
    assert FreeSet(s.tracks) == {505, 509};
  }

  lemma FreeAreTops(s: State, z: Position)
    requires Steady(s, z, MAX) && z.phase == Phase3
    ensures forall p :: p in FreeSet(s.tracks) ==> IsTop(p)
    ensures NoFreeTop(s.tracks) <==> FreeSet(s.tracks) == {}
  {
    hide Sound, Zoned;
    forall p | p in FreeSet(s.tracks)
      ensures IsTop(p)
    {
      assert FreeTracks(s.tracks)[p];
    }
    if FreeSet(s.tracks) != {} {
      var p :| p in FreeSet(s.tracks);
      assert IsTop(p) && IsFree(s.tracks[p].status);
    }
    assert forall t :: 0 <= t < |s.tracks| && IsFree(s.tracks[t].status) ==> t in FreeSet(s.tracks);
  }

  lemma OneFreeLess(a: seq<Track>, b: seq<Track>, t: nat)
    requires t < |a| == |b| && IsFree(a[t].status) && FreeTracks(b) == FreeTracks(a)[t := false]
    ensures |FreeSet(b)| == |FreeSet(a)| - 1
  {
    assert forall p :: 0 <= p < |a| ==>
        IsFree(b[p].status) == FreeTracks(b)[p] && IsFree(a[p].status) == FreeTracks(a)[p];
    assert FreeSet(b) == FreeSet(a) - {t};
  }

  lemma UpdateIsBuffered(s: State, z: Position, j: nat, data: Data, route: Route)
    requires Updated(s, z, j) && j < 2 && RouteOk(s, z, MAX, j, route)
    ensures route.Buffer? && CanPair(s, 2 * j, route.t) && s.tracks[2 * j].lba == j
    ensures Routed(s, z, MAX, j, 0, data, route) == Buffered(s, 2 * j, route.t, data) && Moved(s, z, MAX, route) == z
  {
    hide Owned, Accounted, Paired, Zoned, Pending;
    assert s.ltp[j] == LtpEntry(2 * j, 0, true);
    assert s.ptt[2 * j].kind == Normal;
    BufferPairs(s, z, MAX, j, route.t, false);
  }

  lemma UpdateStep(s: State, z: Position, j: nat, data: Data, route: Route)
    requires Updated(s, z, j) && j < 2 && RouteOk(s, z, MAX, j, route)
    ensures Updated(Routed(s, z, MAX, j, 0, data, route), Moved(s, z, MAX, route), j + 1)
  {
    hide Owned, Accounted, Paired, Zoned, Pending, Buffers, RouteOk, Routed, Moved, FreeSet, FreeTracks, Buffered,
      Order, BufferTops, InUseTracks;
    RouteStores(s, z, MAX, j, 0, data, route);
    UpdateIsBuffered(s, z, j, data, route);
    BufferedTracks(s, 2 * j, route.t, data);
    OneFreeLess(s.tracks, Buffered(s, 2 * j, route.t, data).tracks, route.t);
    BufferedKinds(s, 2 * j, route.t, data);
  }

  lemma BufferedKinds(s: State, b: nat, t: nat, data: Data)
    requires CanPair(s, b, t)
    ensures var u := Buffered(s, b, t, data);
            |u.ptt| == |s.ptt| && forall p :: 0 <= p < |s.ptt| && !IsTop(p) && p != b ==> u.ptt[p] == s.ptt[p]
  {
    hide Owned, Accounted, Paired;
  }

  lemma UpdateIsStuckAtLast(s: State, z: Position, j: nat)
    requires Updated(s, z, j)
    ensures Stuck(s, z, j) <==> j == 2
  {
    hide Sound, Zoned, Pending;
    FreeAreTops(s, z);
  }

  /** LBAs 0 up to k hold the data, all under one fid. */
  ghost predicate Holds(m: map<nat, FileData>, k: nat, data: Data) {
    (forall l :: l in m <==> 0 <= l < k) && forall l :: l in m ==> m[l] == FileData(0, data)
  }

  /** The next LBA is written for the first time. */
  method Fill(d: Disk, k: nat, data: Data)
    requires d.Valid() && d.max == d.ltp.Length == MAX && k < 510 && Filled(d.View(), d.Place(), k)
    requires Holds(Store(d.View()), k, data)
    modifies d, d.tracks, d.ltp, d.ptt
    ensures d.Valid() && Filled(d.View(), d.Place(), k + 1) && Holds(Store(d.View()), k + 1, data)
    ensures d.topCursor == old(d.topCursor) && d.scpCursor == old(d.scpCursor)
  {
    hide Filled, RouteOk, Stuck, Steady, Store, Sound, Routed, Moved, Settle;
    ghost var s, z := d.View(), d.Place();
    FilledUpTo(s, z, k);
    var r, route := d.LbaWrite(k, 0, data);
    FillStep(s, z, k, data, route);
  }

  /** LBAs 0 up to n are written to a new disk of one gigabyte. */
  method FillUpTo(n: nat, data: Data) returns (d: Disk)
    requires n <= 510
    ensures fresh(d) && fresh(d.tracks) && fresh(d.ltp) && fresh(d.ptt)
    ensures d.Valid() && d.max == d.ltp.Length == MAX && Filled(d.View(), d.Place(), n) && d.topCursor == 1
    ensures Holds(Store(d.View()), n, data)
  {
    hide Filled, Stuck, Sound, Zoned, Pending, Store, Holds;
    d := new Disk(1, 1);
    FilledAtFirst(d.View());
    NothingHeld(data);
    var k := 0;
    while k < n
      invariant k <= n && d.Valid() && d.max == d.ltp.Length == MAX && Filled(d.View(), d.Place(), k)
      invariant Holds(Store(d.View()), k, data) && d.topCursor == 1
      invariant fresh(d) && fresh(d.tracks) && fresh(d.ltp) && fresh(d.ptt)
    {
      Fill(d, k, data);
      k := k + 1;
    }
  }

  /** An LBA is written for the second time. */
  method Update(d: Disk, j: nat, data: Data)
    requires d.Valid() && d.max == d.ltp.Length == MAX && j < 2 && Updated(d.View(), d.Place(), j)
    requires Holds(Store(d.View()), 510, data)
    modifies d, d.tracks, d.ltp, d.ptt
    ensures d.Valid() && Updated(d.View(), d.Place(), j + 1) && Holds(Store(d.View()), 510, data)
  {
    hide Updated, RouteOk, Stuck, Steady, Store, Sound, Routed, Moved, Settle;
    ghost var s, z := d.View(), d.Place();
    UpdateIsStuckAtLast(s, z, j);
    HeldUnderFid(s, z, j);
    var r, route := d.LbaWrite(j, 0, data);
    UpdateStep(s, z, j, data, route);
  }

  /** On a disk of one gigabyte, 510 LBAs are written once and then the first three of them again. The third
      of these updates ends the program: the two tops that are left have become buffers, and with two of ten
      buffers SCP is not asked for another. */
  method TopsRunOut(data: Data) returns (d: Disk, r: WriteResult)
    ensures fresh(d) && d.Valid() && d.max == MAX && Holds(Store(d.View()), 510, data)
    ensures d.View().pairs == 2 && d.Place().maxPairs == 10 && Refused(d.View(), d.Place(), MAX, Put(2, 0, data))
    ensures r == NoTopLeft
  {
    hide Filled, Updated, Stuck, Sound, Zoned, Pending, Store, Holds;
    d := FillUpTo(510, data);
    TwoTopsLeft(d.View(), d.Place());
    Update(d, 0, data);
    Update(d, 1, data);
    UpdateIsStuckAtLast(d.View(), d.Place(), 2);
    HeldUnderFid(d.View(), d.Place(), 2);
    ghost var route;
    r, route := d.LbaWrite(2, 0, data);
  }

  lemma NothingHeld(data: Data)
    ensures Holds(map[], 0, data)
  {
  }

  lemma FilledAtFirst(s: State)
    requires Steady(s, Position(Phase1, 0, false, false, false, Capacity(MAX)), MAX) && s.pairs == 0 && |s.ltp| == MAX
    requires forall p :: 0 <= p < MAX ==> s.tracks[p].status == Free && s.ptt[p].kind == Normal
    requires Store(s) == map[]
    ensures Filled(s, Position(Phase1, 0, false, false, false, Capacity(MAX)), 0)
  {
    OrderIsAPermutation(MAX, 128);
    assert forall l :: 0 <= l < MAX && s.ltp[l].valid ==> l in Store(s);
  }

  lemma FilledUpTo(s: State, z: Position, k: nat)
    requires Filled(s, z, k) && k < 510
    ensures Sound(s) && k < |s.ltp| && !s.ltp[k].valid && k !in Store(s)
  {
  }

  lemma HeldUnderFid(s: State, z: Position, j: nat)
    requires Updated(s, z, j)
    ensures Sound(s) && j < |s.ltp| && s.ltp[j].valid && s.ltp[j].fid == 0 && j in Store(s) && Store(s)[j].fid == 0
    ensures s.pairs == j && z.maxPairs == 10
  {
    assert s.ltp[j] == LtpEntry(2 * j, 0, true);
  }

  // ---- an update in phase 2 ----------------------------------------------------------------------

  lemma InPhase2(s: State, z: Position)
    requires Filled(s, z, 257)
    ensures Sound(s) && z.phase == Phase2 && z.enabled && s.pairs == 0 && z.maxPairs == 10
    ensures s.ltp[0] == LtpEntry(0, 0, true) && s.ptt[0].kind == Normal
    ensures |s.tracks| == MAX && IsFree(s.tracks[1].status) && 0 in Store(s) && Store(s)[0].fid == 0
  {
    hide Owned, Accounted, Paired, Pending;
    assert s.ltp[0] == LtpEntry(Order(0, MAX), 0, true);
    assert FreeTracks(s.tracks)[1];
  }

  /** On a disk of one gigabyte, one LBA more than there are bottoms is written, and then the first one again.
      The allocator has entered phase 2, so the new data goes to the first top and the bottom keeps the old. */
  method UpdateInPhase2(data: Data, newer: Data) returns (d: Disk)
    ensures fresh(d) && d.Valid() && d.max == MAX == d.ptt.Length == |d.content| && d.phase == Phase2 && d.pairs == 1
    ensures d.ptt[0].kind == BufferedBottom && d.ptt[0].tba == 1 && d.ptt[1] == Indirection(1, 0, BufferTop)
    ensures d.content[1] == newer && 0 in Store(d.View()) && Store(d.View())[0] == FileData(0, newer)
  {
    hide Filled, Stuck, Sound, Zoned, Pending, Store, Holds;
    d := FillUpTo(257, data);
    InPhase2(d.View(), d.Place());
    var r, route := d.LbaWrite(0, 0, newer);
  }
}
