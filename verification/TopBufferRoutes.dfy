/** Where lba_write puts new data in the build with a top buffer, and what any such route does: the exact
    condition for a write to fail, and the refinement of a plain table. */
module TopBufferRoutes {
  import opened DiskTypes
  import opened TopBufferSpec
  import opened ZoneAllocation

  /** What the allocator sees of the tracks. */
  function FreeTracks(tracks: seq<Track>): (free: seq<bool>)
    ensures |free| == |tracks|
    ensures forall p :: 0 <= p < |tracks| ==> free[p] == (tracks[p].status in {Free, Invalid})
  {
    seq(|tracks|, p requires 0 <= p < |tracks| => IsFree(tracks[p].status))
  }

  lemma FreeExactly(s: State, p: nat)
    requires Sound(s) && p < |s.tracks|
    ensures FreeTracks(s.tracks)[p] == IsFree(s.tracks[p].status)
    ensures IsFree(s.tracks[p].status) ==> Plain(s, p)
  {
    if IsFree(s.tracks[p].status) {
      FreeIsPlain(s, p);
    }
  }

  lemma BookFree(s: State, p: nat)
    requires Sound(s) && p < |s.tracks| && FreeTracks(s.tracks)[p]
    ensures Plain(s, p)
  {
    FreeExactly(s, p);
  }

  /** Between two requests: the maps agree, every free track is ahead of the allocator, and no LBA beyond
      the disk is stored. */
  ghost predicate Steady(s: State, z: Position, max: nat) {
    && Sound(s) && |s.tracks| == max && Zoned(z, max, s.pairs) && Pending(z, FreeTracks(s.tracks))
    && forall l :: max <= l < |s.ltp| ==> !s.ltp[l].valid
  }

  lemma EmptyIsSteady(s: State, max: nat)
    requires |s.tracks| == max && max % 4 == 0 && max >= 512
    requires Sized(s) && s.used == 0 && s.pairs == 0
    requires forall p :: 0 <= p < |s.tracks| ==> s.tracks[p].status == Free && s.ptt[p].kind == Normal
    requires forall l :: 0 <= l < |s.ltp| ==> !s.ltp[l].valid
    ensures Steady(s, Position(Phase1, 0, false, false, false, Capacity(max)), max) && Store(s) == map[]
  {
    EmptyIsSound(s);
  }

  // ---- routes --------------------------------------------------------------------------------

  /** A write goes to the track that its LBA reads, to a top that is paired with its bottom, or, for a new
      LBA, to a track from the allocator. The flag tells a top that SCP has just reclaimed. */
  datatype Route = InPlace | Buffer(t: nat, reclaimed: bool) | NewTrack(p: nat, reclaimed: bool)

  /** An update of this LBA goes to the buffer. */
  predicate Buffers(s: State, z: Position, lba: nat)
    requires Sized(s) && lba < |s.ltp|
  {
    var b := s.ltp[lba].pba;
    !IsTop(b) && s.ptt[b].kind == Normal && z.phase != Phase1 && z.enabled
  }

  ghost predicate NoFreeTop(tracks: seq<Track>) {
    forall t :: 0 <= t < |tracks| && IsTop(t) ==> !IsFree(tracks[t].status)
  }

  /** The guard of the exit in run_top_buffer: the update goes to the buffer, the buffer is not full, so SCP
      is not asked, and no top is free. */
  ghost predicate Stuck(s: State, z: Position, lba: nat)
    requires Sized(s)
  {
    lba < |s.ltp| && s.ltp[lba].valid && Buffers(s, z, lba) && s.pairs < z.maxPairs && NoFreeTop(s.tracks)
  }

  /** A route that the program may take. */
  ghost predicate RouteOk(s: State, z: Position, max: nat, lba: nat, route: Route)
    requires Steady(s, z, max) && lba < |s.ltp|
  {
    match route
    case InPlace => s.ltp[lba].valid && !Buffers(s, z, lba)
    case Buffer(t, reclaimed) =>
      && s.ltp[lba].valid && Buffers(s, z, lba) && t < max && IsTop(t)
      && if reclaimed then z.maxPairs <= s.pairs && s.ptt[t].kind == BufferTop
         else s.pairs < z.maxPairs && IsFree(s.tracks[t].status)
    case NewTrack(p, reclaimed) =>
      var r := Allocate(z, FreeTracks(s.tracks), max, s.pairs).1;
      && !s.ltp[lba].valid && p < max
      && if reclaimed then r.None? && s.ptt[p].kind == BufferTop else r == Some(p)
  }

  /** The disk after SCP has written buffer top t back. */
  function Reclaimed(s: State, t: nat): State
    requires Sound(s) && t < |s.tracks| && s.ptt[t].kind == BufferTop
  {
    WriteBackFinds(s, t);
    WriteBack(s, t)
  }

  /** The disk at the end of pba_search, and the track it returns. */
  function Searched(s: State, z: Position, max: nat, lba: nat, fid: nat, route: Route): (r: (State, nat))
    requires Steady(s, z, max) && lba < |s.ltp| && RouteOk(s, z, max, lba, route)
    ensures r.1 < |r.0.tracks| && r.1 < |r.0.content|
  {
    match route
    case InPlace =>
      ReadsOwnTrack(s, lba);
      (s, ToTrack(s, lba))
    case Buffer(t, reclaimed) =>
      (Pair(if reclaimed then Reclaimed(s, t) else s, s.ltp[lba].pba, t), t)
    case NewTrack(p, reclaimed) =>
      var g := if reclaimed then Reclaimed(s, p) else s;
      (Link(Book(g, p), lba, p, fid), p)
  }

  /** The disk after the write. */
  function Routed(s: State, z: Position, max: nat, lba: nat, fid: nat, data: Data, route: Route): State
    requires Steady(s, z, max) && lba < |s.ltp| && RouteOk(s, z, max, lba, route)
  {
    var (u, p) := Searched(s, z, max, lba, fid, route);
    Settle(u, p, lba, data)
  }

  /** Where the allocator stands after the write. A top that it reclaims is lost to the buffer. */
  function Moved(s: State, z: Position, max: nat, route: Route): Position
    requires Steady(s, z, max)
  {
    match route
    case NewTrack(p, reclaimed) =>
      var y := Allocate(z, FreeTracks(s.tracks), max, s.pairs).0;
      if reclaimed then Advance(y.(current := p, maxPairs := y.maxPairs - 1), max) else y
    case _ => z
  }

  /** Track k is met before t on the way from the cursor around the end. */
  predicate Between(cursor: nat, k: nat, t: nat) {
    if cursor <= t then cursor <= k < t else cursor <= k || k < t
  }

  /** How a route moves the cursors: a free top is the next one from current_top_buffer_track on, a reclaimed
      top the next buffer from current_scp_track on. */
  ghost predicate Turned(s: State, max: nat, route: Route, top: nat, scp: nat, nextTop: nat, nextScp: nat)
    requires |s.tracks| == |s.ptt| == max
  {
    match route
    case Buffer(t, false) =>
      && nextTop == t && nextScp == scp
      && forall k :: 0 <= k < max && IsTop(k) && Between(top, k, t) ==> !IsFree(s.tracks[k].status)
    case Buffer(t, true) =>
      && nextTop == top && nextScp == t
      && forall k :: 0 <= k < max && IsTop(k) && Between(scp, k, t) ==> s.ptt[k].kind != BufferTop
    case NewTrack(t, true) =>
      && nextTop == top && nextScp == t
      && forall k :: 0 <= k < max && IsTop(k) && Between(scp, k, t) ==> s.ptt[k].kind != BufferTop
    case _ => nextTop == top && nextScp == scp
  }

  // ---- what a route does -----------------------------------------------------------------------

  lemma ReclaimedTop(s: State, t: nat)
    requires Sound(s) && t < |s.tracks| && s.ptt[t].kind == BufferTop
    ensures var g := Reclaimed(s, t);
            && Sound(g) && Store(g) == Store(s) && g.ltp == s.ltp && IsTop(t) && g.pairs == s.pairs - 1
            && FreeTracks(g.tracks) == FreeTracks(s.tracks)[t := true] && Spares(s, g) && IsFree(g.tracks[t].status)
  {
    WriteBackStores(s, t);
    WriteBackFinds(s, t);
    WriteBackSpares(s, t);
  }

  lemma InPlaceStores(s: State, z: Position, max: nat, lba: nat, fid: nat, data: Data)
    requires Steady(s, z, max) && lba < |s.ltp| && s.ltp[lba].valid && s.ltp[lba].fid == fid &&
             RouteOk(s, z, max, lba, InPlace)
    ensures var u := Routed(s, z, max, lba, fid, data, InPlace);
            Steady(u, z, max) && Store(u) == Store(s)[lba := FileData(fid, data)]
  {
    hide Zoned, Pending, Store, Paired, Owned, Accounted;
    ReadsOwnTrack(s, lba);
    RewriteStores(s, lba, data);
    assert FreeTracks(Routed(s, z, max, lba, fid, data, InPlace).tracks) == FreeTracks(s.tracks);
  }

  lemma BufferedTracks(g: State, b: nat, t: nat, data: Data)
    requires CanPair(g, b, t)
    ensures var u := Buffered(g, b, t, data);
            && FreeTracks(u.tracks) == FreeTracks(g.tracks)[t := false] && |u.tracks| == |g.tracks|
            && u.ltp == g.ltp && u.pairs == g.pairs + 1
  {
    hide Owned, Accounted, Paired;
  }

  /** The bottom of a buffered update, before and after SCP. */
  lemma BufferPairs(s: State, z: Position, max: nat, lba: nat, t: nat, reclaimed: bool)
    requires Steady(s, z, max) && lba < |s.ltp| && s.ltp[lba].valid && RouteOk(s, z, max, lba, Buffer(t, reclaimed))
    ensures var g, b := if reclaimed then Reclaimed(s, t) else s, s.ltp[lba].pba;
            && CanPair(g, b, t) && g.tracks[b].lba == lba && g.ltp == s.ltp && Store(g) == Store(s)
            && FreeTracks(g.tracks)[t := false] == FreeTracks(s.tracks)[t := false]
            && g.pairs == if reclaimed then s.pairs - 1 else s.pairs
  {
    hide Zoned, Pending, Store, Paired, Accounted, WriteBack;
    assert s.ltp[lba].pba < |s.tracks| && s.tracks[s.ltp[lba].pba].lba == lba &&
      s.tracks[s.ltp[lba].pba].status == InUse;
    if reclaimed {
      ReclaimedTop(s, t);
      SparedBottom(s, Reclaimed(s, t), s.ltp[lba].pba);
    }
  }

  lemma BufferStores(s: State, z: Position, max: nat, lba: nat, fid: nat, data: Data, t: nat, reclaimed: bool)
    requires Steady(s, z, max) && lba < |s.ltp| && s.ltp[lba].valid && s.ltp[lba].fid == fid &&
             RouteOk(s, z, max, lba, Buffer(t, reclaimed))
    ensures var u := Routed(s, z, max, lba, fid, data, Buffer(t, reclaimed));
            Steady(u, z, max) && Store(u) == Store(s)[lba := FileData(fid, data)]
  {
    hide Owned, Accounted, Paired, Zoned, Pending, Store, WriteBack, Pair, Settle;
    BufferPairs(s, z, max, lba, t, reclaimed);
    var g, b := if reclaimed then Reclaimed(s, t) else s, s.ltp[lba].pba;
    PairStores(g, b, t, data);
    BufferedTracks(g, b, t, data);
    assert Routed(s, z, max, lba, fid, data, Buffer(t, reclaimed)) == Buffered(g, b, t, data);
    OneBuffered(s, z, max, t, reclaimed);
  }

  /** The allocator sees one free track less, or the same ones. */
  lemma OneBuffered(s: State, z: Position, max: nat, t: nat, reclaimed: bool)
    requires Steady(s, z, max) && t < max
    requires if reclaimed then s.ptt[t].kind == BufferTop else s.pairs < z.maxPairs
    ensures Pending(z, FreeTracks(s.tracks)[t := false])
    ensures Zoned(z, max, if reclaimed then s.pairs else s.pairs + 1)
  {
    hide Sound, Zoned;
    if !reclaimed {
      PairBelow(z, max, s.pairs);
    }
  }

  lemma PlacedTracks(g: State, p: nat, lba: nat, fid: nat, data: Data)
    requires p < |g.tracks| == |g.content| && lba < |g.ltp|
    ensures var u := Placed(g, p, lba, fid, data);
            && FreeTracks(u.tracks) == FreeTracks(g.tracks)[p := false] && |u.tracks| == |g.tracks|
            && u.ltp == g.ltp[lba := LtpEntry(p, fid, true)] && u.pairs == g.pairs
  {
  }

  /** The track for a new LBA, and what the allocator sees after it is taken. */
  lemma NewTrackIsFree(s: State, z: Position, max: nat, lba: nat, p: nat, reclaimed: bool)
    requires Steady(s, z, max) && lba < |s.ltp| && RouteOk(s, z, max, lba, NewTrack(p, reclaimed))
    ensures var g, y := if reclaimed then Reclaimed(s, p) else s, Moved(s, z, max, NewTrack(p, reclaimed));
            && Sound(g) && Store(g) == Store(s) && g.ltp == s.ltp && |g.tracks| == max && IsFree(g.tracks[p].status)
            && Pending(y, FreeTracks(g.tracks)[p := false]) && Zoned(y, max, g.pairs)
  {
    hide Owned, Accounted, Paired, Store, Zoned, Advance, WriteBack;
    AllocateExactly(z, FreeTracks(s.tracks), max, s.pairs);
    if reclaimed {
      ReclaimedTop(s, p);
      assert FreeTracks(Reclaimed(s, p).tracks)[p := false] == FreeTracks(s.tracks)[p := false];
      PairsOfBuffer(s, p);
      ReclaimMoves(Allocate(z, FreeTracks(s.tracks), max, s.pairs).0, max, s.pairs, p);
    }
  }

  lemma PairsOfBuffer(s: State, t: nat)
    requires Sound(s) && t < |s.tracks| && s.ptt[t].kind == BufferTop
    ensures s.pairs > 0
  {
    assert t in BufferTops(s.ptt);
  }

  lemma NewTrackStores(s: State, z: Position, max: nat, lba: nat, fid: nat, data: Data, p: nat, reclaimed: bool)
    requires Steady(s, z, max) && lba < |s.ltp| && lba < max && !s.ltp[lba].valid &&
             RouteOk(s, z, max, lba, NewTrack(p, reclaimed))
    ensures var u, y := Routed(s, z, max, lba, fid, data, NewTrack(p, reclaimed)),
            Moved(s, z, max, NewTrack(p, reclaimed));
            Steady(u, y, max) && Store(u) == Store(s)[lba := FileData(fid, data)]
  {
    hide Owned, Accounted, Paired, Store, Zoned, Pending, Moved, WriteBack, Settle, Link, Book;
    NewTrackIsFree(s, z, max, lba, p, reclaimed);
    var g := if reclaimed then Reclaimed(s, p) else s;
    PlaceStores(g, p, lba, fid, data);
    PlacedTracks(g, p, lba, fid, data);
    assert Routed(s, z, max, lba, fid, data, NewTrack(p, reclaimed)) == Placed(g, p, lba, fid, data);
  }

  lemma ReclaimMoves(y: Position, max: nat, pairs: int, p: nat)
    requires Zoned(y, max, pairs) && RunOut(y, max) && pairs > 0 && IsTop(p) && p < max
    ensures Zoned(Advance(y.(current := p, maxPairs := y.maxPairs - 1), max), max, pairs - 1)
  {
    AdvanceKeeps(y.(current := p, maxPairs := y.maxPairs - 1), max, pairs - 1);
  }

  /** The next round after SCP in the allocator takes the top that has just become free. */
  lemma AllocateReclaimed(s: State, z: Position, max: nat, t: nat)
    requires Sound(s) && |s.tracks| == max && t < max && s.ptt[t].kind == BufferTop && z.current == t &&
             z.phase == Phase3
    requires Zoned(z, max, Reclaimed(s, t).pairs)
    ensures |Reclaimed(s, t).tracks| == max
    ensures Allocate(z, FreeTracks(Reclaimed(s, t).tracks), max, Reclaimed(s, t).pairs) == (Advance(z, max), Some(t))
  {
    hide Sound, Zoned, Advance, Allocate, Reclaimed;
    ReclaimedTop(s, t);
    AllocateRound(z, FreeTracks(Reclaimed(s, t).tracks), max, Reclaimed(s, t).pairs);
  }

  /** Every route completes the write: one assignment in the table of what the disk stores, on a disk that
      is steady again. */
  lemma RouteStores(s: State, z: Position, max: nat, lba: nat, fid: nat, data: Data, route: Route)
    requires Steady(s, z, max) && lba < |s.ltp| && lba < max && (s.ltp[lba].valid ==> s.ltp[lba].fid == fid)
    requires RouteOk(s, z, max, lba, route)
    ensures var u, y := Routed(s, z, max, lba, fid, data, route), Moved(s, z, max, route);
            Steady(u, y, max) && Store(u) == Store(s)[lba := FileData(fid, data)]
  {
    hide Steady, Store;
    match route
    case InPlace => InPlaceStores(s, z, max, lba, fid, data);
    case Buffer(t, reclaimed) => BufferStores(s, z, max, lba, fid, data, t, reclaimed);
    case NewTrack(p, reclaimed) => NewTrackStores(s, z, max, lba, fid, data, p, reclaimed);
  }

  /** The track of a route is in use or booked, as chs_write asserts. */
  lemma SearchedIsLive(s: State, z: Position, max: nat, lba: nat, fid: nat, route: Route)
    requires Steady(s, z, max) && lba < |s.ltp| && RouteOk(s, z, max, lba, route)
    ensures var (u, p) := Searched(s, z, max, lba, fid, route); IsLive(u.tracks[p].status)
  {
    hide Zoned, Pending, Owned, Accounted, Paired, WriteBack;
    match route
    case InPlace => ReadsOwnTrack(s, lba);
    case Buffer(t, reclaimed) =>
      if reclaimed {
        ReclaimedTop(s, t);
      }
    case NewTrack(p, reclaimed) =>
      if reclaimed {
        ReclaimedTop(s, p);
      }
  }

  // ---- when there is a route -------------------------------------------------------------------

  /** The LBAs that own the first n tracks. */
  function Owners(tracks: seq<Track>, n: nat): set<nat>
    requires n <= |tracks|
  {
    set p | 0 <= p < n :: tracks[p].lba
  }

  lemma {:induction false} OwnersAreDistinct(s: State, n: nat)
    requires n <= |s.tracks|
    requires forall p :: 0 <= p < |s.tracks| ==> s.tracks[p].lba < |s.ltp| && s.ltp[s.tracks[p].lba].pba == p
    ensures |Owners(s.tracks, n)| == n
  {
    if n > 0 {
      OwnersAreDistinct(s, n - 1);
      assert s.tracks[n - 1].lba !in Owners(s.tracks, n - 1);
      assert Owners(s.tracks, n) == Owners(s.tracks, n - 1) + {s.tracks[n - 1].lba};
    }
  }

  function Below(n: nat): (s: set<nat>)
    ensures forall l :: l in s <==> 0 <= l < n
  {
    if n == 0 then {} else Below(n - 1) + {n - 1}
  }

  lemma {:induction false} BelowSize(n: nat)
    ensures |Below(n)| == n
  {
    if n > 0 {
      BelowSize(n - 1);
    }
  }

  lemma SameSizeSubset(a: set<nat>, b: set<nat>)
    requires a <= b && |a| == |b|
    ensures a == b
  {
    assert |b - a| == |b| - |a|;
  }

  /** With no free track and nothing buffered, each track serves an LBA of its own, so every LBA is stored. */
  lemma FullDiskHoldsEveryLba(s: State, z: Position, max: nat, lba: nat)
    requires Steady(s, z, max) && s.pairs == 0 && NoneFree(FreeTracks(s.tracks)) && lba < max
    ensures lba < |s.ltp| && s.ltp[lba].valid
  {
    hide Zoned, Pending, Paired, Owned;
    assert BufferTops(s.ptt) == {};
    forall p | 0 <= p < max
      ensures s.tracks[p].lba < max && s.tracks[p].lba < |s.ltp| && s.ltp[s.tracks[p].lba].valid &&
              s.ltp[s.tracks[p].lba].pba == p
    {
      assert p !in BufferTops(s.ptt);
      assert !FreeTracks(s.tracks)[p];
    }
    OwnersAreDistinct(s, max);
    BelowSize(max);
    SameSizeSubset(Owners(s.tracks, max), Below(max));
    assert lba in Below(max);
  }

  lemma SomeBuffer(s: State)
    requires Sound(s) && s.pairs > 0
    ensures exists t :: 0 <= t < |s.tracks| && t < |s.ptt| && IsTop(t) && s.ptt[t].kind == BufferTop
  {
    var t :| t in BufferTops(s.ptt);
    assert PairedTop(s, t);
  }

  /** A new LBA always finds a track: the disk cannot be full of other LBAs, and a buffer can be given up. */
  lemma NewLbaHasRoute(s: State, z: Position, max: nat, lba: nat)
    requires Steady(s, z, max) && lba < max && lba < |s.ltp| && !s.ltp[lba].valid
    ensures exists route :: RouteOk(s, z, max, lba, route)
  {
    hide Sound, Zoned, Pending;
    AllocateExactly(z, FreeTracks(s.tracks), max, s.pairs);
    var r := Allocate(z, FreeTracks(s.tracks), max, s.pairs).1;
    if r.Some? {
      assert RouteOk(s, z, max, lba, NewTrack(r.value, false));
    } else {
      PairsAreNatural(z, max, s.pairs);
      if s.pairs == 0 {
        FullDiskHoldsEveryLba(s, z, max, lba);
      }
      SomeBuffer(s);
      var t :| 0 <= t < |s.tracks| && t < |s.ptt| && IsTop(t) && s.ptt[t].kind == BufferTop;
      assert RouteOk(s, z, max, lba, NewTrack(t, true));
    }
  }

  /** What that means in terms of the tables, the allocator's phase and the flag. */
  lemma StuckExactly(s: State, z: Position, max: nat, lba: nat)
    requires Steady(s, z, max) && lba < |s.ltp|
    ensures Stuck(s, z, lba) <==>
            s.ltp[lba].valid && s.ltp[lba].pba % 2 == 0 && s.ptt[s.ltp[lba].pba].kind == Normal &&
            z.phase != Phase1 && z.enabled && s.pairs < z.maxPairs &&
            forall t :: 0 <= t < max && t % 2 == 1 ==> !IsFree(s.tracks[t].status)
  {
    hide Zoned, Pending, Owned, Accounted, Paired;
  }

  /** A write finds a route exactly when it is not stuck; in particular a full disk stops no write. */
  lemma RouteExactly(s: State, z: Position, max: nat, lba: nat)
    requires Steady(s, z, max) && lba < max && lba < |s.ltp|
    ensures (exists route :: RouteOk(s, z, max, lba, route)) <==> !Stuck(s, z, lba)
    ensures !(exists route :: RouteOk(s, z, max, lba, route)) <==>
            s.ltp[lba].valid && s.ltp[lba].pba % 2 == 0 && s.ptt[s.ltp[lba].pba].kind == Normal &&
            z.phase != Phase1 && z.enabled && s.pairs < z.maxPairs &&
            forall t :: 0 <= t < max && t % 2 == 1 ==> !IsFree(s.tracks[t].status)
  {
    hide Zoned, Pending, Owned, Accounted, Paired;
    if !s.ltp[lba].valid {
      NewLbaHasRoute(s, z, max, lba);
    } else if !Buffers(s, z, lba) {
      assert RouteOk(s, z, max, lba, InPlace);
    } else if z.maxPairs <= s.pairs {
      CapacityWhileEnabled(z, max, s.pairs);
      SomeBuffer(s);
      var t :| 0 <= t < |s.tracks| && t < |s.ptt| && IsTop(t) && s.ptt[t].kind == BufferTop;
      assert RouteOk(s, z, max, lba, Buffer(t, true));
    } else if !NoFreeTop(s.tracks) {
      var t :| 0 <= t < |s.tracks| && IsTop(t) && IsFree(s.tracks[t].status);
      assert RouteOk(s, z, max, lba, Buffer(t, false));
    }
  }

  // ---- which route it is -----------------------------------------------------------------------

  lemma MetFirst(cursor: nat, t: nat, u: nat)
    requires t != u
    ensures Between(cursor, t, u) || Between(cursor, u, t)
  {
  }

  /** The tables, the allocator and the two cursors leave no choice: there is at most one route. */
  lemma RouteIsUnique(s: State, z: Position, max: nat, lba: nat, a: Route, b: Route, top: nat, scp: nat,
                      topA: nat, scpA: nat, topB: nat, scpB: nat)
    requires Steady(s, z, max) && lba < |s.ltp| && RouteOk(s, z, max, lba, a) && RouteOk(s, z, max, lba, b)
    requires Turned(s, max, a, top, scp, topA, scpA) && Turned(s, max, b, top, scp, topB, scpB)
    ensures a == b && topA == topB && scpA == scpB
  {
    hide Zoned, Pending, Owned, Accounted, Paired, Between, Allocate;
    BuffersAreTops(s);
    match a
    case InPlace =>
    case Buffer(t, _) =>
      if t != b.t {
        MetFirst(top, t, b.t);
        MetFirst(scp, t, b.t);
      }
    case NewTrack(t, _) =>
      if t != b.p {
        MetFirst(scp, t, b.p);
      }
  }

  // ---- where an update lands -------------------------------------------------------------------

  /** The tables after an update of an LBA that the disk holds. A buffered one leaves the bottom as it is and
      goes to a top that is paired with it: one that was free while the buffer had room, and otherwise one
      that SCP has given back. Any other goes to the track that the LBA is read from. */
  ghost predicate UpdateLands(s: State, z: Position, u: State, lba: nat, data: Data)
    requires Sized(s) && lba < |s.ltp|
  {
    var b := s.ltp[lba].pba;
    && |u.tracks| == |u.ptt| == |u.content| == |s.tracks| && u.ltp == s.ltp
    && if b % 2 == 0 && s.ptt[b].kind == Normal && z.phase != Phase1 && z.enabled then
         var t := u.ptt[b].tba;
         && t < |s.tracks| && t % 2 == 1 && t != b
         && u.ptt[b].kind == BufferedBottom && u.ptt[t] == Indirection(t, b, BufferTop)
         && u.content[t] == data && u.content[b] == s.content[b]
         && u.tracks[t].status == InUse && u.tracks[t].lba == lba && u.tracks[b] == s.tracks[b]
         && (if s.pairs < z.maxPairs then IsFree(s.tracks[t].status) && u.pairs == s.pairs + 1
             else s.ptt[t].kind == BufferTop && u.pairs == s.pairs)
       else
         && u.ptt == s.ptt && u.pairs == s.pairs
         && ToTrack(s, lba) < |s.tracks| && u.content == s.content[ToTrack(s, lba) := data]
  }

  lemma UpdateLandsExactly(s: State, z: Position, max: nat, lba: nat, fid: nat, data: Data, route: Route)
    requires Steady(s, z, max) && lba < |s.ltp| && s.ltp[lba].valid && RouteOk(s, z, max, lba, route)
    ensures var u, b := Routed(s, z, max, lba, fid, data, route), s.ltp[lba].pba;
            && UpdateLands(s, z, u, lba, data) && Moved(s, z, max, route) == z && b < max && |u.ptt| == |s.ptt|
            && (b % 2 == 0 && s.ptt[b].kind == Normal ==>
                 (u.ptt[b].kind == BufferedBottom <==> z.phase != Phase1 && z.enabled))
  {
    hide Zoned, Pending, Owned, Accounted, Paired;
    match route
    case InPlace =>
      ReadsOwnTrack(s, lba);
    case Buffer(t, reclaimed) =>
      BufferPairs(s, z, max, lba, t, reclaimed);
      if reclaimed {
        WriteBackFinds(s, t);
      }
  }

  // ---- what a route costs ----------------------------------------------------------------------

  lemma ReclaimCount(s: State, t: nat)
    requires Sound(s) && t < |s.tracks| && s.ptt[t].kind == BufferTop
    ensures WriteCount(Reclaimed(s, t).tracks) == WriteCount(s.tracks) + 1
    ensures |Reclaimed(s, t).tracks| == |Reclaimed(s, t).content| == |s.tracks|
  {
    hide Owned, Accounted, Paired, WriteCount;
    WriteBackFinds(s, t);
    var b := s.ptt[t].scpPba;
    var mid := s.tracks[t := s.tracks[t].(status := Invalid)];
    OneTrackChanges(s.tracks, t, mid[t]);
    OneTrackChanges(mid, b, s.tracks[b].(count := s.tracks[b].count + 1));
  }

  lemma SettleCount(s: State, p: nat, lba: nat, data: Data)
    requires p < |s.tracks| && p < |s.content|
    ensures WriteCount(Settle(s, p, lba, data).tracks) == WriteCount(s.tracks) + 1
    ensures WriteCount(Book(s, p).tracks) == WriteCount(s.tracks)
  {
    hide WriteCount;
    OneTrackChanges(s.tracks, p, Settle(s, p, lba, data).tracks[p]);
    OneTrackChanges(s.tracks, p, Book(s, p).tracks[p]);
  }

  /** A write takes one access, and one more when SCP has to give a top back for it. A top that the allocator
      takes away from the buffer lowers its capacity. */
  lemma RouteCosts(s: State, z: Position, max: nat, lba: nat, fid: nat, data: Data, route: Route)
    requires Steady(s, z, max) && lba < |s.ltp| && RouteOk(s, z, max, lba, route)
    ensures WriteCount(Routed(s, z, max, lba, fid, data, route).tracks) == WriteCount(s.tracks) +
              if !route.InPlace? && route.reclaimed then 2 else 1
    ensures Moved(s, z, max, route).maxPairs == z.maxPairs - if route.NewTrack? && route.reclaimed then 1 else 0
  {
    hide Owned, Accounted, Paired, Zoned, Pending, WriteCount, Reclaimed, Settle, Book, Allocate;
    var (u, p) := Searched(s, z, max, lba, fid, route);
    SettleCount(u, p, lba, data);
    match route
    case InPlace =>
    case Buffer(t, reclaimed) =>
      if reclaimed {
        ReclaimCount(s, t);
      }
      var g := if reclaimed then Reclaimed(s, t) else s;
      SettleCount(g, t, lba, data);
    case NewTrack(t, reclaimed) =>
      if reclaimed {
        ReclaimCount(s, t);
      }
      var g := if reclaimed then Reclaimed(s, t) else s;
      SettleCount(g, t, lba, data);
      AllocateKeepsCapacity(z, FreeTracks(s.tracks), max, s.pairs);
  }
}
