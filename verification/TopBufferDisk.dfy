/** The disk with a top buffer: zone allocation (zalloc_find_next_pba), buffering of bottom updates
    (src/top_buffer.c), write-back (src/scp.c) and the fid interface above them (src/lba.c, src/pba.c). */
module TopBufferDisk {
  import opened DiskTypes
  import opened TopBufferSpec
  import opened ZoneAllocation
  import opened TopBufferRoutes

  datatype SearchResult = Found(p: nat) | Missing | NoTop

  /** NoTopLeft ends the program: the exit in run_top_buffer. */
  datatype WriteResult = Written | Rejected | OutOfRange | NoTopLeft

  // ---- the reference -----------------------------------------------------------------------

  datatype Request = Get(lba: nat, fid: nat) | Put(lba: nat, fid: nat, data: Data)

  /** A plain table of LBAs: a write is refused out of range and where another fid holds the LBA. */
  function Effect(m: map<nat, FileData>, r: Request, max: nat): map<nat, FileData> {
    if r.Put? && r.lba < max && (r.lba in m ==> m[r.lba].fid == r.fid) then m[r.lba := FileData(r.fid, r.data)] else m
  }

  function Answer(m: map<nat, FileData>, r: Request, max: nat): Option<Data> {
    if r.Get? && r.lba < max && r.lba in m && m[r.lba].fid == r.fid then Some(m[r.lba].data) else None
  }

  function After(m: map<nat, FileData>, trace: seq<Request>, max: nat): map<nat, FileData> {
    if trace == [] then m else Effect(After(m, trace[..|trace| - 1], max), trace[|trace| - 1], max)
  }

  function Answers(m: map<nat, FileData>, trace: seq<Request>, max: nat): seq<Option<Data>> {
    if trace == [] then []
    else
      var before := trace[..|trace| - 1];
      Answers(m, before, max) + [Answer(After(m, before, max), trace[|trace| - 1], max)]
  }

  /** A request that the disk does not serve: an update that belongs in the buffer, when that has room but
      no top is free. */
  ghost predicate Refused(s: State, z: Position, max: nat, r: Request)
    requires Sized(s)
  {
    r.Put? && r.lba < max && r.lba < |s.ltp| && s.ltp[r.lba].valid && s.ltp[r.lba].fid == r.fid && Stuck(s, z, r.lba)
  }

  class Disk {
    const max: nat
    const tracks: array<Track>
    const ltp: array<LtpEntry>
    const ptt: array<Indirection>
    const zones: Zones
    ghost var content: seq<Data>
    /** current_use_block_num, current_top_buffer_count, max_top_buffer_num, scp_count */
    var used: int
    var pairs: int
    var maxPairs: int
    var scpCount: nat
    /** zinfo.phases, zinfo.current_track, zinfo.phase1_is_full */
    var phase: Phase
    var current: int
    var full: bool
    /** enable_top_buffer, and the allocator's `initialized` */
    var enabled: bool
    var initialized: bool
    /** current_top_buffer_track, current_scp_track */
    var topCursor: nat
    var scpCursor: nat
    var scpMode: bool

    ghost function View(): State
      reads this`content, this`used, this`pairs, tracks, ltp, ptt
    {
      State(tracks[..], ltp[..], ptt[..], content, used, pairs)
    }

    ghost function Place(): Position
      reads this`phase, this`current, this`full, this`enabled, this`initialized, this`maxPairs
    {
      Position(phase, current, full, enabled, initialized, maxPairs)
    }

    /** Sizes, zones and cursors. */
    ghost predicate Framed()
      reads this
    {
      && tracks.Length == max == ptt.Length
      && Zoned(Place(), max, pairs)
      && zones == Zones(0, max - 2, max - 1, 3, 1, max - 3)
      && topCursor < max && IsTop(topCursor) && scpCursor < max && IsTop(scpCursor)
    }

    /** In the middle of a request. */
    ghost predicate Stable()
      reads this, tracks, ltp, ptt
    {
      Framed() && Sound(View()) && !scpMode
    }

    /** Between two requests. */
    ghost predicate Valid()
      reads this, tracks, ltp, ptt
    {
      Framed() && !scpMode && Steady(View(), Place(), max)
    }

    /** An LBA with an entry in the table, or one that the bound test turns away. */
    predicate Addressed(lba: nat) {
      lba < ltp.Length || lba >= max
    }

    /** init_disk for sizes in GB. */
    constructor (physicalSize: nat, logicalSize: nat)
      requires 0 < physicalSize
      ensures Valid() && Store(View()) == map[]
      ensures max == 512 * physicalSize && ltp.Length == 512 * logicalSize
      ensures fresh(tracks) && fresh(ltp) && fresh(ptt)
      ensures Place() == Position(Phase1, 0, false, false, false, 2 * (max / 100)) && pairs == 0
      ensures topCursor == scpCursor == 1
      ensures forall p :: 0 <= p < max ==> tracks[p].status == Free && ptt[p].kind == Normal
    {
      hide Sound, Pending, Zoned, Store, InitZones;
      max := 512 * physicalSize;
      tracks := new Track[512 * physicalSize](_ => Track(Free, 0, 0));
      ltp := new LtpEntry[512 * logicalSize](_ => LtpEntry(0, 0, false));
      ptt := new Indirection[512 * physicalSize](_ => Indirection(0, 0, Normal));
      zones := InitZones(512 * physicalSize);
      content := seq(512 * physicalSize, _ => "");
      used, pairs, maxPairs, scpCount := 0, 0, Capacity(512 * physicalSize), 0;
      phase, current, full := Phase1, 0, false;
      enabled, initialized := false, false;
      topCursor, scpCursor, scpMode := 1, 1, false;
      new;
      ZonesOfWholeGigabytes(max);
      EmptyIsSteady(View(), max);
    }

    // ---- single tracks ---------------------------------------------------------------------

    /** chs_write. */
    method ChsWrite(p: nat)
      requires p < tracks.Length && IsLive(tracks[p].status)
      modifies tracks, this`used
      ensures tracks[..] == old(tracks[..])[p := old(tracks[p]).(status := InUse, count := old(tracks[p]).count + 1)]
      ensures used == if old(tracks[p]).status == InUse then old(used) else old(used) + 1
    {
      if tracks[p].status != InUse {
        tracks[p] := tracks[p].(status := InUse);
        used := used + 1;
      }
      tracks[p] := tracks[p].(count := tracks[p].count + 1);
    }

    /** chs_delete: outside SCP mode the LBA goes with the track. A track that is not in use ends the
        program. */
    method ChsDelete(p: nat) returns (ok: bool)
      requires p < tracks.Length && p < ptt.Length && (scpMode || tracks[p].lba < ltp.Length)
      modifies tracks, ltp, ptt
      ensures ok <==> old(tracks[p]).status == InUse
      ensures tracks[..] == if ok then old(tracks[..])[p := old(tracks[p]).(status := Invalid)] else old(tracks[..])
      ensures ptt[..] == if ok then old(ptt[..])[p := Indirection(p, old(ptt[p]).scpPba, Normal)] else old(ptt[..])
      ensures ltp[..] == if ok && !scpMode then var l := old(tracks[p]).lba;
              old(ltp[..])[l := old(ltp[..])[l].(valid := false)] else old(ltp[..])
    {
      var l := tracks[p].lba;
      if tracks[p].status != InUse {
        return false;
      }
      tracks[p] := tracks[p].(status := Invalid);
      ptt[p] := ptt[p].(kind := Normal);
      ptt[p] := ptt[p].(tba := p);
      if !scpMode {
        ltp[l] := ltp[l].(valid := false);
      }
      return true;
    }

    // ---- write-back ------------------------------------------------------------------------

    /** find_victim_track: the next buffer top from the cursor on, around the end. */
    method FindVictimTrack() returns (r: Option<nat>)
      requires ptt.Length == max && scpCursor < max && IsTop(scpCursor)
      requires forall t :: 0 <= t < max && ptt[t].kind == BufferTop ==> IsTop(t)
      modifies this`scpCursor
      ensures scpCursor < max && IsTop(scpCursor)
      ensures r.Some? ==> r.value < max && ptt[r.value].kind == BufferTop && scpCursor == r.value
      ensures r.Some? ==> forall k :: 0 <= k < max && IsTop(k) && Between(old(scpCursor), k, r.value) ==>
                ptt[k].kind != BufferTop
      ensures r.None? ==> BufferTops(ptt[..]) == {} && scpCursor == old(scpCursor)
    {
      r := FirstBuffer(scpCursor, max);
      if r == None {
        r := FirstBuffer(1, scpCursor);
      }
      if r.Some? {
        scpCursor := r.value;
      }
    }

    /** One of its two loops. */
    method FirstBuffer(from: nat, end: nat) returns (r: Option<nat>)
      requires IsTop(from) && end <= ptt.Length
      ensures r.Some? ==> from <= r.value < end && IsTop(r.value) && ptt[r.value].kind == BufferTop
      ensures forall k :: from <= k < (if r.Some? then r.value else end) && IsTop(k) ==> ptt[k].kind != BufferTop
    {
      var i := from;
      while i < end
        invariant from <= i && IsTop(i)
        invariant forall k :: from <= k < i && k < end && IsTop(k) ==> ptt[k].kind != BufferTop
      {
        if ptt[i].kind == BufferTop {
          return Some(i);
        }
        i := i + 2;
      }
      return None;
    }

    /** run_scp: its exits and its assertion cannot be reached from a sound disk. The two batches hold the
        top that is read and deleted, and the bottom that is written. */
    method RunScp(t: nat) returns (r: nat)
      requires Sound(View()) && scpMode && t < tracks.Length && ptt[t].kind == BufferTop
      modifies tracks, ltp, ptt, this`content, this`used, this`pairs
      ensures r == t && View() == Reclaimed(old(View()), t)
    {
      hide Owned, Accounted, Paired, InUseTracks, BufferTops;
      ghost var s := View();
      WriteBackFinds(s, t);
      var tops, bottoms: seq<nat> := [], [];
      if ptt[t].kind == BufferTop {
        var b := ptt[t].scpPba;
        if IsFree(tracks[b].status) {
          assert false;
        }
        assert ptt[b].kind == BufferedBottom;
        tops, bottoms := tops + [t], bottoms + [b];
        Unpair(t, b);
      }
      var readCount := |tops|;
      var ok := ChsDelete(tops[0]);
      if !ok {
        assert false;
      }
      ChsWrite(bottoms[0]);
      content := content[bottoms[0] := content[tops[0]]];
      var writeCount := |bottoms|;
      if readCount != writeCount {
        assert false;
      }
      assert View() == WriteBack(s, t);
      r := t;
    }

    /** The table entries of a pair that is written back. */
    method Unpair(t: nat, b: nat)
      requires t < ptt.Length && b < ptt.Length && t != b && t < tracks.Length && tracks[t].lba < ltp.Length
      modifies ptt, ltp, this`used, this`pairs
      ensures ptt[..] == old(ptt[..])[t := Indirection(old(ptt[t]).tba, 0, Normal)][b :=
              Indirection(0, old(ptt[b]).scpPba, Normal)]
      ensures var l := tracks[t].lba; ltp[..] == old(ltp[..])[l := old(ltp[..])[l].(pba := b)]
      ensures used == old(used) - 1 && pairs == old(pairs) - 1
    {
      ptt[t] := ptt[t].(scpPba := 0);
      ptt[t] := ptt[t].(kind := Normal);
      ptt[b] := ptt[b].(kind := Normal);
      ptt[b] := ptt[b].(tba := 0);
      var l := tracks[t].lba;
      ltp[l] := ltp[l].(pba := b);
      used := used - 1;
      pairs := pairs - 1;
    }

    /** The middle of scp: the victim is written back in scp mode. */
    method WriteBackVictim(t: nat)
      requires Sound(View()) && t < tracks.Length && t < ptt.Length && ptt[t].kind == BufferTop
      modifies this`scpMode, this`content, this`used, this`pairs, tracks, ltp, ptt
      ensures View() == Reclaimed(old(View()), t) && !scpMode
      ensures Sound(View()) && pairs == old(pairs) - 1
    {
      hide Sound, Store, Reclaimed;
      ReclaimedTop(View(), t);
      scpMode := true;
      var _ := RunScp(t);
      scpMode := false;
    }

    /** scp: fails exactly when nothing is buffered. Otherwise the next buffer top is written back. */
    method Scp() returns (r: Option<nat>)
      requires Stable()
      modifies this`scpCursor, this`scpMode, this`scpCount, this`content, this`used, this`pairs, tracks, ltp, ptt
      ensures Stable()
      ensures r.None? <==> old(pairs) == 0
      ensures r.None? ==> View() == old(View()) && scpCursor == old(scpCursor)
      ensures r.Some? ==> r.value == scpCursor && scpCount == old(scpCount) + 1 && pairs == old(pairs) - 1
      ensures r.Some? ==>
                r.value < max && old(ptt[..])[r.value].kind == BufferTop &&
                View() == Reclaimed(old(View()), r.value)
      ensures r.Some? ==> forall k :: 0 <= k < max && IsTop(k) && Between(old(scpCursor), k, r.value) ==>
                old(ptt[..])[k].kind != BufferTop
    {
      hide Sound, Store, Reclaimed, Zoned;
      if pairs == 0 {
        return None;
      }
      BuffersAreTops(View());
      BuffersCount(View());
      var track := FindVictimTrack();
      WriteBackVictim(track.value);
      scpCount := scpCount + 1;
      BuffersCount(View());
      FewerPairs(Place(), max, old(pairs), pairs);
      return track;
    }

    // ---- buffering -------------------------------------------------------------------------

    /** find_empty_top_buffer: the next free top from the cursor on, around the end. */
    method FindEmptyTopBuffer() returns (r: Option<nat>)
      requires tracks.Length == max && max % 4 == 0 && max >= 4 && zones == Zones(0, max - 2, max - 1, 3, 1, max - 3)
      requires topCursor < max && IsTop(topCursor)
      modifies this`topCursor
      ensures topCursor < max && IsTop(topCursor)
      ensures r.Some? ==> r.value < max && IsTop(r.value) && IsFree(tracks[r.value].status) && topCursor == r.value
      ensures r.Some? ==> forall k :: 0 <= k < max && IsTop(k) && Between(old(topCursor), k, r.value) ==>
                !IsFree(tracks[k].status)
      ensures r.None? <==> NoFreeTop(tracks[..])
      ensures r.None? ==> topCursor == old(topCursor)
    {
      r := FirstFreeTop(topCursor, zones.phase2Start + 1);
      if r == None {
        r := FirstFreeTop(1, topCursor);
      }
      if r.Some? {
        topCursor := r.value;
      }
    }

    /** One of its two loops. */
    method FirstFreeTop(from: nat, end: nat) returns (r: Option<nat>)
      requires IsTop(from) && end <= tracks.Length
      ensures r.Some? ==> from <= r.value < end && IsTop(r.value) && IsFree(tracks[r.value].status)
      ensures forall k :: from <= k < (if r.Some? then r.value else end) && IsTop(k) ==> !IsFree(tracks[k].status)
    {
      var i := from;
      while i < end
        invariant from <= i && IsTop(i)
        invariant forall k :: from <= k < i && k < end && IsTop(k) ==> !IsFree(tracks[k].status)
      {
        if IsFree(tracks[i].status) {
          return Some(i);
        }
        i := i + 2;
      }
      return None;
    }

    /** create_top_buffer. */
    method CreateTopBuffer(b: nat, t: nat)
      requires b < ptt.Length && t < ptt.Length && t < tracks.Length && b != t
      modifies tracks, ptt, this`pairs
      ensures View() == Pair(old(View()), b, t)
    {
      ghost var s := View();
      ptt[b] := ptt[b].(tba := t);
      ptt[b] := ptt[b].(kind := BufferedBottom);
      ptt[t] := ptt[t].(tba := t);
      ptt[t] := ptt[t].(scpPba := b);
      ptt[t] := ptt[t].(kind := BufferTop);
      tracks[t] := tracks[t].(status := Booked);
      pairs := pairs + 1;
      assert ptt[..] == Pair(s, b, t).ptt;
      assert tracks[..] == Pair(s, b, t).tracks;
    }

    /** run_top_buffer for a plain bottom in use: a free top, or when the buffer is full the top that SCP
        has just reclaimed, is paired with it. It fails exactly when the buffer has room but no top is
        free. */
    method RunTopBuffer(b: nat) returns (r: Option<nat>)
      requires Stable() && enabled && b < max && !IsTop(b) && tracks[b].status == InUse && ptt[b].kind == Normal
      modifies this`topCursor, this`scpCursor, this`scpMode, this`scpCount, this`content, this`used, this`pairs,
               tracks, ltp, ptt
      ensures Framed() && !scpMode
      ensures r.None? <==> old(pairs) < maxPairs && NoFreeTop(old(tracks[..]))
      ensures match r
              case None => View() == old(View())
              case Some(t) =>
                && t < max && IsTop(t)
                && if maxPairs <= old(pairs)
                   then old(ptt[..])[t].kind == BufferTop && View() == Pair(Reclaimed(old(View()), t), b, t)
                   else IsFree(old(tracks[..])[t].status) && View() == Pair(old(View()), b, t)
      ensures r.None? ==> topCursor == old(topCursor) && scpCursor == old(scpCursor)
      ensures r.Some? ==> Turned(old(View()), max, Buffer(r.value, maxPairs <= old(pairs)), old(topCursor),
                            old(scpCursor), topCursor, scpCursor)
    {
      hide Sound, Store, Reclaimed, Zoned, NoFreeTop;
      if maxPairs <= pairs {
        var t := BufferReclaimed(b);
        return Some(t);
      }
      ZonedSizes(Place(), max, pairs);
      var t := FindEmptyTopBuffer();
      if t.None? {
        return None;
      }
      CreateTopBuffer(b, t.value);
      PairBelow(Place(), max, old(pairs));
      return t;
    }

    /** The branch of run_top_buffer for a full buffer: scp, and its top takes the bottom. */
    method BufferReclaimed(b: nat) returns (t: nat)
      requires Stable() && enabled && b < max && !IsTop(b) && maxPairs <= pairs
      modifies this`scpCursor, this`scpMode, this`scpCount, this`content, this`used, this`pairs, tracks, ltp, ptt
      ensures Framed() && !scpMode
      ensures t < max && IsTop(t) && old(ptt[..])[t].kind == BufferTop &&
              View() == Pair(Reclaimed(old(View()), t), b, t)
      ensures Turned(old(View()), max, Buffer(t, true), topCursor, old(scpCursor), topCursor, scpCursor)
    {
      hide Sound, Store, Reclaimed, Zoned;
      CapacityWhileEnabled(Place(), max, pairs);
      PairsAreNatural(Place(), max, pairs);
      var r := Scp();
      t := r.value;
      ReclaimedTop(old(View()), t);
      CreateTopBuffer(b, t);
      PairBelow(Place(), max, old(pairs) - 1);
    }

    // ---- allocation ------------------------------------------------------------------------

    method BookTrack(p: nat)
      requires p < tracks.Length
      modifies tracks
      ensures View() == Book(old(View()), p)
    {
      tracks[p] := tracks[p].(status := Booked);
      assert tracks[..] == old(tracks[..])[p := old(tracks[p]).(status := Booked)];
    }

    /** The bottom that a full phase 1 finds free, if any. */
    method FindFreeBottom() returns (r: Option<nat>)
      requires tracks.Length == max && max % 4 == 0 && max >= 4 && zones == Zones(0, max - 2, max - 1, 3, 1, max - 3)
      ensures r == FreeBottom(FreeTracks(tracks[..]), 0)
    {
      ghost var free := FreeTracks(tracks[..]);
      var i := zones.phase1Start;
      while i <= zones.phase1End
        invariant i % 2 == 0 && i <= max
        invariant FreeBottom(free, 0) == FreeBottom(free, i)
      {
        assert free[i] == IsFree(tracks[i].status);
        if IsFree(tracks[i].status) {
          return Some(i);
        }
        i := i + 2;
      }
      return None;
    }

    /** A full phase 1 begins anew at a free bottom. */
    method RestartAtFreeBottom() returns (r: Option<nat>)
      requires Framed() && phase == Phase1
      modifies this`current, this`full
      ensures Framed() && r == FreeBottom(FreeTracks(tracks[..]), 0)
      ensures Place() == if r.Some? then old(Place()).(current := r.value, full := false) else old(Place())
    {
      hide Zoned, FreeTracks, FreeBottom;
      ZonedSizes(Place(), max, pairs);
      r := FindFreeBottom();
      if r.Some? {
        RestartPhase1(Place(), max, pairs, r.value);
        current, full := r.value, false;
      }
    }

    /** The switch of zalloc_find_next_pba, when neither a free bottom ends phase 1 anew nor phase 3 has
        run out: the round looks at the track it starts from and moves on. */
    method AdvanceZone() returns (track: nat)
      requires Framed() && !RunOut(Place(), max)
      modifies this`phase, this`current, this`full, this`enabled, this`initialized
      ensures Framed() && track == old(current) && track < max
      ensures Place() == Advance(old(Place()), max)
    {
      AdvanceKeeps(Place(), max, pairs);
      track := current;
      match phase {
        case Phase1 =>
          if full {
            phase, current, enabled := Phase2, zones.phase2Start, true;
          }
          if track == zones.phase1End {
            full := true;
          } else {
            current := current + 2;
          }
        case Phase2 =>
          if track == zones.phase2End {
            phase, current := Phase3, zones.phase3Start;
          } else {
            current := current - 4;
          }
        case Phase3 =>
          if track >= max - maxPairs && !initialized {
            enabled, initialized := false, true;
          } else {
            current := current + 4;
          }
      }
    }

    /** Phase 3 has run out and a pair is left: SCP gives up a top for good. */
    method ReclaimTop()
      requires Stable() && RunOut(Place(), max) && pairs != 0
      modifies this, tracks, ltp, ptt
      ensures Stable() && scpCount == old(scpCount) + 1 && pairs == old(pairs) - 1
      ensures old(ptt[..])[scpCursor].kind == BufferTop && View() == Reclaimed(old(View()), scpCursor)
      ensures Place() == old(Place()).(current := scpCursor, maxPairs := old(maxPairs) - 1)
      ensures Turned(old(View()), max, NewTrack(scpCursor, true), old(topCursor), old(scpCursor), topCursor, scpCursor)
    {
      hide Sound, Store, Reclaimed;
      var _ := Scp();
      current := scpCursor;
      maxPairs := maxPairs - 1;
    }

    /** The rounds of zalloc_find_next_pba up to the next SCP. The source's loop has no bound of its own;
        the rounds end because each leaves a phase, sets a flag or moves towards the end of its phase. */
    method SearchZones() returns (r: Option<nat>)
      requires Stable()
      modifies this`phase, this`current, this`full, this`enabled, this`initialized
      ensures Framed()
      ensures (Place(), r) == old(Allocate(Place(), FreeTracks(tracks[..]), max, pairs))
    {
      hide Sound, Zoned, Advance, FreeTracks, Allocate;
      while true
        invariant Framed()
        invariant Allocate(Place(), FreeTracks(tracks[..]), max, pairs) ==
                  old(Allocate(Place(), FreeTracks(tracks[..]), max, pairs))
        decreases PhasesLeft(phase), !full, !initialized, Distance(Place(), max)
      {
        AllocateRound(Place(), FreeTracks(tracks[..]), max, pairs);
        if phase == Phase3 && current > max {
          return None;
        }
        if phase == Phase1 && full {
          var bottom := RestartAtFreeBottom();
          if bottom.Some? {
            return bottom;
          }
        }
        var track := AdvanceZone();
        FreeExactly(View(), track);
        if IsFree(tracks[track].status) && ptt[track].kind == Normal {
          return Some(track);
        }
      }
    }

    /** zalloc_find_next_pba: it books the track that Allocate finds, or, when that finds none, the one that
        SCP reclaims. It fails exactly when no track is free and nothing is buffered. */
    method ZallocFindNextPba() returns (r: Option<nat>)
      requires Valid()
      modifies this, tracks, ltp, ptt
      ensures Framed() && !scpMode
      ensures r.None? <==> NoneFree(old(FreeTracks(tracks[..]))) && old(pairs) == 0
      ensures var (z, p) := old(Allocate(Place(), FreeTracks(tracks[..]), max, pairs));
              match r
              case None => View() == old(View()) && Place() == z
              case Some(t) =>
                && t < max
                && if p.Some? then r == p && View() == Book(old(View()), t) && Place() == z
                   else old(ptt[..])[t].kind == BufferTop && View() == Book(Reclaimed(old(View()), t), t)
                        && Place() == Advance(z.(current := t, maxPairs := z.maxPairs - 1), max)
      ensures r.None? ==> topCursor == old(topCursor) && scpCursor == old(scpCursor)
      ensures r.Some? ==>
                Turned(old(View()), max, NewTrack(r.value,
                  old(Allocate(Place(), FreeTracks(tracks[..]), max, pairs)).1.None?),
                  old(topCursor), old(scpCursor), topCursor, scpCursor)
    {
      hide Sound, Store, Zoned, Pending, Advance, FreeTracks, Allocate, Reclaimed, NoneFree;
      ghost var s := View();
      ghost var goal := Allocate(Place(), FreeTracks(tracks[..]), max, pairs);
      AllocateExactly(Place(), FreeTracks(tracks[..]), max, pairs);
      while true
        invariant Stable() && Sound(s)
        invariant scpCount == old(scpCount) ==> View() == s && Place() == old(Place())
        invariant topCursor == old(topCursor) && (scpCount == old(scpCount) ==> scpCursor == old(scpCursor))
        invariant scpCount != old(scpCount) ==>
                    Turned(s, max, NewTrack(scpCursor, true), topCursor, old(scpCursor), topCursor, scpCursor)
        invariant scpCount == old(scpCount) ||
                  (goal.1.None? && old(pairs) != 0 && scpCursor < |s.tracks| && s.ptt[scpCursor].kind == BufferTop &&
                    View() == Reclaimed(s, scpCursor) &&
                   Place() == goal.0.(current := scpCursor, maxPairs := goal.0.maxPairs - 1) && Place().phase == Phase3)
        decreases pairs
      {
        PairsAreNatural(Place(), max, pairs);
        if scpCount != old(scpCount) {
          AllocateReclaimed(s, Place(), max, scpCursor);
        }
        var track := SearchZones();
        if track.Some? {
          BookFree(View(), track.value);
          BookTrack(track.value);
          return track;
        }
        if pairs == 0 {
          return None;
        }
        ReclaimTop();
      }
    }

    // ---- the fid interface -----------------------------------------------------------------

    /** is_lba_valid: where an LBA that the disk holds under this fid is to be written. */
    method IsLbaValid(lba: nat, fid: nat) returns (r: SearchResult, ghost route: Route)
      requires Valid() && lba < ltp.Length
      modifies this`topCursor, this`scpCursor, this`scpMode, this`scpCount, this`content, this`used, this`pairs,
               tracks, ltp, ptt
      ensures Framed() && !scpMode
      ensures r.Missing? <==> !(old(ltp[..])[lba].valid && old(ltp[..])[lba].fid == fid)
      ensures r.NoTop? <==> !r.Missing? && Stuck(old(View()), old(Place()), lba)
      ensures !r.Found? ==> View() == old(View())
      ensures r.Found? ==> !route.NewTrack? && RouteOk(old(View()), old(Place()), max, lba, route) &&
                           (View(), r.p) == Searched(old(View()), old(Place()), max, lba, fid, route)
      ensures !r.Found? ==> topCursor == old(topCursor) && scpCursor == old(scpCursor)
      ensures r.Found? ==> Turned(old(View()), max, route, old(topCursor), old(scpCursor), topCursor, scpCursor)
    {
      hide Store, Zoned, Reclaimed, Pending, NoFreeTop, Owned, Accounted, Paired;
      ghost var s := View();
      route := InPlace;
      if !(ltp[lba].valid && ltp[lba].fid == fid) {
        return Missing, route;
      }
      LeadsToPlainTrack(s, lba);
      ReadsOwnTrack(s, lba);
      var p := ltp[lba].pba;
      if tracks[p].status != InUse {
        assert false;
      }
      match ptt[p].kind {
        case BufferedBottom =>
          return Found(ptt[p].tba), InPlace;
        case BufferTop =>
          assert false;
        case Normal =>
          if IsTop(p) || phase == Phase1 || !enabled {
            return Found(p), InPlace;
          }
          var t := RunTopBuffer(p);
          if t.None? {
            return NoTop, route;
          }
          return Found(t.value), Buffer(t.value, maxPairs <= old(pairs));
      }
    }

    method UpdateLtpTable(lba: nat, p: nat, fid: nat)
      requires lba < ltp.Length
      modifies ltp
      ensures View() == Link(old(View()), lba, p, fid)
    {
      ltp[lba] := LtpEntry(p, fid, true);
      assert ltp[..] == old(ltp[..])[lba := LtpEntry(p, fid, true)];
    }

    /** pba_search, for an LBA that no other fid holds. A full disk never stops it: then every LBA is on the
        disk already. */
    method PbaSearch(lba: nat, fid: nat) returns (r: SearchResult, ghost route: Route)
      requires Valid() && lba < ltp.Length && lba < max && (ltp[lba].valid ==> ltp[lba].fid == fid)
      modifies this, tracks, ltp, ptt
      ensures Framed() && !scpMode && !r.Missing?
      ensures r.NoTop? <==> Stuck(old(View()), old(Place()), lba)
      ensures r.NoTop? ==> old(ltp[..])[lba].valid
      ensures !r.Found? ==> View() == old(View()) && Place() == old(Place())
      ensures r.Found? ==> RouteOk(old(View()), old(Place()), max, lba, route) &&
                           (View(), r.p) == Searched(old(View()), old(Place()), max, lba, fid, route) &&
                           Place() == Moved(old(View()), old(Place()), max, route)
      ensures !r.Found? ==> topCursor == old(topCursor) && scpCursor == old(scpCursor)
      ensures r.Found? ==> Turned(old(View()), max, route, old(topCursor), old(scpCursor), topCursor, scpCursor)
    {
      hide Sound, Zoned, Pending, Reclaimed, Allocate, Advance, NoneFree, Turned, Between;
      ghost var s, z := View(), Place();
      r, route := IsLbaValid(lba, fid);
      if !r.Missing? {
        return r, route;
      }
      var p := ZallocFindNextPba();
      if p.None? {
        FullDiskHoldsEveryLba(s, z, max, lba);
        assert false;
      }
      UpdateLtpTable(lba, p.value, fid);
      return Found(p.value), NewTrack(p.value, Allocate(z, FreeTracks(s.tracks), max, s.pairs).1.None?);
    }

    /** lba_write for one block: an assignment in the table of what the disk stores, unless another fid
        holds the LBA or the update finds no top. */
    method LbaWrite(lba: nat, fid: nat, ghost data: Data) returns (r: WriteResult, ghost route: Route)
      requires Valid() && Addressed(lba)
      modifies this, tracks, ltp, ptt
      ensures Valid()
      ensures r == OutOfRange <==> lba >= max
      ensures r == Rejected <==> lba < max && lba in Store(old(View())) && Store(old(View()))[lba].fid != fid
      ensures r == NoTopLeft <==> Refused(old(View()), old(Place()), max, Put(lba, fid, data))
      ensures r != Written ==> View() == old(View()) && Place() == old(Place())
      ensures r == Written ==> RouteOk(old(View()), old(Place()), max, lba, route) &&
                               View() == Routed(old(View()), old(Place()), max, lba, fid, data, route) &&
                               Place() == Moved(old(View()), old(Place()), max, route)
      ensures Store(View()) == if r == Written then Store(old(View()))[lba := FileData(fid, data)]
              else Store(old(View()))
      ensures r != Written ==> topCursor == old(topCursor) && scpCursor == old(scpCursor)
      ensures r == Written ==> Turned(old(View()), max, route, old(topCursor), old(scpCursor), topCursor, scpCursor)
      ensures r == NoTopLeft <==>
                var s, z := old(View()), old(Place());
                lba < max && s.ltp[lba].valid && s.ltp[lba].fid == fid && s.ltp[lba].pba % 2 == 0 &&
                s.ptt[s.ltp[lba].pba].kind == Normal && z.phase != Phase1 && z.enabled && s.pairs < z.maxPairs &&
                forall t :: 0 <= t < max && t % 2 == 1 ==> !IsFree(s.tracks[t].status)
      ensures r == Written && old(ltp[..])[lba].valid ==>
                UpdateLands(old(View()), old(Place()), View(), lba, data) && Place() == old(Place())
      ensures r == Written && old(ltp[..])[lba].valid ==>
                var b := old(ltp[..])[lba].pba;
                b < max && (b % 2 == 0 && old(ptt[..])[b].kind == Normal ==>
                  (ptt[b].kind == BufferedBottom <==> old(phase) != Phase1 && old(enabled)))
    {
      hide Sound, Store, Zoned, Pending, Settle, RouteOk, Searched, Moved, Stuck, Turned, UpdateLands;
      ghost var s, z := View(), Place();
      route := InPlace;
      if lba >= max {
        return OutOfRange, route;
      }
      StoreAt(View(), lba);
      if ltp[lba].valid && fid != ltp[lba].fid {
        return Rejected, route;
      }
      var found: SearchResult;
      found, route := PbaSearch(lba, fid);
      if !found.Found? {
        StuckExactly(s, z, max, lba);
        return NoTopLeft, route;
      }
      StuckExactly(s, z, max, lba);
      RouteStores(s, z, max, lba, fid, data, route);
      SearchedIsLive(s, z, max, lba, fid, route);
      WriteAt(found.p, lba, data);
      if s.ltp[lba].valid {
        UpdateLandsExactly(s, z, max, lba, fid, data, route);
      }
      r := Written;
    }

    /** The end of lba_write: the track is linked to the LBA, and batch_write writes it. */
    method WriteAt(p: nat, lba: nat, ghost data: Data)
      requires Framed() && p < tracks.Length && p < |content| && IsLive(tracks[p].status)
      modifies tracks, this`used, this`content
      ensures Framed() && View() == Settle(old(View()), p, lba, data)
    {
      hide Zoned;
      ghost var s := View();
      tracks[p] := tracks[p].(lba := lba);
      ChsWrite(p);
      content := content[p := data];
      assert tracks[..] == Settle(s, p, lba, data).tracks;
    }

    /** lba_read for one block: it visits a track exactly when the disk holds the LBA under this fid, and
        that track holds what was written there last. */
    method LbaRead(lba: nat, fid: nat) returns (r: Option<nat>)
      requires Valid() && Addressed(lba)
      ensures r.Some? <==> lba < max && lba in Store(View()) && Store(View())[lba].fid == fid
      ensures r.Some? ==> r.value < |content| && content[r.value] == Store(View())[lba].data
    {
      if lba >= max {
        return None;
      }
      StoreAt(View(), lba);
      if !(ltp[lba].valid && ltp[lba].fid == fid) {
        return None;
      }
      ReadsOwnTrack(View(), lba);
      var p := ltp[lba].pba;
      var t := if ptt[p].kind == Normal then p else ptt[p].tba;
      if tracks[t].status != InUse {
        assert false;
      }
      return Some(t);
    }

    // ---- whole runs ------------------------------------------------------------------------

    /** One request of the trace. */
    method Serve(r: Request) returns (served: bool, ghost answer: Option<Data>)
      requires Valid() && Addressed(r.lba)
      modifies this, tracks, ltp, ptt
      ensures Valid()
      ensures !served <==> Refused(old(View()), old(Place()), max, r)
      ensures served ==>
                Store(View()) == Effect(Store(old(View())), r, max) &&
                answer == Answer(Store(old(View())), r, max)
      ensures !served ==> View() == old(View()) && Place() == old(Place())
    {
      hide Sound, Store, Zoned, Framed, Stuck, Steady;
      match r {
        case Get(lba, fid) =>
          var t := LbaRead(lba, fid);
          return true, if t.None? then None else Some(content[t.value]);
        case Put(lba, fid, data) =>
          var w, _ := LbaWrite(lba, fid, data);
          return w != NoTopLeft, None;
      }
    }

    /** The trace loop: every read finds what the reference table holds at that moment, with any number
        of write-backs in between. A run is cut short only by a request that the disk reached refuses. */
    method Replay(trace: seq<Request>) returns (done: nat, ghost answers: seq<Option<Data>>)
      requires Valid() && forall i :: 0 <= i < |trace| ==> Addressed(trace[i].lba)
      modifies this, tracks, ltp, ptt
      ensures Valid() && done <= |trace|
      ensures Store(View()) == After(Store(old(View())), trace[..done], max)
      ensures answers == Answers(Store(old(View())), trace[..done], max)
      ensures done < |trace| ==> Refused(View(), Place(), max, trace[done])
    {
      hide Sound, Store, Framed, Stuck;
      done, answers := 0, [];
      while done < |trace|
        invariant done <= |trace| && Valid()
        invariant Store(View()) == After(Store(old(View())), trace[..done], max)
        invariant answers == Answers(Store(old(View())), trace[..done], max)
      {
        assert trace[..done + 1][..done] == trace[..done];
        var served, answer := Serve(trace[done]);
        if !served {
          return;
        }
        answers := answers + [answer];
        done := done + 1;
      }
    }
  }
}
