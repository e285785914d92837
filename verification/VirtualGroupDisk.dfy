/** The disk with virtual groups in place. Every step is proved against the functions on values, and every
    request against the plain map of what the disk stores. */
module VirtualGroupDisk {
  import opened DiskTypes
  import opened VirtualGroupSpec
  import opened VirtualGroupAllocator
  import opened VirtualGroupLists

  /** Full ends the program: vg_get_block finds no track. OffDisk is a track that the program takes from behind
      the disk, where nothing is known any more. */
  datatype WriteResult = Rejected | Stored | Full | OffDisk

  datatype SearchResult = At(p: nat) | NoBlock | Behind

  datatype Swap = Stay | With(top: nat) | Outside

  // ---- the reference -----------------------------------------------------------------------

  datatype Request = Get(lba: nat, fid: nat) | Put(lba: nat, fid: nat, data: Data) | Remove(fid: nat)

  /** A plain table of LBAs. */
  function Effect(m: map<nat, FileData>, r: Request, max: nat): map<nat, FileData> {
    match r
    case Get(_, _) => m
    case Put(lba, fid, data) => if lba < max && (lba in m ==> m[lba].fid == fid) then m[lba := FileData(fid, data)]
      else m
    case Remove(fid) => WithoutFile(m, fid)
  }

  function WithoutFile(m: map<nat, FileData>, fid: nat): map<nat, FileData> {
    map l | l in m && m[l].fid != fid :: m[l]
  }

  function Answer(m: map<nat, FileData>, r: Request): Option<Data> {
    if r.Get? && r.lba in m && m[r.lba].fid == r.fid then Some(m[r.lba].data) else None
  }

  function After(m: map<nat, FileData>, trace: seq<Request>, max: nat): map<nat, FileData> {
    if trace == [] then m else Effect(After(m, trace[..|trace| - 1], max), trace[|trace| - 1], max)
  }

  function Answers(m: map<nat, FileData>, trace: seq<Request>, max: nat): seq<Option<Data>> {
    if trace == [] then []
    else
      var before := trace[..|trace| - 1];
      Answers(m, before, max) + [Answer(After(m, before, max), trace[|trace| - 1])]
  }

  /** get_attr and generate_attr: files get the two attributes in turn, the first one is cold. */
  function AttrOf(attrs: map<nat, bool>, fid: nat): bool {
    if fid in attrs then attrs[fid] else |attrs| % 2 == 1
  }

  class Disk {
    const tracks: array<Track>
    const ltp: array<LtpEntry>
    const groups: array<Group>
    const lists: GroupLists
    const granularity: nat
    /** global_vg_list */
    var head: Option<nat>
    /** g_fid_table: which files are hot */
    var attrs: map<nat, bool>
    var used: int
    var swaps: nat
    /** How many tracks chs_delete has taken; the program does not count them. */
    ghost var deleted: nat
    ghost var content: seq<Data>

    ghost function View(): State
      reads this, tracks, ltp
    {
      State(tracks[..], ltp[..], content, used, swaps, deleted)
    }

    ghost predicate Grouped()
      reads this, groups
    {
      && granularity > 0 && tracks.Length > 0
      && groups.Length == GroupCount(tracks.Length, granularity)
      && forall i :: 0 <= i < groups.Length ==> groups[i] == GroupAt(i, tracks.Length, granularity)
    }

    /** The groups divide the disk, and their lists are in order. Tracks are counted by an unsigned long. */
    ghost predicate Steady()
      reads this, tracks, ltp, groups, lists, lists.vgs
    {
      && tracks.Length <= ltp.Length && (forall l :: tracks.Length <= l < ltp.Length ==> !ltp[l].valid)
      && Grouped() && head == Some(0) && tracks.Length % 2 == 0 && tracks.Length < 0x1_0000_0000_0000_0000
      && lists.vgs.Length == groups.Length && Ordered(groups[..], lists.View())
      && Tidy(tracks[..], groups[..], lists.View())
    }

    ghost predicate Valid()
      reads this, tracks, ltp, groups, lists, lists.vgs
    {
      Steady() && Sound(View())
    }

    lemma IsDivided()
      requires Grouped() && tracks.Length % 2 == 0
      ensures Divided(groups[..], tracks.Length, granularity)
    {
    }

    lemma BordersOnDisk()
      requires Grouped()
      ensures forall i :: 0 <= i < groups.Length ==>
                groups[i].higher < tracks.Length && groups[i].lower <= groups[i].topStart &&
                groups[i].lower <= groups[i].bottomStart
    {
      hide GroupAt, GroupCount;
      forall i | 0 <= i < groups.Length
        ensures groups[i].higher < tracks.Length && groups[i].lower <= groups[i].topStart &&
                groups[i].lower <= groups[i].bottomStart
      {
        GroupStarts(i, tracks.Length, granularity);
      }
    }

    // ---- groups --------------------------------------------------------------------------------

    /** init_disk with init_virtual_groups. */
    constructor (size: nat, logicalSize: nat, granularity: nat)
      requires 0 < size < 0x1_0000_0000_0000_0000 && size % 2 == 0 && size <= logicalSize && granularity > 0
      ensures Valid() && Store(View()) == map[]
      ensures tracks.Length == size && ltp.Length == logicalSize && this.granularity == granularity && attrs == map[]
      ensures lists.free == UpTo(groups.Length) && lists.random == lists.constrained == [] && lists.hotVg == None &&
              lists.coldVg == None && !lists.identical
      ensures (forall p :: 0 <= p < size ==> tracks[p].status == Free) &&
              forall l :: 0 <= l < logicalSize ==> !ltp[l].valid
      ensures fresh(tracks) && fresh(ltp) && fresh(groups) && fresh(lists) && fresh(lists.vgs)
    {
      hide GroupAt, GroupCount;
      this.granularity := granularity;
      tracks := new Track[size](_ => Track(Free, 0, 0));
      ltp := new LtpEntry[logicalSize](_ => LtpEntry(0, 0, false));
      LastGroup(size, granularity);
      var borders := MakeGroups(size, granularity);
      groups := borders;
      BordersOf(borders, size, granularity);
      lists := new GroupLists(borders);
      head := Some(0);
      attrs := map[];
      used, swaps, deleted := 0, 0, 0;
      content := seq(size, _ => "");
      new;
      EmptyIsSound(View());
    }

    /** pba_to_vg: the walk along the list ends at the group that division by the granularity names. */
    method PbaToVg(pba: nat) returns (vg: Option<nat>)
      requires Grouped() && head == Some(0)
      ensures vg == if pba < tracks.Length then Some(TrackToVgIndex(pba, granularity)) else None
      ensures vg.Some? ==> vg.value < groups.Length
    {
      hide TrackToVgIndex;
      LastGroup(tracks.Length, granularity);
      var p := head;
      while p != None
        invariant p != None ==> p.value < groups.Length
        invariant pba < tracks.Length ==> p != None && p.value <= TrackToVgIndex(pba, granularity)
        decreases if p == None then 0 else groups.Length - p.value
      {
        if pba < tracks.Length {
          GroupsPartition(p.value, pba, tracks.Length, granularity);
        } else {
          GroupsEndWithTheDisk(p.value, pba, tracks.Length, granularity);
        }
        if groups[p.value].lower <= pba && pba <= groups[p.value].higher {
          return p;
        }
        p := groups[p.value].next;
      }
      return None;
    }

    // ---- dual swap -----------------------------------------------------------------------------

    /** The tops that a dual swap in this group scans are on the disk: the group is not track 0 alone. */
    predicate Scannable(vg: nat) {
      vg > 0 || granularity > 1
    }

    /** The scan of dual_swap for a top of the group. When the group is track 0 alone it goes on behind the group,
        and behind the disk unless it meets a free top. */
    method FindTop(vg: nat) returns (r: Swap)
      requires Valid() && vg < groups.Length
      ensures match r
              case Stay => Scannable(vg) && forall t :: 0 <= t < tracks.Length ==> !Candidate(tracks[..], groups[vg], t)
              case With(top) => Victim(tracks[..], groups[vg], top) && Candidate(tracks[..], groups[vg], top) &&
                IsTop(top) && top < tracks.Length && (Scannable(vg) || IsFree(tracks[top].status))
              case Outside =>
                !Scannable(vg) &&
                forall t :: 0 <= t < tracks.Length && IsTop(t) ==> !IsFree(tracks[t].status)
    {
      hide BestBelow, Victim, LeastWritten, Sound, Candidate, Scanned, Within, GroupAt, GroupCount, Ordered, Tidy;
      ScanBorders(vg);
      var group := groups[vg];
      var track := group.topStart;
      var top: Option<nat> := None;
      NothingBelow(tracks[..], group);
      while track <= group.topEnd
        invariant IsTop(track) && group.topStart <= track && (Scannable(vg) || track <= tracks.Length + 1)
        invariant top.Some? ==> top.value < tracks.Length && IsTop(top.value)
        invariant BestBelow(tracks[..], group, top, track)
        decreases group.topEnd + 2 - track
      {
        ScanOnly(group, track);
        if tracks.Length <= track {
          NothingFree(tracks[..], group, top, track);
          return Outside;
        }
        ScanUnlessBooked(tracks[..], group, track);
        if tracks[track].status == Booked {
          ScanNone(tracks[..], group, top, track);
        } else {
          ScanOne(tracks[..], group, top, track);
          if tracks[track].status == Free || tracks[track].status == Invalid {
            VictimIsCandidate(tracks[..], group, track);
            return With(track);
          } else if top == None || tracks[track].count < tracks[top.value].count {
            top := Some(track);
          }
        }
        track := track + 2;
      }
      ScanEnds(tracks[..], group, top, track);
      if top.Some? {
        VictimIsCandidate(tracks[..], group, top.value);
      }
      return if top == None then Stay else With(top.value);
    }

    lemma ScanBorders(vg: nat)
      requires Grouped() && tracks.Length % 2 == 0 && tracks.Length < 0x1_0000_0000_0000_0000 && vg < groups.Length
      ensures IsTop(groups[vg].topStart)
      ensures Scannable(vg) ==>
                forall t: nat :: (Scanned(groups[vg], t) <==> Within(groups[vg], t) && IsTop(t)) &&
                  (Scanned(groups[vg], t) ==> t < tracks.Length)
      ensures !Scannable(vg) ==>
                groups[vg].topStart == 1 && tracks.Length < groups[vg].topEnd &&
                forall t: nat :: t < tracks.Length && IsTop(t) ==> Scanned(groups[vg], t)
    {
      hide GroupAt, GroupCount, Scanned, Within;
      if Scannable(vg) {
        ScannedOf(vg, tracks.Length, granularity);
      } else {
        OneTrackFirst(tracks.Length);
      }
    }

    /** chs_write */
    method ChsWrite(p: nat)
      requires p < tracks.Length && tracks[p].status in {Booked, InUse, Trimmed}
      modifies tracks, this`used
      ensures tracks[..] == old(tracks[..])[p := old(tracks[p]).(status := InUse, count := old(tracks[p]).count + 1)]
      ensures used == old(used) + if old(tracks[p]).status == InUse then 0 else 1
    {
      if tracks[p].status != InUse {
        tracks[p] := tracks[p].(status := InUse);
        used := used + 1;
      }
      tracks[p] := tracks[p].(count := tracks[p].count + 1);
    }

    /** rw_block: one track is read and its data written over another. */
    method RwBlock(from: nat, to: nat)
      requires from < tracks.Length && to < tracks.Length == |content| && tracks[to].status in {Booked, InUse, Trimmed}
      modifies tracks, this`used, this`content
      ensures tracks[..] == old(tracks[..])[to := old(tracks[to]).(status := InUse, count := old(tracks[to]).count + 1)]
      ensures used == old(used) + if old(tracks[to]).status == InUse then 0 else 1
      ensures content == old(content)[to := old(content)[from]]
    {
      ChsWrite(to);
      content := content[to := content[from]];
    }

    /** swap_block. Its last case, a status that no track has here, ends the program. */
    method SwapBlock(top: nat, bottom: nat)
      requires Sound(View()) && top < tracks.Length && bottom < tracks.Length && top != bottom &&
               tracks[bottom].status == InUse
      modifies tracks, ltp, this`used, this`content
      ensures View() == Exchanged(old(View()), top, bottom).(swaps := old(swaps))
      ensures tracks[top] == old(tracks[top]).(status := Booked)
      ensures var t, b := old(tracks[top]), old(tracks[bottom]);
              tracks[bottom] ==
              if t.status == InUse then Track(InUse, t.lba, b.count + 1) else Track(t.status, b.lba, b.count)
    {
      ghost var s := View();
      var lba := tracks[top].lba;
      match tracks[top].status {
        case Free =>
          tracks[bottom] := tracks[bottom].(status := Free);
        case Invalid =>
          tracks[bottom] := tracks[bottom].(status := Invalid);
        case InUse =>
          RwBlock(top, bottom);
          tracks[bottom] := tracks[bottom].(status := InUse);
          tracks[bottom] := tracks[bottom].(lba := lba);
          ltp[lba] := ltp[lba].(pba := bottom);
        case _ =>
          assert false;
      }
      tracks[top] := tracks[top].(status := Booked);
      assert tracks[..] == Exchanged(s, top, bottom).tracks;
      assert ltp[..] == Exchanged(s, top, bottom).ltp;
    }

    /** dual_swap */
    method DualSwap(vg: nat, bba: nat) returns (r: Swap)
      requires Valid() && vg < groups.Length && bba < tracks.Length && !IsTop(bba) && tracks[bba].status == InUse
      modifies tracks, ltp, this`used, this`swaps, this`content
      ensures match r
              case Stay => View() == old(View()) && Scannable(vg) &&
                forall t :: 0 <= t < tracks.Length ==> !Candidate(tracks[..], groups[vg], t)
              case With(t) => Victim(old(tracks[..]), groups[vg], t) && Candidate(old(tracks[..]), groups[vg], t) &&
                t != bba && t < tracks.Length && (Scannable(vg) || IsFree(old(tracks[..])[t].status)) &&
                View() == Exchanged(old(View()), t, bba)
              case Outside =>
                View() == old(View()) && !Scannable(vg) &&
                forall t :: 0 <= t < tracks.Length && IsTop(t) ==> !IsFree(tracks[t].status)
    {
      hide Ordered, Tidy, GroupAt, GroupCount, Victim, Candidate;
      r := FindTop(vg);
      if r.With? {
        SwapBlock(r.top, bba);
        swaps := swaps + 1;
      }
    }

    ghost predicate InConstrained(p: nat)
      requires granularity > 0
      reads lists.vgs
    {
      TrackToVgIndex(p, granularity) < lists.vgs.Length &&
      lists.vgs[TrackToVgIndex(p, granularity)].status == ConstrainedGroup
    }

    /** do_dual_swap: a swap that is called for is carried out, unless groups have no tops. In that division a
        swap for track 0 takes the first free top of the disk, or leaves the disk. */
    method DoDualSwap(bba: nat) returns (r: Swap)
      requires Valid() && bba < tracks.Length && tracks[bba].status == InUse
      modifies tracks, ltp, this`used, this`swaps, this`content
      ensures r != Stay <==> (granularity > 1 || bba == 0) && Crowded(old(tracks[..]), bba) && InConstrained(bba)
      ensures TrackToVgIndex(bba, granularity) < groups.Length && Within(groups[TrackToVgIndex(bba, granularity)], bba)
      ensures match r
              case Stay => View() == old(View())
              case With(t) =>
                && t < tracks.Length && t != bba && Victim(old(tracks[..]), groups[TrackToVgIndex(bba, granularity)], t)
                && (if granularity > 1 then Within(groups[TrackToVgIndex(bba, granularity)], t)
                   else IsFree(old(tracks[..])[t].status)) && View() == Exchanged(old(View()), t, bba)
              case Outside =>
                View() == old(View()) && granularity == 1 &&
                forall t :: 0 <= t < tracks.Length && IsTop(t) ==> !IsFree(tracks[t].status)
    {
      hide Sound, Victim, Candidate, GroupAt, GroupCount, Ordered, Tidy, TrackToVgIndex;
      var vg := PbaToVg(bba);
      GroupsPartition(vg.value, bba, tracks.Length, granularity);
      if IsTop(bba) {
        return Stay;
      }
      if lists.vgs[vg.value].status != ConstrainedGroup {
        return Stay;
      }
      if (bba > tracks.Length || IsFree(tracks[bba + 1].status)) && (bba == 0 || IsFree(tracks[bba - 1].status)) {
        return Stay;
      }
      TopsOfGroup(bba, vg.value);
      r := DualSwap(vg.value, bba);
      if r.With? && granularity > 1 {
        ScannedWithin(vg.value, old(tracks[..]), r.top);
      }
    }

    lemma ScannedWithin(vg: nat, tracks: seq<Track>, t: nat)
      requires Grouped() && this.tracks.Length % 2 == 0 && this.tracks.Length < 0x1_0000_0000_0000_0000 &&
               vg < groups.Length && granularity > 1
      requires Candidate(tracks, groups[vg], t)
      ensures Within(groups[vg], t)
    {
      ScanBorders(vg);
    }

    lemma TopsOfGroup(b: nat, vg: nat)
      requires Valid() && b < tracks.Length && !IsTop(b) && vg < groups.Length && vg == TrackToVgIndex(b, granularity)
      ensures Scannable(vg) <==> granularity > 1 || b > 0
      ensures granularity > 1 ==> exists t: nat :: t < tracks.Length && Candidate(tracks[..], groups[vg], t)
      ensures granularity == 1 && b > 0 ==> forall t: nat :: !Candidate(tracks[..], groups[vg], t)
    {
      GroupsPartition(vg, b, tracks.Length, granularity);
      ScanBorders(vg);
      if granularity > 1 {
        GroupHasTop(vg, b, tracks.Length, granularity);
        var t: nat :| Within(groups[vg], t) && IsTop(t);
        assert Candidate(tracks[..], groups[vg], t);
      } else {
        IsDivided();
        SingleTracks(groups[..], tracks.Length, vg);
      }
    }

    // ---- requests ------------------------------------------------------------------------------

    /** isd_find_next_pba: a track by the attribute of the file, booked if it is on the disk. */
    method FindNextPba(fid: nat) returns (r: Option<Block>)
      requires Valid()
      modifies lists, lists.vgs, this`attrs, tracks
      ensures var hot := old(AttrOf(attrs, fid));
              && attrs == old(attrs)[fid := hot]
              && (lists.View(), r) == old(GetBlock(tracks[..], groups[..], lists.View(), hot))
      ensures View() == if r.Some? && r.value.pba < tracks.Length then Book(old(View()), r.value.pba) else old(View())
    {
      hide Sound, Ordered, Tidy, GroupAt, GroupCount, VirtualGroupAllocator.GetBlock;
      BordersOnDisk();
      var hot := AttrOf(attrs, fid);
      attrs := attrs[fid := hot];
      r := lists.GetBlock(tracks, groups, hot);
      if r.Some? && r.value.pba < tracks.Length {
        tracks[r.value.pba] := tracks[r.value.pba].(status := Booked);
        assert tracks[..] == old(tracks[..])[r.value.pba := old(tracks[..])[r.value.pba].(status := Booked)];
      }
    }

    /** The rest of lba_write: the track is given to the LBA, and batch_write writes it. */
    method WriteAt(pba: nat, lba: nat, ghost data: Data)
      requires pba < tracks.Length == |content| && tracks[pba].status in {Booked, InUse, Trimmed}
      modifies tracks, this`used, this`content
      ensures View() == Settle(old(View()), pba, lba, data)
    {
      tracks[pba] := tracks[pba].(lba := lba);
      ChsWrite(pba);
      content := content[pba := data];
      assert tracks[..] == old(tracks[..])[pba := Track(InUse, lba, old(tracks[pba]).count + 1)];
    }

    /** pba_search and lba_write for an LBA that the disk holds under this fid. */
    method Rewrite(lba: nat, ghost data: Data) returns (r: WriteResult, ghost swapped: Option<nat>)
      requires Valid() && lba < ltp.Length && ltp[lba].valid
      modifies tracks, ltp, this`used, this`swaps, this`content
      ensures Valid() && r in {Stored, OffDisk}
      ensures var s, p, fid := old(View()), old(ltp[..])[lba].pba, old(ltp[..])[lba].fid;
              && p < tracks.Length
              && (swapped.Some? || r == OffDisk <==>
                 (granularity > 1 || p == 0) && Crowded(old(tracks[..]), p) && InConstrained(p))
              && (swapped.Some? ==>
                   swapped.value < tracks.Length && swapped.value != p &&
                   TrackToVgIndex(p, granularity) < groups.Length &&
                   Victim(old(tracks[..]), groups[TrackToVgIndex(p, granularity)], swapped.value))
              && (r == OffDisk ==>
                   View() == s && swapped == None && granularity == 1 &&
                   forall t :: 0 <= t < tracks.Length && IsTop(t) ==> !IsFree(tracks[t].status))
              && (r == Stored ==>
                   View() == Written(s, lba, fid, data, swapped, None) &&
                   Store(View()) == Store(s)[lba := FileData(fid, data)])
    {
      hide Store, Crowded, InConstrained, Victim, Ordered, Tidy, GroupAt, GroupCount, TrackToVgIndex, Forward, Backward,
        InUseTracks, Written;
      ghost var s := View();
      Owns(s, lba);
      var pba, fid := ltp[lba].pba, ltp[lba].fid;
      var swap := DoDualSwap(pba);
      swapped := if swap.With? then Some(swap.top) else None;
      if swap == Outside {
        return OffDisk, None;
      }
      WriteIsAssignment(s, lba, fid, data, swapped, None);
      RewriteChanges(s, lba, fid, data, swapped);
      WriteAgain(s, lba, fid, data, swap);
      RewriteKeepsTidy(s.tracks, pba, swapped);
      r := Stored;
    }

    /** What is left to do when the dual swap is done. */
    method WriteAgain(ghost s: State, lba: nat, fid: nat, ghost data: Data, swap: Swap)
      requires Sound(s) && lba < |s.ltp| && s.ltp[lba].valid && s.ltp[lba].fid == fid && !swap.Outside?
      requires swap.With? ==>
                 swap.top < |s.tracks| && swap.top != s.ltp[lba].pba &&
                 View() == Exchanged(s, swap.top, s.ltp[lba].pba)
      requires swap.Stay? ==> View() == s
      modifies tracks, ltp, this`used, this`content
      ensures View() == Written(s, lba, fid, data, if swap.With? then Some(swap.top) else None, None)
    {
      hide InUseTracks;
      if swap.With? {
        ltp[lba] := LtpEntry(swap.top, fid, true);
        WriteAt(swap.top, lba, data);
      } else {
        WriteAt(ltp[lba].pba, lba, data);
      }
      assert View() == Written(s, lba, fid, data, if swap.With? then Some(swap.top) else None, None);
    }

    /** A write to an LBA that the disk holds changes its track and the top of the swap, and validates nothing. */
    lemma RewriteChanges(s: State, lba: nat, fid: nat, data: Data, swapped: Option<nat>)
      requires Sound(s) && lba < |s.ltp| && s.ltp[lba].valid
      requires swapped.Some? ==> swapped.value < |s.tracks| && swapped.value != s.ltp[lba].pba
      ensures s.ltp[lba].pba < |s.tracks|
      ensures var u := Written(s, lba, fid, data, swapped, None);
              && |u.tracks| == |s.tracks| && |u.ltp| == |s.ltp|
              && (forall q :: 0 <= q < |s.tracks| && q != s.ltp[lba].pba && Some(q) != swapped ==>
                   u.tracks[q] == s.tracks[q])
              && (forall l :: 0 <= l < |s.ltp| ==> u.ltp[l].valid == s.ltp[l].valid)
    {
      hide InUseTracks;
    }

    lemma RewriteKeepsTidy(before: seq<Track>, p: nat, swapped: Option<nat>)
      requires Grouped() && tracks.Length % 2 == 0 && |before| == tracks.Length && p < tracks.Length &&
               lists.vgs.Length == groups.Length
      requires TrackToVgIndex(p, granularity) < groups.Length && Within(groups[TrackToVgIndex(p, granularity)], p)
      requires Tidy(before, groups[..], lists.View()) && IsLive(before[p].status)
      requires swapped.Some? ==>
                 swapped.value < tracks.Length && InConstrained(p) &&
                 (granularity == 1 || Within(groups[TrackToVgIndex(p, granularity)], swapped.value))
      requires forall q :: 0 <= q < tracks.Length && q != p && Some(q) != swapped ==> tracks[q] == before[q]
      ensures Tidy(tracks[..], groups[..], lists.View())
    {
      hide GroupAt, GroupCount, TrackToVgIndex;
      IsDivided();
      if swapped.Some? {
        SwappedKeepsTidy(before, tracks[..], groups[..], granularity, lists.View(), TrackToVgIndex(p, granularity), p,
          swapped.value);
      } else {
        FewerKeepsTidy(before, tracks[..], groups[..], lists.View());
      }
    }

    /** pba_search and lba_write for a new LBA: what vg_get_block hands out is written without a look at its
        status. The maps stay inverse exactly when it was not in use, and it is in use only as the offer of a
        group from the free list. */
    method PlaceNew(lba: nat, fid: nat, ghost data: Data) returns (r: WriteResult, ghost block: Option<Block>)
      requires Valid() && lba < tracks.Length && !ltp[lba].valid
      modifies this, tracks, ltp, lists, lists.vgs
      ensures Steady() && r in {Stored, Full, OffDisk}
      ensures attrs == old(attrs)[fid := old(AttrOf(attrs, fid))]
      ensures (lists.View(), block) == old(GetBlock(tracks[..], groups[..], lists.View(), AttrOf(attrs, fid)))
      ensures r == Full <==> block == None
      ensures r == OffDisk <==> block.Some? && tracks.Length <= block.value.pba
      ensures r != Stored ==> View() == old(View())
      ensures r == Stored ==>
                && View() == Written(old(View()), lba, fid, data, None, Some(block.value.pba))
                && (Sound(View()) <==> !IsLive(old(tracks[..])[block.value.pba].status))
                && (Sound(View()) ==> Store(View()) == Store(old(View()))[lba := FileData(fid, data)])
                && (IsLive(old(tracks[..])[block.value.pba].status) ==> block.value.offered)
    {
      hide Ordered, Tidy, GroupAt, GroupCount, GetBlock, Forward, Backward, InUseTracks, Handed, Store;
      ghost var s, a, hot := View(), lists.View(), AttrOf(attrs, fid);
      IsDivided();
      GetBlockKeeps(tracks[..], groups[..], lists.View(), hot);
      var found := FindNextPba(fid);
      block := found;
      ShrinksKeepsTidy(s.tracks, groups[..], a, lists.View());
      if found == None {
        return Full, block;
      }
      if tracks.Length <= found.value.pba {
        return OffDisk, block;
      }
      var p := found.value.pba;
      ltp[lba] := LtpEntry(p, fid, true);
      WriteAt(p, lba, data);
      VirtualGroupSpec.WriteKeepsExactly(s, lba, fid, data, None, Some(p));
      assert View() == Written(s, lba, fid, data, None, Some(p));
      BookedKeepsTidy(s.tracks, tracks[..], groups[..], granularity, a, lists.View(), found.value, hot);
      HandedOut(s.tracks, groups[..], a, lists.View(), found.value, hot);
      FreeOrLive(s, p);
      r := Stored;
    }

    /** lba_write of one block. */
    method LbaWrite(lba: nat, fid: nat, ghost data: Data)
        returns (r: WriteResult, ghost swapped: Option<nat>, ghost block: Option<Block>)
      requires Valid()
      modifies this, tracks, ltp, lists, lists.vgs
      ensures Steady()
      ensures r == Rejected <==> lba >= tracks.Length || (old(ltp[..])[lba].valid && old(ltp[..])[lba].fid != fid)
      ensures r != Stored ==> View() == old(View())
      ensures r == Rejected || (lba < tracks.Length && old(ltp[..])[lba].valid) ==>
                lists.View() == old(lists.View()) && attrs == old(attrs)
      ensures lba < tracks.Length && !old(ltp[..])[lba].valid ==>
                && attrs == old(attrs)[fid := old(AttrOf(attrs, fid))]
                && (lists.View(), block) == old(GetBlock(tracks[..], groups[..], lists.View(), AttrOf(attrs, fid)))
      ensures r == Full <==> lba < tracks.Length && !old(ltp[..])[lba].valid && block == None
      ensures r == OffDisk && !old(ltp[..])[lba].valid ==> block.Some? && tracks.Length <= block.value.pba
      ensures r == OffDisk && old(ltp[..])[lba].valid ==>
                granularity == 1 && old(ltp[..])[lba].pba == 0 && InConstrained(0) && Crowded(old(tracks[..]), 0)
                && forall t :: 0 <= t < tracks.Length && IsTop(t) ==> !IsFree(tracks[t].status)
      ensures r == Stored ==>
                && lba < tracks.Length && (swapped.Some? ==> swapped.value < tracks.Length)
                && (!old(ltp[..])[lba].valid ==> block.Some? && block.value.pba < tracks.Length)
                && View() == Written(old(View()), lba, fid, data, swapped,
                   if block.Some? then Some(block.value.pba) else None)
                && (Valid() <==> old(ltp[..])[lba].valid || !IsLive(old(tracks[..])[block.value.pba].status))
                && (Valid() ==> Store(View()) == Store(old(View()))[lba := FileData(fid, data)])
      ensures r == Stored && old(ltp[..])[lba].valid ==>
                var p := old(ltp[..])[lba].pba;
                && p < tracks.Length && (swapped.Some? <==>
                   (granularity > 1 || p == 0) && Crowded(old(tracks[..]), p) && InConstrained(p))
                && (swapped.Some? ==>
                     swapped.value != p && TrackToVgIndex(p, granularity) < groups.Length &&
                     Victim(old(tracks[..]), groups[TrackToVgIndex(p, granularity)], swapped.value))
      ensures r == Stored && !Valid() ==> block.value.offered
      ensures Wide(tracks.Length, granularity) ==> Valid() && r != OffDisk
    {
      hide Crowded, Victim, Ordered, Tidy, GroupAt, GroupCount, TrackToVgIndex, Forward, Backward, InUseTracks, Store,
        GetBlock, Written, Wide;
      ghost var s, a := View(), lists.View();
      swapped, block := None, None;
      if lba >= tracks.Length || (ltp[lba].valid && ltp[lba].fid != fid) {
        return Rejected, None, None;
      }
      if Wide(tracks.Length, granularity) {
        IsDivided();
        WideHandsFreeTracks(tracks[..], groups[..], a, granularity, AttrOf(attrs, fid));
        WideIsScannable(tracks.Length, granularity);
      }
      if ltp[lba].valid {
        Owns(s, lba);
        r, swapped := Rewrite(lba, data);
      } else {
        r, block := PlaceNew(lba, fid, data);
      }
    }

    /** lba_read of one block: a valid LBA is read from its track, which holds what was stored last. */
    method LbaRead(lba: nat, fid: nat) returns (track: Option<nat>)
      requires Valid()
      ensures track.Some? <==> lba in Store(View()) && Store(View())[lba].fid == fid
      ensures track.Some? ==> track.value < |content| && content[track.value] == Store(View())[lba].data
    {
      hide InUseTracks, Grouped, Ordered, Tidy;
      if lba >= tracks.Length {
        return None;
      }
      if ltp[lba].valid && ltp[lba].fid == fid && tracks[ltp[lba].pba].status == InUse {
        return Some(ltp[lba].pba);
      }
      return None;
    }

    // ---- deletes -------------------------------------------------------------------------------

    /** chs_delete */
    method ChsDelete(p: nat) returns (ok: bool)
      requires Valid() && p < tracks.Length
      modifies tracks, ltp, this`deleted
      ensures ok <==> old(tracks[p]).status == InUse
      ensures Valid() && View() == if ok then Drop(old(View()), p) else old(View())
      ensures ok ==>
                var l := old(tracks[p]).lba;
                && tracks[..] == old(tracks[..])[p := old(tracks[p]).(status := Invalid)]
                && l < ltp.Length && Store(View()) == Store(old(View())) - {l} && deleted == old(deleted) + 1
                && ltp[..] == old(ltp[..])[l := old(ltp[..])[l].(valid := false)]
    {
      hide InUseTracks, GroupAt, GroupCount, Ordered, Tidy;
      ghost var before := tracks[..];
      var lba := tracks[p].lba;
      if tracks[p].status != InUse {
        return false;
      }
      DropRemoves(View(), lba);
      tracks[p] := tracks[p].(status := Invalid);
      if !ltp[lba].valid {
        return false;
      }
      ltp[lba] := ltp[lba].(valid := false);
      deleted := deleted + 1;
      FewerKeepsTidy(before, tracks[..], groups[..], lists.View());
      return true;
    }

    /** The LBAs of a file, from low to high, and the tracks they own. None ends the program. */
    method CollectFile(fid: nat) returns (batch: Option<seq<nat>>, ghost lbas: seq<nat>)
      requires Valid()
      ensures batch.Some? && LbasOf(ltp[..], fid, lbas) && |batch.value| == |lbas|
      ensures forall k :: 0 <= k < |lbas| ==> lbas[k] < ltp.Length && batch.value[k] == ltp[lbas[k]].pba
    {
      hide InUseTracks, Grouped, Backward;
      var found: seq<nat> := [];
      lbas := [];
      var i := 0;
      while i < tracks.Length
        invariant i <= tracks.Length && |found| == |lbas|
        invariant LbasOf(ltp[..i], fid, lbas)
        invariant forall k :: 0 <= k < |lbas| ==> lbas[k] < ltp.Length && found[k] == ltp[lbas[k]].pba
      {
        LbasOfSnoc(ltp[..i], ltp[i], fid, lbas);
        assert ltp[..i + 1] == ltp[..i] + [ltp[i]];
        if ltp[i].valid && ltp[i].fid == fid {
          var pba := ltp[i].pba;
          if IsFree(tracks[pba].status) || tracks[pba].lba != i {
            return None, lbas;
          }
          found := found + [pba];
          lbas := lbas + [i];
        }
        i := i + 1;
      }
      LbasOfAll(ltp[..], i, fid, lbas);
      return Some(found), lbas;
    }

    /** pba_delete of a batch in which the LBAs `lbas` own the tracks. */
    method PbaDelete(batch: seq<nat>, ghost lbas: seq<nat>) returns (ok: bool)
      requires Valid() && |batch| == |lbas| && forall i, j :: 0 <= i < j < |lbas| ==> lbas[i] < lbas[j]
      requires forall k :: 0 <= k < |lbas| ==>
                 lbas[k] < ltp.Length && ltp[lbas[k]].valid && ltp[lbas[k]].pba == batch[k]
      modifies tracks, ltp, this`deleted
      ensures ok && Valid() && Store(View()) == Store(old(View())) - Elements(lbas) && deleted == old(deleted) + |batch|
      ensures ltp[..] == Cleared(old(ltp[..]), lbas)
    {
      hide InUseTracks, Forward, Backward, Drop, GroupAt, GroupCount, Grouped, Ordered, Tidy, Cleared;
      ghost var s := View();
      var k := 0;
      assert lbas[..0] == [];
      ClearedNone(s.ltp);
      while k < |batch|
        invariant k <= |lbas| == |batch| && Valid() && ltp.Length == |s.ltp|
        invariant Store(View()) == Store(s) - Elements(lbas[..k])
        invariant ltp[..] == Cleared(s.ltp, lbas[..k])
        invariant forall j :: k <= j < |lbas| ==>
                    lbas[j] < ltp.Length && ltp[lbas[j]].valid && ltp[lbas[j]].pba == batch[j]
        invariant deleted == s.deleted + k
      {
        Owns(View(), lbas[k]);
        ClearedNext(s.ltp, lbas, k);
        ok := ChsDelete(batch[k]);
        if !ok {
          return;
        }
        ElementsSnoc(lbas, k);
        k := k + 1;
      }
      assert lbas[..k] == lbas;
      return true;
    }

    /** update_vg_list after a delete. */
    method Reclassify(batch: seq<nat>)
      requires Valid() && forall k :: 0 <= k < |batch| ==> batch[k] < tracks.Length
      modifies lists, lists.vgs
      ensures Valid() && lists.View() ==
              UpdatedAll(tracks[..], groups[..], old(lists.View()), Touched(batch, granularity), groups.Length)
    {
      hide Sound, Ordered, Tidy, GroupAt, GroupCount, Updated, TrackToVgIndex;
      BordersOnDisk();
      forall k | 0 <= k < |batch|
        ensures TrackToVgIndex(batch[k], granularity) < groups.Length
      {
        LastGroup(tracks.Length, granularity);
        GroupsPartition(0, batch[k], tracks.Length, granularity);
      }
      UpdatedAllKeeps(tracks[..], groups[..], lists.View(), Touched(batch, granularity), groups.Length);
      lists.UpdateVgList(tracks, groups, granularity, batch);
    }

    /** vg_lba_delete with batch_invalid: the file leaves the disk and nothing else does, and the groups of its
        tracks are classified anew. None of the exits is reached. */
    method LbaDelete(fid: nat) returns (count: Option<nat>)
      requires Valid()
      modifies tracks, ltp, this`deleted, lists, lists.vgs
      ensures Valid() && count == Some(|set l | l in old(Store(View())) && old(Store(View()))[l].fid == fid|)
      ensures Store(View()) == WithoutFile(old(Store(View())), fid)
      ensures deleted == old(deleted) + |set l | l in old(Store(View())) && old(Store(View()))[l].fid == fid|
      ensures forall l :: 0 <= l < ltp.Length ==>
                ltp[l] == (var e := old(ltp[..])[l]; if e.valid && e.fid == fid then e.(valid := false) else e)
      ensures lists.View() == UpdatedAll(tracks[..], groups[..], old(lists.View()),
              GroupsOf(old(ltp[..]), fid, granularity), groups.Length)
    {
      hide InUseTracks, Backward, GroupAt, GroupCount, Ordered, Tidy, Store, Cleared;
      ghost var s := View();
      var batch: Option<seq<nat>>;
      ghost var lbas: seq<nat>;
      batch, lbas := CollectFile(fid);
      if batch == None {
        return None;
      }
      FileIsStored(s, fid, lbas);
      ClearedAt(s.ltp, lbas);
      var ok := PbaDelete(batch.value, lbas);
      if !ok {
        return None;
      }
      BatchGroups(s.ltp, fid, granularity, batch.value, lbas);
      if batch.value != [] {
        Reclassify(batch.value);
      } else {
        NoneMarked(tracks[..], groups[..], lists.View(), groups.Length);
      }
      return Some(|batch.value|);
    }

    // ---- whole runs ------------------------------------------------------------------------------

    /** One request of the trace. It is not served only when vg_get_block finds no track. */
    method Serve(r: Request) returns (served: bool, ghost answer: Option<Data>)
      requires Valid() && Wide(tracks.Length, granularity)
      modifies this, tracks, ltp, lists, lists.vgs
      ensures Valid()
      ensures !served <==> r.Put? && r.lba < tracks.Length && r.lba !in old(Store(View())) &&
                           old(GetBlock(tracks[..], groups[..], lists.View(), AttrOf(attrs, r.fid))).1 == None
      ensures served ==>
                Store(View()) == Effect(Store(old(View())), r, tracks.Length) &&
                answer == Answer(Store(old(View())), r)
      ensures !served ==> View() == old(View()) &&
                          GetBlock(tracks[..], groups[..], lists.View(), AttrOf(attrs, r.fid)) == (lists.View(), None)
    {
      hide Ordered, Tidy, GroupAt, GroupCount, Forward, Backward, InUseTracks, GetBlock, Wide, Grouped, WithoutFile,
        Store;
      match r {
        case Get(lba, fid) =>
          var t := LbaRead(lba, fid);
          return true, if t.None? then None else Some(content[t.value]);
        case Put(lba, fid, data) =>
          if lba < tracks.Length {
            StoreAt(View(), lba);
          }
          ghost var a := lists.View();
          var w, _, _ := LbaWrite(lba, fid, data);
          if w == Full {
            GetBlockFailsAgain(tracks[..], groups[..], a, AttrOf(attrs, fid));
          }
          return w != Full, None;
        case Remove(fid) =>
          var _ := LbaDelete(fid);
          return true, None;
      }
    }

    /** The trace loop, for a division into groups of three tracks or more: over every run of writes, reads and
        deletes every read finds what a plain table holds at that moment. It stops early only before a new LBA for
        which vg_get_block finds no track on the disk that has been reached. */
    method Replay(trace: seq<Request>) returns (done: nat, ghost answers: seq<Option<Data>>)
      requires Valid() && Wide(tracks.Length, granularity)
      modifies this, tracks, ltp, lists, lists.vgs
      ensures Valid() && done <= |trace|
      ensures Store(View()) == After(Store(old(View())), trace[..done], tracks.Length)
      ensures answers == Answers(Store(old(View())), trace[..done], tracks.Length)
      ensures done < |trace| ==>
                && trace[done].Put? && trace[done].lba < tracks.Length && trace[done].lba !in Store(View())
                && GetBlock(tracks[..], groups[..], lists.View(), AttrOf(attrs, trace[done].fid)) ==
                   (lists.View(), None)
    {
      hide Ordered, Tidy, Forward, Backward, InUseTracks, GetBlock, Wide, Grouped, Store;
      done, answers := 0, [];
      while done < |trace|
        invariant done <= |trace| && Valid()
        invariant Store(View()) == After(Store(old(View())), trace[..done], tracks.Length)
        invariant answers == Answers(Store(old(View())), trace[..done], tracks.Length)
      {
        assert trace[..done + 1][..done] == trace[..done];
        var served, answer := Serve(trace[done]);
        if !served {
          return;
        }
        answers := answers + [answer];
        done := done + 1;
      }
    }
  }

  /** The valid LBAs of a file, each once and in order. */
  ghost predicate LbasOf(ltp: seq<LtpEntry>, fid: nat, lbas: seq<nat>) {
    && (forall l :: l in lbas <==> 0 <= l < |ltp| && ltp[l].valid && ltp[l].fid == fid)
    && (forall i, j :: 0 <= i < j < |lbas| ==> lbas[i] < lbas[j])
  }

  lemma LbasOfSnoc(ltp: seq<LtpEntry>, e: LtpEntry, fid: nat, lbas: seq<nat>)
    requires LbasOf(ltp, fid, lbas)
    ensures LbasOf(ltp + [e], fid, if e.valid && e.fid == fid then lbas + [|ltp|] else lbas)
  {
    var next := if e.valid && e.fid == fid then lbas + [|ltp|] else lbas;
    assert forall l :: l in next <==> l in lbas || (e.valid && e.fid == fid && l == |ltp|);
    forall i, j | 0 <= i < j < |next|
      ensures next[i] < next[j]
    {
      if j == |lbas| {
        assert lbas[i] in lbas;
      }
    }
  }

  lemma LbasOfAll(ltp: seq<LtpEntry>, n: nat, fid: nat, lbas: seq<nat>)
    requires n <= |ltp| && LbasOf(ltp[..n], fid, lbas) && forall l :: n <= l < |ltp| ==> !ltp[l].valid
    ensures LbasOf(ltp, fid, lbas)
  {
  }

  function Elements(s: seq<nat>): set<nat> {
    set l | l in s
  }

  lemma ElementsSnoc(s: seq<nat>, k: nat)
    requires k < |s|
    ensures Elements(s[..k + 1]) == Elements(s[..k]) + {s[k]}
  {
    assert s[..k + 1] == s[..k] + [s[k]];
  }

  lemma {:induction false} ElementsCount(s: seq<nat>)
    requires forall i, j :: 0 <= i < j < |s| ==> s[i] < s[j]
    ensures |Elements(s)| == |s|
  {
    if s != [] {
      var n := |s| - 1;
      ElementsCount(s[..n]);
      ElementsSnoc(s, n);
      assert s[..n + 1] == s;
      assert s[n] !in s[..n];
    }
  }

  /** Taking the LBAs of a file off the disk leaves the other files. */
  lemma FileIsStored(s: State, fid: nat, lbas: seq<nat>)
    requires |s.content| == |s.tracks| && Forward(s) && LbasOf(s.ltp, fid, lbas)
    ensures Store(s) - Elements(lbas) == map l | l in Store(s) && Store(s)[l].fid != fid :: Store(s)[l]
    ensures |lbas| == |set l | l in Store(s) && Store(s)[l].fid == fid|
    ensures forall k :: 0 <= k < |lbas| ==> lbas[k] < |s.ltp| && s.ltp[lbas[k]].valid
  {
    assert forall l :: l in Store(s) ==> Store(s)[l].fid == s.ltp[l].fid;
    assert forall l :: l in Elements(lbas) <==> l in Store(s) && Store(s)[l].fid == fid;
    assert (set l | l in Store(s) && Store(s)[l].fid == fid) == Elements(lbas);
    ElementsCount(lbas);
    assert forall k :: 0 <= k < |lbas| ==> lbas[k] in lbas;
  }

  lemma Owns(s: State, lba: nat)
    requires Sound(s) && lba < |s.ltp| && s.ltp[lba].valid
    ensures s.ltp[lba].pba < |s.tracks| && s.tracks[s.ltp[lba].pba].status == InUse &&
            s.tracks[s.ltp[lba].pba].lba == lba
  {
  }

  lemma NextBorders(i: nat, max: nat, g: nat)
    requires g > 0 && i + 1 < GroupCount(max, g)
    ensures 0 <= i * g && GroupAt(i, max, g) == Bordered(i * g, i * g + g - 1, Some(i + 1))
  {
  }

  lemma LastBorders(i: nat, max: nat, g: nat)
    requires g > 0 && max > 0 && i + 1 == GroupCount(max, g)
    ensures 0 <= i * g && GroupAt(i, max, g) == Bordered(i * g, max - 1, None)
  {
  }

  lemma NothingBelow(tracks: seq<Track>, group: Group)
    ensures BestBelow(tracks, group, None, group.topStart)
  {
  }

  lemma ScanOnly(group: Group, t: nat)
    requires IsTop(t) && group.topStart <= t <= group.topEnd
    ensures Scanned(group, t)
  {
  }

  lemma ScanUnlessBooked(tracks: seq<Track>, group: Group, t: nat)
    requires Scanned(group, t) && t < |tracks|
    ensures Candidate(tracks, group, t) <==> tracks[t].status != Booked
  {
  }

  lemma ScanEnds(tracks: seq<Track>, group: Group, best: Option<nat>, bound: nat)
    requires BestBelow(tracks, group, best, bound) && group.topEnd < bound
    ensures match best
            case None => forall t :: 0 <= t < |tracks| ==> !Candidate(tracks, group, t)
            case Some(t) => Victim(tracks, group, t)
  {
  }

  lemma ScannedOf(i: nat, max: nat, g: nat)
    requires g > 0 && (i > 0 || g > 1) && max > 0 && max % 2 == 0 && i < GroupCount(max, g)
    ensures var group := GroupAt(i, max, g);
            && IsTop(group.topStart)
            && forall t: nat :: (Scanned(group, t) <==> Within(group, t) && IsTop(t)) && (Scanned(group, t) ==> t < max)
  {
    hide GroupAt, GroupCount;
    ScannedExactly(i, max, g);
    GroupStarts(i, max, g);
  }

  lemma OneTrackFirst(max: nat)
    requires max > 0
    ensures GroupCount(max, 1) > 0 && GroupAt(0, max, 1).topStart == 1 &&
            GroupAt(0, max, 1).topEnd == 0xFFFF_FFFF_FFFF_FFFF
    ensures max < 0x1_0000_0000_0000_0000 ==> forall t: nat :: t < max && IsTop(t) ==> Scanned(GroupAt(0, max, 1), t)
  {
    LastGroup(max, 1);
    assert GroupCount(max, 1) == max;
  }

  lemma BordersOf(borders: array<Group>, size: nat, granularity: nat)
    requires granularity > 0 && size > 0 && borders.Length == GroupCount(size, granularity)
    requires forall i :: 0 <= i < borders.Length ==> borders[i] == GroupAt(i, size, granularity)
    ensures forall i :: 0 <= i < borders.Length ==>
              borders[i].lower <= borders[i].topStart && borders[i].lower <= borders[i].bottomStart
  {
    hide GroupAt, GroupCount;
    forall i | 0 <= i < borders.Length
      ensures borders[i].lower <= borders[i].topStart && borders[i].lower <= borders[i].bottomStart
    {
      GroupStarts(i, size, granularity);
    }
  }

  /** The loop of init_virtual_groups over the borders. */
  method MakeGroups(size: nat, granularity: nat) returns (groups: array<Group>)
    requires granularity > 0 && size > 0
    ensures fresh(groups) && groups.Length == GroupCount(size, granularity)
    ensures forall i :: 0 <= i < groups.Length ==> groups[i] == GroupAt(i, size, granularity)
  {
    hide GroupAt, GroupCount, Bordered;
    LastGroup(size, granularity);
    groups := new Group[GroupCount(size, granularity)](_ => Group(0, 0, 0, 0, 0, 0, None));
    var i := 0;
    while i < groups.Length - 1
      invariant i <= groups.Length - 1
      invariant forall k :: 0 <= k < i ==> groups[k] == GroupAt(k, size, granularity)
    {
      NextBorders(i, size, granularity);
      var lower := i * granularity;
      groups[i] := Bordered(lower, lower + granularity - 1, Some(i + 1));
      i := i + 1;
    }
    LastBorders(i, size, granularity);
    groups[i] := Bordered(i * granularity, size - 1, None);
  }

  lemma VictimIsCandidate(tracks: seq<Track>, group: Group, t: nat)
    requires Victim(tracks, group, t)
    ensures Candidate(tracks, group, t)
  {
  }

  /** Behind the disk, every top of it has been seen. */
  lemma NothingFree(tracks: seq<Track>, group: Group, best: Option<nat>, bound: nat)
    requires BestBelow(tracks, group, best, bound) && |tracks| <= bound
    ensures forall t :: 0 <= t < |tracks| && Scanned(group, t) ==> !IsFree(tracks[t].status)
  {
    assert forall t :: 0 <= t < |tracks| && Scanned(group, t) ==>
        (Candidate(tracks, group, t) <==> tracks[t].status != Booked);
  }

  lemma ShrinksKeepsTidy(tracks: seq<Track>, groups: seq<Group>, a: Allocator, b: Allocator)
    requires Tidy(tracks, groups, a) && FreeShrinks(a, b)
    ensures Tidy(tracks, groups, b)
  {
  }

  lemma HandedOut(tracks: seq<Track>, groups: seq<Group>, a: Allocator, b: Allocator, block: Block, hot: bool)
    requires |a.vgs| == |b.vgs| == |groups| && Handed(tracks, groups, a, b, block, hot) && block.pba < |tracks|
    ensures IsLive(tracks[block.pba].status) ==> block.offered
  {
  }

  lemma FreeOrLive(s: State, p: nat)
    requires Sound(s) && p < |s.tracks|
    ensures IsFree(s.tracks[p].status) <==> !IsLive(s.tracks[p].status)
  {
  }

  lemma FirstOfOne(max: nat, granularity: nat)
    requires granularity == 1 && max > 0
    ensures GroupCount(max, granularity) > 0 && GroupAt(0, max, granularity).higher == 0
  {
    LastGroup(max, 1);
    assert GroupCount(max, 1) == max;
  }

  lemma WideIsScannable(max: nat, granularity: nat)
    requires granularity > 0 && max > 0 && Wide(max, granularity)
    ensures granularity > 1
  {
    hide GroupAt, GroupCount;
    if granularity == 1 {
      FirstOfOne(max, granularity);
      assert false;
    }
  }

  lemma StoreAt(s: State, lba: nat)
    requires Sound(s) && lba < |s.ltp|
    ensures lba in Store(s) <==> s.ltp[lba].valid
    ensures s.ltp[lba].valid ==> Store(s)[lba].fid == s.ltp[lba].fid
  {
  }

  /** The LBA table without these LBAs. */
  function Cleared(ltp: seq<LtpEntry>, lbas: seq<nat>): (r: seq<LtpEntry>)
    ensures |r| == |ltp|
  {
    if lbas == [] then ltp
    else
      var r, l := Cleared(ltp, lbas[..|lbas| - 1]), lbas[|lbas| - 1];
      if l < |ltp| then r[l := r[l].(valid := false)] else r
  }

  lemma ClearedNone(ltp: seq<LtpEntry>)
    ensures Cleared(ltp, []) == ltp
  {
  }

  lemma ClearedNext(ltp: seq<LtpEntry>, lbas: seq<nat>, k: nat)
    requires k < |lbas| && lbas[k] < |ltp|
    ensures var r := Cleared(ltp, lbas[..k]); Cleared(ltp, lbas[..k + 1]) == r[lbas[k] := r[lbas[k]].(valid := false)]
  {
    assert lbas[..k + 1][..k] == lbas[..k];
  }

  lemma {:induction false} ClearedAt(ltp: seq<LtpEntry>, lbas: seq<nat>)
    ensures forall l :: 0 <= l < |ltp| ==> Cleared(ltp, lbas)[l] == if l in lbas then ltp[l].(valid := false)
            else ltp[l]
  {
    if lbas != [] {
      var init, last := lbas[..|lbas| - 1], lbas[|lbas| - 1];
      assert lbas == init + [last];
      ClearedAt(ltp, init);
    }
  }

  /** The groups in which a file has tracks. */
  function GroupsOf(ltp: seq<LtpEntry>, fid: nat, granularity: nat): set<nat>
    requires granularity > 0
  {
    set l | 0 <= l < |ltp| && ltp[l].valid && ltp[l].fid == fid :: TrackToVgIndex(ltp[l].pba, granularity)
  }

  lemma BatchGroups(ltp: seq<LtpEntry>, fid: nat, granularity: nat, batch: seq<nat>, lbas: seq<nat>)
    requires granularity > 0 && LbasOf(ltp, fid, lbas) && |batch| == |lbas|
    requires forall k :: 0 <= k < |lbas| ==> lbas[k] < |ltp| && batch[k] == ltp[lbas[k]].pba
    ensures Touched(batch, granularity) == GroupsOf(ltp, fid, granularity)
    ensures batch == [] ==> GroupsOf(ltp, fid, granularity) == {}
  {
    hide TrackToVgIndex;
    forall l | 0 <= l < |ltp| && ltp[l].valid && ltp[l].fid == fid
      ensures TrackToVgIndex(ltp[l].pba, granularity) in Touched(batch, granularity)
    {
      assert l in lbas;
      var k :| 0 <= k < |lbas| && lbas[k] == l;
      assert batch[k] == ltp[l].pba;
    }
    forall k | 0 <= k < |batch|
      ensures TrackToVgIndex(batch[k], granularity) in GroupsOf(ltp, fid, granularity)
    {
      assert lbas[k] in lbas;
    }
  }

  lemma {:induction false} NoneMarked(tracks: seq<Track>, groups: seq<Group>, a: Allocator, n: nat)
    requires n <= |a.vgs| == |groups|
    ensures UpdatedAll(tracks, groups, a, {}, n) == a
  {
    if n > 0 {
      NoneMarked(tracks, groups, a, n - 1);
    }
  }
}
