/** Divisions into groups of one or two tracks, where vg_get_block hands out tracks that are in use. */
module VirtualGroupFailures {
  import opened DiskTypes
  import opened VirtualGroupSpec
  import opened VirtualGroupAllocator
  import opened VirtualGroupLists
  import opened VirtualGroupDisk

  // ---- the next group from the free list -------------------------------------------------------

  lemma {:induction false} WithoutAbsent(list: seq<nat>, i: nat)
    requires i !in list
    ensures Without(list, i) == list
  {
    if list != [] {
      assert list == list[..|list| - 1] + [list[|list| - 1]];
      WithoutAbsent(list[..|list| - 1], i);
    }
  }

  lemma {:induction false} WithoutFirst(list: seq<nat>)
    requires Distinct(list) && list != []
    ensures Without(list, list[0]) == list[1..]
  {
    var init, last := list[..|list| - 1], list[|list| - 1];
    if |list| > 1 {
      WithoutFirst(init);
      assert list[1..] == init[1..] + [last];
    } else {
      assert init == [];
    }
  }

  /** No group is being filled for the attribute, or the one that is has nothing ahead. */
  predicate Spent(tracks: seq<Track>, groups: seq<Group>, a: Allocator, hot: bool)
    requires Fits(groups, a)
  {
    Slot(a, hot).Some? ==> Ahead(tracks, a.vgs[Slot(a, hot).value].current, groups[Slot(a, hot).value].higher) == None
  }

  lemma SpentReleases(tracks: seq<Track>, groups: seq<Group>, a: Allocator, hot: bool)
    requires Ordered(groups, a) && Fits(groups, a) && Spent(tracks, groups, a, hot)
    ensures var (b, r) := FromCurrent(tracks, groups, a, hot);
            && r == None && b.free == a.free && b.identical == a.identical && Slot(b, !hot) == Slot(a, !hot)
            && Slot(b, hot) == None
            && b.random == a.random
            && b.constrained == (if Slot(a, hot).Some? then a.constrained + [Slot(a, hot).value] else a.constrained)
            && |b.vgs| == |a.vgs| && (forall i: nat :: i < |a.vgs| && Slot(a, hot) != Some(i) ==> b.vgs[i] == a.vgs[i])
            && (Slot(a, hot).Some? ==> var i := Slot(a, hot).value; b.vgs[i] == Released(groups, a, i).vgs[i])
  {
    if Slot(a, hot).Some? {
      var i := Slot(a, hot).value;
      FillingWaitsNowhere(groups, a, hot);
      WithoutAbsent(a.free, i);
      WithoutAbsent(a.random, i);
      WithoutAbsent(a.constrained, i);
    }
  }

  /** The first group of the free list is begun, with its offer. */
  lemma FreeIsBegun(groups: seq<Group>, a: Allocator, hot: bool)
    requires Fits(groups, a) && Distinct(a.free) && a.free != [] && a.free[0] !in a.random &&
             a.free[0] !in a.constrained
    ensures var (b, r) := FromFree(groups, a, hot);
            && b.random == a.random && b.constrained == a.constrained
            && r == Some(Block(a.free[0], Offer(groups[a.free[0]], hot), true))
            && b.free == a.free[1..] && Slot(b, hot) == Some(a.free[0]) && b.identical == a.identical
            && Slot(b, !hot) == Slot(a, !hot)
            && b.vgs == a.vgs[a.free[0] := Vg(RandomGroup, hot, true, Offer(groups[a.free[0]], hot) + 2)]
  {
    WithoutFirst(a.free);
    WithoutAbsent(a.random, a.free[0]);
    WithoutAbsent(a.constrained, a.free[0]);
  }

  /** b is a after the first group of the free list has been begun. */
  ghost predicate Begins(groups: seq<Group>, a: Allocator, b: Allocator, hot: bool) {
    && Fits(groups, a) && Fits(groups, b) && a.free != [] && b.free == a.free[1..]
    && Slot(b, hot) == Some(a.free[0]) && Slot(b, !hot) == Slot(a, !hot) && b.identical == a.identical
    && b.random == a.random
    && b.constrained == (if Slot(a, hot).Some? then a.constrained + [Slot(a, hot).value] else a.constrained)
    && b.vgs[a.free[0]] == Vg(RandomGroup, hot, true, Offer(groups[a.free[0]], hot) + 2)
    && (forall i: nat :: i < |groups| && i != a.free[0] && Slot(a, hot) != Some(i) ==> b.vgs[i] == a.vgs[i])
    && (Slot(a, hot).Some? ==> var i := Slot(a, hot).value; b.vgs[i] == Released(groups, a, i).vgs[i])
  }

  /** When nothing is ahead, the next group is the first of the free list. */
  lemma NextIsOffered(tracks: seq<Track>, groups: seq<Group>, a: Allocator, hot: bool)
    requires Ordered(groups, a) && !a.identical && a.free != [] && Fits(groups, a) && Spent(tracks, groups, a, hot)
    ensures var (b, r) := GetBlock(tracks, groups, a, hot);
            r == Some(Block(a.free[0], Offer(groups[a.free[0]], hot), true)) && Ordered(groups, b) &&
            Begins(groups, a, b, hot)
  {
    hide Ordered, FromCurrent, FromFree, Spent, Released;
    FromCurrentKeeps(tracks, groups, a, hot);
    SpentReleases(tracks, groups, a, hot);
    FreeIsDistinct(groups, FromCurrent(tracks, groups, a, hot).0);
    FreeWaitsAlone(groups, a, hot);
    FreeWaitsAlone(groups, FromCurrent(tracks, groups, a, hot).0, hot);
    GetBlockKeeps(tracks, groups, a, hot);
    OrderedFits(groups, GetBlock(tracks, groups, a, hot).0);
    FreeIsBegun(groups, FromCurrent(tracks, groups, a, hot).0, hot);
  }

  lemma FillingWaitsNowhere(groups: seq<Group>, a: Allocator, hot: bool)
    requires Ordered(groups, a) && Slot(a, hot).Some?
    ensures var i := Slot(a, hot).value;
            i < |a.vgs| && i !in a.free && i !in a.random && i !in a.constrained && a.vgs[i].inUse &&
            a.vgs[i].status != FreeGroup
  {
  }

  lemma FreeWaitsAlone(groups: seq<Group>, a: Allocator, hot: bool)
    requires Ordered(groups, a) && a.free != []
    ensures |a.vgs| == |groups| && a.free[0] !in a.random && a.free[0] !in a.constrained &&
            Slot(a, hot) != Some(a.free[0])
  {
    assert a.free[0] in a.free;
  }

  lemma FreeIsDistinct(groups: seq<Group>, a: Allocator)
    requires Ordered(groups, a)
    ensures Distinct(a.free)
  {
  }

  // ---- groups of one track ---------------------------------------------------------------------

  /** One cold file has begun the first k groups. */
  ghost predicate Begun(groups: seq<Group>, a: Allocator, k: nat, max: nat) {
    && Divided(groups, max, 1) && Ordered(groups, a) && !a.identical && k <= max == |groups| && a.free == UpTo(max)[k..]
    && (if k == 0 then a.coldVg == None else a.coldVg == Some(k - 1) && k - 1 < a.vgs[k - 1].current)
  }

  lemma NothingBegun(groups: seq<Group>, a: Allocator, max: nat)
    requires Divided(groups, max, 1) && Ordered(groups, a) && !a.identical && a.free == UpTo(|groups|) &&
             a.coldVg == None
    ensures Begun(groups, a, 0, max)
  {
    LastGroup(max, 1);
    assert GroupCount(max, 1) == max;
  }

  lemma BeginNext(tracks: seq<Track>, groups: seq<Group>, a: Allocator, k: nat, max: nat)
    requires Begun(groups, a, k, max) && k < max
    ensures var (b, r) := GetBlock(tracks, groups, a, false);
            r == Some(Block(k, if IsTop(k) then k + 1 else k, true)) && Begun(groups, b, k + 1, max)
  {
    hide Ordered, GetBlock, GroupAt, GroupCount;
    OrderedFits(groups, a);
    SingleTracks(groups, max, k);
    GroupStarts(k, max, 1);
    if k > 0 {
      SingleTracks(groups, max, k - 1);
    }
    assert a.free[0] == k && a.free[1..] == UpTo(max)[k + 1..];
    NextIsOffered(tracks, groups, a, false);
  }

  /** A new LBA of the cold file goes to the next group. */
  method WriteNext(d: Disk, k: nat, fid: nat, data: Data)
    requires d.Valid() && k + 1 < d.tracks.Length && !d.ltp[k].valid && !AttrOf(d.attrs, fid)
    requires Begun(d.groups[..], d.lists.View(), k, d.tracks.Length)
    modifies d, d.tracks, d.ltp, d.lists, d.lists.vgs
    ensures Begun(d.groups[..], d.lists.View(), k + 1, d.tracks.Length) && !AttrOf(d.attrs, fid)
    ensures var p := if IsTop(k) then k + 1 else k;
            && d.ltp[..] == old(d.ltp[..])[k := LtpEntry(p, fid, true)]
            && (d.Valid() <==> !IsLive(old(d.tracks[..])[p].status))
            && forall q :: 0 <= q < d.tracks.Length && q != p ==> d.tracks[q] == old(d.tracks[..])[q]
  {
    hide Ordered, Tidy, Forward, Backward, InUseTracks, GetBlock, Wide, Crowded, Victim, GroupAt, GroupCount, Store,
      Begun;
    BeginNext(d.tracks[..], d.groups[..], d.lists.View(), k, d.tracks.Length);
    var r, _, _ := d.LbaWrite(k, fid, data);
  }

  /** With one track to a group, a new disk and a single cold file: its second LBA is given the track behind the
      second group, and its third LBA is given the same track, as the offer of the third group. */
  method OneTrackGroupsShareATrack(size: nat, fid: nat, data: Data) returns (d: Disk)
    requires 4 <= size < 0x1_0000_0000_0000_0000 && size % 2 == 0
    ensures fresh(d) && d.tracks.Length == size && d.granularity == 1 && d.ltp.Length > 2
    ensures d.ltp[1] == d.ltp[2] == LtpEntry(2, fid, true) && !d.Valid()
  {
    hide Ordered, Tidy, Forward, Backward, InUseTracks, GroupAt, GroupCount, UpTo, Begun;
    d := new Disk(size, size, 1);
    d.IsDivided();
    NothingBegun(d.groups[..], d.lists.View(), size);
    WriteNext(d, 0, fid, data);
    WriteNext(d, 1, fid, data);
    WriteNext(d, 2, fid, data);
    TwoOwners(d.View(), 1, 2);
  }

  /** A track that no LBA leads to is not in use. */
  lemma NoOneLeadsTo(s: State, p: nat)
    requires Sound(s) && p < |s.tracks| && forall l: nat :: l < |s.ltp| && s.ltp[l].valid ==> s.ltp[l].pba != p
    ensures !IsLive(s.tracks[p].status)
  {
  }

  /** A new LBA is written to the track that vg_get_block finds for it, which is not in use. */
  method WriteTo(d: Disk, lba: nat, fid: nat, data: Data, ghost p: nat)
    requires d.Valid() && lba < d.tracks.Length && !d.ltp[lba].valid && p < d.tracks.Length &&
             !IsLive(d.tracks[p].status)
    requires var block := GetBlock(d.tracks[..], d.groups[..], d.lists.View(), AttrOf(d.attrs, fid)).1;
             block.Some? && block.value.pba == p
    modifies d, d.tracks, d.ltp, d.lists, d.lists.vgs
    ensures d.Valid() && d.ltp[..] == old(d.ltp[..])[lba := LtpEntry(p, fid, true)]
    ensures d.attrs == old(d.attrs)[fid := old(AttrOf(d.attrs, fid))]
    ensures d.lists.View() == old(GetBlock(d.tracks[..], d.groups[..], d.lists.View(), AttrOf(d.attrs, fid))).0
  {
    hide Ordered, Tidy, Forward, Backward, InUseTracks, GetBlock, Wide, Crowded, Victim, GroupAt, GroupCount, Store;
    var r, _, _ := d.LbaWrite(lba, fid, data);
  }

  /** When two LBAs lead to one track the maps are not inverse. */
  lemma TwoOwners(s: State, l: nat, m: nat)
    requires l < |s.ltp| && m < |s.ltp| && l != m && s.ltp[l].valid && s.ltp[m].valid && s.ltp[l].pba == s.ltp[m].pba
    ensures !Sound(s)
  {
  }

  // ---- groups of two tracks --------------------------------------------------------------------

  lemma TwoTracks(groups: seq<Group>, max: nat, i: nat)
    requires Divided(groups, max, 2) && i < |groups|
    ensures 2 * i + 1 < max && |groups| == max / 2
    ensures var g := groups[i]; g.lower == g.bottomStart == 2 * i && g.higher == g.topStart == 2 * i + 1
  {
    LastGroup(max, 2);
    assert GroupCount(max, 2) == max / 2;
    assert max == 2 * (max / 2);
  }

  /** On every sound disk: a group of two tracks that is not being filled and holds data on both goes to the free
      list when its bottom is deleted. Its offer to hot files is the top, and a new LBA there makes two LBAs lead
      to one track. */
  lemma HalfEmptyGroupOffersTakenTrack(s: State, groups: seq<Group>, a: Allocator, i: nat, lba: nat, fid: nat,
                                       data: Data)
    requires Sound(s) && Divided(groups, |s.tracks|, 2) && Ordered(groups, a) && i < |groups| && !a.vgs[i].inUse
    requires 2 * i + 1 < |s.tracks| && s.tracks[2 * i].status == InUse && s.tracks[2 * i + 1].status == InUse
    requires lba < |s.ltp| && !s.ltp[lba].valid
    ensures s.tracks[2 * i].lba < |s.ltp|
    ensures var u := Drop(s, 2 * i);
            && var b := Updated(u.tracks, groups, a, i);
            && Sound(u) && Waits(b.vgs[i], FreeGroup) && i in b.free && Offer(groups[i], true) == 2 * i + 1
            && var other, w := u.tracks[2 * i + 1].lba, Written(u, lba, fid, data, None, Some(2 * i + 1));
               && !Sound(w) && other < |w.ltp| && other != lba && w.ltp[other].valid && w.ltp[lba].valid
               && w.ltp[other].pba == w.ltp[lba].pba == 2 * i + 1
  {
    hide Listed, InUseTracks, GroupAt, GroupCount, Written;
    DropRemoves(s, s.tracks[2 * i].lba);
    var u := Drop(s, 2 * i);
    TwoTracks(groups, |s.tracks|, i);
    assert Unseen(u.tracks, groups[i]);
    FreeIsUnseen(u.tracks, groups[i]);
    PlacedOnTaken(u, lba, fid, data, 2 * i + 1);
  }
}
