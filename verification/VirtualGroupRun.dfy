/** A run from a new disk, with two tracks to a group, in which vg_get_block hands out a track in use: a cold
    and a hot file fill all groups, the cold file is deleted, and the hot file grows by one LBA. */
module VirtualGroupRun {
  import opened DiskTypes
  import opened VirtualGroupSpec
  import opened VirtualGroupAllocator
  import opened VirtualGroupLists
  import opened VirtualGroupDisk
  import opened VirtualGroupFailures

  const MAX: nat := 512
  const COLD: nat := 1
  const HOT: nat := 2

  // ---- one group after the other -----------------------------------------------------------------

  /** The group the cold file is filling when k LBAs have been written. */
  function ColdGroup(k: nat): nat
    requires k >= 2
  {
    if k == 2 then 0 else k - 1
  }

  /** The groups it has filled. */
  function Left(k: nat): (s: seq<nat>)
    requires k >= 2
    ensures |s| == k - 2 && (k > 2 ==> s[0] == 0) && (k > 3 ==> s[1] == 2)
  {
    if k == 2 then [] else Left(k - 1) + [ColdGroup(k - 1)]
  }

  /** LBA 1 is hot, the other LBAs below k are cold, and each has a group of its own. */
  ghost predicate Spread(groups: seq<Group>, a: Allocator, k: nat) {
    && 2 <= k <= 256 && Divided(groups, MAX, 2) && Ordered(groups, a) && |groups| == 256
    && !a.identical && a.free == UpTo(256)[k..] && a.random == [] && a.constrained == Left(k)
    && a.coldVg == Some(ColdGroup(k)) && a.hotVg == Some(1)
    && a.vgs[1] == Vg(RandomGroup, true, true, 5)
    && a.vgs[ColdGroup(k)] == Vg(RandomGroup, false, true, 2 * ColdGroup(k) + 2)
    && (forall i: nat :: i < k && i != 1 && i != ColdGroup(k) ==>
         a.vgs[i] == Vg(ConstrainedGroup, false, false, 2 * i + 1))
  }

  /** The LBAs below k lie on the bottoms of their groups, but LBA 1 on a top. */
  function Home(l: nat): nat {
    if l == 1 then 3 else 2 * l
  }

  function FileOf(l: nat): nat {
    if l == 1 then HOT else COLD
  }

  lemma TwoTrackGroups(groups: seq<Group>)
    requires Divided(groups, MAX, 2)
    ensures |groups| == 256
    ensures forall i: nat :: i < 256 ==> var g := groups[i];
            g.lower == g.bottomStart == 2 * i && g.higher == g.topStart == 2 * i + 1
  {
    hide GroupAt, GroupCount;
    LastGroup(MAX, 2);
    GroupsOfTwo();
    forall i: nat | i < 256
      ensures var g := groups[i]; g.lower == g.bottomStart == 2 * i && g.higher == g.topStart == 2 * i + 1
    {
      TwoTracks(groups, MAX, i);
    }
  }

  lemma GroupsOfTwo()
    ensures GroupCount(MAX, 2) == 256
  {
  }

  lemma SpreadIsSpent(tracks: seq<Track>, groups: seq<Group>, a: Allocator, k: nat, hot: bool)
    requires Spread(groups, a, k)
    ensures Fits(groups, a) && Spent(tracks, groups, a, hot) && (k < 256 ==> a.free != [] && a.free[0] == k) &&
            !a.identical
  {
    hide Ordered, GroupAt, GroupCount;
    OrderedFits(groups, a);
    TwoTrackGroups(groups);
  }

  lemma SpreadStep(groups: seq<Group>, a: Allocator, b: Allocator, k: nat)
    requires Spread(groups, a, k) && k < 256 && Ordered(groups, b) && Begins(groups, a, b, false)
    ensures Spread(groups, b, k + 1) && Offer(groups[k], false) == 2 * k
  {
    hide Ordered, GroupAt, GroupCount, Released;
    TwoTrackGroups(groups);
    ReleasedCold(groups, a, ColdGroup(k));
    assert a.free[0] == k && a.free[1..] == UpTo(256)[k + 1..];
  }

  /** The next cold LBA begins the next group. */
  lemma SpreadNext(tracks: seq<Track>, groups: seq<Group>, a: Allocator, k: nat)
    requires Spread(groups, a, k) && k < 256
    ensures var (b, r) := GetBlock(tracks, groups, a, false);
            r == Some(Block(k, 2 * k, true)) && Spread(groups, b, k + 1)
  {
    hide Ordered, GetBlock, Begins, Spent, Divided;
    SpreadIsSpent(tracks, groups, a, k, false);
    NextIsOffered(tracks, groups, a, false);
    SpreadStep(groups, a, GetBlock(tracks, groups, a, false).0, k);
  }

  lemma ReleasedCold(groups: seq<Group>, a: Allocator, i: nat)
    requires i < |a.vgs| == |groups| && a.vgs[i].status == RandomGroup && !a.vgs[i].hot
    ensures Released(groups, a, i).vgs[i] == Vg(ConstrainedGroup, false, false, groups[i].topStart)
  {
  }

  /** The first cold LBA and the first hot one. */
  lemma {:induction false} SpreadBegins(tracks: seq<Track>, next: seq<Track>, groups: seq<Group>, a: Allocator)
    requires Divided(groups, MAX, 2) && Ordered(groups, a) && !a.identical && a.free == UpTo(|groups|) &&
             a.random == a.constrained == []
    requires a.hotVg == a.coldVg == None
    ensures var (b, r) := GetBlock(tracks, groups, a, false);
            && r == Some(Block(0, 0, true)) && Ordered(groups, b)
            && var (c, q) := GetBlock(next, groups, b, true); q == Some(Block(1, 3, true)) && Spread(groups, c, 2)
  {
    hide Ordered, GetBlock, GroupAt, GroupCount, Released;
    TwoTrackGroups(groups);
    OrderedFits(groups, a);
    NextIsOffered(tracks, groups, a, false);
    var b := GetBlock(tracks, groups, a, false).0;
    assert b.free[0] == 1 && b.free[1..] == UpTo(256)[2..];
    NextIsOffered(next, groups, b, true);
  }

  // ---- the hot file goes on ----------------------------------------------------------------------

  /** b is a after the first constrained group, of the other attribute, has been taken. */
  ghost predicate Takes(groups: seq<Group>, a: Allocator, b: Allocator, hot: bool, t: nat) {
    && Fits(groups, a) && Fits(groups, b) && a.constrained != []
    && b.free == b.random == [] && b.identical == a.identical && Slot(b, !hot) == Slot(a, !hot)
    && Slot(b, hot) == Some(a.constrained[0])
    && b.constrained == a.constrained[1..] + (if Slot(a, hot).Some? then [Slot(a, hot).value] else [])
    && b.vgs[a.constrained[0]] == a.vgs[a.constrained[0]].(inUse := true, current := t + 2)
    && (forall i: nat :: i < |groups| && i != a.constrained[0] && Slot(a, hot) != Some(i) ==> b.vgs[i] == a.vgs[i])
    && (Slot(a, hot).Some? ==> var i := Slot(a, hot).value; b.vgs[i] == Released(groups, a, i).vgs[i])
  }

  lemma FirstOther(tracks: seq<Track>, groups: seq<Group>, a: Allocator, hot: bool, t: nat)
    requires Fits(groups, a) && !a.identical && a.free == a.random == [] && a.constrained != [] &&
             Distinct(a.constrained)
    requires Fit(tracks, groups[a.constrained[0]], a.vgs[a.constrained[0]], OtherAttr, hot) == Some(t)
    ensures var (b, r), i := FromLists(tracks, groups, a, hot), a.constrained[0];
            && r == Some(Block(i, t, false)) && b.free == b.random == [] && b.constrained == a.constrained[1..]
            && b.identical == a.identical
            && Slot(b, hot) == Some(i) && Slot(b, !hot) == Slot(a, !hot)
            && b.vgs == a.vgs[i := a.vgs[i].(inUse := true, current := t + 2)]
  {
    WithoutFirst(a.constrained);
  }

  lemma ConstrainedIsDistinct(groups: seq<Group>, a: Allocator, hot: bool)
    requires Ordered(groups, a) && a.constrained != []
    ensures Distinct(a.constrained) && Slot(a, hot) != Some(a.constrained[0])
  {
    assert a.constrained[0] in a.constrained;
  }

  lemma OtherIsTaken(tracks: seq<Track>, groups: seq<Group>, a: Allocator, hot: bool, t: nat)
    requires Ordered(groups, a) && Fits(groups, a) && Spent(tracks, groups, a, hot)
    requires !a.identical && a.free == a.random == [] && a.constrained != []
    requires Fit(tracks, groups[a.constrained[0]], a.vgs[a.constrained[0]], OtherAttr, hot) == Some(t)
    ensures var (b, r) := GetBlock(tracks, groups, a, hot);
            r == Some(Block(a.constrained[0], t, false)) && Ordered(groups, b) && Takes(groups, a, b, hot, t)
  {
    hide Ordered, FromCurrent, FromLists, Spent, Released, Fit, Takes;
    FromCurrentKeeps(tracks, groups, a, hot);
    SpentReleases(tracks, groups, a, hot);
    ConstrainedIsDistinct(groups, a, hot);
    var c := FromCurrent(tracks, groups, a, hot).0;
    ConstrainedIsDistinct(groups, c, hot);
    FirstOther(tracks, groups, c, hot, t);
    GetBlockKeeps(tracks, groups, a, hot);
    OrderedFits(groups, GetBlock(tracks, groups, a, hot).0);
    TakesAfterRelease(groups, a, c, GetBlock(tracks, groups, a, hot).0, hot, t);
  }

  lemma TakesAfterRelease(groups: seq<Group>, a: Allocator, c: Allocator, b: Allocator, hot: bool, t: nat)
    requires Fits(groups, a) && Fits(groups, b) && Fits(groups, c) && a.constrained != [] &&
             Slot(a, hot) != Some(a.constrained[0])
    requires c.constrained == (if Slot(a, hot).Some? then a.constrained + [Slot(a, hot).value] else a.constrained)
    requires c.identical == a.identical && Slot(c, !hot) == Slot(a, !hot)
    requires forall i: nat :: i < |a.vgs| && Slot(a, hot) != Some(i) ==> c.vgs[i] == a.vgs[i]
    requires Slot(a, hot).Some? ==> var i := Slot(a, hot).value; c.vgs[i] == Released(groups, a, i).vgs[i]
    requires var i := c.constrained[0];
             && b.free == b.random == [] && b.constrained == c.constrained[1..] && b.identical == c.identical
             && Slot(b, hot) == Some(i) && Slot(b, !hot) == Slot(c, !hot)
             && b.vgs == c.vgs[i := c.vgs[i].(inUse := true, current := t + 2)]
    ensures Takes(groups, a, b, hot, t)
  {
    hide Released;
  }

  /** The hot file has gone on in the first group. */
  ghost predicate Joined(groups: seq<Group>, a: Allocator) {
    && Divided(groups, MAX, 2) && Ordered(groups, a) && |groups| == 256 && !a.identical && a.free == a.random == []
    && |a.constrained| > 1 && a.constrained[0] == 2
    && a.hotVg == Some(0) && a.vgs[0] == Vg(ConstrainedGroup, false, true, 3)
    && a.vgs[2] == Vg(ConstrainedGroup, false, false, 5)
  }

  lemma HotJoins(tracks: seq<Track>, groups: seq<Group>, a: Allocator)
    requires Spread(groups, a, 256) && |tracks| == MAX && !IsLive(tracks[1].status)
    ensures var (b, r) := GetBlock(tracks, groups, a, true); r == Some(Block(0, 1, false)) && Joined(groups, b)
  {
    hide Ordered, GetBlock, GroupAt, GroupCount, Spent, Released;
    SpreadIsSpent(tracks, groups, a, 256, true);
    TwoTrackGroups(groups);
    OtherIsTaken(tracks, groups, a, true, 1);
  }

  /** It has left that group, which nobody fills any more, for the next. */
  ghost predicate Moved(groups: seq<Group>, a: Allocator) {
    && Divided(groups, MAX, 2) && Ordered(groups, a) && |groups| == 256 && !a.identical && a.free == []
    && a.hotVg == Some(2) && a.vgs[2] == Vg(ConstrainedGroup, false, true, 7) && !a.vgs[0].inUse
  }

  lemma HotMoves(tracks: seq<Track>, groups: seq<Group>, a: Allocator)
    requires Joined(groups, a) && |tracks| == MAX && !IsLive(tracks[5].status)
    ensures var (b, r) := GetBlock(tracks, groups, a, true); r == Some(Block(2, 5, false)) && Moved(groups, b)
  {
    hide Ordered, GetBlock, GroupAt, GroupCount;
    OrderedFits(groups, a);
    TwoTrackGroups(groups);
    OtherIsTaken(tracks, groups, a, true, 5);
  }

  // ---- the delete --------------------------------------------------------------------------------

  /** The first group is the first of the free list. */
  ghost predicate Offered(groups: seq<Group>, a: Allocator) {
    && Divided(groups, MAX, 2) && Ordered(groups, a) && |groups| == 256 && !a.identical
    && a.hotVg == Some(2) && a.vgs[2] == Vg(ConstrainedGroup, false, true, 7)
    && a.free != [] && a.free[0] == 0
  }

  lemma FirstIsFreed(tracks: seq<Track>, groups: seq<Group>, a: Allocator)
    requires Moved(groups, a) && |tracks| == MAX && !IsLive(tracks[0].status) && Tidy(tracks, groups, a)
    ensures Offered(groups, Updated(tracks, groups, a, 0))
  {
    hide GroupAt, GroupCount, HasData, Ordered;
    TwoTrackGroups(groups);
    FreeIsUnseen(tracks, groups[0]);
    UpdatedKeeps(tracks, groups, a, 0);
  }

  lemma {:induction false} WithoutKeepsFirst(list: seq<nat>, i: nat)
    requires list != [] && list[0] != i
    ensures Without(list, i) != [] && Without(list, i)[0] == list[0]
  {
    if |list| > 1 {
      WithoutKeepsFirst(list[..|list| - 1], i);
    } else {
      assert list[..0] == [];
    }
  }

  lemma OfferedStays(tracks: seq<Track>, groups: seq<Group>, a: Allocator, i: nat)
    requires Offered(groups, a) && Tidy(tracks, groups, a) && 0 < i < 256
    ensures Offered(groups, Updated(tracks, groups, a, i))
  {
    hide GroupAt, GroupCount, HasData, StatusOf, Ordered;
    UpdatedKeeps(tracks, groups, a, i);
    WithoutKeepsFirst(a.free, i);
  }

  lemma {:induction false} StillOffered(tracks: seq<Track>, groups: seq<Group>, a: Allocator, marked: set<nat>, n: nat)
    requires Moved(groups, a) && |tracks| == MAX && !IsLive(tracks[0].status) && Tidy(tracks, groups, a) &&
             0 in marked && 0 < n <= 256
    ensures Offered(groups, UpdatedAll(tracks, groups, a, marked, n))
  {
    hide Updated, Moved, Offered, Ordered, Tidy;
    AllSizes(tracks, groups, a);
    if n == 1 {
      FirstIsFreed(tracks, groups, a);
      assert UpdatedAll(tracks, groups, a, marked, 0) == a;
    } else {
      StillOffered(tracks, groups, a, marked, n - 1);
      UpdatedAllKeeps(tracks, groups, a, marked, n - 1);
      if n - 1 in marked {
        OfferedStays(tracks, groups, UpdatedAll(tracks, groups, a, marked, n - 1), n - 1);
      }
    }
  }

  lemma AllSizes(tracks: seq<Track>, groups: seq<Group>, a: Allocator)
    requires Moved(groups, a)
    ensures |a.vgs| == |groups| == 256 && Ordered(groups, a)
  {
  }

  /** The next group of the hot file is the first, and the track its top. */
  lemma FirstIsOffered(tracks: seq<Track>, groups: seq<Group>, a: Allocator)
    requires Offered(groups, a)
    ensures GetBlock(tracks, groups, a, true).1 == Some(Block(0, 1, true))
  {
    hide Ordered, GetBlock, GroupAt, GroupCount;
    OrderedFits(groups, a);
    TwoTrackGroups(groups);
    NextIsOffered(tracks, groups, a, true);
  }

  // ---- the run -----------------------------------------------------------------------------------

  /** LBAs 0 up to k are on the disk, LBA l for l < 256 at home, and the last ones on tracks 1 and 5. */
  function HomeOf(l: nat): nat {
    if l < 256 then Home(l) else if l == 256 then 1 else 5
  }

  function FidOf(l: nat): nat {
    if l < 256 then FileOf(l) else HOT
  }

  ghost predicate Laid(ltp: seq<LtpEntry>, k: nat) {
    && |ltp| == MAX && k <= 258
    && (forall l: nat :: k <= l < MAX ==> !ltp[l].valid)
    && (forall l: nat :: l < k ==> ltp[l] == LtpEntry(HomeOf(l), FidOf(l), true))
  }

  lemma HomesDiffer(k: nat)
    requires k < 258
    ensures HomeOf(k) < MAX && forall l: nat :: l < k ==> HomeOf(l) != HomeOf(k)
  {
  }

  lemma HomeIsFree(s: State, k: nat)
    requires Sound(s) && |s.tracks| == MAX && Laid(s.ltp, k) && k < 258
    ensures HomeOf(k) < MAX && !IsLive(s.tracks[HomeOf(k)].status)
  {
    HomesDiffer(k);
    NoOneLeadsTo(s, HomeOf(k));
  }

  ghost predicate Attributed(attrs: map<nat, bool>, k: nat) {
    if k == 0 then attrs == map[] else if k == 1 then attrs == map[COLD := false]
      else attrs == map[COLD := false, HOT := true]
  }

  /** LBA k comes to its track. */
  method Lay(d: Disk, k: nat, data: Data, ghost block: Block)
    requires d.Valid() && d.tracks.Length == MAX && k < 258 && Laid(d.ltp[..], k) && Attributed(d.attrs, k)
    requires GetBlock(d.tracks[..], d.groups[..], d.lists.View(), FidOf(k) == HOT).1 == Some(block) &&
             block.pba == HomeOf(k)
    modifies d, d.tracks, d.ltp, d.lists, d.lists.vgs
    ensures d.Valid() && Laid(d.ltp[..], k + 1) && Attributed(d.attrs, k + 1)
    ensures d.lists.View() == old(GetBlock(d.tracks[..], d.groups[..], d.lists.View(), FidOf(k) == HOT)).0
  {
    hide Ordered, Tidy, Sound, GetBlock, GroupAt, GroupCount, HomeOf;
    HomeIsFree(d.View(), k);
    assert AttrOf(d.attrs, FidOf(k)) == (FidOf(k) == HOT);
    WriteTo(d, k, FidOf(k), data, HomeOf(k));
  }

  /** On a new disk of 512 tracks with two tracks to a group, the cold file takes 255 LBAs and the hot file three;
      the cold file is deleted, and the hot file grows by one LBA. That LBA is given the track of another one. */
  method TwoTrackGroupsShareATrack(data: Data) returns (d: Disk)
    ensures fresh(d) && d.tracks.Length == d.ltp.Length == MAX && d.granularity == 2
    ensures d.ltp[256] == d.ltp[258] == LtpEntry(1, HOT, true) && !d.Valid()
  {
    hide Ordered, Tidy, Forward, Backward, InUseTracks, GetBlock, Wide, GroupAt, GroupCount, UpTo, Spread, Joined,
      Moved, Offered, UpdatedAll, Store, Laid, Divided;
    d := new Disk(MAX, MAX, 2);
    d.IsDivided();
    NothingLaid(d.ltp[..]);
    ghost var tracks, a := d.tracks[..], d.lists.View();
    SpreadBegins(tracks, tracks, d.groups[..], a);
    Lay(d, 0, data, Block(0, 0, true));
    SpreadBegins(tracks, d.tracks[..], d.groups[..], a);
    Lay(d, 1, data, Block(1, 3, true));
    var k := 2;
    while k < 256
      invariant 2 <= k <= 256 && d.Valid() && d.tracks.Length == MAX && Laid(d.ltp[..], k) && Attributed(d.attrs, k)
      invariant Spread(d.groups[..], d.lists.View(), k)
      invariant d.granularity == 2
      invariant fresh(d) && fresh(d.tracks) && fresh(d.ltp) && fresh(d.lists) && fresh(d.lists.vgs)
    {
      SpreadNext(d.tracks[..], d.groups[..], d.lists.View(), k);
      Lay(d, k, data, Block(k, 2 * k, true));
      k := k + 1;
    }
    Grow(d, data);
  }

  /** The rest of the run: the hot file goes on in two filled groups, the cold file is deleted, and the hot file
      takes the top of the group that this has freed. */
  method Grow(d: Disk, data: Data)
    requires d.Valid() && d.tracks.Length == MAX && d.granularity == 2 && Laid(d.ltp[..], 256) &&
             Attributed(d.attrs, 256)
    requires Spread(d.groups[..], d.lists.View(), 256)
    modifies d, d.tracks, d.ltp, d.lists, d.lists.vgs
    ensures d.ltp.Length == MAX && d.ltp[256] == d.ltp[258] == LtpEntry(1, HOT, true) && !d.Valid()
  {
    hide Ordered, Tidy, Forward, Backward, InUseTracks, GetBlock, Wide, GroupAt, GroupCount, Spread, Joined, Moved,
      Offered, UpdatedAll, Store, Laid, Divided;
    HomeIsFree(d.View(), 256);
    HotJoins(d.tracks[..], d.groups[..], d.lists.View());
    Lay(d, 256, data, Block(0, 1, false));
    HomeIsFree(d.View(), 257);
    HotMoves(d.tracks[..], d.groups[..], d.lists.View());
    Lay(d, 257, data, Block(2, 5, false));
    Share(d, data);
  }

  method Share(d: Disk, data: Data)
    requires d.Valid() && d.tracks.Length == MAX && d.granularity == 2 && Laid(d.ltp[..], 258) &&
             Attributed(d.attrs, 258)
    requires Moved(d.groups[..], d.lists.View())
    modifies d, d.tracks, d.ltp, d.lists, d.lists.vgs
    ensures d.ltp.Length == MAX && d.ltp[256] == d.ltp[258] == LtpEntry(1, HOT, true) && !d.Valid()
  {
    hide Ordered, Tidy, Forward, Backward, InUseTracks, GetBlock, Wide, GroupAt, GroupCount, Moved, Offered,
      UpdatedAll, Store, Divided, Crowded, Victim, GroupsOf;
    ghost var s, a := d.View(), d.lists.View();
    AllSizes(s.tracks, d.groups[..], a);
    FirstIsCold(s.ltp);
    var _ := d.LbaDelete(COLD);
    Cleaned(s, d.View(), d.groups[..], a);
    StillOffered(d.tracks[..], d.groups[..], a, GroupsOf(s.ltp, COLD, 2), 256);
    FirstIsOffered(d.tracks[..], d.groups[..], d.lists.View());
    var r, _, _ := d.LbaWrite(258, HOT, data);
    TwoOwners(d.View(), 256, 258);
  }

  lemma FirstIsCold(ltp: seq<LtpEntry>)
    requires Laid(ltp, 258)
    ensures 0 in GroupsOf(ltp, COLD, 2)
  {
    assert ltp[0] == LtpEntry(0, COLD, true);
    assert TrackToVgIndex(ltp[0].pba, 2) == 0;
  }

  /** The delete of the cold file leaves the first bottom and no group worse off. */
  lemma Cleaned(s: State, u: State, groups: seq<Group>, a: Allocator)
    requires Sound(s) && Sound(u) && Laid(s.ltp, 258) && |s.tracks| == |u.tracks| == MAX && Tidy(s.tracks, groups, a)
    requires |u.ltp| == MAX &&
             forall l :: 0 <= l < MAX ==> u.ltp[l] == if s.ltp[l].valid && s.ltp[l].fid == COLD
               then s.ltp[l].(valid := false) else s.ltp[l]
    ensures !IsLive(u.tracks[0].status) && Tidy(u.tracks, groups, a)
  {
    hide InUseTracks;
    forall p | 0 <= p < MAX && IsLive(u.tracks[p].status)
      ensures IsLive(s.tracks[p].status)
    {
      assert u.ltp[u.tracks[p].lba] == s.ltp[u.tracks[p].lba];
    }
    FewerKeepsTidy(s.tracks, u.tracks, groups, a);
    NoOneLeadsTo(u, 0);
  }

  lemma NothingLaid(ltp: seq<LtpEntry>)
    requires |ltp| == MAX && forall l :: 0 <= l < MAX ==> !ltp[l].valid
    ensures Laid(ltp, 0)
  {
  }
}
