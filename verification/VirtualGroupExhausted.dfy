/** Runs from a new disk in which vg_get_block gives up while half of the disk is free: the groups have been
    filled far enough for the program to take all files to be of one attribute, and from then on the free list
    is not asked. */
module VirtualGroupExhausted {
  import opened DiskTypes
  import opened VirtualGroupSpec
  import opened VirtualGroupAllocator
  import opened VirtualGroupLists
  import opened VirtualGroupDisk
  import opened VirtualGroupFailures

  /** Two cold files and between them a hot one. */
  const FIRST: nat := 1
  const SECOND: nat := 2
  const THIRD: nat := 3

  // ---- which LBA goes where ----------------------------------------------------------------------

  /** Two groups of 2 * h tracks. The first file takes the bottoms of one group and the second the tops of the
      other; then they take the rest of their groups. */
  function Home(h: nat, l: nat): (p: nat)
    requires l < 4 * h
    ensures p < 4 * h
  {
    if l < h then 2 * l
    else if l < 2 * h then 2 * l + 1
    else if l < 3 * h then 2 * l + 1 - 4 * h
    else 2 * l - 4 * h
  }

  /** The last LBA belongs to a third file. */
  function FileAt(h: nat, l: nat): nat {
    if l < h || 2 * h <= l < 3 * h then FIRST else if l < 4 * h - 1 then SECOND else THIRD
  }

  ghost predicate Laid(ltp: seq<LtpEntry>, h: nat, k: nat) {
    && |ltp| == 4 * h && k <= 4 * h
    && (forall l: nat :: k <= l < 4 * h ==> !ltp[l].valid)
    && (forall l: nat :: l < k ==> ltp[l] == LtpEntry(Home(h, l), FileAt(h, l), true))
  }

  lemma HomeIsFree(s: State, h: nat, k: nat)
    requires Sound(s) && |s.tracks| == 4 * h && Laid(s.ltp, h, k) && k < 4 * h
    ensures !IsLive(s.tracks[Home(h, k)].status) && |s.ltp| == 4 * h && !s.ltp[k].valid
  {
    hide Sound;
    NoOneLeadsTo(s, Home(h, k));
  }

  /** The LBA at home on a track. */
  function Resident(h: nat, p: nat): (l: nat)
    requires p < 4 * h
    ensures l < 4 * h && Home(h, l) == p
  {
    if IsTop(p) then (if p < 2 * h then p / 2 + 2 * h else p / 2) else if p < 2 * h then p / 2 else p / 2 + 2 * h
  }

  /** When all LBAs but the last are at home, the first group is full. */
  lemma FirstIsFull(s: State, h: nat)
    requires Sound(s) && h > 0 && |s.tracks| == 4 * h && Laid(s.ltp, h, 4 * h - 1)
    ensures AnyTrack(s.tracks, 0, 2 * h - 1) == None
  {
    hide Sound;
    forall p: nat | p < 2 * h
      ensures IsLive(s.tracks[p].status)
    {
      assert s.ltp[Resident(h, p)].pba == p;
      Owns(s, Resident(h, p));
    }
  }

  /** The delete of the first file empties the first group and leaves the second full. */
  lemma Emptied(ltp: seq<LtpEntry>, u: State, h: nat)
    requires Sound(u) && h > 0 && |u.tracks| == |u.ltp| == 4 * h && Laid(ltp, h, 4 * h)
    requires forall l :: 0 <= l < 4 * h ==> u.ltp[l] == ltp[l].(valid := ltp[l].valid && ltp[l].fid != FIRST)
    ensures forall p: nat :: p < 2 * h ==> IsFree(u.tracks[p].status)
    ensures AnyTrack(u.tracks, 2 * h, 4 * h - 1) == None
  {
    hide Sound;
    forall p: nat | p < 2 * h
      ensures IsFree(u.tracks[p].status)
    {
      NoOneLeadsTo(u, p);
      FreeOrLive(u, p);
    }
    forall p: nat | 2 * h <= p < 4 * h
      ensures IsLive(u.tracks[p].status)
    {
      assert u.ltp[Resident(h, p)] == LtpEntry(p, FileAt(h, Resident(h, p)), true);
      Owns(u, Resident(h, p));
    }
  }

  lemma FirstGroupOnly(ltp: seq<LtpEntry>, h: nat)
    requires h > 0 && Laid(ltp, h, 4 * h)
    ensures GroupsOf(ltp, FIRST, 2 * h) == {0}
  {
    forall l: nat | l < 4 * h && FileAt(h, l) == FIRST
      ensures TrackToVgIndex(Home(h, l), 2 * h) == 0
    {
      QuotientIs(Home(h, l), 0, 2 * h);
    }
    assert ltp[0] == LtpEntry(0, FIRST, true);
  }

  // ---- the groups after k LBAs -------------------------------------------------------------------

  ghost predicate TwoGroups(groups: seq<Group>, h: nat) {
    && |groups| == 2 && h >= 2
    && groups[0].lower == groups[0].bottomStart == 0 && groups[0].topStart == 1 && groups[0].higher == 2 * h - 1
    && groups[1].lower == groups[1].bottomStart == 2 * h && groups[1].topStart == 2 * h + 1
    && groups[1].higher == 4 * h - 1
  }

  lemma DividedInTwo(groups: seq<Group>, h: nat)
    requires h >= 2 && Divided(groups, 4 * h, 2 * h)
    ensures TwoGroups(groups, h)
  {
    assert GroupCount(4 * h, 2 * h) == 2;
  }

  /** The groups that are being filled, and the lists, after LBAs 0 up to k. */
  ghost predicate Stage(a: Allocator, h: nat, k: nat) {
    && |a.vgs| == 2 && a.random == [] && (a.identical <==> k > 2 * h) && k < 4 * h
    && a.constrained == []
    && (if k == 0 then a.free == [0, 1] && a.coldVg == None else a.coldVg == Some(0))
    && (if k <= h then a.hotVg == None else a.hotVg == Some(1))
    && (0 < k <= h ==> a.free == [1] && a.vgs[0] == Vg(RandomGroup, false, true, 2 * k))
    && (h < k ==> a.free == [])
    && (h < k <= 2 * h ==>
         a.vgs[0] == Vg(RandomGroup, false, true, 2 * h) &&
         a.vgs[1] == Vg(RandomGroup, true, true, 2 * k + 1))
    && (2 * h < k <= 3 * h ==>
          a.vgs[0] == Vg(ConstrainedGroup, false, true, 2 * k + 1 - 4 * h) &&
          a.vgs[1] == Vg(RandomGroup, true, true, 4 * h + 1))
    && (3 * h < k ==>
          a.vgs[0] == Vg(ConstrainedGroup, false, true, 2 * h + 1) &&
          a.vgs[1] == Vg(ConstrainedGroup, true, true, 2 * k - 4 * h))
  }

  /** The last LBA has been given the last track of the other file's group. */
  ghost predicate Last(a: Allocator, h: nat) {
    && |a.vgs| == 2 && a.random == [] && a.identical && a.free == [] && a.constrained == [0]
    && a.coldVg == None && a.hotVg == Some(1)
    && a.vgs[0] == Vg(ConstrainedGroup, false, false, 2 * h + 1) && a.vgs[1] == Vg(ConstrainedGroup, true, true, 4 * h)
  }

  lemma WithoutOnly(i: nat)
    ensures Without([], i) == [] && Without([i], i) == []
  {
    assert [i][..0] == [];
  }

  lemma WithoutFirstOfTwo()
    ensures Without([0, 1], 0) == [1]
  {
    assert [0, 1][..1] == [0] && [0][..0] == [];
  }

  /** The cold file begins the first group. */
  lemma ColdBegins(tracks: seq<Track>, groups: seq<Group>, a: Allocator, h: nat)
    requires TwoGroups(groups, h) && Ordered(groups, a) && Stage(a, h, 0)
    ensures var (b, r) := GetBlock(tracks, groups, a, false); r.Some? && r.value.pba == 0 && Stage(b, h, 1)
  {
    hide Ordered;
    FromCurrentKeeps(tracks, groups, a, false);
    WithoutOnly(0);
    WithoutFirstOfTwo();
  }

  /** The hot file begins the second one with its first top. */
  lemma HotBegins(tracks: seq<Track>, groups: seq<Group>, a: Allocator, h: nat)
    requires TwoGroups(groups, h) && Ordered(groups, a) && Stage(a, h, h)
    ensures var (b, r) := GetBlock(tracks, groups, a, true); r.Some? && r.value.pba == 2 * h + 1 && Stage(b, h, h + 1)
  {
    hide Ordered;
    FromCurrentKeeps(tracks, groups, a, true);
    WithoutOnly(1);
  }

  /** The group that is being filled goes on. */
  lemma GoesOn(tracks: seq<Track>, groups: seq<Group>, a: Allocator, h: nat, k: nat, hot: bool)
    requires TwoGroups(groups, h) && Ordered(groups, a) && Stage(a, h, k) && k !in {0, h, 2 * h, 3 * h} && k < 4 * h - 1
    requires |tracks| == 4 * h && !IsLive(tracks[Home(h, k)].status) && hot == (FileAt(h, k) == SECOND)
    ensures var (b, r) := GetBlock(tracks, groups, a, hot);
            r.Some? && r.value.pba == Home(h, k) && Stage(b, h, k + 1)
  {
    hide Ordered;
    FromCurrentKeeps(tracks, groups, a, hot);
  }

  /** The first group has nothing ahead for the cold file. It joins the constrained ones and is taken up again by
      its other half, and from now on all files are taken to be of one attribute. */
  lemma ColdTurnsBack(tracks: seq<Track>, groups: seq<Group>, a: Allocator, h: nat, k: nat)
    requires TwoGroups(groups, h) && Ordered(groups, a) && Stage(a, h, k) && k == 2 * h
    requires |tracks| == 4 * h && !IsLive(tracks[1].status)
    ensures var (b, r) := GetBlock(tracks, groups, a, false); r.Some? && r.value.pba == 1 && Stage(b, h, k + 1)
  {
    hide Ordered;
    FromCurrentKeeps(tracks, groups, a, false);
    WithoutOnly(0);
    var b := FromCurrent(tracks, groups, a, false).0;
    assert b.constrained == [0];
    assert Fit(tracks, groups[0], b.vgs[0], AnyAttr, false) == Some(1);
  }

  /** So does the second group for the hot file. */
  lemma HotTurnsBack(tracks: seq<Track>, groups: seq<Group>, a: Allocator, h: nat, k: nat)
    requires TwoGroups(groups, h) && Ordered(groups, a) && Stage(a, h, k) && k == 3 * h
    requires |tracks| == 4 * h && !IsLive(tracks[2 * h].status)
    ensures var (b, r) := GetBlock(tracks, groups, a, true); r.Some? && r.value.pba == 2 * h && Stage(b, h, k + 1)
  {
    hide Ordered;
    FromCurrentKeeps(tracks, groups, a, true);
    WithoutOnly(1);
    var b := FromCurrent(tracks, groups, a, true).0;
    assert b.constrained == [1];
    assert Fit(tracks, groups[1], b.vgs[1], AnyAttr, true) == Some(2 * h);
  }

  /** All LBAs but the last. */
  lemma Next(tracks: seq<Track>, groups: seq<Group>, a: Allocator, h: nat, k: nat)
    requires TwoGroups(groups, h) && Ordered(groups, a) && Stage(a, h, k) && k < 4 * h - 1
    requires |tracks| == 4 * h && !IsLive(tracks[Home(h, k)].status)
    ensures var (b, r) := GetBlock(tracks, groups, a, FileAt(h, k) == SECOND);
            r.Some? && r.value.pba == Home(h, k) && Stage(b, h, k + 1)
  {
    hide Ordered, GetBlock, Stage, TwoGroups;
    assert h >= 2 by {
      IsDivision(groups, h);
    }
    if k == 0 {
      ColdBegins(tracks, groups, a, h);
    } else if k == h {
      HotBegins(tracks, groups, a, h);
    } else if k == 2 * h {
      ColdTurnsBack(tracks, groups, a, h, k);
    } else if k == 3 * h {
      HotTurnsBack(tracks, groups, a, h, k);
    } else {
      GoesOn(tracks, groups, a, h, k, FileAt(h, k) == SECOND);
    }
  }

  lemma IsDivision(groups: seq<Group>, h: nat)
    requires TwoGroups(groups, h)
    ensures |groups| == 2 && h >= 2
  {
  }

  /** The first group is full, and the last cold LBA goes to the group that the hot file is filling. */
  lemma FallsBack(tracks: seq<Track>, groups: seq<Group>, a: Allocator, h: nat, k: nat)
    requires TwoGroups(groups, h) && Ordered(groups, a) && Stage(a, h, k) && k == 4 * h - 1
    requires |tracks| == 4 * h && !IsLive(tracks[Home(h, k)].status)
    requires AnyTrack(tracks, 0, 2 * h - 1) == None
    ensures var (b, r) := GetBlock(tracks, groups, a, false);
            r.Some? && r.value.pba == Home(h, k) && Last(b, h)
  {
    hide Ordered;
    FromCurrentKeeps(tracks, groups, a, false);
    WithoutOnly(0);
    var b := FromCurrent(tracks, groups, a, false).0;
    assert b.constrained == [0];
    assert Fit(tracks, groups[0], b.vgs[0], AnyAttr, false) == None;
  }

  // ---- the delete --------------------------------------------------------------------------------

  /** The first group is on the free list again, and the other one is full. */
  ghost predicate Freed(a: Allocator, h: nat) {
    && |a.vgs| == 2 && a.random == a.constrained == [] && a.identical && a.free == [0]
    && a.coldVg == None && a.hotVg == Some(1) && a.vgs[1] == Vg(ConstrainedGroup, true, true, 4 * h)
  }

  lemma GroupIsFreed(tracks: seq<Track>, groups: seq<Group>, a: Allocator, h: nat)
    requires TwoGroups(groups, h) && Last(a, h)
    requires |tracks| == 4 * h && forall p: nat :: p < 2 * h ==> IsFree(tracks[p].status)
    ensures Freed(UpdatedAll(tracks, groups, a, {0}, 2), h)
  {
    hide StatusOf;
    assert Unseen(tracks, groups[0]);
    FreeIsUnseen(tracks, groups[0]);
    WithoutOnly(0);
    var b := Updated(tracks, groups, a, 0);
    assert UpdatedAll(tracks, groups, a, {0}, 0) == a;
    assert UpdatedAll(tracks, groups, a, {0}, 1) == b;
  }

  /** Neither attribute finds a track, whatever the first group looks like. */
  lemma NothingIsFound(tracks: seq<Track>, groups: seq<Group>, a: Allocator, h: nat, hot: bool)
    requires TwoGroups(groups, h) && Ordered(groups, a) && Freed(a, h)
    requires AnyTrack(tracks, 2 * h, 4 * h - 1) == None
    ensures GetBlock(tracks, groups, a, hot).1 == None
  {
    hide Ordered;
    FromCurrentKeeps(tracks, groups, a, hot);
    WithoutOnly(1);
    var b := FromCurrent(tracks, groups, a, hot).0;
    if hot {
      assert b.constrained == [1];
      assert Fit(tracks, groups[1], b.vgs[1], AnyAttr, hot) == None;
    }
  }

  // ---- the run -----------------------------------------------------------------------------------

  ghost predicate Attributed(attrs: map<nat, bool>, h: nat, k: nat) {
    if k == 0 then attrs == map[] else if k <= h then attrs == map[FIRST := false]
      else attrs == map[FIRST := false, SECOND := true]
  }

  lemma AttributedNext(attrs: map<nat, bool>, h: nat, k: nat)
    requires Attributed(attrs, h, k) && k < 4 * h
    ensures AttrOf(attrs, FileAt(h, k)) == (FileAt(h, k) == SECOND)
    ensures k < 4 * h - 1 ==> Attributed(attrs[FileAt(h, k) := FileAt(h, k) == SECOND], h, k + 1)
  {
  }

  /** The disk after LBAs 0 up to k. */
  ghost predicate Reached(d: Disk, h: nat, k: nat)
    reads d, d.tracks, d.ltp, d.groups, d.lists, d.lists.vgs
  {
    && d.Valid() && d.tracks.Length == 4 * h && d.granularity == 2 * h && TwoGroups(d.groups[..], h)
    && Laid(d.ltp[..], h, k)
  }

  lemma LaidNext(before: seq<LtpEntry>, after: seq<LtpEntry>, h: nat, k: nat)
    requires Laid(before, h, k) && k < 4 * h && after == before[k := LtpEntry(Home(h, k), FileAt(h, k), true)]
    ensures Laid(after, h, k + 1)
  {
  }

  /** LBA k comes to its track. */
  method Lay(d: Disk, h: nat, k: nat, data: Data)
    requires Reached(d, h, k) && k < 4 * h - 1 && Attributed(d.attrs, h, k) && Stage(d.lists.View(), h, k)
    modifies d, d.tracks, d.ltp, d.lists, d.lists.vgs
    ensures Reached(d, h, k + 1) && Attributed(d.attrs, h, k + 1) && Stage(d.lists.View(), h, k + 1)
  {
    hide Ordered, Tidy, Sound, GetBlock, GroupAt, GroupCount, Stage, TwoGroups, Laid, Home, FileAt, Attributed;
    HomeIsFree(d.View(), h, k);
    AttributedNext(d.attrs, h, k);
    Next(d.tracks[..], d.groups[..], d.lists.View(), h, k);
    LaidNext(d.ltp[..], d.ltp[..][k := LtpEntry(Home(h, k), FileAt(h, k), true)], h, k);
    WriteTo(d, k, FileAt(h, k), data, Home(h, k));
  }

  /** The last LBA comes to its track. */
  method LayLast(d: Disk, h: nat, data: Data)
    requires h > 0 && Reached(d, h, 4 * h - 1) && Attributed(d.attrs, h, 4 * h - 1) &&
             Stage(d.lists.View(), h, 4 * h - 1)
    modifies d, d.tracks, d.ltp, d.lists, d.lists.vgs
    ensures Reached(d, h, 4 * h) && Last(d.lists.View(), h)
  {
    hide Ordered, Tidy, Sound, GetBlock, GroupAt, GroupCount, Stage, TwoGroups, Laid, Attributed, Last;
    IsDivision(d.groups[..], h);
    HomeIsFree(d.View(), h, 4 * h - 1);
    FirstIsFull(d.View(), h);
    AttributedNext(d.attrs, h, 4 * h - 1);
    FallsBack(d.tracks[..], d.groups[..], d.lists.View(), h, 4 * h - 1);
    LaidNext(d.ltp[..], d.ltp[..][4 * h - 1 := LtpEntry(4 * h - 2, THIRD, true)], h, 4 * h - 1);
    WriteTo(d, 4 * h - 1, THIRD, data, 4 * h - 2);
  }

  /** The first file is deleted. */
  method DeleteFirst(d: Disk, h: nat)
    requires h > 0 && Reached(d, h, 4 * h) && Last(d.lists.View(), h)
    modifies d, d.tracks, d.ltp, d.lists, d.lists.vgs
    ensures d.Valid() && TwoGroups(d.groups[..], h) && Freed(d.lists.View(), h)
    ensures forall p: nat :: p < 2 * h ==> IsFree(d.tracks[p].status)
    ensures AnyTrack(d.tracks[..], 2 * h, 4 * h - 1) == None
    ensures !d.ltp[0].valid
  {
    hide Ordered, Tidy, Sound, GroupAt, GroupCount, TwoGroups, Laid, Store, UpdatedAll, GroupsOf, Last, Freed;
    TableSize(d.ltp[..], h, 4 * h);
    IsDivision(d.groups[..], h);
    ghost var ltp, a := d.ltp[..], d.lists.View();
    FirstGroupOnly(ltp, h);
    var _ := d.LbaDelete(FIRST);
    FirstIsGone(ltp, d.ltp[..], h);
    Emptied(ltp, d.View(), h);
    GroupIsFreed(d.tracks[..], d.groups[..], a, h);
  }

  lemma TableSize(ltp: seq<LtpEntry>, h: nat, k: nat)
    requires Laid(ltp, h, k)
    ensures |ltp| == 4 * h
  {
  }

  lemma FirstIsGone(before: seq<LtpEntry>, after: seq<LtpEntry>, h: nat)
    requires h > 0 && Laid(before, h, 4 * h) && |after| == 4 * h
    requires forall l :: 0 <= l < 4 * h ==> after[l] == if before[l].valid && before[l].fid == FIRST
             then before[l].(valid := false) else before[l]
    ensures forall l :: 0 <= l < 4 * h ==> after[l] == before[l].(valid := before[l].valid && before[l].fid != FIRST)
    ensures !after[0].valid
  {
    assert before[0] == LtpEntry(0, FIRST, true);
  }

  /** On a new disk with two groups, which may have three tracks or more each, three files fill all tracks, and
      the first of them is deleted. All tracks of the first group are free then, no LBA is turned away for being
      on the disk already, and vg_get_block fails all the same for files of either attribute. */
  method FreeGroupIsNotAsked(h: nat, data: Data) returns (d: Disk)
    requires 2 <= h && 4 * h < 0x1_0000_0000_0000_0000
    ensures fresh(d) && d.Valid() && d.tracks.Length == 4 * h && d.granularity == 2 * h && Wide(4 * h, 2 * h)
    ensures forall p: nat :: p < 2 * h ==> IsFree(d.tracks[p].status)
    ensures d.ltp.Length == 4 * h && !d.ltp[0].valid
    ensures forall hot :: GetBlock(d.tracks[..], d.groups[..], d.lists.View(), hot).1 == None
  {
    hide Ordered, Tidy, Sound, GetBlock, Stage, TwoGroups, Laid, Attributed, Freed, Wide, Divided;
    d := Begin(h);
    WideInTwo(h);
    var k := 0;
    while k < 4 * h - 1
      invariant k <= 4 * h - 1 && Reached(d, h, k) && Attributed(d.attrs, h, k) && Stage(d.lists.View(), h, k)
      invariant fresh(d) && fresh(d.tracks) && fresh(d.ltp) && fresh(d.lists) && fresh(d.lists.vgs)
    {
      Lay(d, h, k, data);
      k := k + 1;
    }
    LayLast(d, h, data);
    TableSize(d.ltp[..], h, 4 * h);
    DeleteFirst(d, h);
    forall hot
      ensures GetBlock(d.tracks[..], d.groups[..], d.lists.View(), hot).1 == None
    {
      NothingIsFound(d.tracks[..], d.groups[..], d.lists.View(), h, hot);
    }
  }

  method Begin(h: nat) returns (d: Disk)
    requires 2 <= h && 4 * h < 0x1_0000_0000_0000_0000
    ensures Reached(d, h, 0) && Attributed(d.attrs, h, 0) && Stage(d.lists.View(), h, 0)
    ensures fresh(d) && fresh(d.tracks) && fresh(d.ltp) && fresh(d.lists) && fresh(d.lists.vgs)
  {
    hide Ordered, Tidy, Sound, GroupAt, GroupCount, Stage, TwoGroups, Laid, Attributed, Store, Divided;
    d := new Disk(4 * h, 4 * h, 2 * h);
    d.IsDivided();
    DividedInTwo(d.groups[..], h);
    IsDivision(d.groups[..], h);
    NothingLaid(d.ltp[..], d.attrs, d.groups[..], d.lists.View(), h);
  }

  lemma WideInTwo(h: nat)
    requires h >= 2
    ensures Wide(4 * h, 2 * h)
  {
    hide Wide, GroupAt, GroupCount;
    QuotientIs(4 * h, 2, 2 * h);
    assert 4 * h == (4 * h / (2 * h)) * (2 * h) + 4 * h % (2 * h);
    WideExactly(4 * h, 2 * h);
  }

  lemma NothingLaid(ltp: seq<LtpEntry>, attrs: map<nat, bool>, groups: seq<Group>, a: Allocator, h: nat)
    requires |ltp| == 4 * h && (forall l :: 0 <= l < 4 * h ==> !ltp[l].valid) && attrs == map[]
    requires TwoGroups(groups, h) && |a.vgs| == 2 && a.free == UpTo(2) && a.random == a.constrained == []
    requires a.hotVg == a.coldVg == None && !a.identical
    ensures Laid(ltp, h, 0) && Attributed(attrs, h, 0) && Stage(a, h, 0)
  {
    assert UpTo(2) == [0, 1];
  }
}
