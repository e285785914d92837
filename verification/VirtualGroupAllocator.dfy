/** How virtual groups hand out tracks (src/virtual_groups.c) as functions on values: the groups that are
    being filled, the lists of the others, and vg_get_block. The class GroupLists is proved against them. */
module VirtualGroupAllocator {
  import opened DiskTypes
  import opened VirtualGroupSpec

  datatype GroupStatus = FreeGroup | RandomGroup | ConstrainedGroup

  /** The changing part of virtual_group_t. `hot` is f_attr. */
  datatype Vg = Vg(status: GroupStatus, hot: bool, inUse: bool, current: nat)

  /** vg_arr, the three lists, current_hot_vg, current_cold_vg and identical_attr_files. */
  datatype Allocator = Allocator(vgs: seq<Vg>, free: seq<nat>, random: seq<nat>, constrained: seq<nat>,
                                 hotVg: Option<nat>, coldVg: Option<nat>, identical: bool)

  /** A track for a new LBA and the group it was taken from; `offered` tells a group from the free list. */
  datatype Block = Block(vg: nat, pba: nat, offered: bool)

  // ---- lists ---------------------------------------------------------------------------------

  function Without(list: seq<nat>, i: nat): (r: seq<nat>)
    ensures forall x :: x in r <==> x in list && x != i
  {
    if list == [] then []
    else if list[|list| - 1] == i then Without(list[..|list| - 1], i)
    else Without(list[..|list| - 1], i) + [list[|list| - 1]]
  }

  ghost predicate Distinct(list: seq<nat>) {
    forall j, k :: 0 <= j < k < |list| ==> list[j] != list[k]
  }

  /** The list after list_del, and after list_add_tail when the group belongs there. */
  function Listing(list: seq<nat>, i: nat, on: bool): seq<nat> {
    if on then Without(list, i) + [i] else Without(list, i)
  }

  predicate Waits(vg: Vg, status: GroupStatus) {
    !vg.inUse && vg.status == status
  }

  /** A group changes, and moves to the list that it now belongs to. */
  function Place(a: Allocator, i: nat, vg: Vg): Allocator
    requires i < |a.vgs|
  {
    a.(vgs := a.vgs[i := vg],
       free := Listing(a.free, i, Waits(vg, FreeGroup)),
       random := Listing(a.random, i, Waits(vg, RandomGroup)),
       constrained := Listing(a.constrained, i, Waits(vg, ConstrainedGroup)))
  }

  function Slot(a: Allocator, hot: bool): Option<nat> {
    if hot then a.hotVg else a.coldVg
  }

  function WithSlot(a: Allocator, hot: bool, slot: Option<nat>): Allocator {
    if hot then a.(hotVg := slot) else a.(coldVg := slot)
  }

  // ---- scans ---------------------------------------------------------------------------------

  /** The first track that is not in use among from, from + 2, .. */
  function Ahead(tracks: seq<Track>, from: nat, higher: nat): (r: Option<nat>)
    ensures r.Some? ==> from <= r.value <= higher && r.value < |tracks| && !IsLive(tracks[r.value].status)
    ensures r.Some? ==>
              r.value % 2 == from % 2 &&
              forall k :: from <= k < r.value && k % 2 == from % 2 ==> IsLive(tracks[k].status)
    ensures r.None? ==> forall k :: from <= k <= higher && k < |tracks| && k % 2 == from % 2 ==>
              IsLive(tracks[k].status)
    decreases |tracks| - from
  {
    if from > higher || from >= |tracks| then None
    else if !IsLive(tracks[from].status) then Some(from)
    else Ahead(tracks, from + 2, higher)
  }

  /** The first among from, from + 1, .. */
  function AnyTrack(tracks: seq<Track>, from: nat, higher: nat): (r: Option<nat>)
    ensures r.Some? ==> from <= r.value <= higher && r.value < |tracks| && !IsLive(tracks[r.value].status)
    ensures r.Some? ==> forall k :: from <= k < r.value ==> IsLive(tracks[k].status)
    ensures r.None? ==> forall k :: from <= k <= higher && k < |tracks| ==> IsLive(tracks[k].status)
    decreases |tracks| - from
  {
    if from > higher || from >= |tracks| then None
    else if !IsLive(tracks[from].status) then Some(from)
    else AnyTrack(tracks, from + 1, higher)
  }

  /** Which groups of a list a scan accepts: those of the same attribute, those of the other, or all. The last
      also looks at the tracks behind the group's cursor. */
  datatype Mode = SameAttr | OtherAttr | AnyAttr

  function Fit(tracks: seq<Track>, group: Group, vg: Vg, mode: Mode, hot: bool): Option<nat> {
    match mode
    case SameAttr => if vg.hot == hot then Ahead(tracks, vg.current, group.higher) else None
    case OtherAttr => if vg.hot != hot then Ahead(tracks, vg.current, group.higher) else None
    case AnyAttr =>
      match Ahead(tracks, vg.current, group.higher)
      case Some(t) => Some(t)
      case None => AnyTrack(tracks, group.lower, group.higher)
  }

  predicate Indexes(list: seq<nat>, n: nat) {
    forall k :: 0 <= k < |list| ==> list[k] < n
  }

  /** The first group of the list with a track, and that track. */
  function FirstFit(tracks: seq<Track>, groups: seq<Group>, vgs: seq<Vg>, list: seq<nat>, mode: Mode,
                    hot: bool): (r: Option<(nat, nat)>)
    requires |vgs| == |groups| && Indexes(list, |groups|)
    ensures r.Some? ==>
              r.value.0 in list && r.value.0 < |groups| &&
              Fit(tracks, groups[r.value.0], vgs[r.value.0], mode, hot) == Some(r.value.1)
    ensures r.None? ==> forall k :: 0 <= k < |list| ==> Fit(tracks, groups[list[k]], vgs[list[k]], mode, hot) == None
  {
    if list == [] then None
    else
      match Fit(tracks, groups[list[0]], vgs[list[0]], mode, hot)
      case Some(t) => Some((list[0], t))
      case None => FirstFit(tracks, groups, vgs, list[1..], mode, hot)
  }

  // ---- vg_get_block --------------------------------------------------------------------------

  predicate Fits(groups: seq<Group>, a: Allocator) {
    && |a.vgs| == |groups|
    && Indexes(a.free, |groups|) && Indexes(a.random, |groups|) && Indexes(a.constrained, |groups|)
    && (a.hotVg.Some? ==> a.hotVg.value < |groups|) && (a.coldVg.Some? ==> a.coldVg.value < |groups|)
  }

  /** The track that a group from the free list is begun with. No test precedes it. */
  function Offer(group: Group, hot: bool): nat {
    if hot then group.topStart else group.bottomStart
  }

  /** set_vg: a group that has been filled becomes constrained, with the other half of its tracks ahead. */
  function Released(groups: seq<Group>, a: Allocator, i: nat): Allocator
    requires i < |a.vgs| == |groups|
  {
    var vg := a.vgs[i];
    match vg.status
    case FreeGroup => Place(a, i, vg.(status := RandomGroup, inUse := false))
    case RandomGroup => Place(a, i,
      Vg(ConstrainedGroup, vg.hot, false, if vg.hot then groups[i].bottomStart else groups[i].topStart))
    case ConstrainedGroup => Place(a, i, vg.(inUse := false))
  }

  /** get_vg, with the cursor behind the track. */
  function Taken(a: Allocator, i: nat, hot: bool, t: nat): Allocator
    requires i < |a.vgs|
  {
    WithSlot(Place(a, i, a.vgs[i].(inUse := true, current := t + 2)), hot, Some(i))
  }

  /** vg_get_from_current_vg. */
  function FromCurrent(tracks: seq<Track>, groups: seq<Group>, a: Allocator, hot: bool): (Allocator, Option<Block>)
    requires Fits(groups, a)
  {
    match Slot(a, hot)
    case None => (a, None)
    case Some(i) =>
      match Ahead(tracks, a.vgs[i].current, groups[i].higher)
      case Some(t) => (a.(vgs := a.vgs[i := a.vgs[i].(current := t + 2)]), Some(Block(i, t, false)))
      case None => (WithSlot(Released(groups, a, i), hot, None), None)
  }

  /** vg_get_from_free_list. */
  function FromFree(groups: seq<Group>, a: Allocator, hot: bool): (Allocator, Option<Block>)
    requires Fits(groups, a) && a.free != []
  {
    var i := a.free[0];
    var t := Offer(groups[i], hot);
    (WithSlot(Place(a, i, Vg(RandomGroup, hot, true, t + 2)), hot, Some(i)), Some(Block(i, t, true)))
  }

  /** vg_get_from_all_list: from now on all files are taken to have one attribute. */
  function FromAll(tracks: seq<Track>, groups: seq<Group>, a: Allocator, hot: bool): (Allocator, Option<Block>)
    requires Fits(groups, a)
  {
    var b := a.(identical := true);
    var random := FirstFit(tracks, groups, a.vgs, a.random, AnyAttr, hot);
    var r := if random.Some? then random else FirstFit(tracks, groups, a.vgs, a.constrained, AnyAttr, hot);
    if r.Some? then (Taken(b, r.value.0, hot, r.value.1), Some(Block(r.value.0, r.value.1, false))) else (b, None)
  }

  /** vg_get_from_another_current. When it fails, the program ends. */
  function FromOther(tracks: seq<Track>, groups: seq<Group>, a: Allocator, hot: bool): (Allocator, Option<Block>)
    requires Fits(groups, a)
  {
    match Slot(a, !hot)
    case None => (a, None)
    case Some(i) =>
      match Ahead(tracks, a.vgs[i].current, groups[i].higher)
      case Some(t) => (a.(vgs := a.vgs[i := a.vgs[i].(current := t + 2)]), Some(Block(i, t, false)))
      case None => (a, None)
  }

  /** What follows when the group that is being filled has no track left. */
  function FromLists(tracks: seq<Track>, groups: seq<Group>, a: Allocator, hot: bool): (Allocator, Option<Block>)
    requires Fits(groups, a)
  {
    var same: Option<(nat, nat)> := if a.identical then None
      else FirstFit(tracks, groups, a.vgs, a.random, SameAttr, hot);
    var other: Option<(nat, nat)> := if a.identical then None
      else FirstFit(tracks, groups, a.vgs, a.constrained, OtherAttr, hot);
    if !a.identical && a.free != [] then FromFree(groups, a, hot)
    else if same.Some? then (Taken(a, same.value.0, hot, same.value.1), Some(Block(same.value.0, same.value.1, false)))
    else if other.Some? then (Taken(a, other.value.0, hot, other.value.1),
      Some(Block(other.value.0, other.value.1, false)))
    else
      var (b, r) := FromAll(tracks, groups, a, hot);
      if r.Some? then (b, r) else FromOther(tracks, groups, b, hot)
  }

  function GetBlock(tracks: seq<Track>, groups: seq<Group>, a: Allocator, hot: bool): (Allocator, Option<Block>)
    requires Ordered(groups, a)
  {
    FromCurrentKeeps(tracks, groups, a, hot);
    var (b, r) := FromCurrent(tracks, groups, a, hot);
    if r.Some? then (b, r) else FromLists(tracks, groups, b, hot)
  }

  // ---- the lists agree with the groups -------------------------------------------------------

  ghost predicate OnList(a: Allocator, list: seq<nat>, status: GroupStatus) {
    Distinct(list) && forall i: nat :: i in list <==> i < |a.vgs| && Waits(a.vgs[i], status)
  }

  ghost predicate Listed(a: Allocator) {
    OnList(a, a.free, FreeGroup) && OnList(a, a.random, RandomGroup) && OnList(a, a.constrained, ConstrainedGroup)
  }

  ghost predicate Filling(a: Allocator, i: nat) {
    a.hotVg == Some(i) || a.coldVg == Some(i)
  }

  /** A group waits on the list of its status, or it is one of the two that are being filled. */
  ghost predicate Ordered(groups: seq<Group>, a: Allocator) {
    && |a.vgs| == |groups| && Listed(a)
    && (a.hotVg.Some? ==> a.hotVg != a.coldVg && a.hotVg.value < |groups|) &&
       (a.coldVg.Some? ==> a.coldVg.value < |groups|)
    && (forall i: nat :: i < |groups| ==> (a.vgs[i].inUse <==> Filling(a, i)))
    && (forall i: nat :: i < |groups| && a.vgs[i].inUse ==> a.vgs[i].status != FreeGroup)
    && (forall i: nat :: i < |groups| ==> groups[i].lower <= a.vgs[i].current)
    && (forall i: nat :: i < |groups| ==>
         groups[i].lower <= groups[i].topStart && groups[i].lower <= groups[i].bottomStart)
  }

  lemma OrderedFits(groups: seq<Group>, a: Allocator)
    requires Ordered(groups, a)
    ensures Fits(groups, a)
  {
    assert forall k :: 0 <= k < |a.free| ==> a.free[k] in a.free;
    assert forall k :: 0 <= k < |a.random| ==> a.random[k] in a.random;
    assert forall k :: 0 <= k < |a.constrained| ==> a.constrained[k] in a.constrained;
  }

  lemma {:induction false} WithoutKeepsDistinct(list: seq<nat>, i: nat)
    requires Distinct(list)
    ensures Distinct(Without(list, i))
  {
    if list != [] {
      var init, last := list[..|list| - 1], list[|list| - 1];
      assert list == init + [last];
      WithoutKeepsDistinct(init, i);
      assert last !in init;
    }
  }

  lemma ListingKeeps(a: Allocator, list: seq<nat>, status: GroupStatus, i: nat, vg: Vg)
    requires OnList(a, list, status) && i < |a.vgs|
    ensures OnList(Place(a, i, vg), Listing(list, i, Waits(vg, status)), status)
  {
    WithoutKeepsDistinct(list, i);
    var r := Without(list, i);
    var next := Listing(list, i, Waits(vg, status));
    assert forall x :: x in next <==> x in r || (Waits(vg, status) && x == i);
    assert forall k :: 0 <= k < |r| ==> r[k] in r;
  }

  lemma PlaceKeeps(a: Allocator, i: nat, vg: Vg)
    requires Listed(a) && i < |a.vgs|
    ensures Listed(Place(a, i, vg))
  {
    hide OnList, Listing;
    ListingKeeps(a, a.free, FreeGroup, i, vg);
    ListingKeeps(a, a.random, RandomGroup, i, vg);
    ListingKeeps(a, a.constrained, ConstrainedGroup, i, vg);
    var b := Place(a, i, vg);
    SameVgs(Place(a, i, vg), b, b.free, FreeGroup);
  }

  lemma SameVgs(a: Allocator, b: Allocator, list: seq<nat>, status: GroupStatus)
    requires OnList(a, list, status) && a.vgs == b.vgs
    ensures OnList(b, list, status)
  {
  }

  /** A group that waits is taken into a slot that is empty. */
  lemma TakenKeeps(groups: seq<Group>, a: Allocator, i: nat, hot: bool, vg: Vg)
    requires Ordered(groups, a) && i < |groups| && !a.vgs[i].inUse && Slot(a, hot) == None
    requires vg.inUse && vg.status != FreeGroup && groups[i].lower <= vg.current
    ensures Ordered(groups, WithSlot(Place(a, i, vg), hot, Some(i)))
  {
    hide Listed, Listing;
    PlaceKeeps(a, i, vg);
    ListedAlike(Place(a, i, vg), WithSlot(Place(a, i, vg), hot, Some(i)));
  }

  lemma ListedAlike(a: Allocator, b: Allocator)
    requires Listed(a) && b.vgs == a.vgs && b.free == a.free && b.random == a.random && b.constrained == a.constrained
    ensures Listed(b)
  {
  }

  lemma CursorMoves(groups: seq<Group>, a: Allocator, i: nat, current: nat)
    requires Ordered(groups, a) && i < |groups| && groups[i].lower <= current
    ensures Ordered(groups, a.(vgs := a.vgs[i := a.vgs[i].(current := current)]))
  {
    hide Distinct;
    var b := a.(vgs := a.vgs[i := a.vgs[i].(current := current)]);
    assert forall k: nat, status :: k < |a.vgs| ==> Waits(b.vgs[k], status) == Waits(a.vgs[k], status);
    assert OnList(b, b.free, FreeGroup) && OnList(b, b.random, RandomGroup) &&
      OnList(b, b.constrained, ConstrainedGroup);
  }

  lemma ReleasedKeeps(groups: seq<Group>, a: Allocator, hot: bool)
    requires Ordered(groups, a) && Slot(a, hot).Some?
    ensures var b := WithSlot(Released(groups, a, Slot(a, hot).value), hot, None);
            Ordered(groups, b) && Slot(b, hot) == None && !b.vgs[Slot(a, hot).value].inUse
  {
    hide Listed, Listing;
    var i := Slot(a, hot).value;
    var vg := a.vgs[i];
    var next := if vg.status == RandomGroup
      then Vg(ConstrainedGroup, vg.hot, false, if vg.hot then groups[i].bottomStart else groups[i].topStart)
        else vg.(inUse := false);
    PlaceKeeps(a, i, next);
    ListedAlike(Place(a, i, next), WithSlot(Place(a, i, next), hot, None));
  }

  lemma FromCurrentKeeps(tracks: seq<Track>, groups: seq<Group>, a: Allocator, hot: bool)
    requires Ordered(groups, a)
    ensures Fits(groups, a)
    ensures var (b, r) := FromCurrent(tracks, groups, a, hot);
            Ordered(groups, b) && Fits(groups, b) && (r.None? ==> Slot(b, hot) == None)
  {
    hide Ordered, Released;
    OrderedFits(groups, a);
    if Slot(a, hot).Some? {
      var i := Slot(a, hot).value;
      match Ahead(tracks, a.vgs[i].current, groups[i].higher)
      case Some(t) =>
        CursorIsWithin(groups, a, i);
        CursorMoves(groups, a, i, t + 2);
      case None =>
        ReleasedKeeps(groups, a, hot);
    }
    OrderedFits(groups, FromCurrent(tracks, groups, a, hot).0);
  }

  lemma CursorIsWithin(groups: seq<Group>, a: Allocator, i: nat)
    requires Ordered(groups, a) && i < |groups|
    ensures |a.vgs| == |groups| && groups[i].lower <= a.vgs[i].current
    ensures groups[i].lower <= groups[i].topStart && groups[i].lower <= groups[i].bottomStart
  {
  }

  /** A group on a list waits. */
  lemma ListedWaits(groups: seq<Group>, a: Allocator, i: nat)
    requires Ordered(groups, a) && (i in a.free || i in a.random || i in a.constrained)
    ensures i < |groups| && !a.vgs[i].inUse
    ensures i in a.free <==> a.vgs[i].status == FreeGroup
  {
  }

  lemma FitIsAhead(tracks: seq<Track>, group: Group, vg: Vg, mode: Mode, hot: bool)
    requires group.lower <= vg.current
    ensures var r := Fit(tracks, group, vg, mode, hot);
            r.Some? ==> Within(group, r.value) && r.value < |tracks| && !IsLive(tracks[r.value].status)
  {
  }

  /** What a track from the allocator is: one that is not in use, of the group that is filled from now on, or
      the offer of a group from the free list. */
  ghost predicate Handed(tracks: seq<Track>, groups: seq<Group>, a: Allocator, b: Allocator, block: Block, hot: bool)
    requires |a.vgs| == |b.vgs| == |groups|
  {
    && block.vg < |groups| && b.vgs[block.vg].inUse
    && if block.offered then Waits(a.vgs[block.vg], FreeGroup) && block.pba == Offer(groups[block.vg], hot)
       else Within(groups[block.vg], block.pba) && block.pba < |tracks| && !IsLive(tracks[block.pba].status)
  }

  /** No group comes to the free list. */
  ghost predicate FreeShrinks(a: Allocator, b: Allocator) {
    |a.vgs| == |b.vgs| && forall i: nat :: i < |b.vgs| && Waits(b.vgs[i], FreeGroup) ==> Waits(a.vgs[i], FreeGroup)
  }

  lemma TakenFromList(tracks: seq<Track>, groups: seq<Group>, a: Allocator, i: nat, hot: bool, t: nat, mode: Mode)
    requires Ordered(groups, a) && Slot(a, hot) == None && (i in a.random || i in a.constrained) && i < |groups|
    requires Fit(tracks, groups[i], a.vgs[i], mode, hot) == Some(t)
    ensures var b := Taken(a, i, hot, t);
            Ordered(groups, b) && Handed(tracks, groups, a, b, Block(i, t, false), hot) && FreeShrinks(a, b)
  {
    hide Listing, Fit;
    ListedWaits(groups, a, i);
    FitIsAhead(tracks, groups[i], a.vgs[i], mode, hot);
    TakenKeeps(groups, a, i, hot, a.vgs[i].(inUse := true, current := t + 2));
  }

  lemma IdenticalKeeps(groups: seq<Group>, a: Allocator)
    requires Ordered(groups, a)
    ensures Ordered(groups, a.(identical := true))
  {
    ListedAlike(a, a.(identical := true));
  }

  lemma FromFreeKeeps(tracks: seq<Track>, groups: seq<Group>, a: Allocator, hot: bool)
    requires Ordered(groups, a) && Fits(groups, a) && Slot(a, hot) == None && a.free != []
    ensures var (b, r) := FromFree(groups, a, hot);
            Ordered(groups, b) && Handed(tracks, groups, a, b, r.value, hot) && FreeShrinks(a, b)
  {
    hide Listing;
    var i := a.free[0];
    assert i in a.free;
    ListedWaits(groups, a, i);
    TakenKeeps(groups, a, i, hot, Vg(RandomGroup, hot, true, Offer(groups[i], hot) + 2));
  }

  lemma FromAllKeeps(tracks: seq<Track>, groups: seq<Group>, a: Allocator, hot: bool)
    requires Ordered(groups, a) && Fits(groups, a) && Slot(a, hot) == None
    ensures var (b, r) := FromAll(tracks, groups, a, hot);
            && Ordered(groups, b) && FreeShrinks(a, b) && (r.Some? ==> Handed(tracks, groups, a, b, r.value, hot))
            && (r.None? ==> b == a.(identical := true))
  {
    hide Ordered, Taken, Fit;
    IdenticalKeeps(groups, a);
    var b := a.(identical := true);
    var random := FirstFit(tracks, groups, a.vgs, a.random, AnyAttr, hot);
    var r := if random.Some? then random else FirstFit(tracks, groups, a.vgs, a.constrained, AnyAttr, hot);
    SlotOf(groups, b, hot);
    if r.Some? {
      TakenFromList(tracks, groups, b, r.value.0, hot, r.value.1, AnyAttr);
    }
  }

  lemma SlotOf(groups: seq<Group>, a: Allocator, hot: bool)
    requires Ordered(groups, a)
    ensures |a.vgs| == |groups| &&
            (Slot(a, hot).Some? ==> Slot(a, hot).value < |groups| && a.vgs[Slot(a, hot).value].inUse)
  {
  }

  lemma CursorHands(tracks: seq<Track>, groups: seq<Group>, a: Allocator, hot: bool, other: bool)
    requires Ordered(groups, a) && Slot(a, other).Some?
    ensures var i := Slot(a, other).value;
            && i < |groups| == |a.vgs|
            && match Ahead(tracks, a.vgs[i].current, groups[i].higher)
               case None => true
               case Some(t) =>
                 var b := a.(vgs := a.vgs[i := a.vgs[i].(current := t + 2)]);
                 Ordered(groups, b) && Handed(tracks, groups, a, b, Block(i, t, false), hot) && FreeShrinks(a, b)
  {
    hide Listed;
    var i := Slot(a, other).value;
    SlotOf(groups, a, other);
    CursorIsWithin(groups, a, i);
    match Ahead(tracks, a.vgs[i].current, groups[i].higher)
    case Some(t) => CursorMoves(groups, a, i, t + 2);
    case None =>
  }

  lemma FromListsKeeps(tracks: seq<Track>, groups: seq<Group>, a: Allocator, hot: bool)
    requires Ordered(groups, a) && Fits(groups, a) && Slot(a, hot) == None
    ensures var (b, r) := FromLists(tracks, groups, a, hot);
            Ordered(groups, b) && FreeShrinks(a, b) && (r.Some? ==> Handed(tracks, groups, a, b, r.value, hot))
  {
    hide Ordered, Taken, Fit, FromAll;
    SlotOf(groups, a, hot);
    var same: Option<(nat, nat)> := if a.identical then None
      else FirstFit(tracks, groups, a.vgs, a.random, SameAttr, hot);
    var other: Option<(nat, nat)> := if a.identical then None
      else FirstFit(tracks, groups, a.vgs, a.constrained, OtherAttr, hot);
    if !a.identical && a.free != [] {
      FromFreeKeeps(tracks, groups, a, hot);
    } else if same.Some? {
      TakenFromList(tracks, groups, a, same.value.0, hot, same.value.1, SameAttr);
    } else if other.Some? {
      TakenFromList(tracks, groups, a, other.value.0, hot, other.value.1, OtherAttr);
    } else {
      FromAllKeeps(tracks, groups, a, hot);
      var (b, r) := FromAll(tracks, groups, a, hot);
      if r == None && Slot(b, !hot).Some? {
        CursorHands(tracks, groups, b, hot, !hot);
      }
    }
  }

  /** vg_get_block keeps lists and groups in agreement. What it hands out is not in use, unless it is the offer
      of a group from the free list. */
  lemma GetBlockKeeps(tracks: seq<Track>, groups: seq<Group>, a: Allocator, hot: bool)
    requires Ordered(groups, a)
    ensures var (b, r) := GetBlock(tracks, groups, a, hot);
            Ordered(groups, b) && FreeShrinks(a, b) && (r.Some? ==> Handed(tracks, groups, a, b, r.value, hot))
  {
    hide Ordered, FromLists, Released, Within;
    FromCurrentKeeps(tracks, groups, a, hot);
    var (b, r) := FromCurrent(tracks, groups, a, hot);
    SlotOf(groups, a, hot);
    SlotOf(groups, b, hot);
    if Slot(a, hot).Some? {
      CursorHands(tracks, groups, a, hot, hot);
      ReleasedFreesNone(groups, a, hot);
    }
    if r == None {
      FromListsKeeps(tracks, groups, b, hot);
      HandedLater(tracks, groups, a, b, FromLists(tracks, groups, b, hot).0, FromLists(tracks, groups, b, hot).1, hot);
    }
  }

  lemma HandedLater(tracks: seq<Track>, groups: seq<Group>, a: Allocator, b: Allocator, c: Allocator,
                    block: Option<Block>, hot: bool)
    requires |a.vgs| == |b.vgs| == |c.vgs| == |groups| && FreeShrinks(a, b) && FreeShrinks(b, c)
    requires block.Some? ==> Handed(tracks, groups, b, c, block.value, hot)
    ensures FreeShrinks(a, c) && (block.Some? ==> Handed(tracks, groups, a, c, block.value, hot))
  {
  }

  lemma ReleasedFreesNone(groups: seq<Group>, a: Allocator, hot: bool)
    requires Ordered(groups, a) && Slot(a, hot).Some?
    ensures Slot(a, hot).value < |a.vgs| == |groups|
    ensures FreeShrinks(a, WithSlot(Released(groups, a, Slot(a, hot).value), hot, None))
  {
    hide Listed, Listing;
  }

  // ---- what the free list offers ---------------------------------------------------------------

  /** What _update_vg_list finds in a group: its scan leaves out the last track. */
  ghost predicate HasData(tracks: seq<Track>, group: Group, top: bool, end: nat) {
    exists i :: group.lower <= i < end && i < |tracks| && IsTop(i) == top && IsLive(tracks[i].status)
  }

  function Classified(topData: bool, bottomData: bool): GroupStatus {
    if topData && bottomData then ConstrainedGroup else if topData || bottomData then RandomGroup else FreeGroup
  }

  /** The status that it gives to a group that no one is filling. */
  ghost function StatusOf(tracks: seq<Track>, group: Group): GroupStatus {
    Classified(HasData(tracks, group, true, group.higher), HasData(tracks, group, false, group.higher))
  }

  /** The scan sees no data. */
  ghost predicate Unseen(tracks: seq<Track>, group: Group) {
    forall p :: group.lower <= p < group.higher && p < |tracks| ==> !IsLive(tracks[p].status)
  }

  lemma FreeIsUnseen(tracks: seq<Track>, group: Group)
    ensures StatusOf(tracks, group) == FreeGroup <==> Unseen(tracks, group)
  {
    if !Unseen(tracks, group) {
      var p :| group.lower <= p < group.higher && p < |tracks| && IsLive(tracks[p].status);
      assert HasData(tracks, group, IsTop(p), group.higher);
    }
  }

  /** _update_vg_list. */
  ghost function Updated(tracks: seq<Track>, groups: seq<Group>, a: Allocator, i: nat): Allocator
    requires i < |a.vgs| == |groups|
  {
    var vg, status := a.vgs[i], StatusOf(tracks, groups[i]);
    if vg.inUse then a
    else
      Place(a, i, Vg(status, vg.hot, false,
                     if status != RandomGroup then vg.current
                     else if HasData(tracks, groups[i], true, groups[i].higher) then groups[i].topStart
                       else groups[i].bottomStart))
  }

  /** update_vg_list for the groups below n. */
  ghost function UpdatedAll(tracks: seq<Track>, groups: seq<Group>, a: Allocator, marked: set<nat>,
                            n: nat): (b: Allocator)
    requires n <= |a.vgs| == |groups|
    ensures |b.vgs| == |a.vgs|
  {
    if n == 0 then a
    else
      var b := UpdatedAll(tracks, groups, a, marked, n - 1);
      if n - 1 in marked then Updated(tracks, groups, b, n - 1) else b
  }

  /** A group on the free list holds no data that the scan would see. */
  ghost predicate Tidy(tracks: seq<Track>, groups: seq<Group>, a: Allocator) {
    |a.vgs| == |groups| && forall i: nat :: i < |groups| && Waits(a.vgs[i], FreeGroup) ==> Unseen(tracks, groups[i])
  }

  lemma UpdatedKeeps(tracks: seq<Track>, groups: seq<Group>, a: Allocator, i: nat)
    requires Ordered(groups, a) && Tidy(tracks, groups, a) && i < |groups|
    ensures var b := Updated(tracks, groups, a, i); Ordered(groups, b) && Tidy(tracks, groups, b)
  {
    hide Listed, Listing, HasData, Unseen, StatusOf;
    if !a.vgs[i].inUse {
      FreeIsUnseen(tracks, groups[i]);
      PlaceKeeps(a, i, Updated(tracks, groups, a, i).vgs[i]);
    }
  }

  lemma {:induction false} UpdatedAllKeeps(tracks: seq<Track>, groups: seq<Group>, a: Allocator, marked: set<nat>,
                                           n: nat)
    requires Ordered(groups, a) && Tidy(tracks, groups, a) && n <= |groups|
    ensures var b := UpdatedAll(tracks, groups, a, marked, n); Ordered(groups, b) && Tidy(tracks, groups, b)
  {
    hide Listed, Unseen, Updated;
    if n > 0 {
      UpdatedAllKeeps(tracks, groups, a, marked, n - 1);
      if n - 1 in marked {
        UpdatedKeeps(tracks, groups, UpdatedAll(tracks, groups, a, marked, n - 1), n - 1);
      }
    }
  }

  /** Deletes leave the free groups as they are. */
  lemma FewerKeepsTidy(before: seq<Track>, after: seq<Track>, groups: seq<Group>, a: Allocator)
    requires Tidy(before, groups, a) && |after| == |before|
    requires forall p :: 0 <= p < |before| && IsLive(after[p].status) ==> IsLive(before[p].status)
    ensures Tidy(after, groups, a)
  {
  }

  // ---- whether the offer is taken --------------------------------------------------------------

  /** The groups of init_virtual_groups. */
  ghost predicate Divided(groups: seq<Group>, max: nat, granularity: nat) {
    && granularity > 0 && max > 0 && max % 2 == 0 && |groups| == GroupCount(max, granularity)
    && forall i :: 0 <= i < |groups| ==> groups[i] == GroupAt(i, max, granularity)
  }

  lemma GroupStarts(i: nat, max: nat, granularity: nat)
    requires granularity > 0 && max > 0 && i < GroupCount(max, granularity)
    ensures var group := GroupAt(i, max, granularity);
            && group.lower <= group.higher < max
            && group.topStart == (if IsTop(group.lower) then group.lower else group.lower + 1)
            && group.bottomStart == (if IsTop(group.lower) then group.lower + 1 else group.lower)
  {
    LastGroup(max, granularity);
    if i < GroupCount(max, granularity) - 1 {
      ProductIsMonotone(i + 1, GroupCount(max, granularity) - 1, granularity);
      assert (i + 1) * granularity == i * granularity + granularity;
    } else {
      assert i == GroupCount(max, granularity) - 1;
    }
  }

  /** A group of one track is the last, unless all groups are such. */
  lemma OneTrackGroups(i: nat, max: nat, granularity: nat)
    requires granularity > 0 && max > 0 && i < GroupCount(max, granularity)
    requires GroupAt(i, max, granularity).lower == GroupAt(i, max, granularity).higher
    ensures granularity == 1 || GroupAt(i, max, granularity).higher == max - 1
    ensures granularity == 1 ==> forall k: nat :: k < GroupCount(max, granularity) ==>
              GroupAt(k, max, granularity).lower == GroupAt(k, max, granularity).higher == k
  {
    if granularity == 1 {
      LastGroup(max, granularity);
      assert GroupCount(max, granularity) == max;
    }
  }

  /** The offer of a group in which the scan sees no data. In a group of two tracks or more it is taken exactly
      when it is the last track and that one is in use. In a group of one track the scan sees nothing at all;
      the offer is that track or, when this is no track for files of the attribute, the one behind the group,
      and behind the disk for the last group. */
  lemma OfferIsTakenExactly(tracks: seq<Track>, i: nat, granularity: nat, hot: bool)
    requires granularity > 0 && |tracks| > 0 && i < GroupCount(|tracks|, granularity)
    requires Unseen(tracks, GroupAt(i, |tracks|, granularity))
    ensures var group, offer := GroupAt(i, |tracks|, granularity), Offer(GroupAt(i, |tracks|, granularity), hot);
            if group.lower < group.higher then
              Within(group, offer) && offer < |tracks| &&
              (IsLive(tracks[offer].status) <==> offer == group.higher && IsLive(tracks[group.higher].status))
            else
              && offer == (if IsTop(group.lower) == hot then group.lower else group.lower + 1)
              && (offer >= |tracks| <==> IsTop(group.lower) != hot && i == GroupCount(|tracks|, granularity) - 1)
              && forall other: seq<Track> :: Unseen(other, group)
  {
    hide GroupAt, GroupCount;
    GroupStarts(i, |tracks|, granularity);
    var group := GroupAt(i, |tracks|, granularity);
    if group.lower == group.higher {
      LastIsLast(i, |tracks|, granularity);
    }
  }

  lemma LastIsLast(i: nat, max: nat, granularity: nat)
    requires granularity > 0 && max > 0 && i < GroupCount(max, granularity)
    ensures GroupAt(i, max, granularity).higher == max - 1 <==> i == GroupCount(max, granularity) - 1
  {
    LastGroup(max, granularity);
    if i < GroupCount(max, granularity) - 1 {
      ProductIsMonotone(i + 1, GroupCount(max, granularity) - 1, granularity);
      assert (i + 1) * granularity == i * granularity + granularity;
    }
  }

  /** Every group has three tracks or more. */
  ghost predicate Wide(max: nat, granularity: nat)
    requires granularity > 0
  {
    forall i: nat :: i < GroupCount(max, granularity) ==>
        GroupAt(i, max, granularity).lower + 2 <= GroupAt(i, max, granularity).higher
  }

  /** How many tracks a group has. */
  function Width(i: nat, max: nat, granularity: nat): nat
    requires granularity > 0
  {
    if i < GroupCount(max, granularity) - 1 || max % granularity == 0 then granularity else max % granularity
  }

  lemma GroupWidth(i: nat, max: nat, granularity: nat)
    requires granularity > 0 && max > 0 && i < GroupCount(max, granularity)
    ensures GroupAt(i, max, granularity).higher + 1 == GroupAt(i, max, granularity).lower + Width(i, max, granularity)
  {
    if i == GroupCount(max, granularity) - 1 {
      LastWidth(max, granularity);
    }
  }

  lemma LastWidth(max: nat, granularity: nat)
    requires granularity > 0 && max > 0
    ensures GroupCount(max, granularity) > 0
    ensures max == (GroupCount(max, granularity) - 1) * granularity + if max % granularity == 0 then granularity
            else max % granularity
  {
    var q := max / granularity;
    assert max == q * granularity + max % granularity;
    if max % granularity == 0 {
      assert q > 0;
      assert (q - 1) * granularity == q * granularity - granularity;
    }
  }

  /** What a user of the program has to choose for that. */
  lemma WideExactly(max: nat, granularity: nat)
    requires granularity > 0 && max >= granularity
    ensures Wide(max, granularity) <==> granularity >= 3 && (max % granularity == 0 || max % granularity >= 3)
  {
    hide GroupAt, GroupCount;
    var n := GroupCount(max, granularity);
    LastWidth(max, granularity);
    forall i: nat | i < n
      ensures GroupAt(i, max, granularity).lower + 2 <= GroupAt(i, max, granularity).higher <==>
              Width(i, max, granularity) >= 3
    {
      GroupWidth(i, max, granularity);
    }
    FirstWidth(max, granularity);
    assert Width(n - 1, max, granularity) == if max % granularity == 0 then granularity else max % granularity;
  }

  lemma FirstWidth(max: nat, granularity: nat)
    requires granularity > 0 && max >= granularity
    ensures GroupCount(max, granularity) > 0 && Width(0, max, granularity) == granularity
  {
    LastWidth(max, granularity);
    Quotient(max, granularity);
    if max / granularity == 0 {
      assert false;
    }
  }

  /** In such a division the allocator never hands out a track in use. */
  lemma WideHandsFreeTracks(tracks: seq<Track>, groups: seq<Group>, a: Allocator, granularity: nat, hot: bool)
    requires Divided(groups, |tracks|, granularity) && Wide(|tracks|, granularity)
    requires Ordered(groups, a) && Tidy(tracks, groups, a)
    ensures var r := GetBlock(tracks, groups, a, hot).1;
            r.Some? ==> r.value.pba < |tracks| && !IsLive(tracks[r.value.pba].status)
  {
    hide Ordered, Unseen, GetBlock, GroupAt, GroupCount;
    GetBlockKeeps(tracks, groups, a, hot);
    var (b, r) := GetBlock(tracks, groups, a, hot);
    SlotOf(groups, a, hot);
    SlotOf(groups, b, hot);
    if r.Some? && r.value.offered {
      OfferIsTakenExactly(tracks, r.value.vg, granularity, hot);
      GroupStarts(r.value.vg, |tracks|, granularity);
    }
  }

  /** A track comes into use in the group that is being filled: the groups on the free list stay clean. */
  lemma BookedKeepsTidy(before: seq<Track>, after: seq<Track>, groups: seq<Group>, granularity: nat, a: Allocator,
                        b: Allocator, block: Block, hot: bool)
    requires Divided(groups, |before|, granularity) && |after| == |before| && block.pba < |before|
    requires Tidy(before, groups, a) && |b.vgs| == |groups| && FreeShrinks(a, b) &&
             Handed(before, groups, a, b, block, hot)
    requires forall p :: 0 <= p < |before| && p != block.pba && IsLive(after[p].status) ==> IsLive(before[p].status)
    ensures Tidy(after, groups, b)
  {
    hide GroupAt, GroupCount;
    forall i: nat | i < |groups| && Waits(b.vgs[i], FreeGroup)
      ensures Unseen(after, groups[i])
    {
      assert Waits(a.vgs[i], FreeGroup);
      if groups[i].lower <= block.pba < groups[i].higher {
        NotInAnother(groups, |before|, granularity, i, block.vg, block.pba, hot);
      }
    }
  }

  /** No other group has this track in front of its last. */
  lemma NotInAnother(groups: seq<Group>, max: nat, granularity: nat, i: nat, vg: nat, p: nat, hot: bool)
    requires Divided(groups, max, granularity) && i < |groups| && vg < |groups| && p < max
    requires Within(groups[vg], p) || p == Offer(groups[vg], hot)
    requires groups[i].lower <= p < groups[i].higher
    ensures i == vg
  {
    hide GroupAt, GroupCount;
    GroupsPartition(i, p, max, granularity);
    GroupsPartition(vg, p, max, granularity);
    GroupStarts(vg, max, granularity);
    if !Within(groups[vg], p) {
      OneTrackGroups(vg, max, granularity);
    }
  }

  /** A dual swap changes tracks of a constrained group only, unless groups have one track. */
  lemma SwappedKeepsTidy(before: seq<Track>, after: seq<Track>, groups: seq<Group>, granularity: nat, a: Allocator,
                         vg: nat, b: nat, t: nat)
    requires Divided(groups, |before|, granularity) && |after| == |before| && vg < |groups| && b < |before| &&
             t < |before|
    requires Tidy(before, groups, a) && a.vgs[vg].status != FreeGroup && Within(groups[vg], b) &&
             (granularity == 1 || Within(groups[vg], t))
    requires forall p :: 0 <= p < |before| && p != b && p != t && IsLive(after[p].status) ==> IsLive(before[p].status)
    ensures Tidy(after, groups, a)
  {
    hide GroupAt, GroupCount;
    forall i: nat | i < |groups| && Waits(a.vgs[i], FreeGroup)
      ensures Unseen(after, groups[i])
    {
      if granularity == 1 {
        SingleTracks(groups, |before|, i);
      } else {
        GroupsPartition(i, b, |before|, granularity);
        GroupsPartition(vg, b, |before|, granularity);
        GroupsPartition(i, t, |before|, granularity);
        GroupsPartition(vg, t, |before|, granularity);
      }
    }
  }

  lemma SingleTracks(groups: seq<Group>, max: nat, i: nat)
    requires Divided(groups, max, 1) && i < |groups|
    ensures groups[i].lower == groups[i].higher == i
  {
    LastGroup(max, 1);
    assert GroupCount(max, 1) == max;
  }

  // ---- when it fails ---------------------------------------------------------------------------

  /** No waiting group of a list has a track that is not in use. */
  ghost predicate Filled(tracks: seq<Track>, groups: seq<Group>, list: seq<nat>)
    requires Indexes(list, |groups|)
  {
    forall k :: 0 <= k < |list| ==> AnyTrack(tracks, groups[list[k]].lower, groups[list[k]].higher) == None
  }

  lemma AnyFitsExactly(tracks: seq<Track>, groups: seq<Group>, a: Allocator, list: seq<nat>, hot: bool)
    requires Ordered(groups, a) && Indexes(list, |groups|)
    ensures FirstFit(tracks, groups, a.vgs, list, AnyAttr, hot) == None <==> Filled(tracks, groups, list)
    ensures Filled(tracks, groups, list) ==>
              FirstFit(tracks, groups, a.vgs, list, SameAttr, hot) == None &&
              FirstFit(tracks, groups, a.vgs, list, OtherAttr, hot) == None
  {
    hide Listed;
    forall i: nat | i < |groups|
      ensures AnyTrack(tracks, groups[i].lower, groups[i].higher) == None ==>
                Ahead(tracks, a.vgs[i].current, groups[i].higher) == None
    {
    }
  }

  /** vg_get_block fails exactly when the group being filled has nothing ahead, no group is on the free list or
      that list is no longer asked, no group on the other lists has a track left, and the group being filled for
      the other attribute has nothing ahead. Tracks of free groups may be left. */
  lemma GetBlockFailsExactly(tracks: seq<Track>, groups: seq<Group>, a: Allocator, hot: bool)
    requires Ordered(groups, a)
    ensures Fits(groups, a)
    ensures var (b, r) := FromCurrent(tracks, groups, a, hot);
            && Fits(groups, b)
            && (GetBlock(tracks, groups, a, hot).1 == None <==>
                  && r == None && (b.identical || b.free == [])
                  && Filled(tracks, groups, b.random) && Filled(tracks, groups, b.constrained)
                  && FromOther(tracks, groups, b, hot).1 == None)
  {
    hide Ordered, FromCurrent, FirstFit, Filled;
    FromCurrentKeeps(tracks, groups, a, hot);
    var b := FromCurrent(tracks, groups, a, hot).0;
    SlotOf(groups, b, hot);
    AnyFitsExactly(tracks, groups, b, b.random, hot);
    AnyFitsExactly(tracks, groups, b, b.constrained, hot);
  }

  /** When none of the lists has a track, the search leaves the groups alone and gives the free list up. */
  lemma FailedLists(tracks: seq<Track>, groups: seq<Group>, a: Allocator, hot: bool)
    requires Fits(groups, a)
    ensures var c := a.(identical := true);
            Fits(groups, c) && (FromLists(tracks, groups, a, hot).1 == None ==>
              FromLists(tracks, groups, a, hot) == FromLists(tracks, groups, c, hot) == (c, None))
  {
    hide FirstFit, Fit;
  }

  /** What a failed vg_get_block leaves behind fails again, and then nothing changes any more. */
  lemma GetBlockFailsAgain(tracks: seq<Track>, groups: seq<Group>, a: Allocator, hot: bool)
    requires Ordered(groups, a) && GetBlock(tracks, groups, a, hot).1 == None
    ensures var b := GetBlock(tracks, groups, a, hot).0;
            Ordered(groups, b) && GetBlock(tracks, groups, b, hot) == (b, None)
  {
    hide Ordered, Listed, Fit;
    GetBlockKeeps(tracks, groups, a, hot);
    FromCurrentKeeps(tracks, groups, a, hot);
    var b := GetBlock(tracks, groups, a, hot).0;
    var c := FromCurrent(tracks, groups, a, hot).0;
    FailedLists(tracks, groups, c, hot);
    FailedLists(tracks, groups, b, hot);
    FromCurrentKeeps(tracks, groups, b, hot);
    SlotOf(groups, c, hot);
    assert FromCurrent(tracks, groups, b, hot) == (b, None);
  }
}
