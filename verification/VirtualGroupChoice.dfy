/** Which track vg_get_block hands out, described by the tracks, the lists and the cursors alone. */
module VirtualGroupChoice {
  import opened DiskTypes
  import opened VirtualGroupSpec
  import opened VirtualGroupAllocator
  import opened VirtualGroupFailures

  // ---- tracks of a group -----------------------------------------------------------------------

  predicate Open(tracks: seq<Track>, t: nat) {
    t < |tracks| && tracks[t].status !in {Booked, InUse}
  }

  /** The group has a track that is not in use among current, current + 2, .. */
  ghost predicate GoesOn(tracks: seq<Track>, group: Group, vg: Vg) {
    exists t: nat :: vg.current <= t <= group.higher && t % 2 == vg.current % 2 && Open(tracks, t)
  }

  /** The first of them. */
  ghost predicate IsNext(tracks: seq<Track>, group: Group, vg: Vg, t: nat) {
    && vg.current <= t <= group.higher && t % 2 == vg.current % 2 && Open(tracks, t)
    && forall k: nat :: vg.current <= k < t && k % 2 == vg.current % 2 ==> !Open(tracks, k)
  }

  ghost predicate HasTrack(tracks: seq<Track>, group: Group) {
    exists t: nat :: group.lower <= t <= group.higher && Open(tracks, t)
  }

  ghost predicate IsLowest(tracks: seq<Track>, group: Group, t: nat) {
    && group.lower <= t <= group.higher && Open(tracks, t)
    && forall k: nat :: group.lower <= k < t ==> !Open(tracks, k)
  }

  lemma AheadExactly(tracks: seq<Track>, group: Group, vg: Vg)
    ensures match Ahead(tracks, vg.current, group.higher)
            case Some(t) => GoesOn(tracks, group, vg) && IsNext(tracks, group, vg, t)
            case None => !GoesOn(tracks, group, vg)
  {
    match Ahead(tracks, vg.current, group.higher)
    case Some(t) => assert Open(tracks, t);
    case None =>
  }

  lemma AnyTrackExactly(tracks: seq<Track>, group: Group)
    ensures match AnyTrack(tracks, group.lower, group.higher)
            case Some(t) => HasTrack(tracks, group) && IsLowest(tracks, group, t)
            case None => !HasTrack(tracks, group)
  {
    match AnyTrack(tracks, group.lower, group.higher)
    case Some(t) => assert Open(tracks, t);
    case None =>
  }

  // ---- lists -----------------------------------------------------------------------------------

  /** A group of the attribute that goes on. */
  ghost predicate Suits(tracks: seq<Track>, groups: seq<Group>, vgs: seq<Vg>, i: nat, attr: bool)
    requires |vgs| == |groups|
  {
    i < |groups| && vgs[i].hot == attr && GoesOn(tracks, groups[i], vgs[i])
  }

  ghost predicate SomeSuits(tracks: seq<Track>, groups: seq<Group>, vgs: seq<Vg>, list: seq<nat>, attr: bool)
    requires |vgs| == |groups|
  {
    exists k :: 0 <= k < |list| && Suits(tracks, groups, vgs, list[k], attr)
  }

  /** The track is the next one of the first group on the list that suits. */
  ghost predicate FromFirstSuitable(tracks: seq<Track>, groups: seq<Group>, vgs: seq<Vg>, list: seq<nat>, attr: bool,
                                    i: nat, t: nat)
    requires |vgs| == |groups|
  {
    exists k :: && 0 <= k < |list| && list[k] == i && Suits(tracks, groups, vgs, i, attr)
                && IsNext(tracks, groups[i], vgs[i], t)
                && forall j :: 0 <= j < k ==> !Suits(tracks, groups, vgs, list[j], attr)
  }

  ghost predicate SomeHasTrack(tracks: seq<Track>, groups: seq<Group>, list: seq<nat>) {
    exists k :: 0 <= k < |list| && list[k] < |groups| && HasTrack(tracks, groups[list[k]])
  }

  /** The track is one of the first group on the list that has any: the next one of the group, or the lowest when
      it does not go on. */
  ghost predicate FromFirstWithTrack(tracks: seq<Track>, groups: seq<Group>, vgs: seq<Vg>, list: seq<nat>, i: nat,
                                     t: nat)
    requires |vgs| == |groups|
  {
    exists k :: && 0 <= k < |list| && list[k] == i && i < |groups|
                && (if GoesOn(tracks, groups[i], vgs[i]) then IsNext(tracks, groups[i], vgs[i], t)
                    else IsLowest(tracks, groups[i], t))
                && forall j :: 0 <= j < k && list[j] < |groups| ==> !HasTrack(tracks, groups[list[j]])
  }

  lemma {:induction false} FirstFitIsFirst(tracks: seq<Track>, groups: seq<Group>, vgs: seq<Vg>, list: seq<nat>,
                                           mode: Mode, hot: bool)
    requires |vgs| == |groups| && Indexes(list, |groups|)
    ensures match FirstFit(tracks, groups, vgs, list, mode, hot)
            case None => forall k :: 0 <= k < |list| ==> Fit(tracks, groups[list[k]], vgs[list[k]], mode, hot) == None
            case Some((i, t)) =>
              exists k :: && 0 <= k < |list| && list[k] == i
                          && Fit(tracks, groups[i], vgs[i], mode, hot) == Some(t)
                          && forall j :: 0 <= j < k ==> Fit(tracks, groups[list[j]], vgs[list[j]], mode, hot) == None
    decreases |list|
  {
    hide Fit;
    if list != [] && Fit(tracks, groups[list[0]], vgs[list[0]], mode, hot) == None {
      var rest := list[1..];
      FirstFitIsFirst(tracks, groups, vgs, rest, mode, hot);
      match FirstFit(tracks, groups, vgs, rest, mode, hot)
      case None =>
      case Some((i, t)) =>
        var k :| && 0 <= k < |rest| && rest[k] == i && Fit(tracks, groups[i], vgs[i], mode, hot) == Some(t)
                 && forall j :: 0 <= j < k ==> Fit(tracks, groups[rest[j]], vgs[rest[j]], mode, hot) == None;
        assert list[k + 1] == i;
        assert forall j :: 0 < j < k + 1 ==> list[j] == rest[j - 1];
    }
  }

  lemma FitExactly(tracks: seq<Track>, group: Group, vg: Vg, mode: Mode, hot: bool)
    requires mode != AnyAttr
    ensures match Fit(tracks, group, vg, mode, hot)
            case None => vg.hot != (if mode == SameAttr then hot else !hot) || !GoesOn(tracks, group, vg)
            case Some(t) =>
              && vg.hot == (if mode == SameAttr then hot else !hot) && GoesOn(tracks, group, vg)
              && IsNext(tracks, group, vg, t)
  {
    hide Ahead, GoesOn, IsNext;
    AheadExactly(tracks, group, vg);
  }

  lemma AnyFitExactly(tracks: seq<Track>, group: Group, vg: Vg, hot: bool)
    requires group.lower <= vg.current
    ensures match Fit(tracks, group, vg, AnyAttr, hot)
            case None => !HasTrack(tracks, group)
            case Some(t) =>
              && HasTrack(tracks, group)
              && if GoesOn(tracks, group, vg) then IsNext(tracks, group, vg, t) else IsLowest(tracks, group, t)
  {
    AheadExactly(tracks, group, vg);
    AnyTrackExactly(tracks, group);
  }

  /** What the scan of a list for one attribute finds. */
  lemma ScanExactly(tracks: seq<Track>, groups: seq<Group>, vgs: seq<Vg>, list: seq<nat>, mode: Mode, hot: bool)
    requires |vgs| == |groups| && Indexes(list, |groups|) && mode != AnyAttr
    ensures var attr := if mode == SameAttr then hot else !hot;
            match FirstFit(tracks, groups, vgs, list, mode, hot)
            case None => !SomeSuits(tracks, groups, vgs, list, attr)
            case Some((i, t)) =>
              SomeSuits(tracks, groups, vgs, list, attr) && FromFirstSuitable(tracks, groups, vgs, list, attr, i, t)
  {
    hide FirstFit, Fit, GoesOn, IsNext;
    FirstFitIsFirst(tracks, groups, vgs, list, mode, hot);
    forall k | 0 <= k < |list|
      ensures Fit(tracks, groups[list[k]], vgs[list[k]], mode, hot) != None <==>
              Suits(tracks, groups, vgs, list[k], if mode == SameAttr then hot else !hot)
    {
      FitExactly(tracks, groups[list[k]], vgs[list[k]], mode, hot);
    }
    match FirstFit(tracks, groups, vgs, list, mode, hot)
    case None =>
    case Some((i, t)) => FitExactly(tracks, groups[i], vgs[i], mode, hot);
  }

  /** What the scan for any track finds. */
  lemma AnyScanExactly(tracks: seq<Track>, groups: seq<Group>, vgs: seq<Vg>, list: seq<nat>, hot: bool)
    requires |vgs| == |groups| && Indexes(list, |groups|)
    requires forall i: nat :: i < |groups| ==> groups[i].lower <= vgs[i].current
    ensures match FirstFit(tracks, groups, vgs, list, AnyAttr, hot)
            case None => !SomeHasTrack(tracks, groups, list)
            case Some((i, t)) =>
              SomeHasTrack(tracks, groups, list) && FromFirstWithTrack(tracks, groups, vgs, list, i, t)
  {
    hide FirstFit, Fit, GoesOn, IsNext, HasTrack, IsLowest;
    FirstFitIsFirst(tracks, groups, vgs, list, AnyAttr, hot);
    forall k | 0 <= k < |list|
      ensures Fit(tracks, groups[list[k]], vgs[list[k]], AnyAttr, hot) != None <==> HasTrack(tracks, groups[list[k]])
    {
      AnyFitExactly(tracks, groups[list[k]], vgs[list[k]], hot);
    }
    match FirstFit(tracks, groups, vgs, list, AnyAttr, hot)
    case None =>
    case Some((i, t)) => AnyFitExactly(tracks, groups[i], vgs[i], hot);
  }

  // ---- vg_get_block ------------------------------------------------------------------------------

  lemma CursorsAreWithin(groups: seq<Group>, a: Allocator)
    requires Ordered(groups, a)
    ensures |a.vgs| == |groups| && forall i: nat :: i < |groups| ==> groups[i].lower <= a.vgs[i].current
    ensures (a.hotVg.Some? ==> a.hotVg.value < |groups|) && (a.coldVg.Some? ==> a.coldVg.value < |groups|)
  {
  }

  /** While the group that is being filled goes on, its next track is handed out and nothing but its cursor
      moves. */
  lemma SlotIsPreferred(tracks: seq<Track>, groups: seq<Group>, a: Allocator, hot: bool, i: nat)
    requires Ordered(groups, a) && Slot(a, hot) == Some(i) && i < |a.vgs| == |groups| &&
             GoesOn(tracks, groups[i], a.vgs[i])
    ensures var (b, r) := GetBlock(tracks, groups, a, hot);
            && r.Some? && r.value.vg == i && !r.value.offered && IsNext(tracks, groups[i], a.vgs[i], r.value.pba)
            && b == a.(vgs := a.vgs[i := a.vgs[i].(current := r.value.pba + 2)])
  {
    hide Ordered, GoesOn, IsNext, FromLists;
    FromCurrentKeeps(tracks, groups, a, hot);
    AheadExactly(tracks, groups[i], a.vgs[i]);
  }

  /** A group that does not go on is given up: it joins the constrained ones, and when it was random, the half of
      its tracks that it was not begun with comes next. */
  lemma SlotIsGivenUp(tracks: seq<Track>, groups: seq<Group>, a: Allocator, hot: bool)
    requires Ordered(groups, a)
    requires Fits(groups, a) && Slot(a, hot).Some? ==>
               !GoesOn(tracks, groups[Slot(a, hot).value], a.vgs[Slot(a, hot).value])
    ensures Fits(groups, a)
    ensures var (c, r) := FromCurrent(tracks, groups, a, hot);
            && r == None && Ordered(groups, c) && Fits(groups, c) && |c.vgs| == |groups|
            && Slot(c, hot) == None && Slot(c, !hot) == Slot(a, !hot) && c.identical == a.identical
            && c.free == a.free && c.random == a.random
            && c.constrained == (if Slot(a, hot).Some? then a.constrained + [Slot(a, hot).value] else a.constrained)
            && (forall i: nat :: i < |groups| && Slot(a, hot) != Some(i) ==> c.vgs[i] == a.vgs[i])
            && (Slot(a, hot).Some? ==>
                  var i := Slot(a, hot).value;
                  c.vgs[i] == Vg(ConstrainedGroup, a.vgs[i].hot, false,
                                 if a.vgs[i].status == ConstrainedGroup then a.vgs[i].current
                                 else if a.vgs[i].hot then groups[i].bottomStart else groups[i].topStart))
  {
    hide Ordered, GoesOn, Listing, FromCurrent;
    OrderedFits(groups, a);
    FromCurrentKeeps(tracks, groups, a, hot);
    if Slot(a, hot).Some? {
      var i := Slot(a, hot).value;
      AheadExactly(tracks, groups[i], a.vgs[i]);
      FillingWaitsNowhere(groups, a, hot);
    }
    SpentReleases(tracks, groups, a, hot);
  }

  /** A group of the lists is taken: it fills the slot, with its cursor behind the track, and no other group
      changes. */
  ghost predicate Fills(c: Allocator, b: Allocator, hot: bool, block: Block) {
    && block.vg < |c.vgs| && !block.offered && Slot(b, hot) == Some(block.vg) && Slot(b, !hot) == Slot(c, !hot)
    && b.vgs == c.vgs[block.vg := c.vgs[block.vg].(inUse := true, current := block.pba + 2)]
  }

  /** The last resorts: any track of a random group, any of a constrained one, and the group that is being filled
      for the other attribute. */
  ghost predicate ChosenOfAll(tracks: seq<Track>, groups: seq<Group>, c: Allocator, b: Allocator, r: Option<Block>,
                              hot: bool)
    requires Fits(groups, c)
  {
    && b.identical
    && if SomeHasTrack(tracks, groups, c.random) then
         && r.Some? && FromFirstWithTrack(tracks, groups, c.vgs, c.random, r.value.vg, r.value.pba)
         && Fills(c, b, hot, r.value)
       else if SomeHasTrack(tracks, groups, c.constrained) then
         && r.Some? && FromFirstWithTrack(tracks, groups, c.vgs, c.constrained, r.value.vg, r.value.pba)
         && Fills(c, b, hot, r.value)
       else if Slot(c, !hot).Some? && var i := Slot(c, !hot).value; GoesOn(tracks, groups[i], c.vgs[i]) then
         var i := Slot(c, !hot).value;
         r.Some? && r.value.vg == i && !r.value.offered && IsNext(tracks, groups[i], c.vgs[i], r.value.pba)
       else r == None
  }

  /** The choice when no group is being filled: the first group of the free list; the first random group of the
      attribute that goes on; the first constrained group of the other attribute that goes on; and otherwise one of
      the last resorts. They alone are left, here and later, once files are taken to be of one attribute. */
  ghost predicate Chosen(tracks: seq<Track>, groups: seq<Group>, c: Allocator, b: Allocator, r: Option<Block>,
                         hot: bool)
    requires Fits(groups, c)
  {
    if !c.identical && c.free != [] then
      && !b.identical
      && r == Some(Block(c.free[0], if hot then groups[c.free[0]].topStart else groups[c.free[0]].bottomStart, true))
    else if !c.identical && SomeSuits(tracks, groups, c.vgs, c.random, hot) then
      && r.Some? && FromFirstSuitable(tracks, groups, c.vgs, c.random, hot, r.value.vg, r.value.pba)
      && Fills(c, b, hot, r.value) && !b.identical
    else if !c.identical && SomeSuits(tracks, groups, c.vgs, c.constrained, !hot) then
      && r.Some? && FromFirstSuitable(tracks, groups, c.vgs, c.constrained, !hot, r.value.vg, r.value.pba)
      && Fills(c, b, hot, r.value) && !b.identical
    else ChosenOfAll(tracks, groups, c, b, r, hot)
  }

  lemma OtherChooses(tracks: seq<Track>, groups: seq<Group>, c: Allocator, hot: bool)
    requires Fits(groups, c)
    ensures var r := FromOther(tracks, groups, c, hot).1;
            && FromOther(tracks, groups, c, hot).0.identical == c.identical
            && if Slot(c, !hot).Some? && var i := Slot(c, !hot).value; GoesOn(tracks, groups[i], c.vgs[i]) then
                 var i := Slot(c, !hot).value;
                 r.Some? && r.value.vg == i && !r.value.offered && IsNext(tracks, groups[i], c.vgs[i], r.value.pba)
               else r == None
  {
    hide GoesOn, IsNext, Ahead;
    if Slot(c, !hot).Some? {
      AheadExactly(tracks, groups[Slot(c, !hot).value], c.vgs[Slot(c, !hot).value]);
    }
  }

  lemma AllChooses(tracks: seq<Track>, groups: seq<Group>, c: Allocator, hot: bool)
    requires Fits(groups, c) && forall i: nat :: i < |groups| ==> groups[i].lower <= c.vgs[i].current
    ensures var (b, r) := FromAll(tracks, groups, c, hot);
            Fits(groups, b) &&
            var (d, q) := if r.Some? then (b, r) else FromOther(tracks, groups, b, hot);
            ChosenOfAll(tracks, groups, c, d, q, hot)
  {
    hide GoesOn, IsNext, FromFirstWithTrack, SomeHasTrack, FirstFit, FromOther, Indexes, Listing;
    AnyScanExactly(tracks, groups, c.vgs, c.random, hot);
    AnyScanExactly(tracks, groups, c.vgs, c.constrained, hot);
    var b := c.(identical := true);
    OtherChooses(tracks, groups, b, hot);
    AllFits(tracks, groups, c, hot);
  }

  lemma AllFits(tracks: seq<Track>, groups: seq<Group>, c: Allocator, hot: bool)
    requires Fits(groups, c)
    ensures Fits(groups, FromAll(tracks, groups, c, hot).0)
  {
    hide FirstFit;
    forall list: seq<nat>, i: nat, on: bool | Indexes(list, |groups|) && i < |groups|
      ensures Indexes(Listing(list, i, on), |groups|)
    {
      assert forall k :: 0 <= k < |list| ==> list[k] in list;
      var next := Listing(list, i, on);
      forall k | 0 <= k < |next|
        ensures next[k] < |groups|
      {
        assert next[k] in next;
      }
    }
  }

  lemma ListsChoose(tracks: seq<Track>, groups: seq<Group>, c: Allocator, hot: bool)
    requires Fits(groups, c) && forall i: nat :: i < |groups| ==> groups[i].lower <= c.vgs[i].current
    ensures var (b, r) := FromLists(tracks, groups, c, hot); Chosen(tracks, groups, c, b, r, hot)
  {
    hide GoesOn, FromFirstSuitable, SomeSuits, FirstFit, FromAll, FromOther, ChosenOfAll, Indexes, Listing;
    ScanExactly(tracks, groups, c.vgs, c.random, SameAttr, hot);
    ScanExactly(tracks, groups, c.vgs, c.constrained, OtherAttr, hot);
    AllChooses(tracks, groups, c, hot);
  }

  /** vg_get_block, when the group that is being filled does not go on. */
  lemma GetBlockChooses(tracks: seq<Track>, groups: seq<Group>, a: Allocator, hot: bool)
    requires Ordered(groups, a)
    requires Fits(groups, a) && Slot(a, hot).Some? ==>
               !GoesOn(tracks, groups[Slot(a, hot).value], a.vgs[Slot(a, hot).value])
    ensures Fits(groups, a) && Fits(groups, FromCurrent(tracks, groups, a, hot).0)
    ensures var (b, r) := GetBlock(tracks, groups, a, hot);
            Chosen(tracks, groups, FromCurrent(tracks, groups, a, hot).0, b, r, hot)
  {
    hide Ordered, GoesOn, Chosen, FromCurrent, FromLists;
    SlotIsGivenUp(tracks, groups, a, hot);
    CursorsAreWithin(groups, FromCurrent(tracks, groups, a, hot).0);
    ListsChoose(tracks, groups, FromCurrent(tracks, groups, a, hot).0, hot);
  }

  // ---- update_vg_list ----------------------------------------------------------------------------

  /** A track in front of the group's last, a top or not, holds data. */
  ghost predicate SeesData(tracks: seq<Track>, group: Group, parity: nat) {
    exists p: nat :: && group.lower <= p < group.higher && p % 2 == parity
                     && p < |tracks| && tracks[p].status in {Booked, InUse}
  }

  /** What _update_vg_list makes of a group that no one is filling: one with data on bottoms and tops is
      constrained, one with data on either is random and goes on behind them with the same kind of track, and one
      without data is free. */
  lemma ReclassifiedExactly(tracks: seq<Track>, groups: seq<Group>, a: Allocator, i: nat)
    requires i < |a.vgs| == |groups|
    ensures var b, vg, tops, bottoms :=
              Updated(tracks, groups, a, i), a.vgs[i], SeesData(tracks, groups[i], 1), SeesData(tracks, groups[i], 0);
            b.vgs == if vg.inUse then a.vgs
                     else if tops && bottoms then a.vgs[i := vg.(status := ConstrainedGroup)]
                     else if tops then a.vgs[i := vg.(status := RandomGroup, current := groups[i].topStart)]
                     else if bottoms then a.vgs[i := vg.(status := RandomGroup, current := groups[i].bottomStart)]
                     else a.vgs[i := vg.(status := FreeGroup)]
  {
    var group := groups[i];
    DataSeen(tracks, group, true);
    DataSeen(tracks, group, false);
  }

  lemma DataSeen(tracks: seq<Track>, group: Group, top: bool)
    ensures HasData(tracks, group, top, group.higher) <==> SeesData(tracks, group, if top then 1 else 0)
  {
    if HasData(tracks, group, top, group.higher) {
      var p :| group.lower <= p < group.higher && p < |tracks| && IsTop(p) == top && IsLive(tracks[p].status);
      assert p % 2 == if top then 1 else 0;
    }
    if SeesData(tracks, group, if top then 1 else 0) {
      var p: nat :| group.lower <= p < group.higher && p % 2 == (if top then 1 else 0) && p < |tracks| &&
                    tracks[p].status in {Booked, InUse};
      assert IsTop(p) == top;
    }
  }

  // ---- the lists themselves ----------------------------------------------------------------------

  /** Taking a group off a list leaves the others in their order. */
  lemma {:induction false} WithoutExactly(list: seq<nat>, k: nat)
    requires Distinct(list) && k < |list|
    ensures Without(list, list[k]) == list[..k] + list[k + 1..]
    decreases |list|
  {
    var n := |list| - 1;
    assert list == list[..n] + [list[n]];
    if k == n {
      WithoutAbsent(list[..n], list[n]);
    } else {
      WithoutExactly(list[..n], k);
      assert list[..n][..k] == list[..k];
      assert list[k + 1..] == list[..n][k + 1..] + [list[n]];
    }
  }

  /** A group whose status changes goes to the end of the list of that status, unless someone fills it. */
  lemma MovesToTheEnd(a: Allocator, i: nat, vg: Vg)
    requires i < |a.vgs|
    ensures var b := Place(a, i, vg);
            && b.vgs == a.vgs[i := vg] && b.identical == a.identical && b.hotVg == a.hotVg && b.coldVg == a.coldVg
            && b.free == Without(a.free, i) + (if !vg.inUse && vg.status == FreeGroup then [i] else [])
            && b.random == Without(a.random, i) + (if !vg.inUse && vg.status == RandomGroup then [i] else [])
            && b.constrained == Without(a.constrained, i) +
                 if !vg.inUse && vg.status == ConstrainedGroup then [i] else []
  {
  }
}
