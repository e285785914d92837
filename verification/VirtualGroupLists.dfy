/** The lists of virtual groups in place: vg_get_block with its branches and update_vg_list. Every method does
    what the function of its name says. */
module VirtualGroupLists {
  import opened DiskTypes
  import opened VirtualGroupSpec
  import opened VirtualGroupAllocator

  /** The indexes below n, in order. */
  function UpTo(n: nat): (s: seq<nat>)
    ensures |s| == n && forall i :: 0 <= i < n ==> s[i] == i
    ensures forall i: nat :: i in s <==> i < n
  {
    if n == 0 then [] else UpTo(n - 1) + [n - 1]
  }

  class GroupLists {
    const vgs: array<Vg>
    var free: seq<nat>
    var random: seq<nat>
    var constrained: seq<nat>
    var hotVg: Option<nat>
    var coldVg: Option<nat>
    var identical: bool

    ghost function View(): Allocator
      reads this, vgs
    {
      Allocator(vgs[..], free, random, constrained, hotVg, coldVg, identical)
    }

    /** init_vg_element for every group: all are free and wait in order. */
    constructor (groups: array<Group>)
      requires forall i :: 0 <= i < groups.Length ==>
                 groups[i].lower <= groups[i].topStart && groups[i].lower <= groups[i].bottomStart
      ensures fresh(vgs) && vgs.Length == groups.Length && Ordered(groups[..], View())
      ensures forall i :: 0 <= i < groups.Length ==> vgs[i] == Vg(FreeGroup, false, false, groups[i].bottomStart)
      ensures free == UpTo(groups.Length) && random == constrained == [] && hotVg == None && coldVg == None &&
              !identical
    {
      vgs := new Vg[groups.Length](i requires 0 <= i < groups.Length reads groups =>
        Vg(FreeGroup, false, false, groups[i].bottomStart));
      free, random, constrained := UpTo(groups.Length), [], [];
      hotVg, coldVg, identical := None, None, false;
      new;
      assert forall i: nat :: i < groups.Length ==> free[i] == i;
    }

    /** A group changes and moves between the lists. */
    method PlaceVg(i: nat, vg: Vg)
      requires i < vgs.Length
      modifies this, vgs
      ensures View() == Place(old(View()), i, vg)
    {
      vgs[i] := vg;
      free := Listing(free, i, Waits(vg, FreeGroup));
      random := Listing(random, i, Waits(vg, RandomGroup));
      constrained := Listing(constrained, i, Waits(vg, ConstrainedGroup));
      assert vgs[..] == old(vgs[..])[i := vg];
    }

    method SetSlot(hot: bool, slot: Option<nat>)
      modifies this`hotVg, this`coldVg
      ensures View() == WithSlot(old(View()), hot, slot)
    {
      if hot {
        hotVg := slot;
      } else {
        coldVg := slot;
      }
    }

    /** The loop over every second track that the branches share. */
    method ScanAhead(tracks: array<Track>, from: nat, higher: nat) returns (r: Option<nat>)
      requires higher < tracks.Length
      ensures r == Ahead(tracks[..], from, higher)
    {
      var track := from;
      while track <= higher
        invariant Ahead(tracks[..], from, higher) == Ahead(tracks[..], track, higher)
        decreases higher + 2 - track
      {
        if !IsLive(tracks[track].status) {
          return Some(track);
        }
        track := track + 2;
      }
      return None;
    }

    /** The loop over every track. */
    method ScanAny(tracks: array<Track>, from: nat, higher: nat) returns (r: Option<nat>)
      requires higher < tracks.Length
      ensures r == AnyTrack(tracks[..], from, higher)
    {
      var track := from;
      while track <= higher
        invariant AnyTrack(tracks[..], from, higher) == AnyTrack(tracks[..], track, higher)
        decreases higher + 1 - track
      {
        if !IsLive(tracks[track].status) {
          return Some(track);
        }
        track := track + 1;
      }
      return None;
    }

    method ScanGroup(tracks: array<Track>, group: Group, vg: Vg, mode: Mode, hot: bool) returns (r: Option<nat>)
      requires group.higher < tracks.Length
      ensures r == Fit(tracks[..], group, vg, mode, hot)
    {
      if (mode == SameAttr && vg.hot != hot) || (mode == OtherAttr && vg.hot == hot) {
        return None;
      }
      r := ScanAhead(tracks, vg.current, group.higher);
      if r == None && mode == AnyAttr {
        r := ScanAny(tracks, group.lower, group.higher);
      }
    }

    /** One pass over a list. */
    method ScanList(tracks: array<Track>, groups: array<Group>, list: seq<nat>, mode: Mode, hot: bool)
        returns (r: Option<(nat, nat)>)
      requires vgs.Length == groups.Length && Indexes(list, groups.Length)
      requires forall i :: 0 <= i < groups.Length ==> groups[i].higher < tracks.Length
      ensures r == FirstFit(tracks[..], groups[..], vgs[..], list, mode, hot)
    {
      var k := 0;
      while k < |list|
        invariant k <= |list|
        invariant FirstFit(tracks[..], groups[..], vgs[..], list, mode, hot) ==
                  FirstFit(tracks[..], groups[..], vgs[..], list[k..], mode, hot)
      {
        var t := ScanGroup(tracks, groups[list[k]], vgs[list[k]], mode, hot);
        if t.Some? {
          return Some((list[k], t.value));
        }
        assert list[k..][1..] == list[k + 1..];
        k := k + 1;
      }
      return None;
    }

    /** set_vg */
    method SetVg(groups: array<Group>, i: nat)
      requires i < vgs.Length == groups.Length
      modifies this, vgs
      ensures View() == Released(groups[..], old(View()), i)
    {
      var vg := vgs[i];
      match vg.status {
        case FreeGroup =>
          PlaceVg(i, vg.(status := RandomGroup, inUse := false));
        case RandomGroup =>
          PlaceVg(i, Vg(ConstrainedGroup, vg.hot, false, if vg.hot then groups[i].bottomStart else groups[i].topStart));
        case ConstrainedGroup =>
          PlaceVg(i, vg.(inUse := false));
      }
    }

    /** get_vg, after which _vg_get_block moves the cursor on. */
    method GetVg(i: nat, hot: bool, t: nat)
      requires i < vgs.Length
      modifies this, vgs
      ensures View() == Taken(old(View()), i, hot, t)
    {
      PlaceVg(i, vgs[i].(inUse := true, current := t + 2));
      SetSlot(hot, Some(i));
    }

    method MoveCursor(i: nat, current: nat)
      requires i < vgs.Length
      modifies vgs
      ensures vgs[..] == old(vgs[..])[i := old(vgs[i]).(current := current)]
    {
      vgs[i] := vgs[i].(current := current);
    }

    /** vg_get_from_current_vg */
    method GetFromCurrent(tracks: array<Track>, groups: array<Group>, hot: bool) returns (r: Option<Block>)
      requires vgs.Length == groups.Length && Fits(groups[..], View())
      requires forall i :: 0 <= i < groups.Length ==> groups[i].higher < tracks.Length
      modifies this, vgs
      ensures (View(), r) == FromCurrent(tracks[..], groups[..], old(View()), hot)
    {
      hide Released, Ahead;
      var slot := if hot then hotVg else coldVg;
      if slot == None {
        return None;
      }
      var i := slot.value;
      var t := ScanAhead(tracks, vgs[i].current, groups[i].higher);
      if t.Some? {
        MoveCursor(i, t.value + 2);
        return Some(Block(i, t.value, false));
      }
      SetVg(groups, i);
      SetSlot(hot, None);
      return None;
    }

    /** vg_get_from_free_list */
    method GetFromFree(groups: array<Group>, hot: bool) returns (r: Option<Block>)
      requires vgs.Length == groups.Length && Fits(groups[..], View()) && free != []
      modifies this, vgs
      ensures (View(), r) == FromFree(groups[..], old(View()), hot)
    {
      var i := free[0];
      var t := if hot then groups[i].topStart else groups[i].bottomStart;
      PlaceVg(i, Vg(RandomGroup, hot, true, t + 2));
      SetSlot(hot, Some(i));
      return Some(Block(i, t, true));
    }

    /** vg_get_from_all_list */
    method GetFromAll(tracks: array<Track>, groups: array<Group>, hot: bool) returns (r: Option<Block>)
      requires vgs.Length == groups.Length && Fits(groups[..], View())
      requires forall i :: 0 <= i < groups.Length ==> groups[i].higher < tracks.Length
      modifies this, vgs
      ensures (View(), r) == FromAll(tracks[..], groups[..], old(View()), hot)
    {
      hide Taken, FirstFit;
      identical := true;
      var found := ScanList(tracks, groups, random, AnyAttr, hot);
      if found == None {
        found := ScanList(tracks, groups, constrained, AnyAttr, hot);
      }
      if found == None {
        return None;
      }
      GetVg(found.value.0, hot, found.value.1);
      return Some(Block(found.value.0, found.value.1, false));
    }

    /** vg_get_from_another_current. Failing here ends the program. */
    method GetFromOther(tracks: array<Track>, groups: array<Group>, hot: bool) returns (r: Option<Block>)
      requires vgs.Length == groups.Length && Fits(groups[..], View())
      requires forall i :: 0 <= i < groups.Length ==> groups[i].higher < tracks.Length
      modifies this, vgs
      ensures (View(), r) == FromOther(tracks[..], groups[..], old(View()), hot)
    {
      hide Ahead;
      var slot := if hot then coldVg else hotVg;
      if slot == None {
        return None;
      }
      var i := slot.value;
      var t := ScanAhead(tracks, vgs[i].current, groups[i].higher);
      if t == None {
        return None;
      }
      MoveCursor(i, t.value + 2);
      return Some(Block(i, t.value, false));
    }

    /** The branches of vg_get_block behind the first. */
    method GetFromLists(tracks: array<Track>, groups: array<Group>, hot: bool) returns (r: Option<Block>)
      requires vgs.Length == groups.Length && Ordered(groups[..], View()) && Slot(View(), hot) == None
      requires forall i :: 0 <= i < groups.Length ==> groups[i].higher < tracks.Length
      modifies this, vgs
      ensures Fits(groups[..], old(View()))
      ensures (View(), r) == FromLists(tracks[..], groups[..], old(View()), hot)
    {
      hide Ordered, FromFree, FromAll, FromOther, Taken, FirstFit;
      OrderedFits(groups[..], View());
      if !identical && free != [] {
        r := GetFromFree(groups, hot);
        return;
      }
      if !identical {
        var same := ScanList(tracks, groups, random, SameAttr, hot);
        if same.Some? {
          GetVg(same.value.0, hot, same.value.1);
          return Some(Block(same.value.0, same.value.1, false));
        }
        var other := ScanList(tracks, groups, constrained, OtherAttr, hot);
        if other.Some? {
          GetVg(other.value.0, hot, other.value.1);
          return Some(Block(other.value.0, other.value.1, false));
        }
      }
      FromAllKeeps(tracks[..], groups[..], View(), hot);
      OrderedFits(groups[..], FromAll(tracks[..], groups[..], View(), hot).0);
      r := GetFromAll(tracks, groups, hot);
      if r == None {
        r := GetFromOther(tracks, groups, hot);
      }
    }

    /** vg_get_block, up to the booking of the track. */
    method GetBlock(tracks: array<Track>, groups: array<Group>, hot: bool) returns (r: Option<Block>)
      requires vgs.Length == groups.Length && Ordered(groups[..], View())
      requires forall i :: 0 <= i < groups.Length ==> groups[i].higher < tracks.Length
      modifies this, vgs
      ensures (View(), r) == VirtualGroupAllocator.GetBlock(tracks[..], groups[..], old(View()), hot)
    {
      hide Ordered, FromCurrent, FromLists;
      FromCurrentKeeps(tracks[..], groups[..], View(), hot);
      r := GetFromCurrent(tracks, groups, hot);
      if r == None {
        r := GetFromLists(tracks, groups, hot);
      }
    }

    // ---- the status of groups ------------------------------------------------------------------

    /** The scan of _update_vg_list, which stops short of the last track. */
    method ScanData(tracks: array<Track>, group: Group) returns (topData: bool, bottomData: bool)
      requires group.higher < tracks.Length
      ensures topData == HasData(tracks[..], group, true, group.higher) &&
              bottomData == HasData(tracks[..], group, false, group.higher)
    {
      topData, bottomData := false, false;
      var i := group.lower;
      while i < group.higher
        invariant group.lower <= i && (i <= group.higher || i == group.lower)
        invariant topData == HasData(tracks[..], group, true, i) && bottomData == HasData(tracks[..], group, false, i)
      {
        HasDataNext(tracks[..], group, i, true);
        HasDataNext(tracks[..], group, i, false);
        if IsLive(tracks[i].status) {
          if IsTop(i) {
            topData := true;
          } else {
            bottomData := true;
          }
        }
        i := i + 1;
      }
    }

    /** _update_vg_list */
    method UpdateVg(tracks: array<Track>, groups: array<Group>, i: nat)
      requires i < vgs.Length == groups.Length && groups[i].higher < tracks.Length
      modifies this, vgs
      ensures View() == Updated(tracks[..], groups[..], old(View()), i)
    {
      hide HasData;
      var vg := vgs[i];
      if vg.inUse {
        return;
      }
      var topData, bottomData := ScanData(tracks, groups[i]);
      var status := Classified(topData, bottomData);
      var current := if status != RandomGroup then vg.current else if topData then groups[i].topStart
        else groups[i].bottomStart;
      PlaceVg(i, Vg(status, vg.hot, false, current));
    }

    /** update_vg_list for the tracks of a batch. */
    method UpdateVgList(tracks: array<Track>, groups: array<Group>, granularity: nat, batch: seq<nat>)
      requires vgs.Length == groups.Length && granularity > 0
      requires forall i :: 0 <= i < groups.Length ==> groups[i].higher < tracks.Length
      requires forall k :: 0 <= k < |batch| ==> TrackToVgIndex(batch[k], granularity) < groups.Length
      modifies this, vgs
      ensures View() == UpdatedAll(tracks[..], groups[..], old(View()), Touched(batch, granularity), groups.Length)
    {
      hide TrackToVgIndex, Updated;
      var marks := new bool[groups.Length](_ => false);
      var k := 0;
      while k < |batch|
        invariant k <= |batch| && View() == old(View())
        invariant forall i :: 0 <= i < marks.Length ==> (marks[i] <==> i in Touched(batch[..k], granularity))
      {
        TouchedNext(batch, k, granularity);
        marks[TrackToVgIndex(batch[k], granularity)] := true;
        k := k + 1;
      }
      assert batch[..k] == batch;
      ghost var marked := Touched(batch, granularity);
      var i := 0;
      while i < groups.Length
        invariant i <= groups.Length
        invariant forall j :: 0 <= j < marks.Length ==> (marks[j] <==> j in marked)
        invariant View() == UpdatedAll(tracks[..], groups[..], old(View()), marked, i)
      {
        if marks[i] {
          UpdateVg(tracks, groups, i);
        }
        i := i + 1;
      }
    }
  }

  /** The groups of a batch. */
  function Touched(batch: seq<nat>, granularity: nat): set<nat>
    requires granularity > 0
  {
    set k | 0 <= k < |batch| :: TrackToVgIndex(batch[k], granularity)
  }

  lemma TouchedNext(batch: seq<nat>, k: nat, granularity: nat)
    requires granularity > 0 && k < |batch|
    ensures Touched(batch[..k + 1], granularity) == Touched(batch[..k], granularity) +
            {TrackToVgIndex(batch[k], granularity)}
  {
    var s := batch[..k + 1];
    assert forall j :: 0 <= j < k ==> s[j] == batch[..k][j];
    assert s[k] == batch[k];
  }

  lemma HasDataNext(tracks: seq<Track>, group: Group, i: nat, top: bool)
    requires group.lower <= i < |tracks|
    ensures HasData(tracks, group, top, i + 1) <==>
            HasData(tracks, group, top, i) || (IsTop(i) == top && IsLive(tracks[i].status))
  {
    if HasData(tracks, group, top, i) {
      var k :| group.lower <= k < i && k < |tracks| && IsTop(k) == top && IsLive(tracks[k].status);
      assert group.lower <= k < i + 1;
    }
  }
}
