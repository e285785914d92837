/** Virtual groups (builds with VIRTUAL_GROUPS) as values: how they divide the disk, and what a write with
    a dual swap does to it (src/virtual_groups.c, src/pba.c, src/lba.c). */
module VirtualGroupSpec {
  import opened DiskTypes

  // ---- the groups ----------------------------------------------------------------------------

  /** virtual_group_t: its borders and the next group of the list. */
  datatype Group = Group(lower: nat, higher: nat, topStart: nat, topEnd: nat, bottomStart: nat, bottomEnd: nat,
                         next: Option<nat>)

  /** n - 1 as an unsigned long. */
  function Before(n: nat): nat {
    if n == 0 then 0xFFFF_FFFF_FFFF_FFFF else n - 1
  }

  /** init_vg_element. */
  function Bordered(lower: nat, higher: nat, next: Option<nat>): Group {
    Group(lower, higher,
          if IsTop(lower) then lower else lower + 1, if IsTop(higher) then higher else Before(higher),
          if IsTop(lower) then lower + 1 else lower, if IsTop(higher) then Before(higher) else higher, next)
  }

  function GroupCount(max: nat, granularity: nat): nat
    requires granularity > 0
  {
    max / granularity + if max % granularity != 0 then 1 else 0
  }

  function GroupAt(i: nat, max: nat, granularity: nat): Group
    requires granularity > 0 && i < GroupCount(max, granularity)
  {
    if i < GroupCount(max, granularity) - 1
      then Bordered(i * granularity, i * granularity + (granularity - 1), Some(i + 1))
    else Bordered(i * granularity, Before(max), None)
  }

  /** track_to_vg_index */
  function TrackToVgIndex(track: nat, granularity: nat): nat
    requires granularity > 0
  {
    track / granularity
  }

  lemma ProductIsMonotone(a: nat, b: nat, g: nat)
    requires a <= b
    ensures a * g <= b * g
  {
  }

  lemma Quotient(p: nat, g: nat)
    requires g > 0
    ensures (p / g) * g <= p < (p / g + 1) * g
  {
    assert p == g * (p / g) + p % g;
  }

  lemma QuotientIs(p: nat, i: nat, g: nat)
    requires g > 0
    ensures i * g <= p < (i + 1) * g <==> p / g == i
  {
    Quotient(p, g);
    if i < p / g {
      ProductIsMonotone(i + 1, p / g, g);
    } else if i > p / g {
      ProductIsMonotone(p / g + 1, i, g);
    }
  }

  /** Where the last group ends. */
  lemma LastGroup(max: nat, g: nat)
    requires g > 0 && max > 0
    ensures var n := GroupCount(max, g); n > 0 && (n - 1) * g < max <= n * g
  {
    Quotient(max, g);
    assert max == g * (max / g) + max % g;
    if max % g == 0 {
      assert max / g > 0;
      assert (max / g - 1) * g == (max / g) * g - g;
    }
  }

  predicate Within(group: Group, track: nat) {
    group.lower <= track <= group.higher
  }

  /** The groups divide the disk: a track lies in the group of its index and in no other. */
  lemma GroupsPartition(i: nat, track: nat, max: nat, granularity: nat)
    requires granularity > 0 && track < max && i < GroupCount(max, granularity)
    ensures TrackToVgIndex(track, granularity) < GroupCount(max, granularity)
    ensures Within(GroupAt(i, max, granularity), track) <==> i == TrackToVgIndex(track, granularity)
  {
    var n := GroupCount(max, granularity);
    LastGroup(max, granularity);
    QuotientIs(track, i, granularity);
    Quotient(track, granularity);
    assert (i + 1) * granularity == i * granularity + granularity;
    if track / granularity >= n {
      ProductIsMonotone(n, track / granularity, granularity);
    }
    if track / granularity == n {
      assert false;
    }
  }

  lemma GroupsEndWithTheDisk(i: nat, track: nat, max: nat, granularity: nat)
    requires granularity > 0 && max > 0 && track >= max && i < GroupCount(max, granularity)
    ensures !Within(GroupAt(i, max, granularity), track)
  {
    LastGroup(max, granularity);
    if i < GroupCount(max, granularity) - 1 {
      ProductIsMonotone(i + 1, GroupCount(max, granularity) - 1, granularity);
      assert (i + 1) * granularity == i * granularity + granularity;
    }
  }

  /** The tops that dual_swap scans. */
  predicate Scanned(group: Group, track: nat) {
    group.topStart <= track <= group.topEnd && IsTop(track)
  }

  /** They are the tops of the group, unless the group is track 0 alone. */
  lemma ScannedExactly(i: nat, max: nat, granularity: nat)
    requires granularity > 0 && max > 0 && i < GroupCount(max, granularity)
    ensures (forall track: nat :: Scanned(GroupAt(i, max, granularity), track) <==>
            Within(GroupAt(i, max, granularity), track) && IsTop(track))
            <==> !(i == 0 && (granularity == 1 || max == 1))
  {
    var group := GroupAt(i, max, granularity);
    LastGroup(max, granularity);
    if i > 0 {
      ProductIsMonotone(1, i, granularity);
      ProductIsMonotone(i, GroupCount(max, granularity) - 1, granularity);
    }
    if i == 0 && group.higher == 0 {
      assert Scanned(group, 1) && !Within(group, 1);
    }
    assert i == 0 && granularity > 1 && max > 1 ==> group.higher > 0;
  }

  // ---- the disk ------------------------------------------------------------------------------

  /** `used` is current_use_block_num, `swaps` is dual_swap_count, `deleted` counts chs_delete. */
  datatype State = State(tracks: seq<Track>, ltp: seq<LtpEntry>, content: seq<Data>, used: int, swaps: nat,
                         deleted: nat)

  /** A valid LBA leads to the track it owns. */
  ghost predicate Forward(s: State) {
    forall l :: 0 <= l < |s.ltp| && s.ltp[l].valid ==>
      var p := s.ltp[l].pba; p < |s.tracks| && s.tracks[p].status == InUse && s.tracks[p].lba == l
  }

  /** A track in use is owned by a valid LBA that leads to it. */
  ghost predicate Backward(s: State) {
    forall p :: 0 <= p < |s.tracks| && s.tracks[p].status == InUse ==>
      var l := s.tracks[p].lba; l < |s.ltp| && s.ltp[l].valid && s.ltp[l].pba == p
  }

  /** The two maps are inverse, and current_use_block_num counts a track again each time it takes part in
      a dual swap, and never forgets a deleted one. */
  ghost predicate Sound(s: State) {
    && |s.content| == |s.tracks| && |s.ltp| >= |s.tracks|
    && Forward(s) && Backward(s)
    && (forall p :: 0 <= p < |s.tracks| ==> s.tracks[p].status in {Free, InUse, Invalid})
    && s.used == |InUseTracks(s.tracks)| + s.swaps + s.deleted
  }

  /** What the disk stores. */
  ghost function Store(s: State): (m: map<nat, FileData>)
    requires |s.content| == |s.tracks| && Forward(s)
    ensures forall l :: l in m <==> 0 <= l < |s.ltp| && s.ltp[l].valid
  {
    map l | 0 <= l < |s.ltp| && s.ltp[l].valid :: FileData(s.ltp[l].fid, s.content[s.ltp[l].pba])
  }

  lemma EmptyIsSound(s: State)
    requires |s.content| == |s.tracks| <= |s.ltp| && s.used == s.swaps == s.deleted == 0
    requires forall p :: 0 <= p < |s.tracks| ==> s.tracks[p].status == Free
    requires forall l :: 0 <= l < |s.ltp| ==> !s.ltp[l].valid
    ensures Sound(s) && Store(s) == map[]
  {
    assert InUseTracks(s.tracks) == {};
  }

  // ---- steps ---------------------------------------------------------------------------------

  function Book(s: State, p: nat): State
    requires p < |s.tracks|
  {
    s.(tracks := s.tracks[p := s.tracks[p].(status := Booked)])
  }

  function Link(s: State, lba: nat, p: nat, fid: nat): State
    requires lba < |s.ltp|
  {
    s.(ltp := s.ltp[lba := LtpEntry(p, fid, true)])
  }

  /** The end of lba_write: the track is given to the LBA and written. */
  function Settle(s: State, p: nat, lba: nat, data: Data): State
    requires p < |s.tracks| && p < |s.content|
  {
    s.(tracks := s.tracks[p := Track(InUse, lba, s.tracks[p].count + 1)],
       content := s.content[p := data],
       used := if s.tracks[p].status == InUse then s.used else s.used + 1)
  }

  /** dual_swap: the bottom takes over what the top holds, and the top is booked. */
  function Exchanged(s: State, top: nat, bottom: nat): State
    requires top < |s.tracks| == |s.content| && bottom < |s.tracks|
    requires s.tracks[top].lba < |s.ltp| || s.tracks[top].status != InUse
  {
    var t, b := s.tracks[top], s.tracks[bottom];
    if t.status == InUse then
      Book(s.(tracks := s.tracks[bottom := Track(InUse, t.lba, b.count + 1)],
              ltp := s.ltp[t.lba := s.ltp[t.lba].(pba := bottom)],
              content := s.content[bottom := s.content[top]], swaps := s.swaps + 1), top)
    else Book(s.(tracks := s.tracks[bottom := b.(status := t.status)], swaps := s.swaps + 1), top)
  }

  /** chs_delete */
  function Drop(s: State, p: nat): State
    requires p < |s.tracks| && s.tracks[p].lba < |s.ltp|
  {
    var l := s.tracks[p].lba;
    s.(tracks := s.tracks[p := s.tracks[p].(status := Invalid)], ltp := s.ltp[l := s.ltp[l].(valid := false)],
      deleted := s.deleted + 1)
  }

  // ---- what they keep --------------------------------------------------------------------------

  /** A free track takes an LBA that the disk does not hold. */
  lemma PlaceStores(s: State, p: nat, lba: nat, fid: nat, data: Data)
    requires Sound(s) && p < |s.tracks| && lba < |s.ltp| && !s.ltp[lba].valid && IsFree(s.tracks[p].status)
    ensures var u := Settle(Link(Book(s, p), lba, p, fid), p, lba, data);
            Sound(u) && Store(u) == Store(s)[lba := FileData(fid, data)]
  {
    hide InUseTracks;
    var u := Settle(Link(Book(s, p), lba, p, fid), p, lba, data);
    OneMoreInUse(s.tracks, u.tracks, p);
    assert Forward(u) && Backward(u);
  }

  /** An LBA is written again where it is. */
  lemma RewriteStores(s: State, lba: nat, data: Data)
    requires Sound(s) && lba < |s.ltp| && s.ltp[lba].valid
    ensures var u := Settle(s, s.ltp[lba].pba, lba, data);
            Sound(u) && Store(u) == Store(s)[lba := FileData(s.ltp[lba].fid, data)]
  {
    var u := Settle(s, s.ltp[lba].pba, lba, data);
    assert InUseTracks(u.tracks) == InUseTracks(s.tracks);
    assert Forward(u) && Backward(u);
  }

  /** An LBA is written again after a dual swap of its bottom track with `top`. */
  function Swapped(s: State, top: nat, lba: nat, data: Data): State
    requires Sound(s) && lba < |s.ltp| && s.ltp[lba].valid && top < |s.tracks|
  {
    Settle(Link(Exchanged(s, top, s.ltp[lba].pba), lba, top, s.ltp[lba].fid), top, lba, data)
  }

  /** The top comes into use, and the bottom takes over its status. */
  lemma ExchangeCounts(before: seq<Track>, after: seq<Track>, top: nat, bottom: nat)
    requires top < |before| == |after| && bottom < |before| && top != bottom &&
             before[bottom].status == after[top].status == InUse
    requires after[bottom].status == before[top].status
    requires forall p :: 0 <= p < |before| && p != top && p != bottom ==> after[p] == before[p]
    ensures |InUseTracks(after)| == |InUseTracks(before)|
  {
    var a, b := InUseTracks(before), InUseTracks(after);
    if before[top].status == InUse {
      assert a == b;
    } else {
      assert a - {bottom} == b - {top};
      assert bottom in a && |a - {bottom}| == |a| - 1;
      assert top in b && |b - {top}| == |b| - 1;
    }
  }

  lemma SwapKeepsCount(s: State, top: nat, lba: nat, data: Data)
    requires Sound(s) && lba < |s.ltp| && s.ltp[lba].valid && top < |s.tracks| && top != s.ltp[lba].pba
    ensures var u := Swapped(s, top, lba, data); u.used == |InUseTracks(u.tracks)| + u.swaps + u.deleted
  {
    hide InUseTracks;
    ExchangeCounts(s.tracks, Swapped(s, top, lba, data).tracks, top, s.ltp[lba].pba);
  }

  lemma SwapIsMapped(s: State, top: nat, lba: nat, data: Data)
    requires Sound(s) && lba < |s.ltp| && s.ltp[lba].valid && top < |s.tracks| && top != s.ltp[lba].pba
    ensures var u := Swapped(s, top, lba, data); Forward(u) && Backward(u) && u.ltp[lba].pba == top
    ensures forall m :: 0 <= m < |s.ltp| && m != lba ==>
              Swapped(s, top, lba, data).ltp[m] == if s.tracks[top].status == InUse && m == s.tracks[top].lba
                then s.ltp[m].(pba := s.ltp[lba].pba) else s.ltp[m]
  {
    hide InUseTracks;
  }

  lemma SwapIsStored(s: State, top: nat, lba: nat, data: Data)
    requires Sound(s) && lba < |s.ltp| && s.ltp[lba].valid && top < |s.tracks| && top != s.ltp[lba].pba
    requires var u := Swapped(s, top, lba, data); Forward(u)
    ensures Store(Swapped(s, top, lba, data)) == Store(s)[lba := FileData(s.ltp[lba].fid, data)]
  {
    hide InUseTracks;
  }

  /** A dual swap keeps the maps inverse: the LBA now owns the top, the LBA that the top held is redirected
      to the bottom together with its data, and no other LBA moves. */
  lemma SwapStores(s: State, top: nat, lba: nat, data: Data)
    requires Sound(s) && lba < |s.ltp| && s.ltp[lba].valid && top < |s.tracks| && top != s.ltp[lba].pba
    ensures var u := Swapped(s, top, lba, data);
            && Sound(u) && Store(u) == Store(s)[lba := FileData(s.ltp[lba].fid, data)]
            && u.ltp[lba].pba == top
            && (forall m :: 0 <= m < |s.ltp| && m != lba ==>
                  u.ltp[m] == if s.tracks[top].status == InUse && m == s.tracks[top].lba
                    then s.ltp[m].(pba := s.ltp[lba].pba) else s.ltp[m])
  {
    hide InUseTracks;
    SwapKeepsCount(s, top, lba, data);
    SwapIsMapped(s, top, lba, data);
    SwapIsStored(s, top, lba, data);
  }

  /** A deleted track: only its LBA leaves the disk. */
  lemma DropRemoves(s: State, lba: nat)
    requires Sound(s) && lba < |s.ltp| && s.ltp[lba].valid
    ensures var u := Drop(s, s.ltp[lba].pba);
            Sound(u) && Store(u) == Store(s) - {lba} && u.ltp == s.ltp[lba := s.ltp[lba].(valid := false)]
  {
    var p := s.ltp[lba].pba;
    var u := Drop(s, p);
    assert InUseTracks(u.tracks) == InUseTracks(s.tracks) - {p};
    assert Forward(u) && Backward(u);
  }

  /** When do_dual_swap calls for a swap: a bottom of a constrained group, with a neighbour that is not free. */
  predicate Crowded(tracks: seq<Track>, b: nat)
    requires b < |tracks|
  {
    !IsTop(b) && ((b + 1 < |tracks| && !IsFree(tracks[b + 1].status)) || (b > 0 && !IsFree(tracks[b - 1].status)))
  }

  lemma CrowdedExactly(tracks: seq<Track>, b: nat)
    requires b < |tracks|
    ensures Crowded(tracks, b) <==>
            b % 2 == 0 &&
            exists n: nat :: n < |tracks| && (n == b + 1 || n + 1 == b) && tracks[n].status !in {Free, Invalid}
  {
    if Crowded(tracks, b) {
      assert (b + 1 < |tracks| && tracks[b + 1].status !in {Free, Invalid}) ||
             (b > 0 && tracks[b - 1].status !in {Free, Invalid});
    }
  }

  /** A write once its track is known: `swapped` is the top of a dual swap, `pick` is a free track. */
  function Written(s: State, lba: nat, fid: nat, data: Data, swapped: Option<nat>, pick: Option<nat>): State
    requires Sound(s) && lba < |s.ltp|
    requires s.ltp[lba].valid && swapped.Some? ==> swapped.value < |s.tracks|
    requires !s.ltp[lba].valid ==> pick.Some? && pick.value < |s.tracks|
  {
    if !s.ltp[lba].valid then Settle(Link(Book(s, pick.value), lba, pick.value, fid), pick.value, lba, data)
    else if swapped.Some? then Swapped(s, swapped.value, lba, data)
    else Settle(s, s.ltp[lba].pba, lba, data)
  }

  /** Whichever way it goes, a write keeps the maps inverse, and changes what the disk stores at its own LBA
      only. */
  lemma WriteIsAssignment(s: State, lba: nat, fid: nat, data: Data, swapped: Option<nat>, pick: Option<nat>)
    requires Sound(s) && lba < |s.ltp| && (s.ltp[lba].valid ==> s.ltp[lba].fid == fid)
    requires s.ltp[lba].valid && swapped.Some? ==> swapped.value < |s.tracks| && swapped.value != s.ltp[lba].pba
    requires !s.ltp[lba].valid ==> pick.Some? && pick.value < |s.tracks| && IsFree(s.tracks[pick.value].status)
    ensures var u := Written(s, lba, fid, data, swapped, pick);
            Sound(u) && Store(u) == Store(s)[lba := FileData(fid, data)]
  {
    hide Sound, Store, Settle, Swapped;
    if !s.ltp[lba].valid {
      PlaceStores(s, pick.value, lba, fid, data);
    } else if swapped.Some? {
      SwapStores(s, swapped.value, lba, data);
    } else {
      RewriteStores(s, lba, data);
    }
  }

  lemma PlacedOnTaken(s: State, lba: nat, fid: nat, data: Data, p: nat)
    requires Sound(s) && lba < |s.ltp| && !s.ltp[lba].valid && p < |s.tracks| && s.tracks[p].status == InUse
    ensures var u, other := Written(s, lba, fid, data, None, Some(p)), s.tracks[p].lba;
            && other < |u.ltp| && other != lba && u.ltp[other].valid && u.ltp[lba].valid
            && u.ltp[other].pba == u.ltp[lba].pba == p
            && !Sound(u)
  {
    hide InUseTracks;
    var u := Written(s, lba, fid, data, None, Some(p));
    assert u.tracks[p].lba == lba;
  }

  /** A write keeps the maps inverse exactly when its LBA has a track or the track offered for it is free.
      Otherwise the offered track serves two LBAs. */
  lemma WriteKeepsExactly(s: State, lba: nat, fid: nat, data: Data, swapped: Option<nat>, pick: Option<nat>)
    requires Sound(s) && lba < |s.ltp| && (s.ltp[lba].valid ==> s.ltp[lba].fid == fid)
    requires s.ltp[lba].valid && swapped.Some? ==> swapped.value < |s.tracks| && swapped.value != s.ltp[lba].pba
    requires !s.ltp[lba].valid ==> pick.Some? && pick.value < |s.tracks|
    ensures var u := Written(s, lba, fid, data, swapped, pick);
            && (Sound(u) <==> s.ltp[lba].valid || IsFree(s.tracks[pick.value].status))
            && (Sound(u) ==> Store(u) == Store(s)[lba := FileData(fid, data)])
  {
    hide Forward, Backward, Store, Settle, Swapped, InUseTracks;
    if s.ltp[lba].valid || IsFree(s.tracks[pick.value].status) {
      WriteIsAssignment(s, lba, fid, data, swapped, pick);
    } else {
      PlacedOnTaken(s, lba, fid, data, pick.value);
    }
  }

  // ---- the victim ------------------------------------------------------------------------------

  predicate Candidate(tracks: seq<Track>, group: Group, t: nat) {
    Scanned(group, t) && t < |tracks| && tracks[t].status != Booked
  }

  /** Among the tops below `bound` none is free, and `t` is the first of those written least often. */
  ghost predicate LeastWritten(tracks: seq<Track>, group: Group, t: nat, bound: nat) {
    && Candidate(tracks, group, t) && t < bound
    && forall q :: 0 <= q < bound && Candidate(tracks, group, q) ==>
         !IsFree(tracks[q].status) && tracks[t].count <= tracks[q].count &&
         (q < t ==> tracks[t].count < tracks[q].count)
  }

  /** The top that dual_swap settles on: the first free one, or if there is none the first of those that
      were written least often. */
  ghost predicate Victim(tracks: seq<Track>, group: Group, t: nat) {
    && Candidate(tracks, group, t)
    && if IsFree(tracks[t].status) then forall q :: 0 <= q < t && Candidate(tracks, group, q) ==>
         !IsFree(tracks[q].status)
       else LeastWritten(tracks, group, t, |tracks|)
  }

  /** The scan so far. */
  ghost predicate BestBelow(tracks: seq<Track>, group: Group, best: Option<nat>, bound: nat) {
    match best
    case None => forall q :: 0 <= q < bound ==> !Candidate(tracks, group, q)
    case Some(t) => LeastWritten(tracks, group, t, bound)
  }

  lemma ScanOne(tracks: seq<Track>, group: Group, best: Option<nat>, t: nat)
    requires BestBelow(tracks, group, best, t) && Candidate(tracks, group, t)
    ensures IsFree(tracks[t].status) ==> Victim(tracks, group, t)
    ensures !IsFree(tracks[t].status) ==>
              BestBelow(tracks, group, if best == None || tracks[t].count < tracks[best.value].count then Some(t)
                else best, t + 2)
  {
    assert !Candidate(tracks, group, t + 1);
    assert forall q :: 0 <= q < t + 2 && Candidate(tracks, group, q) ==> q < t || q == t;
  }

  lemma ScanNone(tracks: seq<Track>, group: Group, best: Option<nat>, t: nat)
    requires BestBelow(tracks, group, best, t) && !Candidate(tracks, group, t) && IsTop(t)
    ensures BestBelow(tracks, group, best, t + 2)
  {
    assert !Candidate(tracks, group, t + 1);
    assert forall q :: 0 <= q < t + 2 && Candidate(tracks, group, q) ==> q < t;
  }

  /** A group of more than one track has a top beside each of its bottoms. */
  lemma GroupHasTop(i: nat, b: nat, max: nat, granularity: nat)
    requires granularity > 1 && max > 0 && max % 2 == 0 && i < GroupCount(max, granularity)
    requires Within(GroupAt(i, max, granularity), b) && !IsTop(b)
    ensures exists t: nat :: Within(GroupAt(i, max, granularity), t) && IsTop(t)
  {
    hide GroupAt, GroupCount;
    var group := GroupAt(i, max, granularity);
    GroupShape(i, max, granularity);
    assert IsTop(b + 1);
    if b < group.higher {
      assert Within(group, b + 1);
    } else {
      assert IsTop(b - 1) && Within(group, b - 1);
    }
  }

  lemma GroupShape(i: nat, max: nat, granularity: nat)
    requires granularity > 1 && max > 0 && i < GroupCount(max, granularity)
    ensures var group := GroupAt(i, max, granularity); group.lower < group.higher || group.higher == max - 1
  {
  }

  /** There is at most one. */
  lemma VictimIsUnique(tracks: seq<Track>, group: Group, t: nat, u: nat)
    requires Victim(tracks, group, t) && Victim(tracks, group, u)
    ensures t == u
  {
  }

  /** The victim by the tracks of the group: tops that are not booked are considered. */
  lemma VictimExactly(tracks: seq<Track>, i: nat, granularity: nat, t: nat)
    requires granularity > 1 && |tracks| > 1 && i < GroupCount(|tracks|, granularity)
    ensures var group := GroupAt(i, |tracks|, granularity);
            Victim(tracks, group, t) <==>
              && t < |tracks| && Within(group, t) && t % 2 == 1 && tracks[t].status != Booked
              && forall q: nat :: q < |tracks| && Within(group, q) && q % 2 == 1 && tracks[q].status != Booked ==>
                   if tracks[t].status in {Free, Invalid} then q < t ==> tracks[q].status !in {Free, Invalid}
                   else && tracks[q].status !in {Free, Invalid} && tracks[t].count <= tracks[q].count
                        && (q < t ==> tracks[t].count < tracks[q].count)
  {
    hide GroupAt, GroupCount, Within, Scanned;
    ScannedExactly(i, |tracks|, granularity);
    var group := GroupAt(i, |tracks|, granularity);
    assert forall q: nat :: Candidate(tracks, group, q) <==>
        q < |tracks| && Within(group, q) && q % 2 == 1 && tracks[q].status != Booked;
  }

  // ---- accesses --------------------------------------------------------------------------------

  lemma SettleCount(s: State, p: nat, lba: nat, data: Data)
    requires p < |s.tracks| && p < |s.content|
    ensures WriteCount(Settle(s, p, lba, data).tracks) == WriteCount(s.tracks) + 1
    ensures WriteCount(Book(s, p).tracks) == WriteCount(s.tracks)
  {
    hide WriteCount;
    OneTrackChanges(s.tracks, p, Settle(s, p, lba, data).tracks[p]);
    OneTrackChanges(s.tracks, p, Book(s, p).tracks[p]);
  }

  lemma ExchangeCount(s: State, top: nat, bottom: nat)
    requires Sound(s) && top < |s.tracks| && bottom < |s.tracks|
    ensures s.tracks[top].status == InUse ==> s.tracks[top].lba < |s.ltp|
    ensures var u := Exchanged(s, top, bottom);
            && |u.tracks| == |u.content| == |s.tracks| && |u.ltp| == |s.ltp|
            && WriteCount(u.tracks) == WriteCount(s.tracks) + if s.tracks[top].status == InUse then 1 else 0
  {
    hide WriteCount, InUseTracks;
    var t, b := s.tracks[top], s.tracks[bottom];
    var next := if t.status == InUse then Track(InUse, t.lba, b.count + 1) else b.(status := t.status);
    OneTrackChanges(s.tracks, bottom, next);
    var mid := s.tracks[bottom := next];
    OneTrackChanges(mid, top, mid[top].(status := Booked));
  }

  /** A write takes one access, and one more when a dual swap moves a top in use to the bottom. */
  lemma WriteCosts(s: State, lba: nat, fid: nat, data: Data, swapped: Option<nat>, pick: Option<nat>)
    requires Sound(s) && lba < |s.ltp|
    requires s.ltp[lba].valid && swapped.Some? ==> swapped.value < |s.tracks|
    requires !s.ltp[lba].valid ==> pick.Some? && pick.value < |s.tracks|
    ensures WriteCount(Written(s, lba, fid, data, swapped, pick).tracks) == WriteCount(s.tracks) +
              if s.ltp[lba].valid && swapped.Some? && s.tracks[swapped.value].status == InUse then 2 else 1
  {
    hide WriteCount, Settle, Exchanged, InUseTracks;
    if !s.ltp[lba].valid {
      SettleCount(s, pick.value, lba, data);
      SettleCount(Link(Book(s, pick.value), lba, pick.value, fid), pick.value, lba, data);
    } else if swapped.Some? {
      ExchangeCount(s, swapped.value, s.ltp[lba].pba);
      var u := Exchanged(s, swapped.value, s.ltp[lba].pba);
      SettleCount(Link(u, lba, swapped.value, s.ltp[lba].fid), swapped.value, lba, data);
    } else {
      SettleCount(s, s.ltp[lba].pba, lba, data);
    }
  }
}
