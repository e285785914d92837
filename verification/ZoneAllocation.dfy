/** The phased allocator as functions on values: where zalloc_find_next_pba (src/pba.c, builds without
    NEW_ALLOC and DEDU_WRITE) looks, when it stops looking, and the order in which it fills a disk. */
module ZoneAllocation {
  import opened DiskTypes

  // ---- zones -------------------------------------------------------------------------------

  datatype Zones = Zones(phase1Start: nat, phase1End: nat, phase2Start: nat, phase2End: nat, phase3Start: nat,
                         phase3End: nat)

  /** The zone borders that init_disk computes. */
  function InitZones(max: nat): Zones
    requires max >= 4
  {
    var last := max - 1;
    var phase1Start := 0;
    var phase1End := if IsTop(last) then last - 1 else last;
    var phase2Start := if IsTop(last) then last else last - 1;
    var phase2End := phase1Start + phase2Start % 4;
    var phase3Start := if phase2End == phase1Start + 1 then phase1Start + 3 else phase1Start + 1;
    Zones(phase1Start, phase1End, phase2Start, phase2End, phase3Start,
      phase3Start + ((last - phase3Start) - (last - phase3Start) % 4))
  }

  lemma ZonesOfWholeGigabytes(max: nat)
    requires max >= 4 && max % 4 == 0
    ensures InitZones(max) == Zones(0, max - 2, max - 1, 3, 1, max - 3)
  {
    var j := max / 4 - 1;
    Residue(4, j, 3);
    Residue(4, j, 2);
    Residue(2, 2 * j + 1, 1);
    assert max == 4 * j + 4;
  }

  lemma Residue(m: nat, q: int, r: nat)
    requires r < m <= 4
    ensures (m * q + r) % m == r
  {
    if m == 1 {
    } else if m == 2 {
    } else if m == 3 {
    }
  }

  /** TOP_BUFFER_CAPACITY */
  function Capacity(max: nat): nat {
    2 * (max / 100)
  }

  datatype Phase = Phase1 | Phase2 | Phase3

  /** Where the allocator and the cursors stand. */
  datatype Position = Position(phase: Phase, current: int, full: bool, enabled: bool, initialized: bool, maxPairs: int)

  /** Phase 1 walks the bottoms upwards and rests on the last of them once it is full; phase 2 walks
      every second top downwards and never below its end; phase 3 walks upwards past the end. Buffering
      is enabled only before the last tops of phase 3, and the capacity shrinks only after that. */
  predicate Zoned(z: Position, max: nat, pairs: int) {
    && max % 4 == 0 && max >= 512
    && 0 <= pairs <= z.maxPairs
    && (z.phase == Phase1 ==>
         z.current % 2 == 0 && 0 <= z.current <= max - 2 && (z.full ==> z.current == max - 2) && !z.enabled &&
         !z.initialized)
    && (z.phase == Phase2 ==> z.current % 4 == 3 && 3 <= z.current <= max - 1)
    && (z.phase == Phase3 ==>
         z.current % 2 == 1 && 1 <= z.current <= max + 3 && (!z.initialized ==> z.current <= max - 3))
    && (z.enabled ==> !z.initialized)
    && (!z.initialized ==> z.maxPairs == Capacity(max))
  }

  lemma FewerPairs(z: Position, max: nat, pairs: int, fewer: int)
    requires Zoned(z, max, pairs) && 0 <= fewer <= pairs
    ensures Zoned(z, max, fewer)
  {
  }

  /** While buffering is enabled, the capacity is what init_disk made it. */
  lemma CapacityWhileEnabled(z: Position, max: nat, pairs: int)
    requires Zoned(z, max, pairs) && z.enabled
    ensures z.maxPairs >= 1 && max % 4 == 0 && max >= 512
  {
  }

  lemma PairBelow(z: Position, max: nat, pairs: int)
    requires Zoned(z, max, pairs) && pairs < z.maxPairs
    ensures Zoned(z, max, pairs + 1)
  {
  }

  function PhasesLeft(p: Phase): nat {
    match p
    case Phase1 => 2
    case Phase2 => 1
    case Phase3 => 0
  }

  /** How far the allocator is from the end of its phase. */
  function Distance(z: Position, max: nat): int {
    match z.phase
    case Phase1 => max - z.current
    case Phase2 => z.current
    case Phase3 => max + 4 - z.current
  }

  /** What makes the allocator's loop end: a phase is left, a flag is set for good, or the end of the
      phase comes closer. */
  predicate Closer(before: Position, after: Position, max: nat) {
    if PhasesLeft(after.phase) != PhasesLeft(before.phase) then PhasesLeft(after.phase) < PhasesLeft(before.phase)
    else if after.full != before.full then after.full
    else if after.initialized != before.initialized then after.initialized
    else 0 <= Distance(after, max) < Distance(before, max)
  }

  lemma PairsAreNatural(z: Position, max: nat, pairs: int)
    requires Zoned(z, max, pairs)
    ensures 0 <= pairs <= z.maxPairs
  {
  }

  lemma ZonedSizes(z: Position, max: nat, pairs: int)
    requires Zoned(z, max, pairs)
    ensures max % 4 == 0 && max >= 512
  {
  }

  lemma RestartPhase1(z: Position, max: nat, pairs: int, bottom: nat)
    requires Zoned(z, max, pairs) && z.phase == Phase1 && bottom % 2 == 0 && bottom + 2 <= max
    ensures Zoned(z.(current := bottom, full := false), max, pairs)
  {
  }

  // ---- the search --------------------------------------------------------------------------

  /** The switch of the source: the round looks at the track it starts from and moves on. */
  function Advance(z: Position, max: nat): Position {
    match z.phase
    case Phase1 =>
      var y := if z.full then z.(phase := Phase2, current := max - 1, enabled := true) else z;
      if z.current == max - 2 then y.(full := true) else y.(current := y.current + 2)
    case Phase2 =>
      if z.current == 3 then z.(phase := Phase3, current := 1) else z.(current := z.current - 4)
    case Phase3 =>
      if z.current >= max - z.maxPairs && !z.initialized then z.(enabled := false, initialized := true)
      else z.(current := z.current + 4)
  }

  predicate RunOut(z: Position, max: nat) {
    z.phase == Phase3 && z.current > max
  }

  lemma AdvanceKeeps(z: Position, max: nat, pairs: int)
    requires Zoned(z, max, pairs) && !RunOut(z, max)
    ensures Zoned(Advance(z, max), max, pairs) && Closer(z, Advance(z, max), max)
    ensures 0 <= z.current < max && Advance(z, max).maxPairs == z.maxPairs
    ensures z.phase == Phase3 ==> Advance(z, max).phase == Phase3
  {
    hide Capacity, Zoned, Closer;
    match z.phase
    case Phase1 => AdvancePhase1(z, max, pairs);
    case Phase2 => AdvancePhase2(z, max, pairs);
    case Phase3 => AdvancePhase3(z, max, pairs);
  }

  lemma AdvancePhase1(z: Position, max: nat, pairs: int)
    requires Zoned(z, max, pairs) && z.phase == Phase1
    ensures Zoned(Advance(z, max), max, pairs) && Closer(z, Advance(z, max), max)
    ensures 0 <= z.current < max && Advance(z, max).maxPairs == z.maxPairs
  {
    hide Capacity;
  }

  lemma AdvancePhase2(z: Position, max: nat, pairs: int)
    requires Zoned(z, max, pairs) && z.phase == Phase2
    ensures Zoned(Advance(z, max), max, pairs) && Closer(z, Advance(z, max), max)
    ensures 0 <= z.current < max && Advance(z, max).maxPairs == z.maxPairs
  {
    hide Capacity;
  }

  lemma AdvancePhase3(z: Position, max: nat, pairs: int)
    requires Zoned(z, max, pairs) && !RunOut(z, max) && z.phase == Phase3
    ensures Zoned(Advance(z, max), max, pairs) && Closer(z, Advance(z, max), max)
    ensures 0 <= z.current < max && Advance(z, max).maxPairs == z.maxPairs && Advance(z, max).phase == Phase3
  {
    hide Capacity;
    CapacityOfZones(max);
  }

  lemma CapacityOfZones(max: nat)
    requires max >= 512
    ensures 10 <= Capacity(max) <= max - 8
  {
  }

  /** The first free bottom at or above b. */
  function FreeBottom(free: seq<bool>, b: nat): (r: Option<nat>)
    requires b % 2 == 0
    ensures r.Some? ==> b <= r.value < |free| && r.value % 2 == 0 && free[r.value]
    ensures r.Some? ==> forall k :: b <= k < r.value && k % 2 == 0 ==> !free[k]
    ensures r.None? ==> forall k :: b <= k < |free| && k % 2 == 0 ==> !free[k]
    decreases |free| - b
  {
    if b >= |free| then None else if free[b] then Some(b) else FreeBottom(free, b + 2)
  }

  /** One allocation: the position it leaves and the track it finds; None when phase 3 has run out. */
  function Allocate(z: Position, free: seq<bool>, max: nat, pairs: int): (r: (Position, Option<nat>))
    requires Zoned(z, max, pairs) && |free| == max
    ensures Zoned(r.0, max, pairs)
    ensures r.1.Some? ==> r.1.value < max && free[r.1.value]
    ensures r.1.None? ==> RunOut(r.0, max)
    decreases PhasesLeft(z.phase), !z.full, !z.initialized, Distance(z, max)
  {
    if RunOut(z, max) then (z, None)
    else if z.phase == Phase1 && z.full && FreeBottom(free, 0).Some? then
      RestartPhase1(z, max, pairs, FreeBottom(free, 0).value);
      (z.(current := FreeBottom(free, 0).value, full := false), FreeBottom(free, 0))
    else
      AdvanceKeeps(z, max, pairs);
      if free[z.current] then (Advance(z, max), Some(z.current))
      else Allocate(Advance(z, max), free, max, pairs)
  }

  /** One round of the search. */
  lemma AllocateRound(z: Position, free: seq<bool>, max: nat, pairs: int)
    requires Zoned(z, max, pairs) && |free| == max
    ensures RunOut(z, max) ==> Allocate(z, free, max, pairs) == (z, None)
    ensures !RunOut(z, max) && z.phase == Phase1 && z.full && FreeBottom(free, 0).Some? ==>
              Allocate(z, free, max, pairs) ==
                (z.(current := FreeBottom(free, 0).value, full := false), FreeBottom(free, 0))
    ensures !RunOut(z, max) && !(z.phase == Phase1 && z.full && FreeBottom(free, 0).Some?) ==>
              0 <= z.current < max && Zoned(Advance(z, max), max, pairs) && Closer(z, Advance(z, max), max) &&
              Allocate(z, free, max, pairs) == if free[z.current] then (Advance(z, max), Some(z.current))
                else Allocate(Advance(z, max), free, max, pairs)
  {
    if !RunOut(z, max) {
      AdvanceKeeps(z, max, pairs);
    }
  }

  lemma {:induction false} AllocateKeepsCapacity(z: Position, free: seq<bool>, max: nat, pairs: int)
    requires Zoned(z, max, pairs) && |free| == max
    ensures Allocate(z, free, max, pairs).0.maxPairs == z.maxPairs
    ensures RunOut(z, max) || Advance(z, max).maxPairs == z.maxPairs
    decreases PhasesLeft(z.phase), !z.full, !z.initialized, Distance(z, max)
  {
    hide Zoned, Advance, Capacity;
    AllocateRound(z, free, max, pairs);
    if !RunOut(z, max) {
      AdvanceKeeps(z, max, pairs);
      if !(z.phase == Phase1 && z.full && FreeBottom(free, 0).Some?) && !free[z.current] {
        AllocateKeepsCapacity(Advance(z, max), free, max, pairs);
      }
    }
  }

  // ---- what is left ----------------------------------------------------------------------------

  /** Where the allocator has not looked yet: in phase 1 the tops and the bottoms from its track on, in
      phase 2 the second half of the tops and the rest of the first, in phase 3 the rest of the second. */
  predicate Ahead(z: Position, p: int) {
    match z.phase
    case Phase1 => p % 2 == 1 || (!z.full && z.current <= p)
    case Phase2 => p % 4 == 1 || (p % 4 == 3 && p <= z.current)
    case Phase3 => p % 4 == 1 && z.current % 4 == 1 && z.current <= p
  }

  /** Every free track is still ahead. */
  ghost predicate Pending(z: Position, free: seq<bool>) {
    forall p :: 0 <= p < |free| && free[p] ==> Ahead(z, p)
  }

  ghost predicate NoneFree(free: seq<bool>) {
    forall p :: 0 <= p < |free| ==> !free[p]
  }

  lemma AdvancePasses(z: Position, max: nat, pairs: int, p: int)
    requires Zoned(z, max, pairs) && !RunOut(z, max) && 0 <= p < max && p != z.current && Ahead(z, p)
    ensures Ahead(Advance(z, max), p)
  {
    hide Capacity;
  }

  /** A round leaves no free track behind but the one it looks at. */
  lemma AdvancePending(z: Position, free: seq<bool>, max: nat, pairs: int)
    requires Zoned(z, max, pairs) && !RunOut(z, max) && |free| == max && Pending(z, free)
    ensures 0 <= z.current < max && Pending(Advance(z, max), free[z.current := false])
  {
    hide Capacity, Zoned, Advance, Ahead;
    AdvanceKeeps(z, max, pairs);
    forall p | 0 <= p < max && free[z.current := false][p]
      ensures Ahead(Advance(z, max), p)
    {
      AdvancePasses(z, max, pairs, p);
    }
  }

  lemma NothingAhead(z: Position, free: seq<bool>, max: nat)
    requires RunOut(z, max) && |free| == max && Pending(z, free)
    ensures NoneFree(free)
  {
  }

  lemma NoBottomAhead(z: Position, free: seq<bool>)
    requires z.phase == Phase1 && z.full && Pending(z, free)
    ensures FreeBottom(free, 0).None?
  {
  }

  /** While every free track is ahead, an allocation fails exactly when no track is free, and it leaves the
      other free tracks ahead. */
  lemma {:induction false} AllocateExactly(z: Position, free: seq<bool>, max: nat, pairs: int)
    requires Zoned(z, max, pairs) && |free| == max && Pending(z, free)
    ensures var (y, r) := Allocate(z, free, max, pairs);
            && (r.None? <==> NoneFree(free))
            && Pending(y, match r case None => free case Some(p) => free[p := false])
    decreases PhasesLeft(z.phase), !z.full, !z.initialized, Distance(z, max)
  {
    hide Zoned, Advance, Pending, Capacity;
    AllocateRound(z, free, max, pairs);
    if RunOut(z, max) {
      NothingAhead(z, free, max);
    } else {
      if z.phase == Phase1 && z.full {
        NoBottomAhead(z, free);
      }
      AdvancePending(z, free, max, pairs);
      if !free[z.current] {
        assert free[z.current := false] == free;
        AllocateExactly(Advance(z, max), free, max, pairs);
      }
    }
  }

  // ---- the order on a fresh disk -------------------------------------------------------------

  /** The k-th track handed out: the bottoms upwards, every second top downwards, the others upwards. */
  function Order(k: nat, max: nat): int {
    if k < max / 2 then 2 * k
    else if k < max / 2 + max / 4 then max - 1 - 4 * (k - max / 2)
    else 1 + 4 * (k - max / 2 - max / 4)
  }

  /** When a track is handed out. */
  function Rank(p: nat, max: nat): int {
    if p % 2 == 0 then p / 2
    else if p % 4 == 3 then max / 2 + (max - 1 - p) / 4
    else max / 2 + max / 4 + (p - 1) / 4
  }

  /** Every track is handed out exactly once: Order and Rank are inverse bijections of the tracks. */
  lemma OrderIsAPermutation(max: nat, g: nat)
    requires max == 4 * g
    ensures forall k :: 0 <= k < max ==> 0 <= Order(k, max) < max && Rank(Order(k, max), max) == k
    ensures forall p :: 0 <= p < max ==> 0 <= Rank(p, max) < max && Order(Rank(p, max), max) == p
  {
    forall k | 0 <= k < max
      ensures 0 <= Order(k, max) < max && Rank(Order(k, max), max) == k
    {
      OrderThenRank(k, g);
    }
    forall p | 0 <= p < max
      ensures 0 <= Rank(p, max) < max && Order(Rank(p, max), max) == p
    {
      RankThenOrder(p, g);
    }
  }

  lemma OrderThenRank(k: nat, g: nat)
    requires k < 4 * g
    ensures 0 <= Order(k, 4 * g) < 4 * g && Rank(Order(k, 4 * g), 4 * g) == k
  {
    var max := 4 * g;
    assert max / 2 == 2 * g && max / 4 == g;
    if k < 2 * g {
    } else if k < 3 * g {
      var i := k - 2 * g;
      var p := Order(k, max);
      assert p == 4 * (g - 1 - i) + 3;
      Residue(4, g - 1 - i, 3);
      Residue(2, 2 * (g - 1 - i) + 1, 1);
      assert max - 1 - p == 4 * i;
    } else {
      var i := k - 3 * g;
      var p := Order(k, max);
      assert p == 4 * i + 1;
      Residue(4, i, 1);
      Residue(2, 2 * i, 1);
      assert p - 1 == 4 * i;
    }
  }

  lemma RankThenOrder(p: nat, g: nat)
    requires p < 4 * g
    ensures 0 <= Rank(p, 4 * g) < 4 * g && Order(Rank(p, 4 * g), 4 * g) == p
  {
    var max := 4 * g;
    assert max / 2 == 2 * g && max / 4 == g;
    var j, r := p / 4, p % 4;
    if r == 0 || r == 2 {
      Residue(2, 2 * j + r / 2, 0);
      assert p == 2 * (2 * j + r / 2);
    } else {
      Residue(2, 2 * j + (r - 1) / 2, 1);
      if r == 3 {
        assert max - 1 - p == 4 * (g - 1 - j);
        assert Rank(p, max) == 2 * g + (g - 1 - j);
      } else {
        assert p - 1 == 4 * j;
        assert Rank(p, max) == 3 * g + j;
      }
    }
  }

  /** The position before the k-th allocation on a disk of 4g tracks that nothing was given back to. In
      phase 3, the round that switches buffering off does not move. */
  predicate At(z: Position, k: nat, g: nat) {
    if k < 2 * g then z.phase == Phase1 && z.current == 2 * k && !z.full
    else if k == 2 * g then z.phase == Phase1 && z.current == 4 * g - 2 && z.full
    else if k < 3 * g then z.phase == Phase2 && z.current == 4 * g - 1 - 4 * (k - 2 * g)
    else
      z.phase == Phase3 &&
      (z.current == 1 + 4 * (k - 3 * g) || (k > 3 * g && z.initialized && z.current == 1 + 4 * (k - 1 - 3 * g)))
  }

  /** The tracks handed out so far are the first k of the order. */
  ghost predicate Untouched(free: seq<bool>, k: nat, max: nat) {
    |free| == max && forall p :: 0 <= p < max ==> (free[p] <==> Rank(p, max) >= k)
  }

  lemma OrderByPhase(k: nat, g: nat)
    requires k < 4 * g
    ensures k < 2 * g ==> Order(k, 4 * g) == 2 * k
    ensures 2 * g <= k < 3 * g ==> Order(k, 4 * g) == 4 * g - 1 - 4 * (k - 2 * g)
    ensures 3 * g <= k ==> Order(k, 4 * g) == 1 + 4 * (k - 3 * g)
  {
    assert (4 * g) / 2 == 2 * g && (4 * g) / 4 == g;
  }

  lemma NthInPhase1(z: Position, free: seq<bool>, k: nat, g: nat)
    requires g >= 128 && Zoned(z, 4 * g, 0) && At(z, k, g) && Untouched(free, k, 4 * g) && k <= 2 * g
    ensures var (y, r) := Allocate(z, free, 4 * g, 0); r == Some(Order(k, 4 * g)) && At(y, k + 1, g)
  {
    var max := 4 * g;
    AdvanceKeeps(z, max, 0);
    if k < 2 * g {
      OrderThenRank(k, g);
    } else {
      assert FreeBottom(free, 0).None?;
      assert Rank(max - 2, max) == 2 * g - 1;
      var y := Advance(z, max);
      AdvanceKeeps(y, max, 0);
      OrderThenRank(k, g);
    }
  }

  lemma NthInPhase2(z: Position, free: seq<bool>, k: nat, g: nat)
    requires g >= 128 && Zoned(z, 4 * g, 0) && At(z, k, g) && Untouched(free, k, 4 * g) && 2 * g < k < 3 * g
    ensures var (y, r) := Allocate(z, free, 4 * g, 0); r == Some(Order(k, 4 * g)) && At(y, k + 1, g)
  {
    hide Order, Rank;
    AdvanceKeeps(z, 4 * g, 0);
    OrderThenRank(k, g);
    OrderByPhase(k, g);
  }

  lemma NthInPhase3(z: Position, free: seq<bool>, k: nat, g: nat)
    requires g >= 128 && Zoned(z, 4 * g, 0) && At(z, k, g) && Untouched(free, k, 4 * g) && 3 * g <= k < 4 * g
    requires z.current == 1 + 4 * (k - 3 * g)
    ensures var (y, r) := Allocate(z, free, 4 * g, 0); r == Some(Order(k, 4 * g)) && At(y, k + 1, g)
  {
    hide Order, Rank;
    AdvanceKeeps(z, 4 * g, 0);
    OrderThenRank(k, g);
    OrderByPhase(k, g);
  }

  /** The k-th allocation returns the k-th track of the order, until every track has been handed out. */
  lemma NthAllocation(z: Position, free: seq<bool>, k: nat, g: nat)
    requires g >= 128 && Zoned(z, 4 * g, 0) && At(z, k, g) && Untouched(free, k, 4 * g) && k <= 4 * g
    ensures var (y, r) := Allocate(z, free, 4 * g, 0);
            if k < 4 * g then r == Some(Order(k, 4 * g)) && At(y, k + 1, g) else r == None
  {
    var max := 4 * g;
    if k <= 2 * g {
      NthInPhase1(z, free, k, g);
    } else if k < 3 * g {
      NthInPhase2(z, free, k, g);
    } else if z.current == 1 + 4 * (k - 3 * g) {
      if k < max {
        NthInPhase3(z, free, k, g);
      }
    } else {
      OrderThenRank(k - 1, g);
      AdvanceKeeps(z, max, 0);
      if k < max {
        NthInPhase3(Advance(z, max), free, k, g);
      }
    }
  }

  /** The tracks that n allocations in a row hand out. */
  function Fill(z: Position, free: seq<bool>, max: nat, n: nat): seq<nat>
    requires Zoned(z, max, 0) && |free| == max
    decreases n
  {
    if n == 0 then []
    else
      match Allocate(z, free, max, 0)
      case (_, None) => []
      case (y, Some(p)) => [p] + Fill(y, free[p := false], max, n - 1)
  }

  lemma FillOnce(z: Position, free: seq<bool>, max: nat, n: nat)
    requires Zoned(z, max, 0) && |free| == max
    ensures var (y, r) := Allocate(z, free, max, 0);
            Fill(z, free, max, n) == if n == 0 || r.None? then []
              else [r.value] + Fill(y, free[r.value := false], max, n - 1)
  {
  }

  /** m tracks of the order from the k-th on. */
  function Ordered(k: nat, m: nat, max: nat): (s: seq<int>)
    ensures |s| == m && forall i :: 0 <= i < m ==> s[i] == Order(k + i, max)
    decreases m
  {
    if m == 0 then [] else [Order(k, max)] + Ordered(k + 1, m - 1, max)
  }

  function Min(a: int, b: int): int {
    if a <= b then a else b
  }

  lemma {:induction false} FillFrom(z: Position, free: seq<bool>, k: nat, n: nat, g: nat)
    requires g >= 128 && |free| == 4 * g && Zoned(z, 4 * g, 0) && At(z, k, g) && Untouched(free, k, 4 * g) && k <= 4 * g
    ensures Fill(z, free, 4 * g, n) == Ordered(k, Min(n, 4 * g - k), 4 * g)
    decreases n
  {
    hide Zoned, At, Untouched, Order, Allocate, Fill;
    var max := 4 * g;
    FillOnce(z, free, max, n);
    NthAllocation(z, free, k, g);
    if n != 0 && k != max {
      var (y, r) := Allocate(z, free, max, 0);
      TakeNext(free, k, g);
      FillFrom(y, free[r.value := false], k + 1, n - 1, g);
    }
  }

  lemma TakeNext(free: seq<bool>, k: nat, g: nat)
    requires Untouched(free, k, 4 * g) && k < 4 * g
    ensures 0 <= Order(k, 4 * g) < 4 * g && Untouched(free[Order(k, 4 * g) := false], k + 1, 4 * g)
  {
    OrderIsAPermutation(4 * g, g);
  }

  /** On the disk of init_disk, any number of allocations hands out the tracks in order, each of them
      once, and then none. */
  lemma FreshDiskFillsInOrder(g: nat, n: nat)
    requires g >= 128
    ensures var z := Position(Phase1, 0, false, false, false, Capacity(4 * g));
            var s := Fill(z, seq(4 * g, _ => true), 4 * g, n);
            && |s| == (if n <= 4 * g then n else 4 * g)
            && (forall i :: 0 <= i < |s| ==> s[i] == Order(i, 4 * g))
            && (forall p :: 0 <= p < 4 * g && n >= 4 * g ==> s[Rank(p, 4 * g)] == p)
  {
    OrderIsAPermutation(4 * g, g);
    FillFrom(Position(Phase1, 0, false, false, false, Capacity(4 * g)), seq(4 * g, _ => true), 0, n, g);
  }

  // ---- when updates are buffered ---------------------------------------------------------------

  /** After k allocations on such a disk, buffering has been on since the first top, unless the last track of
      phase 3 lay among the last tracks, as many as the buffer has room for: then it is off for good. */
  predicate Flagged(z: Position, k: nat, g: nat) {
    && z.maxPairs == 2 * ((4 * g) / 100)
    && (z.initialized <==> k > 3 * g && 1 + 4 * (k - 1 - 3 * g) >= 4 * g - z.maxPairs)
    && (z.enabled <==> k > 2 * g && !z.initialized)
  }

  lemma FlagsInPhase1(z: Position, free: seq<bool>, k: nat, g: nat)
    requires g >= 128 && Zoned(z, 4 * g, 0) && At(z, k, g) && Untouched(free, k, 4 * g) && k <= 2 * g &&
             Flagged(z, k, g)
    ensures Flagged(Allocate(z, free, 4 * g, 0).0, k + 1, g)
  {
    hide Capacity;
    var max := 4 * g;
    AdvanceKeeps(z, max, 0);
    if k < 2 * g {
      OrderThenRank(k, g);
    } else {
      assert FreeBottom(free, 0).None?;
      assert Rank(max - 2, max) == 2 * g - 1;
      AdvanceKeeps(Advance(z, max), max, 0);
      OrderThenRank(k, g);
    }
  }

  lemma FlagsInPhase2(z: Position, free: seq<bool>, k: nat, g: nat)
    requires g >= 128 && Zoned(z, 4 * g, 0) && At(z, k, g) && Untouched(free, k, 4 * g) && 2 * g < k < 3 * g
    requires Flagged(z, k, g)
    ensures Flagged(Allocate(z, free, 4 * g, 0).0, k + 1, g)
  {
    hide Order, Rank, Capacity;
    AdvanceKeeps(z, 4 * g, 0);
    OrderThenRank(k, g);
    OrderByPhase(k, g);
    CapacityOfZones(4 * g);
  }

  lemma FlagsInPhase3(z: Position, free: seq<bool>, k: nat, g: nat)
    requires g >= 128 && Zoned(z, 4 * g, 0) && At(z, k, g) && Untouched(free, k, 4 * g) && 3 * g <= k < 4 * g
    requires z.current == 1 + 4 * (k - 3 * g) && Flagged(z, k, g)
    ensures Flagged(Allocate(z, free, 4 * g, 0).0, k + 1, g)
  {
    hide Order, Rank, Capacity;
    AdvanceKeeps(z, 4 * g, 0);
    OrderThenRank(k, g);
    OrderByPhase(k, g);
  }

  lemma NthFlags(z: Position, free: seq<bool>, k: nat, g: nat)
    requires g >= 128 && Zoned(z, 4 * g, 0) && At(z, k, g) && Untouched(free, k, 4 * g) && k < 4 * g && Flagged(z, k, g)
    ensures Flagged(Allocate(z, free, 4 * g, 0).0, k + 1, g)
  {
    hide Capacity;
    if k <= 2 * g {
      FlagsInPhase1(z, free, k, g);
    } else if k < 3 * g {
      FlagsInPhase2(z, free, k, g);
    } else if z.current == 1 + 4 * (k - 3 * g) {
      FlagsInPhase3(z, free, k, g);
    } else {
      OrderThenRank(k - 1, g);
      AdvanceKeeps(z, 4 * g, 0);
      FlagsInPhase3(Advance(z, 4 * g), free, k, g);
    }
  }

  /** Where the allocator stands after n allocations in a row. */
  function AfterFill(z: Position, free: seq<bool>, max: nat, n: nat): Position
    requires Zoned(z, max, 0) && |free| == max
    decreases n
  {
    if n == 0 then z
    else
      match Allocate(z, free, max, 0)
      case (y, None) => y
      case (y, Some(p)) => AfterFill(y, free[p := false], max, n - 1)
  }

  lemma AfterOne(z: Position, free: seq<bool>, max: nat, n: nat)
    requires Zoned(z, max, 0) && |free| == max
    ensures var (y, r) := Allocate(z, free, max, 0);
            AfterFill(z, free, max, n) ==
            if n == 0 then z else if r.None? then y else AfterFill(y, free[r.value := false], max, n - 1)
  {
  }

  lemma {:induction false} FlagsFrom(z: Position, free: seq<bool>, k: nat, n: nat, g: nat)
    requires g >= 128 && |free| == 4 * g && Zoned(z, 4 * g, 0) && At(z, k, g) && Untouched(free, k, 4 * g)
    requires k + n <= 4 * g && Flagged(z, k, g)
    ensures Flagged(AfterFill(z, free, 4 * g, n), k + n, g)
    decreases n
  {
    hide Zoned, At, Untouched, Order, Allocate, AfterFill, Flagged;
    AfterOne(z, free, 4 * g, n);
    if n != 0 {
      NthAllocation(z, free, k, g);
      NthFlags(z, free, k, g);
      TakeNext(free, k, g);
      var (y, r) := Allocate(z, free, 4 * g, 0);
      FlagsFrom(y, free[r.value := false], k + 1, n - 1, g);
    }
  }

  /** On the disk of init_disk, for any size: updates are buffered from the first top handed out until one has been
      handed out, in phase 3, that lies among the last 2 * (4 * g / 100) tracks. */
  lemma BufferingExactly(g: nat, n: nat)
    requires g >= 128 && n <= 4 * g
    ensures var z := Position(Phase1, 0, false, false, false, Capacity(4 * g));
            AfterFill(z, seq(4 * g, _ => true), 4 * g, n).enabled <==>
              n > 2 * g && !(n > 3 * g && Order(n - 1, 4 * g) >= 4 * g - 2 * ((4 * g) / 100))
  {
    var z := Position(Phase1, 0, false, false, false, Capacity(4 * g));
    OrderIsAPermutation(4 * g, g);
    FlagsFrom(z, seq(4 * g, _ => true), 0, n, g);
    if n > 0 {
      OrderByPhase(n - 1, g);
    }
  }
}
