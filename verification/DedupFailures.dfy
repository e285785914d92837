/** Runs from a new disk that the code gets wrong: the three ways in which a write without its guard loses
    an LBA. */
module DedupFailures {
  import opened DiskTypes
  import opened DedupSpec
  import opened DedupWrite
  import opened DedupRuns

  // ---- single steps ------------------------------------------------------------------------

  lemma RunStep(t: Tables, op: Op, rest: seq<Op>)
    requires Consistent(t) && RequestOk(t, op) && Step(t, op).1 == Served
    ensures var u := Step(t, op).0;
            Consistent(u) && Execute(t, [op] + rest) == Execute(u, rest).(done := Execute(u, rest).done + 1)
  {
    hide Step, Consistent, RequestOk;
    StepKeeps(t, op);
    assert ([op] + rest)[0] == op && ([op] + rest)[1..] == rest;
  }

  /** Content that is not on the disk goes to the track the allocator picks. */
  lemma WriteNew(t: Tables, lba: nat, hash: string, env: Env, p: nat)
    requires Consistent(t) && lba < |t.ltp| && !t.ltp[lba].valid && !t.ltp[lba].trim && hash != ""
    requires p < |t.blocks| && t.blocks[p].status == Free && env.pick == Some(p)
    requires forall q :: 0 <= q < |t.blocks| ==> t.blocks[q].hash != hash
    ensures var op, b := WriteOp(lba, hash, env), t.blocks[p];
            && RequestOk(t, op)
            && Step(t, op) == (Tables(t.blocks[p := Block(hash, b.lba[0 := lba], InUse, b.count + 1, 0)],
                                      t.ltp[lba := Entry(p, hash, true, false)], t.used + 1), Served)
  {
    hide Forward, Backward, Distinct, Retired;
    assert FindHash(t.blocks, hash, 0).None?;
    var u := Write(t, lba, hash, env).0;
    var b := t.blocks[p];
    assert u.blocks == t.blocks[p := Block(hash, b.lba[0 := lba], InUse, b.count + 1, 0)];
  }

  lemma FoundFirst(blocks: seq<Block>, hash: string, p: nat)
    requires p < |blocks| && blocks[p].hash == hash && forall q :: 0 <= q < p ==> blocks[q].hash != hash
    ensures FindHash(blocks, hash, 0) == Some(p)
  {
  }

  /** The list of a shared block, where the walk has missed the newcomer. */
  lemma WriteShared(t: Tables, lba: nat, hash: string, env: Env, p: nat)
    requires Consistent(t) && lba < |t.ltp| && !t.ltp[lba].valid && !t.ltp[lba].trim && hash != ""
    requires FindHash(t.blocks, hash, 0) == Some(p) && t.blocks[p].status == InUse && Enrols(t, p, lba, env.heap) &&
             PickOk(t, env)
    ensures var op, b, c := WriteOp(lba, hash, env), t.blocks[p], Step(t, WriteOp(lba, hash, env)).0.blocks[p];
            && RequestOk(t, op) && Step(t, op).1 == Served && |Step(t, op).0.blocks| == |t.blocks|
            && (forall q :: 0 <= q < |t.blocks| && q != p ==> Step(t, op).0.blocks[q] == t.blocks[q])
            && c.hash == hash && c.status == InUse && c.refs == b.refs + 1 && |b.lba| <= |c.lba| && c.refs < |c.lba|
            && (forall i :: 0 <= i <= b.refs ==> c.lba[i] == b.lba[i]) && c.lba[b.refs + 1] == lba
            && Step(t, op).0.ltp == t.ltp[lba := Entry(p, hash, true, false)]
  {
    hide Forward, Backward, Distinct, Retired, Meets;
    var b := Gain(t, p).blocks[p];
    EnlistedList(Link(Gain(t, p), lba, p, hash), p, lba, env.heap);
  }

  lemma EnlistedList(t: Tables, p: nat, lba: nat, heap: nat -> nat)
    requires p < |t.blocks| && 0 < t.blocks[p].refs <= |t.blocks[p].lba|
    requires Meets(t.blocks[p], lba, t.blocks[0].refs, heap) ==> Load(t.blocks[p], t.blocks[p].refs, heap) == lba
    ensures var b, c := t.blocks[p], Enlist(t, p, lba, heap).blocks[p];
            && c == b.(lba := c.lba) && |b.lba| <= |c.lba| && c.refs < |c.lba|
            && (forall i :: 0 <= i < b.refs ==> c.lba[i] == b.lba[i]) && c.lba[b.refs] == lba
  {
  }

  // ---- an LBA dropped from a list ------------------------------------------------------------

  function WriteOf(lba: nat, hash: string, heap: nat -> nat, below: bool, pick: Option<nat>): Op {
    WriteOp(lba, hash, Env(heap, below, pick))
  }

  /** LBA 0 gets content of its own, on track 0; LBAs 1, 2 and 3 share content on track 2. */
  function SharingRun(heap: nat -> nat, below: bool): seq<Op> {
    [WriteOf(0, "x", heap, below, Some(0))] + ([WriteOf(1, "a", heap, below, Some(2))]
    + ([WriteOf(2, "a", heap, below, None)] + ([WriteOf(3, "a", heap, below, None)] + [])))
  }

  ghost predicate Sharing(t: Tables) {
    && Consistent(t) && |t.blocks| >= 4 && |t.ltp| >= 4
    && t.blocks[0].refs == 0 && t.blocks[2].refs == 2 && t.blocks[2].status == InUse && t.blocks[2].hash == "a"
    && t.blocks[2].lba[0] == 1 && t.blocks[2].lba[1] == 2 && t.blocks[2].lba[2] == 3
    && t.ltp[2] == Entry(2, "a", true, false) && t.ltp[3] == Entry(2, "a", true, false)
  }

  lemma SharingIsReached(t: Tables, heap: nat -> nat, below: bool)
    requires Fresh(t) && |t.blocks| >= 4 && |t.ltp| >= 4
    ensures Consistent(t)
    ensures var r := Execute(t, SharingRun(heap, below)); r.end == Served && Sharing(r.t)
  {
    hide Consistent, Execute, Step, Enrols;
    FreshIsConsistent(t);
    var e0, e1, e2, e3 := WriteOf(0, "x", heap, below, Some(0)), WriteOf(1, "a", heap, below, Some(2)),
      WriteOf(2, "a", heap, below, None), WriteOf(3, "a", heap, below, None);
    WriteNew(t, 0, "x", e0.env, 0);
    RunStep(t, e0, [e1] + ([e2] + ([e3] + [])));
    var t1 := Step(t, e0).0;
    WriteNew(t1, 1, "a", e1.env, 2);
    RunStep(t1, e1, [e2] + ([e3] + []));
    var t2 := Step(t1, e1).0;
    FoundFirst(t2.blocks, "a", 2);
    Missed(t2, 2, 2, heap);
    WriteShared(t2, 2, "a", e2.env, 2);
    RunStep(t2, e2, [e3] + []);
    var t3 := Step(t2, e2).0;
    FoundFirst(t3.blocks, "a", 2);
    Missed(t3, 2, 3, heap);
    WriteShared(t3, 3, "a", e3.env, 2);
    RunStep(t3, e3, []);
    NothingLeft(Step(t3, e3).0);
  }

  lemma NothingLeft(t: Tables)
    requires Consistent(t)
    ensures Execute(t, []) == Run(t, Served, 0)
  {
  }

  /** While block 0 is unshared, the walk looks at the first cell of a list only. */
  lemma Missed(t: Tables, p: nat, lba: nat, heap: nat -> nat)
    requires 0 < p < |t.blocks| && t.blocks[0].refs == 0 && |t.blocks[p].lba| > 0 && t.blocks[p].lba[0] != lba
    ensures Enrols(t, p, lba, heap) && !Meets(t.blocks[p], lba, 0, heap)
  {
    assert Load(Gain(t, p).blocks[p], 0, heap) != lba;
    assert Load(t.blocks[p], 0, heap) != lba;
  }

  /** From a new disk: writing the same content to LBA 2 once more drops LBA 3 from the list, and the program
      exits when LBA 3 is trimmed. */
  lemma RewriteCanLoseAnLba(t: Tables, heap: nat -> nat, below: bool)
    requires Fresh(t) && |t.blocks| >= 4 && |t.ltp| >= 4
    ensures Consistent(t)
    ensures var r := Execute(t, SharingRun(heap, below));
            && r.end == Served && Sharing(r.t)
            && var (u, o) := Write(r.t, 2, "a", Env(heap, below, None));
               o == Done && Shaped(u) && !Consistent(u) && Trim(u, 3, "a").1 == NotListed
  {
    hide Execute;
    SharingIsReached(t, heap, below);
    SharingLosesLba3(Execute(t, SharingRun(heap, below)).t, heap, below);
  }

  lemma SharingLosesLba3(t: Tables, heap: nat -> nat, below: bool)
    requires Sharing(t)
    ensures var (u, o) := Write(t, 2, "a", Env(heap, below, None));
            o == Done && Shaped(u) && !Consistent(u) && Trim(u, 3, "a").1 == NotListed
  {
    hide Forward, Backward, Distinct, Retired, Meets;
    var u := Write(t, 2, "a", Env(heap, below, None)).0;
    var b := t.blocks[2];
    Missed(t, 2, 2, heap);
    assert u == t.(blocks := t.blocks[2 := b.(lba := b.lba[2 := 2])]);
    assert !Lists(u.blocks[2], 3);
    Unlisted(u, 3);
    assert Position(u.blocks[2], 3, 0).None?;
  }

  // ---- content lost behind a trimmed LBA -------------------------------------------------------

  /** LBAs 0 and 1 share track 0, and LBA 0 is trimmed. */
  function InheritingRun(heap: nat -> nat, below: bool): seq<Op> {
    [WriteOf(0, "a", heap, below, Some(0))] + ([WriteOf(1, "a", heap, below, None)] + ([TrimOp(0, "a")] + []))
  }

  ghost predicate Inherited(t: Tables) {
    && Consistent(t) && |t.blocks| >= 2 && |t.ltp| >= 2
    && t.blocks[0].refs == 0 && t.blocks[0].status == InUse && t.blocks[0].hash == "a" && t.blocks[0].lba[0] == 1
    && (forall p :: 0 < p < |t.blocks| ==> t.blocks[p].status == Free)
    && t.ltp[0] == Entry(0, "a", false, true) && t.ltp[1] == Entry(0, "a", true, false)
    && (forall l :: 2 <= l < |t.ltp| ==> !t.ltp[l].valid)
  }

  lemma JoinsItsOnlyNeighbour(t: Tables, heap: nat -> nat)
    requires |t.blocks| > 0 && t.blocks[0].refs == 0 && |t.blocks[0].lba| >= 2 && t.blocks[0].lba[0] == 0
    ensures Enrols(t, 0, 1, heap)
  {
    var b := Gain(t, 0).blocks[0];
    assert Load(b, 0, heap) == 0;
  }

  lemma InheritedIsReached(t: Tables, heap: nat -> nat, below: bool)
    requires Fresh(t) && |t.blocks| >= 2 && |t.ltp| >= 2
    ensures Consistent(t)
    ensures var r := Execute(t, InheritingRun(heap, below)); r.end == Served && Inherited(r.t)
  {
    hide Consistent, Execute, Enrols, Write;
    FreshIsConsistent(t);
    var e0, e1, e2 := WriteOf(0, "a", heap, below, Some(0)), WriteOf(1, "a", heap, below, None), TrimOp(0, "a");
    WriteNew(t, 0, "a", e0.env, 0);
    RunStep(t, e0, [e1] + ([e2] + []));
    var t1 := Step(t, e0).0;
    FoundFirst(t1.blocks, "a", 0);
    JoinsItsOnlyNeighbour(t1, heap);
    WriteShared(t1, 1, "a", e1.env, 0);
    RunStep(t1, e1, [e2] + []);
    var t2 := Step(t1, e1).0;
    TrimsFirst(t2);
    RunStep(t2, e2, []);
    NothingLeft(Step(t2, e2).0);
  }

  lemma TrimsFirst(t: Tables)
    requires Consistent(t) && |t.ltp| >= 2 && t.ltp[0] == Entry(0, "a", true, false)
    requires t.blocks[0].refs == 1 && t.blocks[0].status == InUse && t.blocks[0].lba[0] == 0 && t.blocks[0].lba[1] == 1
    ensures var b, (u, e) := t.blocks[0], Step(t, TrimOp(0, "a"));
            && RequestOk(t, TrimOp(0, "a")) && e == Served
            && u.ltp == t.ltp[0 := Entry(0, "a", false, true)]
            && |u.blocks| == |t.blocks| && (forall p :: 0 < p < |t.blocks| ==> u.blocks[p] == t.blocks[p])
            && u.blocks[0] == b.(lba := u.blocks[0].lba, refs := 0) && |u.blocks[0].lba| > 0 && u.blocks[0].lba[0] == 1
  {
    hide Forward, Backward, Distinct, Retired;
    assert Position(t.blocks[0], 0, 0) == Some(0);
  }

  /** From a new disk: writing new content to the trimmed LBA 0 replaces what LBA 1 reads. */
  lemma TrimmedRewriteCanLoseContent(t: Tables, heap: nat -> nat, below: bool)
    requires Fresh(t) && |t.blocks| >= 2 && |t.ltp| >= 2
    ensures Consistent(t)
    ensures var r := Execute(t, InheritingRun(heap, below));
            && r.end == Served && Inherited(r.t) && Contents(r.t) == map[1 := "a"]
            && var (u, o) := Write(r.t, 0, "b", Env(heap, below, None));
               o == Done && Shaped(u) && Contents(u) == map[0 := "b", 1 := "b"] && !Consistent(u)
  {
    hide Execute;
    InheritedIsReached(t, heap, below);
    InheritedLosesContent(Execute(t, InheritingRun(heap, below)).t, heap, below);
  }

  lemma InheritedLosesContent(t: Tables, heap: nat -> nat, below: bool)
    requires Inherited(t)
    ensures Contents(t) == map[1 := "a"]
    ensures var (u, o) := Write(t, 0, "b", Env(heap, below, None));
            o == Done && Shaped(u) && Contents(u) == map[0 := "b", 1 := "b"] && !Consistent(u)
  {
    hide Forward, Backward, Distinct, Retired, Write, Contents;
    OverwritesInherited(t, heap, below);
    var u := Write(t, 0, "b", Env(heap, below, None)).0;
    ContentsOfTwo(t, "a");
    ContentsOfTwo(u, "b");
    Unlisted(u, 1);
  }

  lemma OverwritesInherited(t: Tables, heap: nat -> nat, below: bool)
    requires Inherited(t)
    ensures OnTrackZero(t) && t.blocks[0].hash == "a" && !t.ltp[0].valid
    ensures var (u, o) := Write(t, 0, "b", Env(heap, below, None));
            o == Done && OnTrackZero(u) && u.blocks[0].hash == "b" && u.ltp[0].valid && !Lists(u.blocks[0], 1)
  {
    hide Forward, Backward, Distinct, Retired;
    assert BestTop(t.blocks, |t.blocks|) == None;
    assert Updated(t, 0, below) == (t, 0);
    var b := t.blocks[0];
    var u := Write(t, 0, "b", Env(heap, below, None)).0;
    assert u == Tables(t.blocks[0 := Block("b", b.lba[0 := 0], InUse, b.count + 1, 0)],
      t.ltp[0 := Entry(0, "b", true, false)], t.used);
  }

  /** LBA 1, and possibly LBA 0, are all that is valid, and lead to track 0. */
  ghost predicate OnTrackZero(t: Tables) {
    && Shaped(t) && |t.ltp| >= 2 && t.ltp[0].pba == 0 && t.ltp[1].pba == 0 && t.ltp[1].valid
    && forall l :: 2 <= l < |t.ltp| ==> !t.ltp[l].valid
  }

  lemma ContentsOfTwo(t: Tables, hash: string)
    requires OnTrackZero(t) && t.blocks[0].hash == hash
    ensures Contents(t) == if t.ltp[0].valid then map[0 := hash, 1 := hash] else map[1 := hash]
  {
  }

  // ---- a newcomer kept off a list --------------------------------------------------------------

  /** LBAs 0, 1 and 2 share track 0, and LBA 3 has track 2 to itself. */
  function CrowdedRun(heap: nat -> nat, below: bool): seq<Op> {
    [WriteOf(0, "x", heap, below, Some(0))] + ([WriteOf(1, "x", heap, below, None)]
    + ([WriteOf(2, "x", heap, below, None)] + ([WriteOf(3, "a", heap, below, Some(2))] + [])))
  }

  ghost predicate CrowdedAtZero(t: Tables) {
    && Consistent(t) && |t.blocks| >= 4 && |t.ltp| >= 5
    && t.blocks[0].refs == 2 && t.blocks[0].hash == "x" && t.blocks[1].hash == ""
    && t.blocks[2].refs == 0 && t.blocks[2].status == InUse && t.blocks[2].hash == "a" && |t.blocks[2].lba| == 2
    && t.blocks[2].lba[0] == 3
    && !t.ltp[4].valid && !t.ltp[4].trim
  }

  lemma JoinsAsThird(t: Tables, heap: nat -> nat)
    requires |t.blocks| > 0 && t.blocks[0].refs == 1 && |t.blocks[0].lba| >= 2 && t.blocks[0].lba[0] == 0 &&
             t.blocks[0].lba[1] == 1
    ensures Enrols(t, 0, 2, heap)
  {
    var b := Gain(t, 0).blocks[0];
    assert Load(b, 0, heap) == 0 && Load(b, 1, heap) == 1;
  }

  lemma CrowdedIsReached(t: Tables, heap: nat -> nat, below: bool)
    requires Fresh(t) && |t.blocks| >= 4 && |t.ltp| >= 5
    ensures Consistent(t)
    ensures var r := Execute(t, CrowdedRun(heap, below));
            r.end == Served && CrowdedAtZero(r.t) && |r.t.ltp| == |t.ltp| && r.t.blocks[2].lba[1] == t.blocks[2].lba[1]
  {
    hide Consistent, Execute, Step, Enrols;
    FreshIsConsistent(t);
    var e0, e1, e2, e3 := WriteOf(0, "x", heap, below, Some(0)), WriteOf(1, "x", heap, below, None),
      WriteOf(2, "x", heap, below, None), WriteOf(3, "a", heap, below, Some(2));
    WriteNew(t, 0, "x", e0.env, 0);
    RunStep(t, e0, [e1] + ([e2] + ([e3] + [])));
    var t1 := Step(t, e0).0;
    FoundFirst(t1.blocks, "x", 0);
    JoinsItsOnlyNeighbour(t1, heap);
    WriteShared(t1, 1, "x", e1.env, 0);
    RunStep(t1, e1, [e2] + ([e3] + []));
    var t2 := Step(t1, e1).0;
    FoundFirst(t2.blocks, "x", 0);
    JoinsAsThird(t2, heap);
    WriteShared(t2, 2, "x", e2.env, 0);
    RunStep(t2, e2, [e3] + []);
    var t3 := Step(t2, e2).0;
    WriteNew(t3, 3, "a", e3.env, 2);
    RunStep(t3, e3, []);
    NothingLeft(Step(t3, e3).0);
  }

  /** From a new disk: LBA 4 is written with the content of LBA 3. The walk goes on for as long as block 0 is
      shared, past the two cells of the list, and takes a 4 in the memory behind them for the LBA. It is then
      on no list, and the program exits when it is trimmed. */
  lemma DuplicateCanBeKeptOff(t: Tables, heap: nat -> nat, below: bool)
    requires Fresh(t) && |t.blocks| >= 4 && |t.ltp| >= 5
    requires t.blocks[2].lba[1] < |t.ltp| && t.blocks[2].lba[1] != 4 && heap(2) == 4
    ensures Consistent(t)
    ensures var r := Execute(t, CrowdedRun(heap, below));
            && r.end == Served && CrowdedAtZero(r.t) && !Enrols(r.t, 2, 4, heap)
            && var (u, o) := Write(r.t, 4, "a", Env(heap, below, None));
               o == Done && Shaped(u) && !Consistent(u) && Trim(u, 4, "a").1 == NotListed
  {
    hide Execute;
    CrowdedIsReached(t, heap, below);
    CrowdedLosesLba4(Execute(t, CrowdedRun(heap, below)).t, heap, below);
  }

  lemma CrowdedLosesLba4(t: Tables, heap: nat -> nat, below: bool)
    requires CrowdedAtZero(t) && t.blocks[2].lba[1] < |t.ltp| && t.blocks[2].lba[1] != 4 && heap(2) == 4
    ensures !Enrols(t, 2, 4, heap)
    ensures var (u, o) := Write(t, 4, "a", Env(heap, below, None));
            o == Done && Shaped(u) && !Consistent(u) && Trim(u, 4, "a").1 == NotListed
  {
    hide Forward, Backward, Distinct, Retired;
    FoundFirst(t.blocks, "a", 2);
    var b := Gain(t, 2).blocks[2];
    assert Load(b, 2, heap) == 4 && Load(b, 1, heap) != 4;
    assert Meets(b, 4, 2, heap);
    var u := Write(t, 4, "a", Env(heap, below, None)).0;
    assert u.blocks == t.blocks[2 := b] && u.ltp == t.ltp[4 := Entry(2, "a", true, false)];
    assert !Lists(u.blocks[2], 4);
    Unlisted(u, 4);
    assert Position(u.blocks[2], 4, 0).None?;
  }
}
