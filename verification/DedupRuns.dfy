/** Whole runs of the deduplicating layer: trims, reference conservation, and the content every LBA
    reads. */
module DedupRuns {
  import opened DiskTypes
  import opened DedupSpec
  import opened DedupProofs
  import opened DedupWrite

  // ---- trims -------------------------------------------------------------------------------

  lemma DelistedAt(b: Block, i: nat)
    requires i <= b.refs < |b.lba|
    ensures |Delisted(b, i).lba| == |b.lba|
    ensures forall k :: 0 <= k < i ==> Delisted(b, i).lba[k] == b.lba[k]
    ensures forall k :: i <= k < b.refs ==> Delisted(b, i).lba[k] == b.lba[k + 1]
    ensures b.refs == 0 ==> Delisted(b, i).lba == b.lba
  {
  }

  /** u is t after the i-th LBA of a shared block has left. */
  ghost predicate Departed(t: Tables, u: Tables, lba: nat, i: nat)
    requires Shaped(t) && lba < |t.ltp|
  {
    var p := t.ltp[lba].pba;
    var b := t.blocks[p];
    && t.ltp[lba].valid && 0 < b.refs && i <= b.refs && b.lba[i] == lba
    && u.ltp == t.ltp[lba := t.ltp[lba].(trim := true, valid := false)]
    && |u.blocks| == |t.blocks|
    && (forall q :: 0 <= q < |t.blocks| && q != p ==> u.blocks[q] == t.blocks[q])
    && var d := u.blocks[p];
       && d.hash == b.hash && d.status == b.status && d.refs == b.refs - 1 && |d.lba| == |b.lba|
       && forall k :: 0 <= k <= d.refs ==> d.lba[k] == b.lba[if k < i then k else k + 1]
  }

  lemma DepartedForward(t: Tables, u: Tables, lba: nat, i: nat)
    requires Consistent(t) && lba < |t.ltp| && Departed(t, u, lba, i)
    ensures Shaped(u) && Forward(u)
  {
    hide Backward, Distinct, Retired;
    var p := t.ltp[lba].pba;
    var b, d := t.blocks[p], u.blocks[p];
    assert Shaped(u);
    forall l | 0 <= l < |u.ltp| && u.ltp[l].valid
      ensures Lists(u.blocks[u.ltp[l].pba], l)
    {
      assert Lists(t.blocks[t.ltp[l].pba], l);
      if t.ltp[l].pba == p {
        var j :| 0 <= j <= b.refs && b.lba[j] == l;
        assert d.lba[if j < i then j else j - 1] == l;
      }
    }
  }

  lemma DepartedBackward(t: Tables, u: Tables, lba: nat, i: nat)
    requires Consistent(t) && lba < |t.ltp| && Departed(t, u, lba, i) && Shaped(u)
    ensures Backward(u) && Distinct(u) && Retired(u)
  {
    hide Forward;
    var p := t.ltp[lba].pba;
    assert ListedOnce(t.blocks[p]);
    forall q, k | 0 <= q < |u.blocks| && u.blocks[q].status == InUse && 0 <= k <= u.blocks[q].refs
      ensures u.ltp[u.blocks[q].lba[k]].valid && u.ltp[u.blocks[q].lba[k]].pba == q
    {
      var j := if q == p && i <= k then k + 1 else k;
      assert u.blocks[q].lba[k] == t.blocks[q].lba[j];
      assert t.ltp[t.blocks[q].lba[j]].valid && t.ltp[t.blocks[q].lba[j]].pba == q;
    }
    assert ListedOnce(u.blocks[p]);
  }

  /** The tables after the last LBA has left a block. */
  lemma ReleaseLastKeeps(t: Tables, u: Tables, lba: nat)
    requires Consistent(t) && lba < |t.ltp| && t.ltp[lba].valid
    requires var p := t.ltp[lba].pba;
             && t.blocks[p].refs == 0
             && u.ltp == t.ltp[lba := t.ltp[lba].(trim := true, valid := false)]
             && u.blocks == t.blocks[p := t.blocks[p].(status := Trimmed)]
    ensures Consistent(u)
  {
    var p := t.ltp[lba].pba;
    assert Lists(t.blocks[p], lba);
    assert t.blocks[p].lba[0] == lba;
    assert Shaped(u);
    forall l | 0 <= l < |u.ltp| && u.ltp[l].valid
      ensures Lists(u.blocks[u.ltp[l].pba], l) && u.ltp[l].pba != p
    {
      assert Lists(t.blocks[t.ltp[l].pba], l);
    }
    assert Forward(u);
    assert Backward(u) && Distinct(u);
    assert Retired(u);
  }

  /** A trim keeps the mapping, and neither of its failure exits can be taken. */
  lemma TrimKeeps(t: Tables, lba: nat, hash: string)
    requires Consistent(t) && lba < |t.ltp|
    ensures var (u, o) := Trim(t, lba, hash);
            && Consistent(u)
            && o == (if t.ltp[lba].valid && t.ltp[lba].hash == hash then Released else Ignored)
            && (o == Released ==> u.ltp == t.ltp[lba := t.ltp[lba].(trim := true, valid := false)])
            && (o == Ignored ==> u == t)
  {
    var e := t.ltp[lba];
    if e.valid && e.hash == hash {
      var b := t.blocks[e.pba];
      assert Lists(b, lba);
      var i := Position(b, lba, 0).value;
      DelistedAt(b, i);
      var u := Trim(t, lba, hash).0;
      if b.refs > 0 {
        DepartedForward(t, u, lba, i);
        DepartedBackward(t, u, lba, i);
      } else {
        assert Delisted(b, i) == b;
        ReleaseLastKeeps(t, u, lba);
      }
    }
  }

  // ---- reference conservation --------------------------------------------------------------

  function RefSum(blocks: seq<Block>): nat {
    if blocks == [] then 0
    else
      var b := blocks[|blocks| - 1];
      RefSum(blocks[..|blocks| - 1]) + if b.status == InUse then b.refs + 1 else 0
  }

  function ValidBelow(t: Tables, n: nat): set<nat> {
    set l | 0 <= l < |t.ltp| && t.ltp[l].valid && t.ltp[l].pba < n
  }

  function ValidLbas(t: Tables): set<nat> {
    set l | 0 <= l < |t.ltp| && t.ltp[l].valid
  }

  function Members(s: seq<nat>): set<nat> {
    set x | x in s
  }

  lemma {:induction false} DistinctSize(s: seq<nat>)
    requires forall i, j :: 0 <= i < j < |s| ==> s[i] != s[j]
    ensures |Members(s)| == |s|
  {
    if s != [] {
      var r, l := s[..|s| - 1], s[|s| - 1];
      DistinctSize(r);
      assert s == r + [l];
      assert Members(s) == Members(r) + {l};
    }
  }

  function LeadingTo(t: Tables, n: nat): set<nat> {
    set l | 0 <= l < |t.ltp| && t.ltp[l].valid && t.ltp[l].pba == n
  }

  /** The LBAs that lead to a block are as many as the block counts. */
  lemma ServedByBlock(t: Tables, n: nat)
    requires Consistent(t) && n < |t.blocks|
    ensures |LeadingTo(t, n)| == if t.blocks[n].status == InUse then t.blocks[n].refs + 1 else 0
  {
    var b := t.blocks[n];
    if b.status == InUse {
      var active := Active(b);
      forall l: nat
        ensures l in LeadingTo(t, n) <==> l in active
      {
        if l < |t.ltp| {
          ActiveExactly(t, n, l);
        }
      }
      assert LeadingTo(t, n) == Members(active);
      assert ListedOnce(b);
      DistinctSize(active);
    } else {
      assert LeadingTo(t, n) == {};
    }
  }

  lemma {:induction false} RefSumBelow(t: Tables, n: nat)
    requires Consistent(t) && n <= |t.blocks|
    ensures RefSum(t.blocks[..n]) == |ValidBelow(t, n)|
  {
    hide Consistent;
    if n == 0 {
      assert ValidBelow(t, n) == {};
    } else {
      RefSumBelow(t, n - 1);
      ServedByBlock(t, n - 1);
      assert ValidBelow(t, n) == ValidBelow(t, n - 1) + LeadingTo(t, n - 1);
      assert t.blocks[..n][..n - 1] == t.blocks[..n - 1];
    }
  }

  /** The reference counts of the blocks in use add up to the number of valid LBAs. */
  lemma ReferencesAreConserved(t: Tables)
    requires Consistent(t)
    ensures RefSum(t.blocks) == |ValidLbas(t)|
  {
    RefSumBelow(t, |t.blocks|);
    assert t.blocks[..|t.blocks|] == t.blocks;
    assert ValidLbas(t) == ValidBelow(t, |t.blocks|);
  }

  // ---- what every LBA reads ----------------------------------------------------------------

  /** The content behind every valid LBA: the abstract value of the store. */
  ghost function Contents(t: Tables): map<nat, string>
    requires Shaped(t)
  {
    map l | 0 <= l < |t.ltp| && t.ltp[l].valid :: t.blocks[t.ltp[l].pba].hash
  }

  /** The content behind an LBA is the hash in its entry. */
  lemma ContentsByEntry(t: Tables)
    requires Consistent(t)
    ensures Contents(t) == map l | 0 <= l < |t.ltp| && t.ltp[l].valid :: t.ltp[l].hash
  {
  }

  lemma UpdatedMovesOnly(t: Tables, p: nat, below: bool)
    requires Shaped(t) && p < |t.blocks| && t.blocks[p].status != Free
    ensures var u := Updated(t, p, below).0;
            forall l :: 0 <= l < |t.ltp| ==> u.ltp[l].valid == t.ltp[l].valid && u.ltp[l].hash == t.ltp[l].hash
  {
    var top := BestTop(t.blocks, |t.blocks|);
    if WantsSwap(t.blocks, p, below) && top.Some? {
      var A, B := Active(t.blocks[top.value]), Active(Touch(t, p).blocks[p]);
      assert Updated(t, p, below).0.ltp == Redirect(Redirect(t.ltp, A, p), B, top.value);
    }
  }

  /** Only the written LBA's entry changes, apart from the tracks of swapped blocks. */
  lemma WriteChangesOneEntry(t: Tables, lba: nat, hash: string, env: Env)
    requires Consistent(t) && lba < |t.ltp| && PickOk(t, env)
    requires Write(t, lba, hash, env).1 == Done
    ensures var u := Write(t, lba, hash, env).0;
            && |u.ltp| == |t.ltp|
            && u.ltp[lba].valid && u.ltp[lba].hash == hash
            && forall l :: 0 <= l < |t.ltp| && l != lba ==>
                 u.ltp[l].valid == t.ltp[l].valid && u.ltp[l].hash == t.ltp[l].hash
  {
    var e := t.ltp[lba];
    if (e.trim || e.valid) && e.hash != hash {
      UpdatedMovesOnly(t, e.pba, env.below);
    }
  }

  /** A guarded write that completes is one assignment in the map from LBAs to content. */
  lemma WriteIsAssignment(t: Tables, lba: nat, hash: string, env: Env)
    requires Consistent(t) && lba < |t.ltp| && hash != "" && PickOk(t, env)
    requires WriteGuard(t, lba, hash, env.heap) && Write(t, lba, hash, env).1 == Done
    ensures var u := Write(t, lba, hash, env).0;
            Consistent(u) && |u.ltp| == |t.ltp| && Contents(u) == Contents(t)[lba := hash]
  {
    hide Consistent, Write, WriteGuard, PickOk, Contents;
    WriteKeepsExactly(t, lba, hash, env);
    WriteChangesOneEntry(t, lba, hash, env);
    ContentsByEntry(t);
    ContentsByEntry(Write(t, lba, hash, env).0);
  }

  /** A trim removes the LBA when it names the content the LBA holds, and does nothing otherwise. */
  lemma TrimIsRemoval(t: Tables, lba: nat, hash: string)
    requires Consistent(t) && lba < |t.ltp|
    ensures var u := Trim(t, lba, hash).0;
            && Consistent(u) && |u.ltp| == |t.ltp|
            && Contents(u) == if lba in Contents(t) && Contents(t)[lba] == hash then Contents(t) - {lba}
               else Contents(t)
  {
    hide Forward, Backward, Distinct, Retired, Trim, Contents;
    TrimKeeps(t, lba, hash);
    ContentsByEntry(t);
    ContentsByEntry(Trim(t, lba, hash).0);
  }

  // ---- runs --------------------------------------------------------------------------------

  datatype Op = WriteOp(lba: nat, hash: string, env: Env) | TrimOp(lba: nat, hash: string)

  /** How a run of requests ends: all served, stopped by the program, or at a write without its guard. */
  datatype End = Served | Stopped(why: Outcome) | TrimFailed(how: TrimOutcome) | Unguarded

  datatype Run = Run(t: Tables, end: End, done: nat)

  predicate RequestOk(t: Tables, op: Op) {
    op.lba < |t.ltp| && (op.WriteOp? ==> op.hash != "" && PickOk(t, op.env))
  }

  /** The tables of init_disk. */
  predicate Fresh(t: Tables) {
    && |t.blocks| > 0 && |t.blocks| % 2 == 0 && t.used == 0
    && (forall p :: 0 <= p < |t.blocks| ==>
         t.blocks[p].hash == "" && |t.blocks[p].lba| == 2 && t.blocks[p].status == Free && t.blocks[p].refs == 0)
    && (forall l :: 0 <= l < |t.ltp| ==> t.ltp[l] == Entry(0, "", false, false))
  }

  ghost function Step(t: Tables, op: Op): (r: (Tables, End))
    requires Consistent(t) && RequestOk(t, op)
  {
    match op
    case WriteOp(lba, hash, env) =>
      if !WriteGuard(t, lba, hash, env.heap) then (t, Unguarded)
      else
        var (u, o) := Write(t, lba, hash, env);
        if o == Done then (u, Served) else (t, Stopped(o))
    case TrimOp(lba, hash) =>
      var (u, o) := Trim(t, lba, hash);
      if o == Released || o == Ignored then (u, Served) else (t, TrimFailed(o))
  }

  lemma StepKeeps(t: Tables, op: Op)
    requires Consistent(t) && RequestOk(t, op)
    ensures Consistent(Step(t, op).0) && |Step(t, op).0.ltp| == |t.ltp|
    ensures !Step(t, op).1.TrimFailed?
    ensures Contents(Step(t, op).0) == if Step(t, op).1.Served? then Applied(Contents(t), op) else Contents(t)
  {
    match op
    case WriteOp(lba, hash, env) =>
      if Step(t, op).1.Served? {
        WriteIsAssignment(t, lba, hash, env);
      }
    case TrimOp(lba, hash) =>
      TrimKeeps(t, lba, hash);
      TrimIsRemoval(t, lba, hash);
  }

  /** Serves the requests in order until one ends the run. A request out of range ends it as well. */
  ghost function Execute(t: Tables, ops: seq<Op>): (r: Run)
    requires Consistent(t)
    ensures r.done <= |ops|
    decreases |ops|
  {
    if ops == [] then Run(t, Served, 0)
    else if !RequestOk(t, ops[0]) then Run(t, Unguarded, 0)
    else
      var (u, end) := Step(t, ops[0]);
      if end != Served then Run(t, end, 0)
      else
        StepKeeps(t, ops[0]);
        var r := Execute(u, ops[1..]);
        r.(done := r.done + 1)
  }

  /** The reference semantics: a plain map from LBAs to content. */
  function Applied(m: map<nat, string>, op: Op): map<nat, string> {
    match op
    case WriteOp(lba, hash, _) => m[lba := hash]
    case TrimOp(lba, hash) => if lba in m && m[lba] == hash then m - {lba} else m
  }

  function AppliedAll(m: map<nat, string>, ops: seq<Op>): map<nat, string>
    decreases |ops|
  {
    if ops == [] then m else AppliedAll(Applied(m, ops[0]), ops[1..])
  }

  /** Wherever a run ends, the tables are consistent, the reference counts add up to the valid LBAs, no
      trim has failed, and every LBA reads what a plain map would hold. */
  lemma {:induction false} RunsRefineAMap(t: Tables, ops: seq<Op>)
    requires Consistent(t)
    ensures var r := Execute(t, ops);
            && Consistent(r.t)
            && RefSum(r.t.blocks) == |ValidLbas(r.t)|
            && !r.end.TrimFailed?
            && (r.end.Served? ==> r.done == |ops|)
            && Contents(r.t) == AppliedAll(Contents(t), ops[..r.done])
    decreases |ops|
  {
    hide Forward, Backward, Distinct, Retired, Contents, Step, Applied, RefSum, ValidLbas, RequestOk;
    var r := Execute(t, ops);
    if ops != [] && RequestOk(t, ops[0]) {
      StepKeeps(t, ops[0]);
      if Step(t, ops[0]).1 == Served {
        var u := Step(t, ops[0]).0;
        RunsRefineAMap(u, ops[1..]);
        assert r == Execute(u, ops[1..]).(done := r.done);
        assert ops[..r.done][0] == ops[0] && ops[..r.done][1..] == ops[1..][..r.done - 1];
        assert AppliedAll(Contents(t), ops[..r.done]) == AppliedAll(Applied(Contents(t), ops[0]), ops[..r.done][1..]);
      }
    }
    ReferencesAreConserved(r.t);
  }

  /** The disk that init_disk sets up is consistent and empty, so every run from it is covered. */
  lemma FreshIsConsistent(t: Tables)
    requires Fresh(t)
    ensures Consistent(t) && Contents(t) == map[]
  {
  }
}
