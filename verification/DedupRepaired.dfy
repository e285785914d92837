/** The deduplicating layer as it would be if is_lba_in_storage went by the count of the block it searches: no
    guard is left but for trimmed LBAs. */
module DedupRepaired {
  import opened DiskTypes
  import opened DedupSpec
  import opened DedupProofs
  import opened DedupWrite
  import opened DedupRuns
  import opened DedupLimits

  function FinishOwn(s: Search, lba: nat, hash: string, heap: nat -> nat): (Tables, Outcome)
    requires Addressable(s)
  {
    var b := s.t.blocks[s.p];
    if b.refs > 0 && b.hash == hash then (EnlistWithin(s.t, s.p, lba, b.refs, heap), Done)
      else Finish(s, lba, hash, heap)
  }

  function WriteOwn(t: Tables, lba: nat, hash: string, env: Env): (Tables, Outcome)
    requires Consistent(t) && lba < |t.ltp| && PickOk(t, env)
  {
    match Searched(t, lba, hash, env)
    case None => (t, DiskFull)
    case Some(s) => FinishOwn(s, lba, hash, env.heap)
  }

  /** Only the lists differ from what the program does. */
  lemma OwnDiffersInLists(t: Tables, lba: nat, hash: string, env: Env)
    requires Consistent(t) && lba < |t.ltp| && PickOk(t, env)
    ensures WriteOwn(t, lba, hash, env).1 == Write(t, lba, hash, env).1
    ensures WriteOwn(t, lba, hash, env).0.ltp == Write(t, lba, hash, env).0.ltp
  {
    hide Searched, Store;
  }

  lemma OwnJoins(t: Tables, p: nat, lba: nat, hash: string, heap: nat -> nat)
    requires Consistent(t) && p < |t.blocks| && lba < |t.ltp| && Serves(t.blocks[p], hash) && !t.ltp[lba].valid &&
             !t.ltp[lba].trim
    ensures Consistent(EnlistWithin(Link(Gain(t, p), lba, p, hash), p, lba, t.blocks[p].refs + 1, heap))
  {
    hide Forward, Backward, Distinct;
    OwnCountWouldDo(t, p, lba, heap);
    var u := EnlistWithin(Link(Gain(t, p), lba, p, hash), p, lba, t.blocks[p].refs + 1, heap);
    assert NotRetiredElsewhere(t, p, lba);
    assert Joined(t, u, p, lba, hash);
    EnlistKeeps(t, u, p, lba, hash);
  }

  lemma OwnStays(t: Tables, lba: nat, heap: nat -> nat)
    requires Consistent(t) && lba < |t.ltp| && t.ltp[lba].valid
    ensures EnlistWithin(t, t.ltp[lba].pba, lba, t.blocks[t.ltp[lba].pba].refs, heap) == t
  {
    hide Backward, Distinct, Retired, Meets;
    OwnCountWouldDo(t, t.ltp[lba].pba, lba, heap);
  }

  /** A write to an LBA that was not trimmed keeps the mapping and is one assignment, with no guard. */
  lemma OwnWriteIsAssignment(t: Tables, lba: nat, hash: string, env: Env)
    requires Consistent(t) && lba < |t.ltp| && hash != "" && PickOk(t, env) && !t.ltp[lba].trim
    requires WriteOwn(t, lba, hash, env).1 == Done
    ensures var u := WriteOwn(t, lba, hash, env).0;
            Consistent(u) && |u.ltp| == |t.ltp| && Contents(u) == Contents(t)[lba := hash]
  {
    hide Contents, WriteOwn, Write;
    OwnDiffersInLists(t, lba, hash, env);
    OwnWriteKeeps(t, lba, hash, env);
    WriteChangesOneEntry(t, lba, hash, env);
    ContentsByEntry(t);
    ContentsByEntry(WriteOwn(t, lba, hash, env).0);
  }

  lemma OwnWriteKeeps(t: Tables, lba: nat, hash: string, env: Env)
    requires Consistent(t) && lba < |t.ltp| && hash != "" && PickOk(t, env) && !t.ltp[lba].trim
    requires WriteOwn(t, lba, hash, env).1 == Done
    ensures Consistent(WriteOwn(t, lba, hash, env).0)
  {
    hide Forward, Backward, Distinct, Retired, Meets, Store;
    if t.ltp[lba].valid && t.ltp[lba].hash == hash {
      OwnStays(t, lba, env.heap);
    } else if !t.ltp[lba].valid && FindHash(t.blocks, hash, 0).Some? &&
      t.blocks[FindHash(t.blocks, hash, 0).value].status == InUse {
      OwnJoins(t, FindHash(t.blocks, hash, 0).value, lba, hash, env.heap);
    } else {
      OwnIsWrite(t, lba, hash, env);
      WriteKeepsExactly(t, lba, hash, env);
    }
  }

  /** Where no list is searched, nothing changes. */
  lemma OwnIsWrite(t: Tables, lba: nat, hash: string, env: Env)
    requires Consistent(t) && lba < |t.ltp| && hash != "" && PickOk(t, env) && !t.ltp[lba].trim
    requires !(t.ltp[lba].valid && t.ltp[lba].hash == hash)
    requires t.ltp[lba].valid || FindHash(t.blocks, hash, 0).None? ||
             t.blocks[FindHash(t.blocks, hash, 0).value].status != InUse
    requires WriteOwn(t, lba, hash, env).1 == Done
    ensures WriteOwn(t, lba, hash, env) == Write(t, lba, hash, env) && WriteGuard(t, lba, hash, env.heap)
  {
    hide Backward, Distinct, Retired, Meets, Store;
    if t.ltp[lba].valid && t.blocks[t.ltp[lba].pba].refs == 0 {
      UpdateKeeps(t, lba, hash, env.below);
    }
  }

  // ---- runs --------------------------------------------------------------------------------

  ghost function StepOwn(t: Tables, op: Op): (r: (Tables, End))
    requires Consistent(t) && RequestOk(t, op)
  {
    match op
    case WriteOp(lba, hash, env) =>
      if t.ltp[lba].trim then (t, Unguarded)
      else
        var (u, o) := WriteOwn(t, lba, hash, env);
        if o == Done then (u, Served) else (t, Stopped(o))
    case TrimOp(lba, hash) => Step(t, op)
  }

  lemma StepOwnKeeps(t: Tables, op: Op)
    requires Consistent(t) && RequestOk(t, op)
    ensures var (u, end) := StepOwn(t, op);
            && Consistent(u) && |u.ltp| == |t.ltp| && !end.TrimFailed?
            && Contents(u) == (if end.Served? then Applied(Contents(t), op) else Contents(t))
            && (end.Unguarded? ==> op.WriteOp? && t.ltp[op.lba].trim)
  {
    hide Consistent, WriteOwn, Contents;
    match op
    case WriteOp(lba, hash, env) =>
      if StepOwn(t, op).1.Served? {
        OwnWriteIsAssignment(t, lba, hash, env);
      }
    case TrimOp(lba, hash) =>
      StepKeeps(t, op);
  }

  /** As Execute, with the block's own count. */
  ghost function ExecuteOwn(t: Tables, ops: seq<Op>): (r: Run)
    requires Consistent(t)
    ensures r.done <= |ops|
    decreases |ops|
  {
    if ops == [] then Run(t, Served, 0)
    else if !RequestOk(t, ops[0]) then Run(t, Unguarded, 0)
    else
      var (u, end) := StepOwn(t, ops[0]);
      if end != Served then Run(t, end, 0)
      else
        StepOwnKeeps(t, ops[0]);
        var r := ExecuteOwn(u, ops[1..]);
        r.(done := r.done + 1)
  }

  /** Runs then refine a plain map, and stop only at a shared update, on a full disk, at a request out of range or
      before a write to a trimmed LBA. */
  lemma {:induction false} OwnRunsRefineAMap(t: Tables, ops: seq<Op>)
    requires Consistent(t)
    ensures var r := ExecuteOwn(t, ops);
            && Consistent(r.t) && RefSum(r.t.blocks) == |ValidLbas(r.t)| && !r.end.TrimFailed?
            && (r.end.Served? ==> r.done == |ops|)
            && (r.end.Unguarded? ==>
                 r.done < |ops| &&
                 (!RequestOk(r.t, ops[r.done]) || (ops[r.done].WriteOp? && r.t.ltp[ops[r.done].lba].trim)))
            && Contents(r.t) == AppliedAll(Contents(t), ops[..r.done])
    decreases |ops|
  {
    hide Forward, Backward, Distinct, Retired, Contents, StepOwn, Applied, RefSum, ValidLbas, RequestOk;
    var r := ExecuteOwn(t, ops);
    if ops != [] && RequestOk(t, ops[0]) {
      StepOwnKeeps(t, ops[0]);
      if StepOwn(t, ops[0]).1 == Served {
        var u := StepOwn(t, ops[0]).0;
        OwnRunsRefineAMap(u, ops[1..]);
        assert r == ExecuteOwn(u, ops[1..]).(done := r.done);
        assert ops[..r.done][0] == ops[0] && ops[..r.done][1..] == ops[1..][..r.done - 1];
        assert AppliedAll(Contents(t), ops[..r.done]) == AppliedAll(Applied(Contents(t), ops[0]), ops[..r.done][1..]);
      } else {
        InRange(t, ops[0]);
      }
    }
    ReferencesAreConserved(r.t);
  }

  lemma InRange(t: Tables, op: Op)
    requires RequestOk(t, op)
    ensures op.lba < |t.ltp|
  {
  }
}
