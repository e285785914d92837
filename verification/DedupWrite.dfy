/** Exactly when dedupe_lba_write keeps the dedup mapping. */
module DedupWrite {
  import opened DiskTypes
  import opened DedupSpec
  import opened DedupProofs

  // ---- the guard ---------------------------------------------------------------------------

  /** Whether the walk of is_lba_in_storage lets the newcomer onto the list of track p, whose count
      has just been raised: the walk, which runs as far as block 0's count, must miss it, or the new
      last cell must hold it already. */
  predicate Enrols(t: Tables, p: nat, lba: nat, heap: nat -> nat)
    requires p < |t.blocks|
  {
    var b := Gain(t, p).blocks[p];
    Meets(b, lba, Gain(t, p).blocks[0].refs, heap) ==> Load(b, b.refs, heap) == lba
  }

  /** Whether the walk leaves the list of a block alone when one of its own LBAs is written again:
      it must reach the LBA, or the LBA must be the last of the list. */
  predicate Undisturbed(t: Tables, p: nat, lba: nat, heap: nat -> nat)
    requires p < |t.blocks| && t.blocks[p].refs < |t.blocks[p].lba|
  {
    var b := t.blocks[p];
    b.refs == 0 || Meets(b, lba, t.blocks[0].refs, heap) || b.lba[b.refs] == lba
  }

  /** What a caller has to check before a write for the mapping to survive it. */
  predicate WriteGuard(t: Tables, lba: nat, hash: string, heap: nat -> nat)
    requires |t.blocks| > 0 && lba < |t.ltp| && t.ltp[lba].pba < |t.blocks|
    requires forall p :: 0 <= p < |t.blocks| ==> t.blocks[p].refs < |t.blocks[p].lba|
  {
    var e := t.ltp[lba];
    var b := t.blocks[e.pba];
    if e.trim then
      if e.hash != hash then b.status == Trimmed
      else b.hash != hash && match FindInUse(t.blocks, hash, 0) case None => false
        case Some(q) => Enrols(t, q, lba, heap)
    else if e.valid then e.hash != hash || Undisturbed(t, e.pba, lba, heap)
    else match FindHash(t.blocks, hash, 0) case None => true
      case Some(p) => t.blocks[p].status == Trimmed || Enrols(t, p, lba, heap)
  }

  // ---- violations --------------------------------------------------------------------------

  /** A valid LBA whose block does not serve it: it is not in use or does not list it. */
  ghost predicate Stray(u: Tables, l: nat) {
    && l < |u.ltp| && u.ltp[l].valid
    && (u.ltp[l].pba < |u.blocks| ==> u.blocks[u.ltp[l].pba].status != InUse || !Lists(u.blocks[u.ltp[l].pba], l))
  }

  ghost predicate Strays(u: Tables) {
    exists l :: Stray(u, l)
  }

  lemma Unlisted(u: Tables, l: nat)
    requires Stray(u, l)
    ensures Strays(u) && !Consistent(u) && (Shaped(u) ==> !Forward(u))
  {
  }

  // ---- joining a list ----------------------------------------------------------------------

  /** An LBA that no block serves joins a block in use. */
  lemma JoinKeepsExactly(t: Tables, p: nat, lba: nat, hash: string, heap: nat -> nat)
    requires Consistent(t) && p < |t.blocks| && lba < |t.ltp|
    requires Serves(t.blocks[p], hash) && !t.ltp[lba].valid && NotRetiredElsewhere(t, p, lba)
    ensures var u := Enlist(Link(Gain(t, p), lba, p, hash), p, lba, heap);
            (Consistent(u) <==> Enrols(t, p, lba, heap)) && (Consistent(u) || Strays(u))
  {
    var s := Link(Gain(t, p), lba, p, hash);
    var u := Enlist(s, p, lba, heap);
    var b := s.blocks[p];
    assert forall i :: 0 <= i < b.refs ==> t.blocks[p].lba[i] != lba by {
      forall i | 0 <= i < b.refs
        ensures t.blocks[p].lba[i] != lba
      {
        assert t.ltp[t.blocks[p].lba[i]].valid;
      }
    }
    if Enrols(t, p, lba, heap) {
      EnlistKeeps(t, u, p, lba, hash);
    } else {
      assert u.blocks[p].lba[b.refs] == Load(b, b.refs, heap);
      Unlisted(u, lba);
    }
  }

  // ---- valid LBAs --------------------------------------------------------------------------

  lemma ValidSameKeepsExactly(t: Tables, lba: nat, hash: string, env: Env)
    requires Consistent(t) && lba < |t.ltp| && t.ltp[lba].valid && t.ltp[lba].hash == hash
    ensures var (u, o) := Finish(SearchValid(t, lba, hash, env), lba, hash, env.heap);
            o == Done && (Consistent(u) <==> Undisturbed(t, t.ltp[lba].pba, lba, env.heap)) &&
            (Consistent(u) || Strays(u))
  {
    var p := t.ltp[lba].pba;
    var b := t.blocks[p];
    var u := Finish(SearchValid(t, lba, hash, env), lba, hash, env.heap).0;
    if b.refs > 0 {
      if Undisturbed(t, p, lba, env.heap) {
        assert b.lba[b.refs] == lba ==> b.lba[b.refs := lba] == b.lba;
        assert u.blocks == t.blocks;
      } else {
        var z := b.lba[b.refs];
        assert t.ltp[z].valid && t.ltp[z].pba == p;
        assert ListedOnce(b);
        Unlisted(u, z);
      }
    }
  }

  lemma ExchangedIsVacant(t: Tables, q: nat, p: nat, lba: nat)
    requires Consistent(t) && p < |t.blocks| && q < |t.blocks| && p != q && lba < |t.ltp| && t.ltp[lba].pba == p
    requires t.blocks[p].refs == 0 && t.blocks[p].status != Free && t.blocks[q].status != Free
    requires t.blocks[p].status == InUse ==> t.blocks[p].lba[0] == lba
    requires t.ltp[lba].valid ==> t.blocks[p].status == InUse
    ensures var v := Exchange(t, q, p); Consistent(v) && Vacant(v, q, lba)
  {
    ExchangeKeeps(t, q, p);
    assert Vacant(Exchange(t, q, p), q, lba);
  }

  /** The tables when DEDU_update has chosen the track for new content. */
  lemma UpdatedIsVacant(t: Tables, p: nat, lba: nat, below: bool)
    requires Consistent(t) && p < |t.blocks| && lba < |t.ltp| && t.ltp[lba].pba == p
    requires t.blocks[p].refs == 0 && t.blocks[p].status != Free
    requires t.blocks[p].status == InUse ==> t.blocks[p].lba[0] == lba
    requires t.ltp[lba].valid ==> t.blocks[p].status == InUse
    ensures var (u, q) := Updated(t, p, below);
            exists v :: Consistent(v) && Vacant(v, q, lba) && v.ltp == u.ltp && AgreesBut(v, u, q)
  {
    var (u, q) := Updated(t, p, below);
    var top := BestTop(t.blocks, |t.blocks|);
    if WantsSwap(t.blocks, p, below) && top.Some? {
      ExchangedIsVacant(t, q, p, lba);
      var v := Exchange(t, q, p);
      assert u.ltp == v.ltp;
      assert AgreesBut(v, u, q);
    } else {
      assert Vacant(t, p, lba);
      assert AgreesBut(t, u, q);
    }
  }

  /** Equal tables but for the status and the access count of track q. */
  ghost predicate AgreesBut(v: Tables, u: Tables, q: nat) {
    && |v.blocks| == |u.blocks| && q < |v.blocks|
    && (forall p :: 0 <= p < |v.blocks| && p != q ==> v.blocks[p] == u.blocks[p])
    && u.blocks[q].refs == v.blocks[q].refs && u.blocks[q].lba == v.blocks[q].lba
  }

  /** New content for an unshared valid LBA, or for a trimmed LBA whose block is trimmed, is safe. */
  lemma UpdateKeeps(t: Tables, lba: nat, hash: string, below: bool)
    requires Consistent(t) && lba < |t.ltp| && hash != ""
    requires var b := t.blocks[t.ltp[lba].pba];
             b.refs == 0 && (b.status == Trimmed || (t.ltp[lba].valid && b.status == InUse))
    requires t.ltp[lba].valid ==> t.blocks[t.ltp[lba].pba].status == InUse
    ensures var (u, q) := Updated(t, t.ltp[lba].pba, below);
            u.blocks[q].refs == 0 && Consistent(Store(Link(u, lba, q, hash), q, lba, hash))
  {
    var p := t.ltp[lba].pba;
    if t.blocks[p].status == InUse {
      assert Lists(t.blocks[p], lba);
    }
    UpdatedIsVacant(t, p, lba, below);
    var (u, q) := Updated(t, p, below);
    var v :| Consistent(v) && Vacant(v, q, lba) && v.ltp == u.ltp && AgreesBut(v, u, q);
    StoreKeeps(v, Store(Link(u, lba, q, hash), q, lba, hash), q, lba, hash);
  }

  // ---- fresh LBAs --------------------------------------------------------------------------

  lemma FreshKeepsExactly(t: Tables, lba: nat, hash: string, env: Env)
    requires Consistent(t) && lba < |t.ltp| && !t.ltp[lba].valid && !t.ltp[lba].trim && hash != "" && PickOk(t, env)
    requires SearchFresh(t, lba, hash, env).Some?
    ensures var (u, o) := Finish(SearchFresh(t, lba, hash, env).value, lba, hash, env.heap);
            o == Done && (Consistent(u) <==> WriteGuard(t, lba, hash, env.heap)) && (Consistent(u) || Strays(u))
  {
    var s := SearchFresh(t, lba, hash, env).value;
    var u := Finish(s, lba, hash, env.heap).0;
    assert NotRetiredElsewhere(t, s.p, lba);
    match FindHash(t.blocks, hash, 0)
    case Some(p) =>
      if t.blocks[p].status == Trimmed {
        StoreKeeps(t, u, p, lba, hash);
      } else {
        JoinKeepsExactly(t, p, lba, hash, env.heap);
      }
    case None =>
      StoreKeeps(t, u, s.p, lba, hash);
  }

  // ---- trimmed LBAs ------------------------------------------------------------------------

  /** A valid LBA keeps its list when its block moves to make room for new content. */
  lemma UpdatedCarries(t: Tables, p: nat, z: nat, below: bool)
    requires Consistent(t) && p < |t.blocks| && t.blocks[p].status == InUse
    requires z < |t.ltp| && t.ltp[z].valid && t.ltp[z].pba == p
    ensures var (u, q) := Updated(t, p, below);
            && u.ltp[z].valid && u.ltp[z].pba == q
            && u.blocks[q].refs == t.blocks[p].refs && u.blocks[q].lba == t.blocks[p].lba
  {
    var (u, q) := Updated(t, p, below);
    if WantsSwap(t.blocks, p, below) && BestTop(t.blocks, |t.blocks|).Some? {
      ExchangeKeeps(t, q, p);
      assert u.ltp == Exchange(t, q, p).ltp;
    }
  }

  /** The LBAs a block in use lists are valid, so any other is not among them; the last of the list
      stands there only once. */
  lemma InvalidIsNotListed(t: Tables, p: nat, lba: nat)
    requires Consistent(t) && p < |t.blocks| && t.blocks[p].status == InUse && lba < |t.ltp| && !t.ltp[lba].valid
    ensures forall i :: 0 <= i <= t.blocks[p].refs ==> t.blocks[p].lba[i] != lba
    ensures var z := t.blocks[p].lba[t.blocks[p].refs]; z != lba && t.ltp[z].valid && t.ltp[z].pba == p
    ensures var b := t.blocks[p]; forall i :: 0 <= i < b.refs ==> b.lba[i] != b.lba[b.refs]
  {
    forall i | 0 <= i <= t.blocks[p].refs
      ensures t.blocks[p].lba[i] != lba
    {
      assert t.ltp[t.blocks[p].lba[i]].valid;
    }
    assert ListedOnce(t.blocks[p]);
  }

  /** Overwriting the last cell of a full list, or the only one, loses an LBA. */
  lemma OverwriteBreaks(v: Tables, q: nat, z: nat, lba: nat, hash: string, pass: bool, heap: nat -> nat)
    requires q < |v.blocks| && v.blocks[q].refs < |v.blocks[q].lba| && lba < |v.ltp| && z < |v.ltp|
    requires var b := v.blocks[q];
             z == b.lba[b.refs] && z != lba &&
             forall i :: 0 <= i < b.refs ==> b.lba[i] != z && b.lba[i] != lba
    requires v.ltp[z].valid && v.ltp[z].pba == q
    ensures var (u, o) := Finish(Search(Link(v, lba, q, hash), q, pass), lba, hash, heap);
            o == Done ==> !Consistent(u) && Strays(u)
  {
    var b := v.blocks[q];
    var (u, o) := Finish(Search(Link(v, lba, q, hash), q, pass), lba, hash, heap);
    if o == Done {
      if (b.refs == 0 && pass) || (b.refs > 0 && Meets(b, lba, v.blocks[0].refs, heap)) {
        assert u.blocks[q].lba == b.lba;
        Unlisted(u, lba);
      } else {
        Unlisted(u, z);
      }
    }
  }

  /** New content for a trimmed LBA lands on its old block; when the block serves others by now, one of
      them is lost. */
  lemma TrimmedOtherBreaks(t: Tables, lba: nat, hash: string, env: Env)
    requires Consistent(t) && lba < |t.ltp| && t.ltp[lba].trim && t.ltp[lba].hash != hash
    requires t.blocks[t.ltp[lba].pba].status == InUse
    ensures var (u, o) := Finish(SearchTrimmed(t, lba, hash, env), lba, hash, env.heap);
            o == Done ==> !Consistent(u) && Strays(u)
  {
    var p := t.ltp[lba].pba;
    var z := t.blocks[p].lba[t.blocks[p].refs];
    InvalidIsNotListed(t, p, lba);
    UpdatedCarries(t, p, z, env.below);
    var (v, q) := Updated(t, p, env.below);
    OverwriteBreaks(v, q, z, lba, hash, false, env.heap);
  }

  /** The old content for a trimmed LBA whose block still holds that content: nothing is counted. */
  lemma TrimmedSameBreaks(t: Tables, lba: nat, hash: string, env: Env)
    requires Consistent(t) && lba < |t.ltp| && t.ltp[lba].trim && t.ltp[lba].hash == hash
    requires t.blocks[t.ltp[lba].pba].hash == hash
    ensures var (u, o) := Finish(SearchTrimmed(t, lba, hash, env), lba, hash, env.heap);
            o == Done ==> !Consistent(u) && Strays(u)
  {
    var p := t.ltp[lba].pba;
    var b := t.blocks[p];
    if b.status == InUse {
      InvalidIsNotListed(t, p, lba);
      OverwriteBreaks(t, p, b.lba[b.refs], lba, hash, true, env.heap);
    } else {
      Unlisted(Finish(SearchTrimmed(t, lba, hash, env), lba, hash, env.heap).0, lba);
    }
  }

  lemma TrimmedKeepsExactly(t: Tables, lba: nat, hash: string, env: Env)
    requires Consistent(t) && lba < |t.ltp| && t.ltp[lba].trim && hash != ""
    ensures var (u, o) := Finish(SearchTrimmed(t, lba, hash, env), lba, hash, env.heap);
            o == Done ==> (Consistent(u) <==> WriteGuard(t, lba, hash, env.heap)) && (Consistent(u) || Strays(u))
    ensures WriteGuard(t, lba, hash, env.heap) ==>
              Finish(SearchTrimmed(t, lba, hash, env), lba, hash, env.heap).1 == Done
  {
    var p := t.ltp[lba].pba;
    var b := t.blocks[p];
    var (u, o) := Finish(SearchTrimmed(t, lba, hash, env), lba, hash, env.heap);
    if t.ltp[lba].hash != hash {
      if b.status == Trimmed {
        UpdateKeeps(t, lba, hash, env.below);
      } else {
        TrimmedOtherBreaks(t, lba, hash, env);
      }
    } else if b.hash == hash {
      TrimmedSameBreaks(t, lba, hash, env);
    } else {
      match FindInUse(t.blocks, hash, 0)
      case Some(q) =>
        assert NotRetiredElsewhere(t, q, lba);
        JoinKeepsExactly(t, q, lba, hash, env.heap);
      case None =>
        if o == Done {
          Unlisted(u, lba);
        }
    }
  }

  // ---- the theorem -------------------------------------------------------------------------

  /** A write that completes keeps the mapping exactly when its guard holds; otherwise it leaves a valid LBA that
      its block does not serve. */
  lemma WriteKeepsExactly(t: Tables, lba: nat, hash: string, env: Env)
    requires Consistent(t) && lba < |t.ltp| && hash != "" && PickOk(t, env)
    ensures var (u, o) := Write(t, lba, hash, env);
            && (o == Done ==> (Consistent(u) <==> WriteGuard(t, lba, hash, env.heap)) && (Consistent(u) || Strays(u)))
            && (o == DiskFull ==> u == t)
  {
    if t.ltp[lba].trim {
      TrimmedKeepsExactly(t, lba, hash, env);
    } else if t.ltp[lba].valid {
      if t.ltp[lba].hash == hash {
        ValidSameKeepsExactly(t, lba, hash, env);
      } else if t.blocks[t.ltp[lba].pba].refs == 0 {
        UpdateKeeps(t, lba, hash, env.below);
      }
    } else if SearchFresh(t, lba, hash, env).Some? {
      FreshKeepsExactly(t, lba, hash, env);
    }
  }

  /** Under the guard, a write stops the run only for the two reasons the source names: an update of
      content that several LBAs share, and a full disk. */
  lemma WriteStopsExactly(t: Tables, lba: nat, hash: string, env: Env)
    requires Consistent(t) && lba < |t.ltp| && hash != "" && PickOk(t, env)
    requires WriteGuard(t, lba, hash, env.heap)
    ensures var e, o := t.ltp[lba], Write(t, lba, hash, env).1;
            && (o == SharedUpdate <==> e.valid && e.hash != hash && t.blocks[e.pba].refs > 0)
            && (o == DiskFull <==> !e.valid && !e.trim && env.pick.None? && FindHash(t.blocks, hash, 0).None?)
  {
    if t.ltp[lba].trim {
      TrimmedKeepsExactly(t, lba, hash, env);
    } else if t.ltp[lba].valid {
      if t.ltp[lba].hash == hash {
        ValidSameKeepsExactly(t, lba, hash, env);
      } else if t.blocks[t.ltp[lba].pba].refs == 0 {
        UpdateKeeps(t, lba, hash, env.below);
      }
    } else if SearchFresh(t, lba, hash, env).Some? {
      FreshKeepsExactly(t, lba, hash, env);
    }
  }
}
