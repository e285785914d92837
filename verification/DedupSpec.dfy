/** The deduplicating translation layer as functions on values: what dedupe_lba_write and dedupe_trim
    (src/lba.c) make of the block table and the LBA table, in the build with DEDU_WRITE and without
    NEW_ALLOC and TRIM. The class DedupDisk is proved against these functions. */
module DedupSpec {
  import opened DiskTypes

  /** One entry of the block table. `lba` is the whole allocation, so |lba| is lba_capacity; the
      LBAs that share the block are lba[0..refs + 1]. */
  datatype Block = Block(hash: string, lba: seq<nat>, status: Status, count: nat, refs: nat)

  datatype Entry = Entry(pba: nat, hash: string, valid: bool, trim: bool)

  /** `used` is current_use_block_num. */
  datatype Tables = Tables(blocks: seq<Block>, ltp: seq<Entry>, used: nat)

  /** What one request takes from outside the tables: the values the code loads from memory it never
      wrote or does not own, whether the word in front of the block table reads as in use, and the
      track the allocator hands out (None when the disk is full). */
  datatype Env = Env(heap: nat -> nat, below: bool, pick: Option<nat>)

  /** OutOfRange leaves the request unserved; an update of a shared block and a full disk end the run. */
  datatype Outcome = Done | SharedUpdate | DiskFull | OutOfRange

  // ---- block lists -------------------------------------------------------------------------

  predicate Lists(b: Block, lba: nat) {
    exists i :: 0 <= i <= b.refs && i < |b.lba| && b.lba[i] == lba
  }

  function Active(b: Block): (r: seq<nat>)
    requires b.refs < |b.lba|
    ensures |r| == b.refs + 1
  {
    b.lba[..b.refs + 1]
  }

  /** The i-th load from a block's list; past its capacity the code reads foreign memory. */
  function Load(b: Block, i: nat, heap: nat -> nat): nat {
    if i < |b.lba| then b.lba[i] else heap(i)
  }

  /** is_lba_in_storage: the walk over lba[0..last + 1], where `last` is the count of block 0 and not
      the block's own. */
  predicate Meets(b: Block, lba: nat, last: nat, heap: nat -> nat) {
    exists i: nat :: i <= last && Load(b, i, heap) == lba
  }

  function Grown(b: Block, heap: nat -> nat): (r: Block)
    ensures |r.lba| == 2 * |b.lba| && r == b.(lba := r.lba)
    ensures forall i :: Load(r, i, heap) == Load(b, i, heap)
  {
    b.(lba := b.lba + seq(|b.lba|, (i: nat) => heap(|b.lba| + i)))
  }

  /** The position of an LBA in the active list. */
  function Position(b: Block, lba: nat, i: nat): (r: Option<nat>)
    requires i <= b.refs + 1 <= |b.lba|
    ensures r.Some? ==> i <= r.value <= b.refs && b.lba[r.value] == lba
    ensures r.Some? ==> forall k :: i <= k < r.value ==> b.lba[k] != lba
    ensures r.None? ==> forall k :: i <= k <= b.refs ==> b.lba[k] != lba
    decreases b.refs + 1 - i
  {
    if i == b.refs + 1 then None
    else if b.lba[i] == lba then Some(i)
    else Position(b, lba, i + 1)
  }

  // ---- searches ----------------------------------------------------------------------------

  /** The first block with this hash, whatever its status. */
  function FindHash(blocks: seq<Block>, hash: string, i: nat): (r: Option<nat>)
    requires i <= |blocks|
    ensures r.Some? ==> i <= r.value < |blocks| && blocks[r.value].hash == hash
    ensures r.Some? ==> forall k :: i <= k < r.value ==> blocks[k].hash != hash
    ensures r.None? ==> forall k :: i <= k < |blocks| ==> blocks[k].hash != hash
    decreases |blocks| - i
  {
    if i == |blocks| then None
    else if blocks[i].hash == hash then Some(i)
    else FindHash(blocks, hash, i + 1)
  }

  predicate Serves(b: Block, hash: string) {
    b.status == InUse && b.hash == hash
  }

  /** The first block in use with this hash. */
  function FindInUse(blocks: seq<Block>, hash: string, i: nat): (r: Option<nat>)
    requires i <= |blocks|
    ensures r.Some? ==> i <= r.value < |blocks| && Serves(blocks[r.value], hash)
    ensures r.Some? ==> forall k :: i <= k < r.value ==> !Serves(blocks[k], hash)
    ensures r.None? ==> forall k :: i <= k < |blocks| ==> !Serves(blocks[k], hash)
    decreases |blocks| - i
  {
    if i == |blocks| then None
    else if Serves(blocks[i], hash) then Some(i)
    else FindInUse(blocks, hash, i + 1)
  }

  /** A top block that a bottom update may be swapped with. */
  predicate Candidate(blocks: seq<Block>, t: nat) {
    t < |blocks| && IsTop(t) && blocks[t].status == InUse && blocks[t].refs > 0
  }

  /** The swap partner among the tracks below n: the first of the most referenced tops in use. */
  function BestTop(blocks: seq<Block>, n: nat): (r: Option<nat>)
    requires n <= |blocks|
    ensures r.Some? ==> r.value < n && Candidate(blocks, r.value)
    ensures r.Some? ==> forall t :: 0 <= t < n && Candidate(blocks, t) ==> blocks[t].refs <= blocks[r.value].refs
    ensures r.Some? ==> forall t :: 0 <= t < r.value && Candidate(blocks, t) ==> blocks[t].refs < blocks[r.value].refs
    ensures r.None? ==> forall t :: 0 <= t < n ==> !Candidate(blocks, t)
  {
    if n == 0 then None
    else
      var best := BestTop(blocks, n - 1);
      if Candidate(blocks, n - 1) && (best.None? || blocks[n - 1].refs > blocks[best.value].refs) then Some(n - 1)
      else best
  }

  // ---- the invariant -----------------------------------------------------------------------

  predicate BlockOk(b: Block, ltpSize: nat) {
    && b.refs < |b.lba|
    && b.status in {Free, InUse, Trimmed}
    && (b.status == Free <==> b.hash == "")
    && (b.status != InUse ==> b.refs == 0)
    && (b.status != Free ==> forall i :: 0 <= i <= b.refs ==> b.lba[i] < ltpSize)
  }

  /** The tracks are even in number, and every index that the code follows is in range. */
  ghost predicate Shaped(t: Tables) {
    && |t.blocks| > 0 && |t.blocks| % 2 == 0
    && (forall p :: 0 <= p < |t.blocks| ==> BlockOk(t.blocks[p], |t.ltp|))
    && (forall l :: 0 <= l < |t.ltp| ==> t.ltp[l].pba < |t.blocks|)
  }

  /** A valid LBA leads to a block in use with the same hash that lists it. */
  ghost predicate Forward(t: Tables)
    requires Shaped(t)
  {
    forall l :: 0 <= l < |t.ltp| && t.ltp[l].valid ==>
      !t.ltp[l].trim && Serves(t.blocks[t.ltp[l].pba], t.ltp[l].hash) && Lists(t.blocks[t.ltp[l].pba], l)
  }

  /** What a block in use lists is valid and leads back to it. */
  ghost predicate Backward(t: Tables)
    requires Shaped(t)
  {
    forall p, i :: 0 <= p < |t.blocks| && t.blocks[p].status == InUse && 0 <= i <= t.blocks[p].refs ==>
      t.ltp[t.blocks[p].lba[i]].valid && t.ltp[t.blocks[p].lba[i]].pba == p
  }

  ghost predicate ListedOnce(b: Block)
    requires b.refs < |b.lba|
  {
    forall i, j :: 0 <= i < j <= b.refs ==> b.lba[i] != b.lba[j]
  }

  ghost predicate Distinct(t: Tables)
    requires Shaped(t)
  {
    forall p :: 0 <= p < |t.blocks| && t.blocks[p].status == InUse ==> ListedOnce(t.blocks[p])
  }

  /** A trimmed block still names the LBA that left it last, and that LBA still points to it. */
  ghost predicate Retired(t: Tables)
    requires Shaped(t)
  {
    && (forall p :: 0 <= p < |t.blocks| && t.blocks[p].status == Trimmed ==>
          var e := t.ltp[t.blocks[p].lba[0]]; e.trim && e.pba == p && e.hash == t.blocks[p].hash)
    && (forall l :: 0 <= l < |t.ltp| && t.ltp[l].trim ==> t.blocks[t.ltp[l].pba].status != Free)
  }

  /** The forward map, the reverse lists and the reference counts agree. */
  ghost predicate Consistent(t: Tables) {
    Shaped(t) && Forward(t) && Backward(t) && Distinct(t) && Retired(t)
  }

  // ---- steps -------------------------------------------------------------------------------

  /** chs_write. */
  function Touch(t: Tables, p: nat): Tables
    requires p < |t.blocks|
  {
    var b := t.blocks[p];
    t.(blocks := t.blocks[p := b.(status := InUse, count := b.count + 1)],
       used := if b.status == InUse then t.used else t.used + 1)
  }

  /** dedupe_update_ltp_table. */
  function Link(t: Tables, lba: nat, p: nat, hash: string): Tables
    requires lba < |t.ltp|
  {
    t.(ltp := t.ltp[lba := Entry(p, hash, true, false)])
  }

  /** One loop of ltp_table_swap. */
  function Redirect(ltp: seq<Entry>, lbas: seq<nat>, p: nat): (r: seq<Entry>)
    requires forall i :: 0 <= i < |lbas| ==> lbas[i] < |ltp|
    ensures |r| == |ltp|
    ensures forall l :: 0 <= l < |ltp| ==> r[l] == if l in lbas then ltp[l].(pba := p) else ltp[l]
  {
    if lbas == [] then ltp
    else
      var l := lbas[|lbas| - 1];
      var r := Redirect(ltp, lbas[..|lbas| - 1], p);
      r[l := r[l].(pba := p)]
  }

  predicate ListsInRange(t: Tables, p: nat) {
    p < |t.blocks| && t.blocks[p].refs < |t.blocks[p].lba| &&
    forall i :: 0 <= i <= t.blocks[p].refs ==> t.blocks[p].lba[i] < |t.ltp|
  }

  /** ltp_table_swap and block_info_swap: the two tracks change places. */
  function Exchange(t: Tables, from: nat, to: nat): Tables
    requires ListsInRange(t, from) && ListsInRange(t, to)
  {
    var ltp := Redirect(Redirect(t.ltp, Active(t.blocks[from]), to), Active(t.blocks[to]), from);
    t.(ltp := ltp, blocks := t.blocks[from := t.blocks[to]][to := t.blocks[from]])
  }

  /** DEDU_createBlockSwap: the bottom is rewritten, then the tracks change places. */
  function BlockSwap(t: Tables, from: nat, to: nat): Tables
    requires ListsInRange(t, from) && ListsInRange(t, to)
  {
    Exchange(Touch(t, to), from, to)
  }

  /** Whether DEDU_update swaps. For track 0 the code loads the status in front of the table. */
  predicate WantsSwap(blocks: seq<Block>, p: nat, below: bool) {
    p < |blocks| && !IsTop(p) && blocks[p].refs == 0 &&
    ((if p > 0 then blocks[p - 1].status == InUse else below) || (p + 1 < |blocks| && blocks[p + 1].status == InUse))
  }

  /** DEDU_update: where new content for track p goes. */
  function Updated(t: Tables, p: nat, below: bool): (r: (Tables, nat))
    requires Shaped(t) && p < |t.blocks| && t.blocks[p].status != Free
    ensures r.1 < |r.0.blocks| && r.0.blocks[r.1].refs < |r.0.blocks[r.1].lba| && |r.0.ltp| == |t.ltp|
  {
    var top := BestTop(t.blocks, |t.blocks|);
    if WantsSwap(t.blocks, p, below) && top.Some? then (BlockSwap(t, top.value, p), top.value) else (t, p)
  }

  function Gain(t: Tables, p: nat): Tables
    requires p < |t.blocks|
  {
    t.(blocks := t.blocks[p := t.blocks[p].(refs := t.blocks[p].refs + 1)])
  }

  /** The list update for a shared block, when the walk looks for the LBA in lba[0..last + 1]. */
  function EnlistWithin(t: Tables, p: nat, lba: nat, last: nat, heap: nat -> nat): Tables
    requires p < |t.blocks| && t.blocks[p].refs <= |t.blocks[p].lba| && |t.blocks[p].lba| > 0
  {
    var b := if t.blocks[p].refs + 1 > |t.blocks[p].lba| then Grown(t.blocks[p], heap) else t.blocks[p];
    t.(blocks := t.blocks[p := if Meets(b, lba, last, heap) then b else b.(lba := b.lba[b.refs := lba])])
  }

  /** The end of dedupe_lba_write for a shared block: the walk goes by the count of block 0. */
  function Enlist(t: Tables, p: nat, lba: nat, heap: nat -> nat): Tables
    requires 0 < |t.blocks| && p < |t.blocks| && t.blocks[p].refs <= |t.blocks[p].lba|
    requires |t.blocks[p].lba| > 0
  {
    EnlistWithin(t, p, lba, t.blocks[0].refs, heap)
  }

  /** New content for an unshared block. */
  function Store(t: Tables, p: nat, lba: nat, hash: string): Tables
    requires p < |t.blocks| && |t.blocks[p].lba| > 0
  {
    Touch(t.(blocks := t.blocks[p := t.blocks[p].(lba := t.blocks[p].lba[0 := lba], hash := hash)]), p)
  }

  /** The result of dedupe_pba_search: the tables, the track and the `pass` flag. */
  datatype Search = Search(t: Tables, p: nat, pass: bool)

  predicate Addressable(s: Search) {
    s.p < |s.t.blocks| && s.t.blocks[s.p].refs <= |s.t.blocks[s.p].lba| && 0 < |s.t.blocks[s.p].lba|
  }

  /** The allocator hands out free tracks only. */
  predicate PickOk(t: Tables, env: Env) {
    env.pick.Some? ==> env.pick.value < |t.blocks| && t.blocks[env.pick.value].status == Free
  }

  /** A trimmed LBA is written again. */
  function SearchTrimmed(t: Tables, lba: nat, hash: string, env: Env): (r: Search)
    requires Consistent(t) && lba < |t.ltp| && t.ltp[lba].trim
    ensures Addressable(r)
  {
    var p := t.ltp[lba].pba;
    if t.ltp[lba].hash != hash then
      var (u, q) := Updated(t, p, env.below);
      Search(Link(u, lba, q, hash), q, false)
    else if t.blocks[p].hash != hash then
      var q := match FindInUse(t.blocks, hash, 0) case Some(q) => q case None => p;
      var u := if t.blocks[q].status != Trimmed then Gain(t, q) else t;
      Search(Link(u, lba, q, hash), q, true)
    else Search(Link(t, lba, p, hash), p, true)
  }

  /** A valid LBA is written again. */
  function SearchValid(t: Tables, lba: nat, hash: string, env: Env): (r: Search)
    requires Consistent(t) && lba < |t.ltp| && t.ltp[lba].valid
    ensures Addressable(r)
  {
    var p := t.ltp[lba].pba;
    if t.ltp[lba].hash != hash then
      var (u, q) := Updated(t, p, env.below);
      Search(Link(u, lba, q, hash), q, false)
    else Search(t, p, true)
  }

  /** An LBA is written for the first time. */
  function SearchFresh(t: Tables, lba: nat, hash: string, env: Env): (r: Option<Search>)
    requires Consistent(t) && lba < |t.ltp| && PickOk(t, env)
    ensures r.Some? ==> Addressable(r.value)
  {
    match FindHash(t.blocks, hash, 0)
    case Some(p) =>
      if t.blocks[p].status != Trimmed then Some(Search(Link(Gain(t, p), lba, p, hash), p, false))
      else
        var b := t.blocks[p].(status := InUse, lba := t.blocks[p].lba[0 := lba]);
        Some(Search(Link(t.(blocks := t.blocks[p := b]), lba, p, hash), p, true))
    case None =>
      if env.pick.None? then None
      else
        var p := env.pick.value;
        var u := t.(blocks := t.blocks[p := t.blocks[p].(status := Booked)]);
        Some(Search(Link(u, lba, p, hash), p, false))
  }

  /** The rest of dedupe_lba_write. */
  function Finish(s: Search, lba: nat, hash: string, heap: nat -> nat): (Tables, Outcome)
    requires Addressable(s)
  {
    var b := s.t.blocks[s.p];
    if b.refs > 0 then
      if b.hash != hash then (s.t, SharedUpdate) else (Enlist(s.t, s.p, lba, heap), Done)
    else if !s.pass then (Store(s.t, s.p, lba, hash), Done)
    else (s.t, Done)
  }

  /** dedupe_pba_search; None when the allocator finds the disk full. */
  function Searched(t: Tables, lba: nat, hash: string, env: Env): (r: Option<Search>)
    requires Consistent(t) && lba < |t.ltp| && PickOk(t, env)
    ensures r.Some? ==> Addressable(r.value)
  {
    if t.ltp[lba].trim then Some(SearchTrimmed(t, lba, hash, env))
    else if t.ltp[lba].valid then Some(SearchValid(t, lba, hash, env))
    else SearchFresh(t, lba, hash, env)
  }

  /** dedupe_lba_write for one block. */
  function Write(t: Tables, lba: nat, hash: string, env: Env): (Tables, Outcome)
    requires Consistent(t) && lba < |t.ltp| && PickOk(t, env)
  {
    match Searched(t, lba, hash, env)
    case None => (t, DiskFull)
    case Some(s) => Finish(s, lba, hash, env.heap)
  }

  datatype TrimOutcome = Ignored | Released | NotInUse | NotListed

  /** delete_lba_in_storage: the entries behind position i move up by one. */
  function Delisted(b: Block, i: nat): (r: Block)
    requires i <= b.refs < |b.lba|
  {
    b.(lba := b.lba[..i] + b.lba[i + 1..b.refs + 1] + b.lba[b.refs..])
  }

  /** dedupe_trim. */
  function Trim(t: Tables, lba: nat, hash: string): (Tables, TrimOutcome)
    requires Shaped(t) && lba < |t.ltp|
  {
    var e := t.ltp[lba];
    if !(e.valid && hash == e.hash && !e.trim) then (t, Ignored)
    else
      var u := t.(ltp := t.ltp[lba := e.(trim := true, valid := false)]);
      var b := t.blocks[e.pba];
      if b.status != InUse then (u, NotInUse)
      else
        match Position(b, lba, 0)
        case None => (u, NotListed)
        case Some(i) =>
          var d := Delisted(b, i);
          (u.(blocks := u.blocks[e.pba := if d.refs > 0 then d.(refs := d.refs - 1) else d.(status := Trimmed)]),
            Released)
  }
}
