/** The translation layer with a top buffer (builds with TOP_BUFFER and without BLOCK_SWAP and
    DEDU_WRITE) as values: the track table, the LBA table, the indirection table and what each track
    holds. The class TopBufferDisk is proved against these functions. */
module TopBufferSpec {
  import opened DiskTypes

  /** block_type_t: a buffered bottom (top_buffer_type) or the top that holds its newest data
      (buffered_type). */
  datatype Kind = Normal | BufferedBottom | BufferTop

  datatype Indirection = Indirection(tba: nat, scpPba: nat, kind: Kind)

  /** `used` is current_use_block_num, `pairs` is current_top_buffer_count. `content` is what the heads
      have written on each track. */
  datatype State = State(tracks: seq<Track>, ltp: seq<LtpEntry>, ptt: seq<Indirection>, content: seq<Data>, used: int,
                         pairs: int)

  predicate Sized(s: State) {
    && |s.tracks| == |s.ptt| == |s.content| && |s.tracks| % 2 == 0
    && forall l :: 0 <= l < |s.ltp| ==> s.ltp[l].pba < |s.tracks|
  }

  /** lba_to_tba: the track that a read of this LBA visits. */
  function ToTrack(s: State, l: nat): nat
    requires l < |s.ltp| && s.ltp[l].pba < |s.ptt|
  {
    var p := s.ltp[l].pba;
    if s.ptt[p].kind == Normal then p else s.ptt[p].tba
  }

  // ---- the invariant -----------------------------------------------------------------------

  /** A valid LBA leads to a track in use that names it and is not a buffer. */
  ghost predicate Owned(s: State)
    requires Sized(s)
  {
    forall l :: 0 <= l < |s.ltp| && s.ltp[l].valid ==>
      var p := s.ltp[l].pba;
      s.tracks[p].status == InUse && s.tracks[p].lba == l && s.ptt[p].kind != BufferTop
  }

  /** A track in use that is not a buffer names a valid LBA that leads to it. */
  ghost predicate Accounted(s: State)
    requires Sized(s)
  {
    forall p :: 0 <= p < |s.tracks| && s.tracks[p].status == InUse && s.ptt[p].kind != BufferTop ==>
      var l := s.tracks[p].lba;
      l < |s.ltp| && s.ltp[l].valid && s.ltp[l].pba == p
  }

  /** A buffer top is paired with a bottom, and names the same LBA. */
  predicate PairedTop(s: State, t: nat)
    requires Sized(s) && t < |s.tracks|
  {
    var b := s.ptt[t].scpPba;
    && IsTop(t) && s.tracks[t].status == InUse && s.ptt[t].tba == t
    && b < |s.tracks| && s.ptt[b].kind == BufferedBottom && s.ptt[b].tba == t && s.tracks[b].lba == s.tracks[t].lba
  }

  /** A buffered bottom is paired with a top. */
  predicate PairedBottom(s: State, b: nat)
    requires Sized(s) && b < |s.tracks|
  {
    var t := s.ptt[b].tba;
    && !IsTop(b) && s.tracks[b].status == InUse
    && t < |s.tracks| && s.ptt[t].kind == BufferTop && s.ptt[t].scpPba == b
  }

  ghost predicate Paired(s: State)
    requires Sized(s)
  {
    && (forall t :: 0 <= t < |s.tracks| && s.ptt[t].kind == BufferTop ==> PairedTop(s, t))
    && (forall b :: 0 <= b < |s.tracks| && s.ptt[b].kind == BufferedBottom ==> PairedBottom(s, b))
  }

  function BufferTops(ptt: seq<Indirection>): set<nat> {
    set p | 0 <= p < |ptt| && ptt[p].kind == BufferTop
  }

  function BufferedBottoms(ptt: seq<Indirection>): set<nat> {
    set p | 0 <= p < |ptt| && ptt[p].kind == BufferedBottom
  }

  lemma OneMoreBuffer(a: seq<Indirection>, b: seq<Indirection>, t: nat)
    requires |a| == |b| && t < |a| && a[t].kind != BufferTop && b[t].kind == BufferTop
    requires forall p :: 0 <= p < |a| && p != t ==> (a[p].kind == BufferTop <==> b[p].kind == BufferTop)
    ensures |BufferTops(b)| == |BufferTops(a)| + 1
  {
    assert BufferTops(b) == BufferTops(a) + {t};
  }

  ghost predicate Sound(s: State) {
    && Sized(s) && Owned(s) && Accounted(s) && Paired(s)
    && (forall p :: 0 <= p < |s.tracks| ==> s.tracks[p].status in {Free, InUse, Invalid})
    && s.used == |InUseTracks(s.tracks)| && s.pairs == |BufferTops(s.ptt)|
  }

  // ---- the abstract value ------------------------------------------------------------------

  lemma ReadsOwnTrack(s: State, l: nat)
    requires Sound(s) && l < |s.ltp| && s.ltp[l].valid
    ensures ToTrack(s, l) < |s.tracks| && s.tracks[ToTrack(s, l)].status == InUse && s.tracks[ToTrack(s, l)].lba == l
  {
    var p := s.ltp[l].pba;
    if s.ptt[p].kind == BufferedBottom {
      assert PairedBottom(s, p);
      assert PairedTop(s, s.ptt[p].tba);
    }
  }

  /** What the disk stores, seen through the translation. */
  ghost function Store(s: State): (m: map<nat, FileData>)
    requires Sound(s)
    ensures forall l :: l in m <==> 0 <= l < |s.ltp| && s.ltp[l].valid
    ensures forall l :: l in m ==>
              ToTrack(s, l) < |s.content| && m[l] == FileData(s.ltp[l].fid, s.content[ToTrack(s, l)])
  {
    assert forall l :: 0 <= l < |s.ltp| && s.ltp[l].valid ==> ToTrack(s, l) < |s.content| by {
      forall l | 0 <= l < |s.ltp| && s.ltp[l].valid
        ensures ToTrack(s, l) < |s.content|
      {
        ReadsOwnTrack(s, l);
      }
    }
    map l | 0 <= l < |s.ltp| && s.ltp[l].valid :: FileData(s.ltp[l].fid, s.content[ToTrack(s, l)])
  }

  // ---- steps -------------------------------------------------------------------------------

  /** The end of lba_write: the track is linked to the LBA and written (chs_write). */
  function Settle(s: State, p: nat, lba: nat, data: Data): State
    requires p < |s.tracks| && p < |s.content|
  {
    s.(tracks := s.tracks[p := Track(InUse, lba, s.tracks[p].count + 1)],
       content := s.content[p := data],
       used := if s.tracks[p].status == InUse then s.used else s.used + 1)
  }

  function Book(s: State, p: nat): State
    requires p < |s.tracks|
  {
    s.(tracks := s.tracks[p := s.tracks[p].(status := Booked)])
  }

  /** update_ltp_table. */
  function Link(s: State, lba: nat, p: nat, fid: nat): State
    requires lba < |s.ltp|
  {
    s.(ltp := s.ltp[lba := LtpEntry(p, fid, true)])
  }

  /** create_top_buffer. */
  function Pair(s: State, b: nat, t: nat): State
    requires b < |s.ptt| && t < |s.ptt| && t < |s.tracks|
  {
    Book(s, t).(ptt := s.ptt[b := Indirection(t, s.ptt[b].scpPba, BufferedBottom)][t := Indirection(t, b, BufferTop)],
      pairs := s.pairs + 1)
  }

  /** run_scp: the data of buffer top t goes back to its bottom, and t is invalidated. */
  function WriteBack(s: State, t: nat): State
    requires Sized(s) && t < |s.tracks| && s.ptt[t].scpPba < |s.tracks| && s.tracks[t].lba < |s.ltp|
  {
    var b := s.ptt[t].scpPba;
    var l := s.tracks[t].lba;
    State(
      s.tracks[t := s.tracks[t].(status := Invalid)][b := s.tracks[b].(count := s.tracks[b].count + 1)],
      s.ltp[l := s.ltp[l].(pba := b)],
      s.ptt[t := Indirection(t, 0, Normal)][b := Indirection(0, s.ptt[b].scpPba, Normal)],
      s.content[b := s.content[t]],
      s.used - 1, s.pairs - 1)
  }

  // ---- what the steps keep -----------------------------------------------------------------

  /** No two valid LBAs read the same track. */
  lemma TracksAreNotShared(s: State, l: nat, m: nat)
    requires Sound(s) && l < |s.ltp| && m < |s.ltp| && l != m && s.ltp[l].valid && s.ltp[m].valid
    ensures ToTrack(s, l) != ToTrack(s, m)
  {
    ReadsOwnTrack(s, l);
    ReadsOwnTrack(s, m);
  }

  lemma FreeIsNormal(s: State, p: nat)
    requires Sound(s) && p < |s.tracks| && IsFree(s.tracks[p].status)
    ensures s.ptt[p].kind == Normal
    ensures forall l :: 0 <= l < |s.ltp| && s.ltp[l].valid ==> s.ltp[l].pba != p && ToTrack(s, l) != p
  {
    assert s.ptt[p].kind == BufferTop ==> PairedTop(s, p);
    assert s.ptt[p].kind == BufferedBottom ==> PairedBottom(s, p);
    forall l | 0 <= l < |s.ltp| && s.ltp[l].valid
      ensures s.ltp[l].pba != p && ToTrack(s, l) != p
    {
      ReadsOwnTrack(s, l);
    }
  }

  /** The disk of init_disk stores nothing. */
  lemma EmptyIsSound(s: State)
    requires Sized(s) && s.used == 0 && s.pairs == 0
    requires forall p :: 0 <= p < |s.tracks| ==> s.tracks[p].status == Free && s.ptt[p].kind == Normal
    requires forall l :: 0 <= l < |s.ltp| ==> !s.ltp[l].valid
    ensures Sound(s) && Store(s) == map[]
  {
    assert InUseTracks(s.tracks) == {} && BufferTops(s.ptt) == {};
  }

  lemma BuffersAreTops(s: State)
    requires Sound(s)
    ensures forall t :: 0 <= t < |s.ptt| && s.ptt[t].kind == BufferTop ==> IsTop(t)
  {
    forall t | 0 <= t < |s.ptt| && s.ptt[t].kind == BufferTop
      ensures IsTop(t)
    {
      assert PairedTop(s, t);
    }
  }

  lemma BuffersCount(s: State)
    requires Sound(s)
    ensures s.pairs == |BufferTops(s.ptt)|
  {
  }

  /** A track that the allocator may hand out. */
  predicate Plain(s: State, p: nat) {
    p < |s.tracks| && p < |s.ptt| && IsFree(s.tracks[p].status) && s.ptt[p].kind == Normal
  }

  lemma FreeIsPlain(s: State, p: nat)
    requires Sound(s) && p < |s.tracks| && IsFree(s.tracks[p].status)
    ensures Plain(s, p)
  {
    FreeIsNormal(s, p);
  }

  /** Comparing two disks LBA by LBA. */
  lemma StoresAgree(s: State, u: State, lba: nat, cell: FileData)
    requires Sound(s) && Sound(u) && |u.ltp| == |s.ltp| && lba < |u.ltp|
    requires forall l :: 0 <= l < |s.ltp| && l != lba ==>
               s.ltp[l].valid == u.ltp[l].valid && s.ltp[l].fid == u.ltp[l].fid
    requires forall l :: l in Store(s) && l != lba ==> Store(u)[l].data == Store(s)[l].data
    requires lba in Store(u) && Store(u)[lba] == cell
    ensures Store(u) == Store(s)[lba := cell]
  {
    hide Sound;
    forall l | l in Store(s) && l != lba
      ensures Store(u)[l] == Store(s)[l]
    {
      assert Store(u)[l].fid == u.ltp[l].fid;
    }
  }

  // ---- a new LBA ---------------------------------------------------------------------------

  /** A free track takes an LBA that the disk does not hold. */
  function Placed(s: State, p: nat, lba: nat, fid: nat, data: Data): State
    requires p < |s.tracks| && p < |s.content| && lba < |s.ltp|
  {
    Settle(Link(Book(s, p), lba, p, fid), p, lba, data)
  }

  lemma PlaceIsMapped(s: State, p: nat, lba: nat, fid: nat, data: Data)
    requires Sound(s) && p < |s.tracks| && IsFree(s.tracks[p].status) && lba < |s.ltp| && !s.ltp[lba].valid
    ensures var u := Placed(s, p, lba, fid, data); Sized(u) && Owned(u) && Accounted(u)
  {
    var u := Placed(s, p, lba, fid, data);
    FreeIsNormal(s, p);
    assert Sized(u);
    assert forall q :: 0 <= q < |s.tracks| && q != p ==> u.tracks[q] == s.tracks[q];
    assert Owned(u);
    assert Accounted(u);
  }

  lemma PlaceIsPaired(s: State, p: nat, lba: nat, fid: nat, data: Data)
    requires Sound(s) && p < |s.tracks| && IsFree(s.tracks[p].status) && lba < |s.ltp| && !s.ltp[lba].valid
    requires Sized(Placed(s, p, lba, fid, data))
    ensures Paired(Placed(s, p, lba, fid, data))
  {
    var u := Placed(s, p, lba, fid, data);
    FreeIsNormal(s, p);
    forall t | 0 <= t < |u.tracks| && u.ptt[t].kind == BufferTop
      ensures PairedTop(u, t)
    {
      assert PairedTop(s, t);
      assert PairedBottom(s, s.ptt[t].scpPba);
    }
    forall b | 0 <= b < |u.tracks| && u.ptt[b].kind == BufferedBottom
      ensures PairedBottom(u, b)
    {
      assert PairedBottom(s, b);
    }
  }

  lemma PlaceIsSound(s: State, p: nat, lba: nat, fid: nat, data: Data)
    requires Sound(s) && p < |s.tracks| && IsFree(s.tracks[p].status) && lba < |s.ltp| && !s.ltp[lba].valid
    ensures Sound(Placed(s, p, lba, fid, data))
  {
    var u := Placed(s, p, lba, fid, data);
    PlaceIsMapped(s, p, lba, fid, data);
    PlaceIsPaired(s, p, lba, fid, data);
    OneMoreInUse(s.tracks, u.tracks, p);
    assert BufferTops(u.ptt) == BufferTops(s.ptt);
  }

  lemma PlaceStores(s: State, p: nat, lba: nat, fid: nat, data: Data)
    requires Sound(s) && p < |s.tracks| && IsFree(s.tracks[p].status) && lba < |s.ltp| && !s.ltp[lba].valid
    ensures var u := Placed(s, p, lba, fid, data);
            Sound(u) && Store(u) == Store(s)[lba := FileData(fid, data)]
  {
    var u := Placed(s, p, lba, fid, data);
    PlaceIsSound(s, p, lba, fid, data);
    FreeIsNormal(s, p);
    forall l | l in Store(s) && l != lba
      ensures l in Store(u) && Store(u)[l].data == Store(s)[l].data
    {
      assert ToTrack(u, l) == ToTrack(s, l);
    }
    StoresAgree(s, u, lba, FileData(fid, data));
  }

  // ---- a rewrite in place ------------------------------------------------------------------

  /** A stored LBA is written where it is read. */
  lemma RewriteStores(s: State, lba: nat, data: Data)
    requires Sound(s) && lba < |s.ltp| && s.ltp[lba].valid
    ensures ToTrack(s, lba) < |s.tracks|
    ensures var u := Settle(s, ToTrack(s, lba), lba, data);
            Sound(u) && Store(u) == Store(s)[lba := FileData(s.ltp[lba].fid, data)]
  {
    ReadsOwnTrack(s, lba);
    var p := ToTrack(s, lba);
    var u := Settle(s, p, lba, data);
    RewriteIsSound(s, p, lba, data);
    forall l | l in Store(s) && l != lba
      ensures Store(u)[l].data == Store(s)[l].data
    {
      TracksAreNotShared(s, l, lba);
      assert ToTrack(u, l) == ToTrack(s, l);
    }
    StoresAgree(s, u, lba, FileData(s.ltp[lba].fid, data));
  }

  lemma RewriteIsSound(s: State, p: nat, lba: nat, data: Data)
    requires Sound(s) && p < |s.tracks| && s.tracks[p].status == InUse && s.tracks[p].lba == lba
    ensures Sound(Settle(s, p, lba, data))
  {
    hide Paired;
    var u := Settle(s, p, lba, data);
    assert Sized(u) && Owned(u) && Accounted(u);
    RewriteIsPaired(s, p, lba, data);
    assert InUseTracks(u.tracks) == InUseTracks(s.tracks);
  }

  lemma RewriteIsPaired(s: State, p: nat, lba: nat, data: Data)
    requires Sized(s) && Paired(s) && p < |s.tracks| && s.tracks[p].status == InUse && s.tracks[p].lba == lba
    ensures Paired(Settle(s, p, lba, data))
  {
    var u := Settle(s, p, lba, data);
    forall t | 0 <= t < |u.tracks| && u.ptt[t].kind == BufferTop
      ensures PairedTop(u, t)
    {
      assert PairedTop(s, t);
    }
    forall b | 0 <= b < |u.tracks| && u.ptt[b].kind == BufferedBottom
      ensures PairedBottom(u, b)
    {
      assert PairedBottom(s, b);
    }
  }

  // ---- a new pair --------------------------------------------------------------------------

  /** A plain bottom in use, and a free top to hold its new data. */
  ghost predicate CanPair(s: State, b: nat, t: nat) {
    && Sound(s) && b < |s.tracks| && t < |s.tracks| && !IsTop(b) && IsTop(t)
    && s.tracks[b].status == InUse && s.ptt[b].kind == Normal && IsFree(s.tracks[t].status)
  }

  function Buffered(s: State, b: nat, t: nat, data: Data): State
    requires b < |s.tracks| && t < |s.tracks| && Sized(s)
  {
    Settle(Pair(s, b, t), t, s.tracks[b].lba, data)
  }

  lemma PairIsMapped(s: State, b: nat, t: nat, data: Data)
    requires CanPair(s, b, t)
    ensures var u := Buffered(s, b, t, data); Sized(u) && Owned(u) && Accounted(u)
  {
    var u := Buffered(s, b, t, data);
    FreeIsNormal(s, t);
    assert Sized(u);
    assert forall q :: 0 <= q < |s.tracks| && q != t ==> u.tracks[q] == s.tracks[q];
    assert Owned(u);
    assert Accounted(u);
  }

  lemma PairIsPaired(s: State, b: nat, t: nat, data: Data)
    requires CanPair(s, b, t) && Sized(Buffered(s, b, t, data))
    ensures Paired(Buffered(s, b, t, data))
  {
    var u := Buffered(s, b, t, data);
    FreeIsNormal(s, t);
    forall q | 0 <= q < |u.tracks| && u.ptt[q].kind == BufferTop
      ensures PairedTop(u, q)
    {
      assert q != t ==> PairedTop(s, q);
    }
    forall q | 0 <= q < |u.tracks| && u.ptt[q].kind == BufferedBottom
      ensures PairedBottom(u, q)
    {
      assert q != b ==> PairedBottom(s, q);
    }
  }

  lemma PairCounts(s: State, b: nat, t: nat, data: Data)
    requires CanPair(s, b, t)
    ensures var u := Buffered(s, b, t, data);
            && (forall p :: 0 <= p < |u.tracks| ==> u.tracks[p].status in {Free, InUse, Invalid})
            && u.used == |InUseTracks(u.tracks)| && u.pairs == |BufferTops(u.ptt)|
  {
    var u := Buffered(s, b, t, data);
    FreeIsNormal(s, t);
    OneMoreInUse(s.tracks, u.tracks, t);
    OneMoreBuffer(s.ptt, u.ptt, t);
  }

  lemma PairIsSound(s: State, b: nat, t: nat, data: Data)
    requires CanPair(s, b, t)
    ensures Sound(Buffered(s, b, t, data))
  {
    PairIsMapped(s, b, t, data);
    PairIsPaired(s, b, t, data);
    PairCounts(s, b, t, data);
  }

  /** New data for a bottom goes to a free top, which is paired with it. */
  lemma PairStores(s: State, b: nat, t: nat, data: Data)
    requires CanPair(s, b, t)
    ensures var l := s.tracks[b].lba;
            var u := Buffered(s, b, t, data);
            && l in Store(s) && s.ltp[l].pba == b
            && Sound(u) && Store(u) == Store(s)[l := FileData(s.ltp[l].fid, data)]
  {
    var lba := s.tracks[b].lba;
    var u := Buffered(s, b, t, data);
    PairIsSound(s, b, t, data);
    FreeIsNormal(s, t);
    forall l | l in Store(s) && l != lba
      ensures Store(u)[l].data == Store(s)[l].data
    {
      assert ToTrack(u, l) == ToTrack(s, l);
    }
    StoresAgree(s, u, lba, FileData(s.ltp[lba].fid, data));
  }

  // ---- SCP ---------------------------------------------------------------------------------

  lemma WriteBackFinds(s: State, t: nat)
    requires Sound(s) && t < |s.tracks| && s.ptt[t].kind == BufferTop
    ensures var b := s.ptt[t].scpPba;
            && PairedTop(s, t) && PairedBottom(s, b) && b != t
            && var l := s.tracks[t].lba;
               l < |s.ltp| && s.ltp[l].valid && s.ltp[l].pba == b && WriteBack(s, t).ltp == s.ltp
  {
    assert PairedTop(s, t);
    assert PairedBottom(s, s.ptt[t].scpPba);
  }

  lemma WriteBackIsMapped(s: State, t: nat)
    requires Sound(s) && t < |s.tracks| && s.ptt[t].kind == BufferTop
    ensures s.ptt[t].scpPba < |s.tracks| && s.tracks[t].lba < |s.ltp|
    ensures var u := WriteBack(s, t); Sized(u) && Owned(u) && Accounted(u)
  {
    WriteBackFinds(s, t);
    var u := WriteBack(s, t);
    assert Sized(u);
    assert forall q :: 0 <= q < |s.tracks| && q != t ==>
        u.tracks[q].status == s.tracks[q].status && u.tracks[q].lba == s.tracks[q].lba;
    assert Owned(u);
    assert Accounted(u);
  }

  lemma WriteBackIsPaired(s: State, t: nat)
    requires Sound(s) && t < |s.tracks| && s.ptt[t].kind == BufferTop
    requires s.ptt[t].scpPba < |s.tracks| && s.tracks[t].lba < |s.ltp| && Sized(WriteBack(s, t))
    ensures Paired(WriteBack(s, t))
  {
    WriteBackFinds(s, t);
    var u := WriteBack(s, t);
    forall q | 0 <= q < |u.tracks| && u.ptt[q].kind == BufferTop
      ensures PairedTop(u, q)
    {
      assert PairedTop(s, q);
    }
    forall q | 0 <= q < |u.tracks| && u.ptt[q].kind == BufferedBottom
      ensures PairedBottom(u, q)
    {
      assert PairedBottom(s, q);
    }
  }

  lemma WriteBackCounts(s: State, t: nat)
    requires Sound(s) && t < |s.tracks| && s.ptt[t].kind == BufferTop
    requires s.ptt[t].scpPba < |s.tracks| && s.tracks[t].lba < |s.ltp|
    ensures var u := WriteBack(s, t);
            && (forall p :: 0 <= p < |u.tracks| ==> u.tracks[p].status in {Free, InUse, Invalid})
            && u.used == |InUseTracks(u.tracks)| && u.pairs == |BufferTops(u.ptt)|
  {
    WriteBackFinds(s, t);
    var u := WriteBack(s, t);
    OneMoreInUse(u.tracks, s.tracks, t);
    OneMoreBuffer(u.ptt, s.ptt, t);
  }

  /** Writing a buffer top back: the pair is dissolved and the top is free again. */
  lemma WriteBackIsSound(s: State, t: nat)
    requires Sound(s) && t < |s.tracks| && s.ptt[t].kind == BufferTop
    ensures s.ptt[t].scpPba < |s.tracks| && s.tracks[t].lba < |s.ltp|
    ensures Sound(WriteBack(s, t))
  {
    WriteBackIsMapped(s, t);
    WriteBackIsPaired(s, t);
    WriteBackCounts(s, t);
  }

  /** What the steps of the buffer leave alone: plain tracks in use. */
  ghost predicate Spares(s: State, u: State) {
    && |u.tracks| == |s.tracks| && |u.ptt| == |s.ptt|
    && forall b :: 0 <= b < |s.tracks| && b < |s.ptt| && s.ptt[b].kind == Normal && s.tracks[b].status == InUse ==>
         u.ptt[b].kind == Normal && u.tracks[b].status == InUse && u.tracks[b].lba == s.tracks[b].lba
  }

  lemma SparedBottom(s: State, u: State, b: nat)
    requires Spares(s, u) && b < |s.tracks| && b < |s.ptt| && s.ptt[b].kind == Normal && s.tracks[b].status == InUse
    ensures u.ptt[b].kind == Normal && u.tracks[b].status == InUse && u.tracks[b].lba == s.tracks[b].lba
    ensures |u.tracks| == |s.tracks| && |u.ptt| == |s.ptt|
  {
  }

  lemma WriteBackSpares(s: State, t: nat)
    requires Sound(s) && t < |s.tracks| && s.ptt[t].kind == BufferTop
    ensures s.ptt[t].scpPba < |s.tracks| && s.tracks[t].lba < |s.ltp|
    ensures var u := WriteBack(s, t); Spares(s, u) && u.pairs == s.pairs - 1 && IsFree(u.tracks[t].status)
  {
    WriteBackFinds(s, t);
  }

  /** Another LBA keeps clear of the pair that names this one. */
  lemma ReadsElsewhere(s: State, t: nat, l: nat)
    requires Sound(s) && t < |s.tracks| && s.ptt[t].kind == BufferTop
    requires l < |s.ltp| && s.ltp[l].valid && l != s.tracks[t].lba
    ensures s.ltp[l].pba < |s.ptt| && s.ltp[l].pba !in {t, s.ptt[t].scpPba}
    ensures ToTrack(s, l) < |s.tracks| && ToTrack(s, l) !in {t, s.ptt[t].scpPba}
  {
    WriteBackFinds(s, t);
    ReadsOwnTrack(s, l);
  }

  lemma WriteBackReads(s: State, t: nat, l: nat)
    requires Sound(s) && t < |s.tracks| && s.ptt[t].kind == BufferTop
    requires l < |s.ltp| && s.ltp[l].valid
    ensures s.ptt[t].scpPba < |s.tracks| && s.tracks[t].lba < |s.ltp|
    ensures var u := WriteBack(s, t);
            && u.ltp == s.ltp && |u.content| == |s.content| && u.ltp[l].pba < |u.ptt|
            && ToTrack(s, l) < |s.content| && ToTrack(u, l) < |u.content|
            && u.content[ToTrack(u, l)] == s.content[ToTrack(s, l)]
  {
    WriteBackFinds(s, t);
    if l != s.tracks[t].lba {
      ReadsElsewhere(s, t, l);
    }
  }

  /** SCP is invisible: every LBA reads what it read before. */
  lemma WriteBackStores(s: State, t: nat)
    requires Sound(s) && t < |s.tracks| && s.ptt[t].kind == BufferTop
    ensures s.ptt[t].scpPba < |s.tracks| && s.tracks[t].lba < |s.ltp|
    ensures Sound(WriteBack(s, t)) && Store(WriteBack(s, t)) == Store(s)
  {
    WriteBackIsSound(s, t);
    var u := WriteBack(s, t);
    hide Sound, WriteBack;
    forall l | 0 <= l < |s.ltp| && s.ltp[l].valid
      ensures u.ltp == s.ltp && Store(u)[l] == Store(s)[l]
    {
      WriteBackReads(s, t, l);
    }
    WriteBackLtp(s, t);
  }

  lemma WriteBackLtp(s: State, t: nat)
    requires Sound(s) && t < |s.tracks| && s.ptt[t].kind == BufferTop
    ensures s.ptt[t].scpPba < |s.tracks| && s.tracks[t].lba < |s.ltp| && WriteBack(s, t).ltp == s.ltp
  {
    WriteBackFinds(s, t);
  }

  // ---- look-ups ----------------------------------------------------------------------------

  lemma StoreAt(s: State, lba: nat)
    requires Sound(s) && lba < |s.ltp|
    ensures lba in Store(s) <==> s.ltp[lba].valid
    ensures s.ltp[lba].valid ==> Store(s)[lba].fid == s.ltp[lba].fid
  {
  }

  lemma LeadsToPlainTrack(s: State, lba: nat)
    requires Sound(s) && lba < |s.ltp| && s.ltp[lba].valid
    ensures var p := s.ltp[lba].pba;
            && p < |s.tracks| && p < |s.ptt| && s.tracks[p].status == InUse && s.tracks[p].lba == lba
            && s.ptt[p].kind != BufferTop
  {
  }

  /** The pairs are a bijection: buffered bottoms and buffer tops name each other, so there are as many
      of either as the counter says. */
  lemma PairsAreABijection(s: State)
    requires Sound(s)
    ensures forall t :: t in BufferTops(s.ptt) ==>
              s.ptt[t].scpPba in BufferedBottoms(s.ptt) && s.ptt[s.ptt[t].scpPba].tba == t
    ensures forall b :: b in BufferedBottoms(s.ptt) ==>
              s.ptt[b].tba in BufferTops(s.ptt) && s.ptt[s.ptt[b].tba].scpPba == b
    ensures |BufferedBottoms(s.ptt)| == |BufferTops(s.ptt)| == s.pairs
  {
    forall t | t in BufferTops(s.ptt)
      ensures s.ptt[t].scpPba in BufferedBottoms(s.ptt) && s.ptt[s.ptt[t].scpPba].tba == t
    {
      assert PairedTop(s, t);
    }
    forall b | b in BufferedBottoms(s.ptt)
      ensures s.ptt[b].tba in BufferTops(s.ptt) && s.ptt[s.ptt[b].tba].scpPba == b
    {
      assert PairedBottom(s, b);
    }
    SameSize(BufferedBottoms(s.ptt), BufferTops(s.ptt), s.ptt);
  }

  lemma {:induction false} SameSize(bottoms: set<nat>, tops: set<nat>, ptt: seq<Indirection>)
    requires forall t :: t in tops ==> t < |ptt| && ptt[t].scpPba in bottoms
    requires forall b :: b in bottoms ==> b < |ptt| && ptt[b].tba in tops && ptt[ptt[b].tba].scpPba == b
    requires forall t :: t in tops ==> ptt[ptt[t].scpPba].tba == t
    ensures |bottoms| == |tops|
    decreases bottoms
  {
    if bottoms == {} {
      assert tops == {};
    } else {
      var b :| b in bottoms;
      SameSize(bottoms - {b}, tops - {ptt[b].tba}, ptt);
    }
  }
}
