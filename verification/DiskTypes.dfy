/** The vocabulary every build of the simulator shares (include/lba.h, include/pba.h). */
module DiskTypes {

  datatype Option<+T> = None | Some(value: T)

  datatype Status = Free | Booked | InUse | Trimmed | Invalid

  /** A track that the allocator and the top buffer may take. */
  predicate IsFree(s: Status) {
    s == Invalid || s == Free
  }

  /** A track whose data has to survive the rewrite of a neighbouring bottom track. */
  predicate IsLive(s: Status) {
    s == Booked || s == InUse
  }

  /** Track 0 is a bottom track; odd tracks lie on top of their even neighbours. */
  predicate IsTop(track: nat) {
    track % 2 == 1
  }

  /** What a track holds. */
  type Data = string

  /** struct ltp_entry, in the builds with file identifiers. */
  datatype LtpEntry = LtpEntry(pba: nat, fid: nat, valid: bool)

  /** A file identifier and the data last written under it. */
  datatype FileData = FileData(fid: nat, data: Data)

  /** storage[] in those builds: `lba` is the first cell of the block's list, the only one they use. */
  datatype Track = Track(status: Status, lba: nat, count: nat)

  function InUseTracks(tracks: seq<Track>): set<nat> {
    set p | 0 <= p < |tracks| && tracks[p].status == InUse
  }

  lemma OneMoreInUse(a: seq<Track>, b: seq<Track>, t: nat)
    requires |a| == |b| && t < |a| && a[t].status != InUse && b[t].status == InUse
    requires forall p :: 0 <= p < |a| && p != t ==> (a[p].status == InUse <==> b[p].status == InUse)
    ensures |InUseTracks(b)| == |InUseTracks(a)| + 1
  {
    assert InUseTracks(b) == InUseTracks(a) + {t};
  }

  /** How often the tracks have been written, all together. */
  function WriteCount(tracks: seq<Track>): nat {
    if tracks == [] then 0 else WriteCount(tracks[..|tracks| - 1]) + tracks[|tracks| - 1].count
  }

  lemma {:induction false} OneTrackChanges(tracks: seq<Track>, p: nat, t: Track)
    requires p < |tracks|
    ensures WriteCount(tracks[p := t]) == WriteCount(tracks) - tracks[p].count + t.count
    decreases |tracks|
  {
    var n := |tracks| - 1;
    if p == n {
      assert tracks[p := t][..n] == tracks[..n];
    } else {
      assert tracks[p := t][..n] == tracks[..n][p := t];
      OneTrackChanges(tracks[..n], p, t);
    }
  }
}
