/** The sliding window of request lengths (src/ring_buffer.c) and the classifier that averages over it
    (generate_attr in src/fid_table.c, with ATTR_HISTORY). */
module RingBuffer {
  import opened DiskTypes

  const RING_BUFFER_SIZE: nat := 1000

  datatype Attr = Hot | Cold

  function Sum(s: seq<nat>): nat {
    if s == [] then 0 else Sum(s[..|s| - 1]) + s[|s| - 1]
  }

  lemma {:induction false} SumOfRest(s: seq<nat>)
    requires s != []
    ensures Sum(s) == s[0] + Sum(s[1..])
    decreases |s|
  {
    if |s| > 1 {
      SumOfRest(s[..|s| - 1]);
      assert s[..|s| - 1][1..] == s[1..][..|s| - 2];
    }
  }

  // ---- what the window is for ----------------------------------------------------------------

  function Zeros(n: nat): (z: seq<nat>)
    ensures |z| == n && forall i :: 0 <= i < n ==> z[i] == 0
  {
    seq(n, _ => 0)
  }

  lemma {:induction false} SumOfZeros(n: nat)
    ensures Sum(Zeros(n)) == 0
  {
    if n > 0 {
      assert Zeros(n)[..n - 1] == Zeros(n - 1);
      SumOfZeros(n - 1);
    }
  }

  /** The last RING_BUFFER_SIZE lengths; before there are as many, zeros stand for the missing ones. */
  function Window(lengths: seq<nat>): (w: seq<nat>)
    ensures |w| == RING_BUFFER_SIZE
  {
    (Zeros(RING_BUFFER_SIZE) + lengths)[|lengths|..]
  }

  /** The class of the next request. */
  function Classify(history: seq<nat>, bytes: nat): Attr {
    if bytes < Sum(Window(history)) / RING_BUFFER_SIZE then Hot else Cold
  }

  lemma WindowSlides(history: seq<nat>, bytes: nat)
    ensures Window(history + [bytes]) == Window(history)[1..] + [bytes]
  {
    var all := Zeros(RING_BUFFER_SIZE) + history;
    assert Zeros(RING_BUFFER_SIZE) + (history + [bytes]) == all + [bytes];
  }

  /** What generate_attr does to the running total. */
  lemma TotalSlides(history: seq<nat>, bytes: nat)
    ensures Sum(Window(history + [bytes])) + Window(history)[0] == Sum(Window(history)) + bytes
  {
    var w := Window(history);
    WindowSlides(history, bytes);
    SumOfRest(w);
    assert (w[1..] + [bytes])[..|w| - 1] == w[1..];
  }

  lemma {:induction false} SumAtMost(s: seq<nat>, b: nat)
    requires forall i :: 0 <= i < |s| ==> s[i] <= b
    ensures Sum(s) <= |s| * b
  {
    if s != [] {
      SumAtMost(s[..|s| - 1], b);
    }
  }

  /** A request is hot exactly when a request longer by one byte, repeated RING_BUFFER_SIZE times, adds up to no
      more than the window. */
  lemma HotExactly(history: seq<nat>, bytes: nat)
    ensures Classify(history, bytes) == Hot <==> RING_BUFFER_SIZE * (bytes + 1) <= Sum(Window(history))
  {
    var total := Sum(Window(history));
    assert total == RING_BUFFER_SIZE * (total / RING_BUFFER_SIZE) + total % RING_BUFFER_SIZE;
  }

  lemma {:induction false} SumAtLeast(s: seq<nat>, b: nat)
    requires forall i :: 0 <= i < |s| ==> b <= s[i]
    ensures |s| * b <= Sum(s)
  {
    if s != [] {
      SumAtLeast(s[..|s| - 1], b);
    }
  }

  /** Once there have been RING_BUFFER_SIZE requests, one that is shorter than each of the last of them is hot. */
  lemma ShortestIsHot(history: seq<nat>, bytes: nat)
    requires |history| >= RING_BUFFER_SIZE
    requires forall i :: |history| - RING_BUFFER_SIZE <= i < |history| ==> bytes < history[i]
    ensures Classify(history, bytes) == Hot
  {
    var w := Window(history);
    forall i | 0 <= i < |w|
      ensures bytes + 1 <= w[i]
    {
      assert w[i] == history[i + |history| - RING_BUFFER_SIZE];
    }
    SumAtLeast(w, bytes + 1);
    HotExactly(history, bytes);
  }

  /** A request that is at least as long as each of the last RING_BUFFER_SIZE is cold, whatever came before
      them. */
  lemma LongestIsCold(history: seq<nat>, bytes: nat)
    requires forall i :: |history| - RING_BUFFER_SIZE <= i < |history| && 0 <= i ==> history[i] <= bytes
    ensures Classify(history, bytes) == Cold
  {
    var w := Window(history);
    forall i | 0 <= i < |w|
      ensures w[i] <= bytes
    {
      var k := i + |history| - RING_BUFFER_SIZE;
      assert k >= 0 ==> w[i] == history[k];
    }
    SumAtMost(w, bytes);
  }

  /** The window forgets: after RING_BUFFER_SIZE requests no answer depends on what came before. */
  lemma WindowForgets(before: seq<nat>, other: seq<nat>, recent: seq<nat>, bytes: nat)
    requires |recent| >= RING_BUFFER_SIZE
    ensures Classify(before + recent, bytes) == Classify(other + recent, bytes)
  {
    WindowOfRecent(before, recent);
    WindowOfRecent(other, recent);
  }

  lemma WindowOfRecent(before: seq<nat>, recent: seq<nat>)
    requires |recent| >= RING_BUFFER_SIZE
    ensures Window(before + recent) == recent[|recent| - RING_BUFFER_SIZE..]
  {
    var all := Zeros(RING_BUFFER_SIZE) + (before + recent);
    assert all == Zeros(RING_BUFFER_SIZE) + before + recent;
  }

  // ---- the circular queue --------------------------------------------------------------------

  function Wrap(i: nat, capacity: nat): nat
    requires i < capacity
  {
    if i + 1 == capacity then 0 else i + 1
  }

  lemma WrapIsModulo(i: nat, capacity: nat)
    requires i < capacity
    ensures Wrap(i, capacity) == (i + 1) % capacity
  {
  }

  /** The cells after `front` up to and including `rear`. */
  function Queued(cells: seq<nat>, front: nat, rear: nat): seq<nat>
    requires front < |cells| && rear < |cells|
  {
    if front <= rear then cells[front + 1..rear + 1] else cells[front + 1..] + cells[..rear + 1]
  }

  lemma QueuedInsert(cells: seq<nat>, front: nat, rear: nat, len: nat)
    requires front < |cells| && rear < |cells| && Wrap(rear, |cells|) != front
    ensures var next := Wrap(rear, |cells|);
            Queued(cells[next := len], front, next) == Queued(cells, front, rear) + [len]
  {
    var next := Wrap(rear, |cells|);
    var after := cells[next := len];
    if front <= rear && next == 0 {
      assert after[front + 1..] == cells[front + 1..];
    } else if front <= rear {
      assert after[front + 1..next] == cells[front + 1..next];
    } else {
      assert after[..next] == cells[..next] && after[front + 1..] == cells[front + 1..];
    }
  }

  lemma QueuedDelete(cells: seq<nat>, front: nat, rear: nat)
    requires front < |cells| && rear < |cells| && front != rear
    ensures var next := Wrap(front, |cells|);
            Queued(cells, front, rear) == [cells[next]] + Queued(cells, next, rear)
  {
  }

  class Ring {
    const cells: array<nat>
    var front: nat
    var rear: nat
    var avg: nat
    var total: int
    /** Every length that was classified, oldest first. */
    ghost var history: seq<nat>

    ghost predicate Valid()
      reads this, cells
    {
      cells.Length == RING_BUFFER_SIZE + 1 && front < cells.Length && rear < cells.Length
    }

    ghost function Contents(): seq<nat>
      reads this, cells
      requires Valid()
    {
      Queued(cells[..], front, rear)
    }

    /** Between two requests. */
    ghost predicate Settled()
      reads this, cells
    {
      && Valid() && Contents() == Window(history)
      && total == Sum(Window(history)) && avg == Sum(Window(history)) / RING_BUFFER_SIZE
    }

    /** init_ring_buffer: a full queue of zeros. `total` is the zero of a static variable. */
    constructor ()
      ensures Settled() && history == [] && fresh(cells)
    {
      cells := new nat[RING_BUFFER_SIZE + 1](_ => 0);
      front, rear := 0, RING_BUFFER_SIZE;
      avg, total := 0, 0;
      history := [];
      new;
      SumOfZeros(RING_BUFFER_SIZE);
      assert Contents() == Window([]) == Zeros(RING_BUFFER_SIZE);
    }

    method IsEmpty() returns (r: bool)
      requires Valid()
      ensures r <==> Contents() == []
    {
      return front == rear;
    }

    method IsFull() returns (r: bool)
      requires Valid()
      ensures r <==> |Contents()| == RING_BUFFER_SIZE
    {
      WrapIsModulo(rear, cells.Length);
      return front == (rear + 1) % cells.Length;
    }

    /** ring_buffer_insert; a full queue ends the program. */
    method Insert(len: nat) returns (ok: bool)
      requires Valid()
      modifies this`rear, cells
      ensures Valid() && (ok <==> old(|Contents()|) < RING_BUFFER_SIZE)
      ensures Contents() == if ok then old(Contents()) + [len] else old(Contents())
    {
      var full := IsFull();
      if full {
        return false;
      }
      WrapIsModulo(rear, cells.Length);
      QueuedInsert(cells[..], front, rear, len);
      rear := (rear + 1) % cells.Length;
      cells[rear] := len;
      return true;
    }

    /** ring_buffer_delete; an empty queue ends the program. */
    method Delete() returns (r: Option<nat>)
      requires Valid()
      modifies this`front
      ensures Valid() && (r == None <==> old(Contents()) == [])
      ensures match r case None => Contents() == old(Contents()) case Some(len) => old(Contents()) == [len] + Contents()
    {
      var empty := IsEmpty();
      if empty {
        return None;
      }
      WrapIsModulo(front, cells.Length);
      QueuedDelete(cells[..], front, rear);
      front := (front + 1) % cells.Length;
      return Some(cells[front]);
    }

    /** generate_attr: the class of a request of `bytes`. It is hot exactly when the mean before it, rounded down,
        is larger. Neither exit is reached. */
    method GenerateAttr(bytes: nat) returns (attr: Option<Attr>)
      requires Settled()
      modifies this, cells
      ensures Settled() && history == old(history) + [bytes]
      ensures attr == Some(Classify(old(history), bytes))
      ensures attr == Some(Hot) <==> RING_BUFFER_SIZE * (bytes + 1) <= Sum(Window(old(history)))
    {
      hide Sum, Window, Queued;
      HotExactly(history, bytes);
      ghost var window := Window(history);
      TotalSlides(history, bytes);
      WindowSlides(history, bytes);
      var a := if bytes < avg then Hot else Cold;
      var removed := Delete();
      if removed == None {
        return None;
      }
      total := total - removed.value + bytes;
      avg := total / RING_BUFFER_SIZE;
      assert window == [removed.value] + Contents();
      assert Contents() == window[1..];
      history := history + [bytes];
      var ok := Insert(bytes);
      if !ok {
        return None;
      }
      return Some(a);
    }
  }
}
