/** The open-addressing index from block hashes to tracks (src/hash_table.c): linear probing with
    wrap-around; a deleted cell stays behind as a tombstone, an item whose key is empty. */
module HashIndex {
  import opened DiskTypes

  /** A cell of the pointer array: Null, or an item. */
  datatype Cell = Null | Item(hash: string, pba: int)

  const TOMBSTONE := Item("", -1)

  /** What a cell contributes to the index; "" for a Null cell and for a tombstone. */
  function KeyOf(c: Cell): string {
    if c.Null? then "" else c.hash
  }

  predicate IsLiveItem(c: Cell) {
    KeyOf(c) != ""
  }

  function CellKeys(cells: seq<Cell>): (keys: seq<string>)
    ensures |keys| == |cells|
    ensures forall i :: 0 <= i < |cells| ==> keys[i] == KeyOf(cells[i])
  {
    seq(|cells|, i requires 0 <= i < |cells| => KeyOf(cells[i]))
  }

  /** The abstract value of a table: its keys with multiplicity. The multiplicity of "" is the
      number of cells an insertion may take. */
  function Keys(cells: seq<Cell>): multiset<string> {
    multiset(CellKeys(cells))
  }

  function CharSum(h: string): nat {
    if h == "" then 0 else CharSum(h[..|h| - 1]) + h[|h| - 1] as nat
  }

  function Home(h: string, size: nat): (home: nat)
    requires size > 0
    ensures home < size
  {
    CharSum(h) % size
  }

  /** The cell reached from home after k steps of less than one lap. */
  function Slot(home: nat, k: nat, size: nat): (slot: nat)
    requires home < size && k < size
    ensures slot < size
  {
    if home + k < size then home + k else home + k - size
  }

  /** One step of the source's loops. */
  function Next(index: nat, size: nat): (next: nat)
    requires index < size
    ensures next == if index + 1 < size then index + 1 else 0
  {
    (index + 1) % size
  }

  lemma NextIsSlot(home: nat, k: nat, size: nat)
    requires home < size && k + 1 < size
    ensures Next(Slot(home, k, size), size) == Slot(home, k + 1, size)
  {
  }

  /** How many steps away from home a cell is. */
  function Offset(home: nat, slot: nat, size: nat): (k: nat)
    requires home < size && slot < size
    ensures k < size && Slot(home, k, size) == slot
  {
    if slot >= home then slot - home else slot + size - home
  }

  /** No Null cell lies between the home of a live key and the cell that holds it. */
  ghost predicate Chained(cells: seq<Cell>) {
    forall j, k ::
      0 <= j < |cells| && IsLiveItem(cells[j]) && 0 <= k < Offset(Home(cells[j].hash, |cells|), j, |cells|) ==>
      cells[Slot(Home(cells[j].hash, |cells|), k, |cells|)] != Null
  }

  /** Every item with an empty key is a tombstone. */
  ghost predicate Swept(cells: seq<Cell>) {
    forall j :: 0 <= j < |cells| && cells[j].Item? && cells[j].hash == "" ==> cells[j] == TOMBSTONE
  }

  ghost predicate WellFormed(cells: seq<Cell>) {
    |cells| > 0 && Chained(cells) && Swept(cells)
  }

  /** The cell at which a walk for this key ends. */
  predicate Stops(c: Cell, key: string) {
    c.Null? || c.hash == key
  }

  /** Some cell ends the walk. A caller has to know this: the source's loops have no other bound. */
  ghost predicate Bounded(cells: seq<Cell>, key: string) {
    exists j :: 0 <= j < |cells| && Stops(cells[j], key)
  }

  /** The cell holding the first item with this key on the way from its home, counting from the k-th
      step; None when a Null cell comes first. */
  function Lookup(cells: seq<Cell>, key: string, k: nat): (r: Option<nat>)
    requires |cells| > 0 && k <= |cells|
    ensures r.Some? ==> r.value < |cells| && cells[r.value].Item? && cells[r.value].hash == key
    decreases |cells| - k
  {
    if k == |cells| then None
    else
      var slot := Slot(Home(key, |cells|), k, |cells|);
      if cells[slot].Null? then None
      else if cells[slot].hash == key then Some(slot)
      else Lookup(cells, key, k + 1)
  }

  /** If step i finds the key and no earlier step meets a Null cell, the walk succeeds. */
  lemma {:induction false} LookupSucceeds(cells: seq<Cell>, key: string, k: nat, i: nat)
    requires |cells| > 0 && k <= i < |cells|
    requires cells[Slot(Home(key, |cells|), i, |cells|)].Item? &&
             cells[Slot(Home(key, |cells|), i, |cells|)].hash == key
    requires forall m :: k <= m < i ==> cells[Slot(Home(key, |cells|), m, |cells|)] != Null
    ensures Lookup(cells, key, k).Some?
    decreases i - k
  {
    if k < i {
      assert cells[Slot(Home(key, |cells|), k, |cells|)] != Null;
      LookupSucceeds(cells, key, k + 1, i);
    }
  }

  /** The walk succeeds exactly for the keys of the table. */
  lemma LookupFindsExactlyTheKeys(cells: seq<Cell>, key: string)
    requires WellFormed(cells) && key != ""
    ensures Lookup(cells, key, 0).Some? <==> key in Keys(cells)
  {
    var r := Lookup(cells, key, 0);
    if r.Some? {
      assert CellKeys(cells)[r.value] == key;
    }
    if key in Keys(cells) {
      var j :| 0 <= j < |cells| && CellKeys(cells)[j] == key;
      LookupSucceeds(cells, key, 0, Offset(Home(key, |cells|), j, |cells|));
    }
  }

  /** The walk of the source, over any number of laps. */
  function Walk(home: nat, k: nat, size: nat): (slot: nat)
    requires home < size
    ensures slot < size
  {
    if k == 0 then home else Next(Walk(home, k - 1, size), size)
  }

  lemma {:induction false} WalkIsSlot(home: nat, k: nat, size: nat)
    requires home < size && k < size
    ensures Walk(home, k, size) == Slot(home, k, size)
  {
    if k > 0 {
      WalkIsSlot(home, k - 1, size);
      NextIsSlot(home, k - 1, size);
    }
  }

  /** The source's loops end exactly when some cell is Null or holds the key: a table without a Null
      cell walks forever for every key it does not hold. */
  lemma WalkEndsExactlyWhenBounded(cells: seq<Cell>, key: string)
    requires |cells| > 0
    ensures (exists k: nat :: Stops(cells[Walk(Home(key, |cells|), k, |cells|)], key)) <==> Bounded(cells, key)
  {
    if Bounded(cells, key) {
      var j :| 0 <= j < |cells| && Stops(cells[j], key);
      var k := Offset(Home(key, |cells|), j, |cells|);
      WalkIsSlot(Home(key, |cells|), k, |cells|);
      assert Stops(cells[Walk(Home(key, |cells|), k, |cells|)], key);
    }
  }

  /** Overwriting a live item by a tombstone, or a free cell by an item placed on its own chain, keeps
      the chains; the keys change by the one cell. */
  lemma Overwrite(cells: seq<Cell>, slot: nat, item: Cell)
    requires WellFormed(cells) && slot < |cells| && item.Item?
    requires item.hash == "" ==> item == TOMBSTONE
    requires item.hash != "" ==>
               forall k :: 0 <= k < Offset(Home(item.hash, |cells|), slot, |cells|) ==>
                 cells[Slot(Home(item.hash, |cells|), k, |cells|)] != Null
    ensures WellFormed(cells[slot := item])
    ensures Keys(cells[slot := item]) == Keys(cells) - multiset{KeyOf(cells[slot])} + multiset{item.hash}
  {
    assert CellKeys(cells[slot := item]) == CellKeys(cells)[slot := item.hash];
    var after := cells[slot := item];
    forall j, k | 0 <= j < |after| && IsLiveItem(after[j]) && 0 <= k < Offset(Home(after[j].hash, |after|), j, |after|)
      ensures after[Slot(Home(after[j].hash, |after|), k, |after|)] != Null
    {
      if j != slot {
        assert cells[Slot(Home(cells[j].hash, |cells|), k, |cells|)] != Null;
      } else {
        assert cells[Slot(Home(item.hash, |cells|), k, |cells|)] != Null;
      }
    }
  }

  /** What a deletion does to the table and its keys. */
  lemma Deletion(cells: seq<Cell>, key: string)
    requires WellFormed(cells)
    ensures match Lookup(cells, key, 0)
            case None => key != "" ==> key !in Keys(cells)
            case Some(j) =>
              && WellFormed(cells[j := TOMBSTONE])
              && key in Keys(cells)
              && Keys(cells[j := TOMBSTONE]) == Keys(cells) - multiset{key} + multiset{""}
  {
    if key != "" {
      LookupFindsExactlyTheKeys(cells, key);
    }
    match Lookup(cells, key, 0)
    case None =>
    case Some(j) =>
      Overwrite(cells, j, TOMBSTONE);
      assert CellKeys(cells)[j] == key;
  }

  class HashTable {
    const cells: array<Cell>

    ghost predicate Valid()
      reads cells
    {
      WellFormed(cells[..])
    }

    constructor (size: nat)
      requires size > 0
      ensures Valid() && fresh(cells) && cells.Length == size
      ensures forall i :: 0 <= i < size ==> cells[i] == Null
    {
      cells := new Cell[size](_ => Null);
    }

    method HashCode(hash: string) returns (index: nat)
      requires cells.Length > 0
      ensures index == Home(hash, cells.Length)
    {
      var sum, i := 0, 0;
      while i < |hash|
        invariant 0 <= i <= |hash|
        invariant sum == CharSum(hash[..i])
      {
        sum := sum + hash[i] as nat;
        i := i + 1;
        assert hash[..i][..i - 1] == hash[..i - 1];
      }
      assert hash[..i] == hash;
      index := sum % cells.Length;
    }

    /** The loop that searchItem and deleteItem share: go on until a Null cell or the key. */
    method FindCell(hash: string) returns (r: Option<nat>)
      requires cells.Length > 0 && Bounded(cells[..], hash)
      ensures r == Lookup(cells[..], hash, 0)
    {
      var index := HashCode(hash);
      ghost var s := cells[..];
      ghost var home, k := index, 0;
      ghost var j :| 0 <= j < |s| && Stops(s[j], hash);
      ghost var far := Offset(home, j, cells.Length);
      while cells[index] != Null
        invariant 0 <= k <= far && index == Slot(home, k, cells.Length)
        invariant Lookup(s, hash, 0) == Lookup(s, hash, k)
        decreases far - k
      {
        if cells[index].hash == hash {
          return Some(index);
        }
        NextIsSlot(home, k, cells.Length);
        index, k := Next(index, cells.Length), k + 1;
      }
      return None;
    }

    /** Succeeds exactly when the key is in the table, and then returns its first item. */
    method SearchItem(hash: string) returns (r: Option<Cell>)
      requires Valid() && Bounded(cells[..], hash)
      ensures r == match Lookup(cells[..], hash, 0) case None => None case Some(j) => Some(cells[j])
      ensures hash != "" ==> (r.Some? <==> hash in Keys(cells[..]))
      ensures r.Some? ==> r.value.Item? && r.value.hash == hash
    {
      if hash != "" {
        LookupFindsExactlyTheKeys(cells[..], hash);
      }
      var found := FindCell(hash);
      return if found.None? then None else Some(cells[found.value]);
    }

    /** Adds one copy of the key and touches one cell that held no key. */
    method Insert(hash: string, pba: int)
      requires Valid() && hash != "" && "" in Keys(cells[..])
      modifies cells
      ensures Valid()
      ensures Keys(cells[..]) == Keys(old(cells[..])) - multiset{""} + multiset{hash}
      ensures exists slot :: 0 <= slot < cells.Length && KeyOf(old(cells[slot])) == "" &&
                cells[..] == old(cells[..])[slot := Item(hash, pba)]
    {
      hide Chained, Swept;
      var index := HashCode(hash);
      ghost var before := cells[..];
      ghost var home, k := index, 0;
      ghost var j :| 0 <= j < |CellKeys(before)| && CellKeys(before)[j] == "";
      ghost var far := Offset(home, j, cells.Length);
      while cells[index] != Null && cells[index].hash != ""
        invariant 0 <= k <= far && index == Slot(home, k, cells.Length)
        invariant forall m :: 0 <= m < k ==> before[Slot(home, m, cells.Length)] != Null
        invariant cells[..] == before
        decreases far - k
      {
        NextIsSlot(home, k, cells.Length);
        index, k := Next(index, cells.Length), k + 1;
      }
      Overwrite(before, index, Item(hash, pba));
      cells[index] := Item(hash, pba);
      assert cells[..] == before[index := Item(hash, pba)];
    }

    /** Removes exactly the item SearchItem would return. */
    method DeleteItem(hash: string) returns (r: Option<Cell>)
      requires Valid() && Bounded(cells[..], hash)
      modifies cells
      ensures Valid()
      ensures r == match Lookup(old(cells[..]), hash, 0) case None => None case Some(j) => Some(old(cells[..])[j])
      ensures cells[..] == match Lookup(old(cells[..]), hash, 0) case None => old(cells[..])
              case Some(j) => old(cells[..])[j := TOMBSTONE]
      ensures hash in Keys(old(cells[..])) ==> Keys(cells[..]) == Keys(old(cells[..])) - multiset{hash} + multiset{""}
      ensures hash !in Keys(old(cells[..])) ==> Keys(cells[..]) == Keys(old(cells[..]))
    {
      Deletion(cells[..], hash);
      ghost var s := cells[..];
      var found := FindCell(hash);
      if found.None? {
        return None;
      }
      r := Some(cells[found.value]);
      cells[found.value] := TOMBSTONE;
      assert cells[..] == s[found.value := TOMBSTONE];
    }
  }

  /** The home of a key is an additive checksum. */
  lemma HomeOfConcat(s: string, t: string, size: nat)
    requires size > 0
    ensures Home(s + t, size) == (CharSum(s) + CharSum(t)) % size && Home("", size) == 0
    ensures forall c: char :: CharSum([c]) == c as nat && Home([c], size) == c as nat % size
  {
    SumOfConcat(s, t);
    forall c: char
      ensures CharSum([c]) == c as nat
    {
      assert [c][..0] == "";
    }
  }

  lemma {:induction false} SumOfConcat(s: string, t: string)
    ensures CharSum(s + t) == CharSum(s) + CharSum(t)
    decreases |t|
  {
    if t == "" {
      assert s + t == s;
    } else {
      assert (s + t)[..|s + t| - 1] == s + t[..|t| - 1];
      SumOfConcat(s, t[..|t| - 1]);
    }
  }
}
