/** The ring allocator behind the packet queue: a bump pointer that restarts at
    the front when a request does not fit, and never looks at what it overwrites. */
module RingAllocator {
  import opened Width
  import opened Wrappers

  const MAX_PACK: nat := 1024
  const SIZE: nat := 160 * MAX_PACK

  /** One allocation together with the bytes copied into it. */
  datatype Store = Store(off: nat, data: seq<Byte>)

  type Ring = b: seq<Byte> | |b| == SIZE witness seq(SIZE, _ => 0)

  function Place(pos: nat, n: nat): nat {
    if pos + n > SIZE then 0 else pos
  }

  /** The bump pointer after the first `k` allocations of `log`. */
  function End(log: seq<Store>, k: nat): nat
    requires k <= |log|
  {
    if k == 0 then 0 else log[k - 1].off + |log[k - 1].data|
  }

  ghost predicate PlacedAt(log: seq<Store>, k: nat)
    requires k < |log|
  {
    1 <= |log[k].data| <= MAX_PACK && log[k].off == Place(End(log, k), |log[k].data|)
  }

  /** `log` is what the allocator does, from a reset, with requests of 1..MAX_PACK bytes. */
  ghost predicate WellPlaced(log: seq<Store>) {
    forall k {:trigger PlacedAt(log, k)} :: 0 <= k < |log| ==> PlacedAt(log, k)
  }

  ghost predicate Disjoint(a: Store, b: Store) {
    a.off + |a.data| <= b.off || b.off + |b.data| <= a.off
  }

  lemma InsideBuffer(log: seq<Store>, k: nat)
    requires WellPlaced(log) && k < |log|
    ensures log[k].off + |log[k].data| <= SIZE
  {
    assert PlacedAt(log, k);
  }

  /** How far the bump pointer is from allocation `i` after allocation `j`: either
      it has not restarted since, or it restarted once and is still well before `i`. */
  lemma {:induction false} Reach(log: seq<Store>, i: nat, j: nat)
    requires WellPlaced(log) && i <= j < |log| && j - i <= 158
    ensures
      || (log[i].off + |log[i].data| <= End(log, j + 1) <= log[i].off + MAX_PACK * (j - i + 1)
          && (i < j ==> log[i].off + |log[i].data| <= log[j].off))
      || End(log, j + 1) <= log[i].off + MAX_PACK * (j - i + 1) + (MAX_PACK - 1) - SIZE
  {
    InsideBuffer(log, i);
    assert PlacedAt(log, j);
    if i == j {
    } else {
      Reach(log, i, j - 1);
    }
  }

  /** Any 159 consecutive allocations are pairwise disjoint, whatever is wasted
      at the restart. */
  lemma ConsecutiveDisjoint(log: seq<Store>, i: nat, j: nat)
    requires WellPlaced(log) && i < j < |log| && j - i <= 158
    ensures Disjoint(log[i], log[j])
  {
    Reach(log, i, j);
    assert PlacedAt(log, i) && PlacedAt(log, j);
  }

  /** The bound 159 is sharp: 160 consecutive allocations can overlap. */
  lemma Sharp() returns (log: seq<Store>)
    ensures WellPlaced(log) && |log| == 161 && !Disjoint(log[1], log[160])
  {
    var one: seq<Byte> := [0];
    var full: seq<Byte> := seq(MAX_PACK, _ => 0);
    log := seq(161, k requires 0 <= k < 161 =>
      if k == 0 then Store(0, one) else if k < 160 then Store(1 + (k - 1) * MAX_PACK, full) else Store(0, full));
    forall k | 0 <= k < 161 ensures PlacedAt(log, k) {
    }
  }

  function Written(buf: Ring, off: nat, data: seq<Byte>): Ring
    requires off + |data| <= SIZE
  {
    buf[..off] + data + buf[off + |data|..]
  }

  function Extended(log: seq<Store>, data: seq<Byte>): seq<Store> {
    log + [Store(Place(End(log, |log|), |data|), data)]
  }

  lemma {:induction false} ExtendedWellPlaced(log: seq<Store>, data: seq<Byte>)
    requires WellPlaced(log) && 1 <= |data| <= MAX_PACK
    ensures WellPlaced(Extended(log, data))
    ensures forall k :: 0 <= k < |log| ==> Extended(log, data)[k] == log[k]
  {
    var log' := Extended(log, data);
    forall k | 0 <= k < |log'|
      ensures PlacedAt(log', k)
    {
      if k < |log| {
        assert PlacedAt(log, k) && log'[k] == log[k];
      }
      assert 0 < k ==> log'[k - 1] == log[k - 1];
    }
  }

  /** A write leaves every disjoint region as it was. */
  lemma {:induction false} WrittenElsewhere(buf: Ring, off: nat, data: seq<Byte>, from: nat, n: nat)
    requires off + |data| <= SIZE && from + n <= SIZE
    requires off + |data| <= from || from + n <= off
    ensures Written(buf, off, data)[from..from + n] == buf[from..from + n]
  {
    assert |Written(buf, off, data)| == |buf|;
  }

  lemma {:induction false} WrittenThere(buf: Ring, off: nat, data: seq<Byte>)
    requires off + |data| <= SIZE
    ensures Written(buf, off, data)[off..off + |data|] == data
  {
  }

  ghost predicate Readable(buf: Ring, s: Store) {
    s.off + |s.data| <= SIZE && buf[s.off..s.off + |s.data|] == s.data
  }

  /** Every one of the last 159 stored payloads can still be read back. */
  ghost predicate Intact(buf: Ring, log: seq<Store>) {
    forall k :: 0 <= k < |log| && |log| - k <= 159 ==> Readable(buf, log[k])
  }

  /** Storing one more payload leaves the previous 158 untouched. */
  lemma {:induction false} IntactAfterStore(buf: Ring, log: seq<Store>, data: seq<Byte>)
    requires WellPlaced(log) && Intact(buf, log) && 1 <= |data| <= MAX_PACK
    ensures
      var off := Place(End(log, |log|), |data|);
      off + |data| <= SIZE && Intact(Written(buf, off, data), Extended(log, data))
  {
    var log', off := Extended(log, data), Place(End(log, |log|), |data|);
    ExtendedWellPlaced(log, data);
    InsideBuffer(log', |log|);
    forall k | 0 <= k < |log'| && |log'| - k <= 159
      ensures Readable(Written(buf, off, data), log'[k])
    {
      if k < |log| {
        ConsecutiveDisjoint(log', k, |log|);
        assert Readable(buf, log[k]);
        WrittenElsewhere(buf, off, data, log[k].off, |log[k].data|);
      } else {
        WrittenThere(buf, off, data);
      }
    }
  }

  class MemBuf {
    const buf: array<Byte>
    var pos: nat
    var allocBytes: nat
    var relBytes: nat

    ghost predicate Valid()
      reads this
    {
      buf.Length == SIZE && pos <= SIZE
    }

    constructor ()
      ensures Valid() && fresh(buf) && pos == 0 && allocBytes == 0 && relBytes == 0
    {
      buf := new Byte[SIZE](_ => 0);
      pos, allocBytes, relBytes := 0, 0, 0;
    }

    function BytesUsed(): int
      reads this
    {
      allocBytes - relBytes
    }

    method Reset()
      requires Valid()
      modifies this
      ensures Valid() && pos == 0 && allocBytes == 0 && relBytes == 0
    {
      pos, allocBytes, relBytes := 0, 0, 0;
    }

    /** The region handed out is never cut by the end of the buffer. */
    method GetBuf(n: int) returns (off: Option<nat>)
      requires Valid()
      modifies this
      ensures Valid() && relBytes == old(relBytes)
      ensures n <= 0 || n > SIZE ==> off.None? && pos == old(pos) && allocBytes == old(allocBytes)
      ensures 0 < n <= SIZE ==>
        && off == Some(Place(old(pos), n)) && pos == off.value + n && pos <= SIZE
        && allocBytes == old(allocBytes) + n
    {
      if n > SIZE || n <= 0 {
        return None;
      }
      var np := pos + n;
      if np > SIZE {
        pos := 0;
        np := n;
      }
      allocBytes := allocBytes + n;
      off := Some(pos);
      pos := np;
    }

    method RelBytes(n: nat)
      requires Valid()
      modifies this`relBytes
      ensures Valid() && relBytes == old(relBytes) + n
    {
      relBytes := relBytes + n;
    }
  }
}
