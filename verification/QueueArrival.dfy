/** What one packet does to the queue, whatever the packet is. */
module QueueArrival {
  import opened Width
  import opened Wrappers
  import opened RingAllocator
  import opened QueueModel
  import opened QueueInvariants
  import Rollover

  /** The packet's number, or the whole of its extended number, is what its slot has. */
  predicate Known(q: Queue, s: Half, ext: Word) {
    var slot := q.table.slots[s % 1024];
    (slot.inUse && slot.seqRec == s) || slot.ext == ext
  }

  /** A data packet of no bytes or of more than 1024. */
  predicate WrongSize(data: seq<Byte>, codec: Option<CodecId>) {
    codec.Some? && !(1 <= |data| <= 1024)
  }

  /** Nothing but what receiving a packet is about has changed. */
  ghost predicate OnlyReceived(q: Queue, q': Queue) {
    q' == q.(table := q'.table, roc := q'.roc, lastRecv := q'.lastRecv, waiting := q'.waiting,
             realData := q'.realData, accepted := q'.accepted, stores := q'.stores)
  }

  /** Slot `i` alone has changed. */
  ghost predicate OnlySlot(q: Queue, q': Queue, i: nat) {
    forall k {:trigger q'.table.slots[k]} :: 0 <= k < SLOTS && k != i ==> q'.table.slots[k] == q.table.slots[k]
  }

  lemma AcceptedReadable(q: Queue, ts: Word, s: Half, ext: Word, data: seq<Byte>, codec: Option<CodecId>, now: Word)
    requires RingOk(q.table.mem, q.stores) && codec.Some? && 1 <= |data| <= MAX_PACK
    ensures
      var q' := Accepted(q, ts, s, ext, data, codec, now);
      Payload(q'.table, q'.table.slots[Idx(s)]) == data
  {
    AcceptedRing(q, data);
    var q' := Accepted(q, ts, s, ext, data, codec, now);
    var last := Store(Place(q.table.mem.pos, |data|), data);
    assert q'.stores == q.stores + [last] && q'.table.mem == Stored(q.table.mem, data);
    assert Readable(q'.table.mem.buf, q'.stores[|q.stores|]);
  }

  lemma AcceptedSlot(q: Queue, ts: Word, s: Half, ext: Word, data: seq<Byte>, codec: Option<CodecId>, now: Word)
    ensures
      var q' := Accepted(q, ts, s, ext, data, codec, now);
      var slot := q'.table.slots[Idx(s)];
      && slot.inUse && slot.received == now && slot.ts == ts && slot.ext == ext && slot.seqRec == s
      && slot.codec == codec && slot.len == (if codec.Some? then |data| else 0)
      && OnlySlot(q, q', Idx(s)) && OnlyReceived(q, q')
      && q'.roc == Rollover.Accept(q.roc, ext) && q'.waiting == 0
      && (q'.realData <==> q.realData || codec.Some?) && q'.lastRecv == (if ext > q.lastRecv then ext else q.lastRecv)
  {
    hide Rollover.Accept, Stored, Idx;
  }

  /** A packet whose number its slot has leaves the queue as it is. One of the wrong size is
      refused, and what its slot held is given back. Any other, comfort noise included, lies
      in its slot afterwards, under its extended number, with its own bytes, and it is newest
      if its number is. */
  lemma ReceivesExactly(q: Queue, ts: Word, s: Half, data: seq<Byte>, codec: Option<CodecId>, now: Word)
    requires Sane(q)
    ensures
      var ((q', r), ext, slot) :=
        (AddPack(q, ts, s, data, codec, now), Rollover.Unwrap(q.roc, s).0, q.table.slots[s % 1024]);
      if Known(q, s, ext) then r == 0 && q' == q.(roc := q.roc.(inc := q'.roc.inc))
      else if WrongSize(data, codec) then
        && r == -1 && q' == q.(roc := q.roc.(inc := q'.roc.inc), table := q'.table)
        && OnlySlot(q, q', s % 1024) && q'.table.slots[s % 1024] == slot.(inUse := false)
      else
        var slot' := q'.table.slots[s % 1024];
        && r == 0 && OnlySlot(q, q', s % 1024) && OnlyReceived(q, q')
        && slot'.inUse && slot'.received == now && slot'.ts == ts && slot'.ext == ext && slot'.seqRec == s
        && slot'.codec == codec && slot'.len == (if codec.Some? then |data| else 0)
        && (codec.Some? ==> Payload(q'.table, slot') == data)
        && q'.roc == Rollover.Step(q.roc, s) && q'.waiting == 0
        && (q'.realData <==> q.realData || codec.Some?)
        && q'.lastRecv == (if ext > q.lastRecv then ext else q.lastRecv)
  {
    hide Rollover.Unwrap, Accepted, Payload, Rollover.Accept;
    var ext := Rollover.Unwrap(q.roc, s).0;
    if !Known(q, s, ext) && !WrongSize(data, codec) {
      var q1 := q.(roc := Rollover.Looked(q.roc, s));
      var q2 := q1.(table := Release(q1.table, Idx(s)));
      AcceptedSlot(q2, ts, s, ext, data, codec, now);
      if codec.Some? {
        AcceptedReadable(q2, ts, s, ext, data, codec, now);
      }
    }
    hide Sane, Rollover.Looked;
  }
}
