/** Text edits in place: an insertion moves the tail back, a removal moves it forward, and
    the text is what the sequence operations say, in growing and in fixed buffers. */
module TextEdit {
  import opened Buffers
  import opened Utf8
  import opened Width

  // ----- the edits on sequences

  function Clip(x: int, low: int, high: int): int {
    if x > high then high else if x < low then low else x
  }

  /** `ys` put in at `at`, which is first brought into the text. */
  function Spliced(t: seq<Half>, at: int, ys: seq<Half>): seq<Half> {
    var p := Clip(at, 0, |t|);
    t[..p] + ys + t[p..]
  }

  /** How many characters a removal before `pos` can take. */
  function Taken(t: seq<Half>, pos: nat, n: nat): nat {
    Clip(Clip(n, 0, |t|), 0, pos)
  }

  function Removed(t: seq<Half>, pos: nat, n: nat): seq<Half> {
    var p, m := Clip(pos, 0, |t|), Taken(t, pos, n);
    t[..p - m] + t[p..]
  }

  /** Text inserted piece by piece, each piece behind the last, is the pieces inserted at
      once. */
  lemma InsertInPieces(t: seq<Half>, at: nat, a: seq<Half>, b: seq<Half>)
    requires at <= |t|
    ensures Spliced(Spliced(t, at, a), at + |a|, b) == Spliced(t, at, a + b)
  {
    var u := Spliced(t, at, a);
    assert u[..at + |a|] == t[..at] + a && u[at + |a|..] == t[at..];
  }

  /** Removals add up. */
  lemma RemoveInPieces(t: seq<Half>, pos: nat, m: nat, n: nat)
    requires m + n <= pos <= |t|
    ensures Removed(Removed(t, pos, m), pos - m, n) == Removed(t, pos, m + n)
  {
  }

  // ----- what is inserted

  /** 16-bit characters, bytes, or a null pointer. */
  datatype Source = Null | Wide(s: seq<Half>) | Narrow(bytes: seq<Byte>)

  function FirstZero(s: seq<int>): (n: nat)
    ensures n <= |s| && (forall k :: 0 <= k < n ==> s[k] != 0) && (n < |s| ==> s[n] == 0)
  {
    if s == [] || s[0] == 0 then 0 else 1 + FirstZero(s[1..])
  }

  function Length(src: Source): nat {
    match src
    case Null => 0
    case Wide(s) => FirstZero(s)
    case Narrow(b) => FirstZero(b)
  }

  /** A count of 0 means up to the terminating zero. */
  function Counted(src: Source, count: nat): (n: nat)
    ensures count > 0 ==> n == count
    ensures count == 0 && src.Null? ==> n == 0
    ensures count == 0 && src.Wide? && 0 in src.s ==>
      n < |src.s| && src.s[n] == 0 && forall k :: 0 <= k < n ==> src.s[k] != 0
    ensures count == 0 && src.Narrow? && 0 in src.bytes ==>
      n < |src.bytes| && src.bytes[n] == 0 && forall k :: 0 <= k < n ==> src.bytes[k] != 0
  {
    if count == 0 then Length(src) else count
  }

  predicate Has(src: Source, n: nat) {
    (src.Wide? ==> n <= |src.s|) && (src.Narrow? ==> n <= |src.bytes|)
  }

  /** The characters named are there. */
  predicate Enough(src: Source, count: nat) {
    match src
    case Null => true
    case Wide(s) => if count == 0 then 0 in s else Has(src, count)
    case Narrow(b) => if count == 0 then 0 in b else Has(src, count)
  }

  lemma EnoughHas(src: Source, count: nat, n: nat)
    requires Enough(src, count) && n <= Counted(src, count)
    ensures Has(src, n)
  {
  }

  /** What gets written: bytes only up to a zero among them. */
  function Filled(src: Source, n: nat): (ys: seq<Half>)
    requires Has(src, n)
    ensures |ys| <= n && (src.Wide? ==> |ys| == n) && (src.Null? ==> ys == [])
    ensures forall k :: 0 <= k < |ys| ==> ys[k] == if src.Wide? then src.s[k] else src.bytes[k]
    ensures src.Narrow? ==> (forall y :: y in ys ==> y != 0) && (|ys| == n || src.bytes[|ys|] == 0)
  {
    match src
    case Null => []
    case Wide(s) => s[..n]
    case Narrow(b) => b[..Clip(FirstZero(b), 0, n)]
  }

  /** What an append adds: bytes are taken as UTF-8. */
  function Appended(src: Source, n: nat): (ys: seq<Half>)
    requires Has(src, n)
    ensures |ys| <= n
  {
    match src
    case Null => []
    case Wide(s) => s[..n]
    case Narrow(b) => Decoded(b[..n])
  }

  /** The tail from `at` up to `len` now lies `n` places further back. */
  ghost predicate Moved(now: seq<Half>, was: seq<Half>, at: nat, n: nat, len: nat) {
    && at <= len && len + n < |now| == |was|
    && forall k :: 0 <= k < len + n ==> now[k] == was[if at + n <= k then k - n else k]
  }

  /** The same within a text whose length stays. */
  ghost predicate MovedWithin(now: seq<Half>, was: seq<Half>, p: nat, n: nat) {
    |now| == |was| && forall k :: 0 <= k < |was| ==> now[k] == was[if p + n <= k then k - n else k]
  }

  /** The text after an insertion: spliced, if everything given was written, else with a gap
      filled only so far; for a null pointer the tail moved and the length did not. */
  ghost predicate Inserted(now: seq<Half>, was: seq<Half>, at: int, src: Source, n: nat)
    requires Has(src, n)
  {
    var p, ys := Clip(at, 0, |was|), Filled(src, n);
    if src.Null? then
      MovedWithin(now, was, p, n)
    else
      && |now| == |was| + n && now[..p] == was[..p] && now[p..p + |ys|] == ys && now[p + n..] == was[p..]
      && (|ys| == n ==> now == Spliced(was, at, ys))
  }

  /** Everything is written exactly when no zero byte comes before the count. */
  lemma FilledWhole(src: Source, n: nat)
    requires Has(src, n)
    ensures
      |Filled(src, n)| == n <==>
        n == 0 || src.Wide? || (src.Narrow? && forall k :: 0 <= k < n ==> src.bytes[k] != 0)
  {
    if src.Narrow? && FirstZero(src.bytes) < n {
      assert src.bytes[FirstZero(src.bytes)] == 0;
    }
  }

  /** Every character from the `n`th on is the one `n` places before it. */
  ghost predicate Repeats(t: seq<Half>, n: nat) {
    forall k :: n <= k < |t| ==> t[k] == t[k - n]
  }

  lemma MovedLength(now: seq<Half>, was: seq<Half>, n: nat)
    requires MovedWithin(now, was, 0, n)
    ensures |now| == |was|
  {
  }

  lemma MovedAt(now: seq<Half>, was: seq<Half>, p: nat, n: nat, k: nat)
    requires MovedWithin(now, was, p, n) && k < |was|
    ensures |now| == |was| && now[k] == was[if p + n <= k then k - n else k]
  {
  }

  lemma RepeatsAt(t: seq<Half>, n: nat, k: nat)
    requires Repeats(t, n) && n <= k < |t|
    ensures t[k] == t[k - n]
  {
  }

  lemma AllRepeat(t: seq<Half>, n: nat)
    requires forall k :: n <= k < |t| ==> t[k] == t[k - n]
    ensures Repeats(t, n)
  {
  }

  lemma MovedOnto(now: seq<Half>, was: seq<Half>, n: nat)
    requires MovedWithin(now, was, 0, n)
    ensures now == was <==> Repeats(was, n)
  {
    MovedLength(now, was, n);
    hide MovedWithin, Repeats;
    if now == was {
      forall k | n <= k < |was|
        ensures was[k] == was[k - n]
      {
        MovedAt(now, was, 0, n, k);
      }
      AllRepeat(was, n);
    } else if Repeats(was, n) {
      forall k | 0 <= k < |was|
        ensures now[k] == was[k]
      {
        MovedAt(now, was, 0, n, k);
        if n <= k {
          RepeatsAt(was, n, k);
        }
      }
    }
  }

  lemma StaysPut(now: seq<Half>, was: seq<Half>, at: int)
    requires Inserted(now, was, at, Null, 0)
    ensures now == was
  {
    assert forall k :: 0 <= k < |was| ==> now[k] == was[k];
  }

  lemma RemovedLength(t: seq<Half>, pos: nat, n: nat)
    ensures |Removed(t, pos, n)| == |t| - Taken(t, pos, n)
    ensures Taken(t, pos, n) == 0 ==> Removed(t, pos, n) == t
  {
  }

  /** A null pointer with a count moves the tail and adds nothing, so a removal of the count
      takes what was there before. */
  lemma RemoveAfterNull(now: seq<Half>, was: seq<Half>, at: int, n: nat)
    requires Inserted(now, was, at, Null, n) && at + n >= 0
    ensures Removed(now, at + n, n) == was <==> n == 0 || was == [] || (at + n == 0 && Repeats(was, n))
  {
    hide Removed, Repeats;
    RemovedLength(now, at + n, n);
    if at + n == 0 {
      MovedOnto(now, was, n);
    } else if n == 0 {
      StaysPut(now, was, at);
    }
  }

  /** Removing the count an insertion returned restores the text, however little of the gap
      was filled, unless the insertion had to bring a negative position into the text or had
      a count but no characters: after a null pointer the text is restored only if nothing
      was asked for, there was no text, or nothing is removed and the text repeats itself. */
  lemma RemoveUndoesInsert(now: seq<Half>, was: seq<Half>, at: int, src: Source, n: nat)
    requires Has(src, n) && Inserted(now, was, at, src, n) && at + n >= 0
    ensures
      Removed(now, at + n, n) == was <==>
        if src.Null? then n == 0 || was == [] || (at + n == 0 && Repeats(was, n)) else at >= 0
  {
    hide Filled;
    if src.Null? {
      RemoveAfterNull(now, was, at, n);
    } else if at >= 0 {
      var p := Clip(at, 0, |was|);
      assert now[..p] == was[..p] && now[p + n..] == was[p..] && was[..p] + was[p..] == was;
    }
  }

  lemma Untouched(was: seq<Half>, moved: seq<Half>, now: seq<Half>, p: nat, n: nat, len: nat, ys: seq<Half>)
    requires Moved(moved, was, p, n, len) && Wrote(now, moved, p, ys) && |ys| <= n
    ensures
      var t := now[..len + n];
      t[..p] == was[..len][..p] && t[p..p + |ys|] == ys && t[p + n..] == was[..len][p..]
  {
    forall k | p + n <= k < len + n
      ensures now[k] == was[k - n]
    {
      assert moved[k] == was[k - n];
    }
  }

  /** The tail moved and the gap filled, from its start and perhaps not to its end. */
  lemma GapFilled(was: seq<Half>, moved: seq<Half>, now: seq<Half>, at: int, src: Source, n: nat, len: nat)
    requires len <= |was| && Moved(moved, was, Clip(at, 0, len), n, len)
    requires Has(src, n) && Wrote(now, moved, Clip(at, 0, len), Filled(src, n))
    ensures Inserted(now[..if src.Null? then len else len + n], was[..len], at, src, n)
  {
    var p, ys := Clip(at, 0, len), Filled(src, n);
    if src.Null? {
      assert ys == [];
    } else {
      hide Filled;
      var t := now[..len + n];
      Untouched(was, moved, now, p, n, len, ys);
      if |ys| == n {
        assert t == t[..p] + t[p..p + n] + t[p + n..];
      }
    }
  }

  /** What follows `t`, up to `len`, now lies `n` places further back. */
  ghost predicate MovedBehind(now: seq<Half>, was: seq<Half>, t: int, n: nat, len: nat) {
    && -1 <= t && |now| == |was|
    && forall k :: 0 <= k < |was| ==> now[k] == was[if t + n < k <= len + n then k - n else k]
  }

  lemma NoneBehind(was: seq<Half>, n: nat, len: nat)
    requires len + n < |was|
    ensures MovedBehind(was, was, len, n, len)
  {
  }

  lemma OneMoreBehind(now: seq<Half>, was: seq<Half>, t: nat, n: nat, len: nat)
    requires MovedBehind(now, was, t, n, len) && t <= len && len + n < |was|
    ensures |now| == |was| && MovedBehind(now[t + n := now[t]], was, t - 1, n, len)
  {
    assert now[t] == was[t];
  }

  lemma AllBehind(now: seq<Half>, was: seq<Half>, at: nat, n: nat, len: nat)
    requires MovedBehind(now, was, at - 1, n, len) && at <= len && len + n < |was|
    ensures Moved(now, was, at, n, len)
  {
  }

  lemma NothingMoved(was: seq<Half>, n: nat, len: nat)
    requires len + n < |was|
    ensures Moved(was, was, len, n, len)
  {
  }

  lemma NothingFilled(src: Source, n: nat, now: seq<Half>, at: nat)
    requires Has(src, n) && (n == 0 || src.Null?) && at <= |now|
    ensures Filled(src, n) == [] && Wrote(now, now, at, [])
  {
  }

  /** The tail from `pos` on now lies `m` places further to the front. */
  ghost predicate MovedForward(now: seq<Half>, was: seq<Half>, pos: nat, m: nat, len: nat) {
    && m <= pos <= len < |now| == |was|
    && forall k :: 0 <= k < len - m ==> now[k] == was[if pos - m <= k then k + m else k]
  }

  lemma GapClosed(was: seq<Half>, now: seq<Half>, pos: nat, n: nat, len: nat)
    requires len <= |was| && MovedForward(now, was, Clip(pos, 0, len), Taken(was[..len], pos, n), len)
    ensures now[..len - Taken(was[..len], pos, n)] == Removed(was[..len], pos, n)
  {
  }

  lemma NothingMovedForward(was: seq<Half>, m: nat, len: nat)
    requires m <= len < |was|
    ensures MovedForward(was, was, len, m, len)
  {
  }

  lemma NothingAppended(src: Source, n: nat)
    requires Has(src, n) && (n == 0 || src == Null)
    ensures Appended(src, n) == []
  {
  }

  lemma AppendedIs(src: Source, n: nat)
    requires Has(src, n)
    ensures src.Null? ==> Appended(src, n) == []
    ensures src.Wide? ==> n <= |src.s| && Appended(src, n) == src.s[..n]
    ensures src.Narrow? ==> n <= |src.bytes| && Appended(src, n) == Decoded(src.bytes[..n])
  {
  }

  lemma AppendedText(was: seq<Half>, now: seq<Half>, len: nat, ys: seq<Half>)
    requires Wrote(now, was, len, ys)
    ensures now[..len + |ys|] == was[..len] + ys
  {
  }

  // ----- the class

  class CTEditBase {
    var pData: array?<Half>
    var len: nat
    var maxLen: nat
    const locked: bool
    const updateSize: nat

    ghost function Repr(): set<object>
      reads this
    {
      if pData == null then {} else {pData}
    }

    ghost predicate Valid()
      reads this
    {
      && len <= maxLen
      && (pData == null ==> !locked && maxLen == 0)
      && (pData != null ==> maxLen < pData.Length)
    }

    ghost function Text(): seq<Half>
      reads this, pData
      requires Valid()
    {
      if pData == null then [] else pData[..len]
    }

    ghost predicate Terminated()
      reads this, pData
    {
      pData != null && len < pData.Length && pData[len] == 0
    }

    /** A fixed buffer keeps one place for the terminating zero. */
    constructor Fixed(buf: array<Half>)
      requires buf.Length > 0
      ensures Valid() && locked && maxLen == buf.Length - 1 && pData == buf && Text() == []
    {
      pData, len, maxLen, locked, updateSize := buf, 0, buf.Length - 1, true, 0;
    }

    constructor Growing(max: nat)
      ensures Valid() && !locked && fresh(Repr()) && Terminated() && Text() == []
    {
      pData, len, maxLen, locked, updateSize := new Half[max + 1](_ => 0), 0, max, false, 128;
    }

    /** What still fits: all of it, unless the buffer is fixed and gets full. */
    function Room(n: nat): (m: nat)
      reads this
      requires len <= maxLen
      ensures m <= n && (!locked ==> m == n)
      ensures locked ==> len + m <= maxLen && (m == n || len + m == maxLen)
    {
      if locked && n > maxLen - len then maxLen - len else n
    }

    method CopyText(to: array<Half>)
      requires Valid() && pData != null && to != pData && len <= to.Length
      modifies to
      ensures to[..len] == pData[..len]
    {
      var i, from := 0, pData;
      while i < len
        invariant 0 <= i <= len && to[..i] == from[..i]
      {
        to[i] := from[i];
        i := i + 1;
      }
    }

    /** `checkSize`: makes room, or cuts the count down in a fixed buffer. */
    method CheckSize(n: nat) returns (m: nat)
      requires Valid()
      modifies this`pData, this`maxLen
      ensures Valid() && pData != null && m == old(Room(n)) && len + m <= maxLen
      ensures Text() == old(Text()) && (pData == old(pData) || fresh(pData))
      ensures locked ==> pData == old(pData) && maxLen == old(maxLen)
    {
      m := n;
      if locked {
        if maxLen < len + n {
          m := maxLen - len;
        }
      } else {
        if maxLen < len + n {
          var newLen := updateSize + len + n;
          var newData := new Half[newLen + 1](_ => 0);
          if pData != null {
            CopyText(newData);
          }
          pData, maxLen := newData, newLen;
        } else if pData == null {
          pData := new Half[1](_ => 0);
        }
      }
    }

    /** Moves what follows `at`, with the zero behind it, `n` places back, last first. */
    method ShiftBack(at: nat, n: nat)
      requires Valid() && pData != null && at <= len && len + n < pData.Length
      modifies pData
      ensures Moved(pData[..], old(pData[..]), at, n, len)
    {
      hide Moved, MovedBehind;
      ghost var was := pData[..];
      var a, tmp: int, i := pData, len, len - at;
      NoneBehind(was, n, len);
      while i >= 0
        invariant i == tmp - at && -1 <= i
        invariant MovedBehind(a[..], was, tmp, n, len)
      {
        OneMoreBehind(a[..], was, tmp, n, len);
        a[tmp + n] := a[tmp];
        tmp := tmp - 1;
        i := i - 1;
      }
      AllBehind(a[..], was, at, n, len);
    }

    /** Moves what follows `pos`, with the zero behind it, `n` places forward, first first. */
    method ShiftForward(pos: nat, n: nat)
      requires Valid() && pData != null && n <= pos <= len
      modifies pData
      ensures MovedForward(pData[..], old(pData[..]), pos, n, len)
    {
      var a, tmp, i := pData, pos - n, len - pos;
      while i >= 0
        invariant i == len - n - tmp && -1 <= i && pos - n <= tmp
        invariant forall k :: 0 <= k < a.Length ==> a[k] == old(a[if pos - n <= k < tmp then k + n else k])
      {
        a[tmp] := a[tmp + n];
        tmp := tmp + 1;
        i := i - 1;
      }
    }

    method CopyWide(at: nat, s: seq<Half>, n: nat)
      requires Valid() && pData != null && n <= |s| && at + n <= pData.Length
      modifies pData
      ensures Wrote(pData[..], old(pData[..]), at, s[..n])
    {
      var i, a := 0, pData;
      while i < n
        invariant 0 <= i <= n && Wrote(a[..], old(a[..]), at, s[..i])
      {
        a[at + i] := s[i];
        i := i + 1;
      }
    }

    /** `convert8_16`: bytes are widened one by one, and a zero byte ends it early. */
    method CopyNarrow(at: nat, s: seq<Byte>, n: nat) returns (ghost z: nat)
      requires Valid() && pData != null && n <= |s| && at + n <= pData.Length
      modifies pData
      ensures z == Clip(FirstZero(s), 0, n) && Wrote(pData[..], old(pData[..]), at, s[..z])
    {
      var i, a := 0, pData;
      while i < n && s[i] != 0
        invariant 0 <= i <= n && Wrote(a[..], old(a[..]), at, s[..i])
        invariant i <= FirstZero(s)
      {
        a[at + i] := s[i];
        i := i + 1;
      }
      z := i;
    }

    method Fill(at: nat, src: Source, n: nat)
      requires Valid() && pData != null && at + n <= pData.Length
      requires Has(src, n)
      modifies pData
      ensures Wrote(pData[..], old(pData[..]), at, Filled(src, n))
    {
      match src {
        case Wide(s) => CopyWide(at, s, n);
        case Narrow(b) =>
          ghost var z := CopyNarrow(at, b, n);
        case Null =>
      }
    }

    /** The tail moved and the gap filled, with room for both. */
    method OpenAndFill(at: int, src: Source, n: nat)
      requires Valid() && pData != null && Has(src, n) && len + n <= maxLen
      modifies this`len, pData
      ensures Valid() && Inserted(Text(), old(Text()), at, src, n)
    {
      hide Inserted, Moved, Wrote, Filled;
      var p := Clip(at, 0, len);
      ghost var was, l := pData[..], len;
      if len - p != 0 {
        ShiftBack(p, n);
      } else {
        NothingMoved(was, n, l);
      }
      ghost var moved := pData[..];
      if n > 0 && !src.Null? {
        Fill(p, src, n);
        len := len + n;
      } else {
        NothingFilled(src, n, moved, p);
      }
      GapFilled(was, moved, pData[..], at, src, n, l);
      assert pData[..][..len] == Text();
      assert was[..l] == old(Text());
    }

    /** `insertText`; the count returned is what was inserted. */
    method InsertText(at: int, src: Source, count: nat) returns (n: nat)
      requires Valid() && Enough(src, count)
      modifies this`pData, this`maxLen, this`len, Repr()
      ensures Valid() && Terminated() && (pData == old(pData) || fresh(pData))
      ensures n == old(Room(Counted(src, count))) && Has(src, n)
      ensures Inserted(Text(), old(Text()), at, src, n)
    {
      hide Inserted, Filled, Counted, Enough, Has;
      EnoughHas(src, count, Room(Counted(src, count)));
      n := CheckSize(Counted(src, count));
      OpenAndFill(at, src, n);
      ghost var t := Text();
      pData[len] := 0;
      assert Text() == t;
    }

    /** `remCharsFrom`: removes the `n` characters before `pos`, fewer where there are fewer. */
    method RemCharsFrom(pos: nat, n: nat)
      requires Valid() && pData != null
      modifies this`len, pData
      ensures Valid() && Terminated() && Text() == Removed(old(Text()), pos, n)
    {
      hide Removed, MovedForward;
      ghost var was, l := pData[..], len;
      var m := if n > len then len else n;
      if m > pos {
        m := pos;
      }
      var p := if pos > len then len else if pos < m then m else pos;
      if len - p != 0 {
        ShiftForward(p, m);
      } else {
        NothingMovedForward(was, m, len);
      }
      GapClosed(was, pData[..], pos, n, len);
      assert was[..l] == old(Text());
      ghost var now := pData[..];
      len := len - m;
      pData[len] := 0;
      assert Text() == now[..len];
    }

    /** Writes what an append adds behind the text. */
    method FillEnd(src: Source, n: nat) returns (added: nat)
      requires Valid() && pData != null && Has(src, n) && len + n <= maxLen && n > 0
      modifies pData
      ensures added == |Appended(src, n)| && Wrote(pData[..], old(pData[..]), len, Appended(src, n))
    {
      hide Utf8.Reads, Wrote;
      match src {
        case Wide(s) =>
          CopyWide(len, s, n);
          added := n;
        case Narrow(b) =>
          var r := ToUcs2(b[..n], pData, len);
          added := r.value;
        case Null =>
          NothingFilled(src, n, pData[..], len);
          added := 0;
      }
    }

    /** `addText`: bytes are taken as UTF-8, cut where a fixed buffer is full. */
    method AddText(src: Source, count: nat)
      requires Valid() && Enough(src, count)
      modifies this`pData, this`maxLen, this`len, Repr()
      ensures Valid() && Terminated() && (pData == old(pData) || fresh(pData))
      ensures
        var n := old(Room(Counted(src, count)));
        && Has(src, n)
        && Text() == old(Text()) + (if src.Null? then [] else if src.Wide? then src.s[..n] else Decoded(src.bytes[..n]))
    {
      hide Appended, Counted, Has, Enough, Wrote, Decoded;
      EnoughHas(src, count, Room(Counted(src, count)));
      var n := CheckSize(Counted(src, count));
      AppendedIs(src, n);
      ghost var was, l, ys := pData[..], len, Appended(src, n);
      if n > 0 && src != Null {
        var added := FillEnd(src, n);
        len := len + added;
        AppendedText(was, pData[..], l, ys);
      } else {
        NothingAppended(src, n);
        assert was[..l] + [] == was[..l];
      }
      assert was[..l] == old(Text());
      ghost var now := pData[..];
      pData[len] := 0;
      assert Text() == now[..len];
    }

    method RemLastChar(n: nat)
      requires Valid() && pData != null
      modifies this`len, pData
      ensures Valid() && Text() == old(Text())[..old(len) - Clip(n, 0, old(len))]
    {
      if len > 0 {
        len := len - (if n > len then len else n);
        pData[len] := 0;
      }
    }

    method Reset()
      requires Valid()
      modifies this`pData, this`maxLen, this`len, Repr()
      ensures Valid() && Text() == [] && (locked ==> pData == old(pData) && maxLen == old(maxLen) && Terminated())
    {
      len := 0;
      if pData != null {
        pData[0] := 0;
      }
      if !locked {
        maxLen := 0;
        pData := null;
      }
    }
  }
}
