/** The memory of recent chat messages: a ring of slots that is a bounded queue of shortened
    keys, whatever bytes earlier messages left in a slot. */
module ChatMem {
  import opened Width

  // ----- keys

  /** What the memory can tell apart: numbers, lengths, 8 bytes of the tag, 16 of the call id. */
  datatype Key = Key(cseq: int, len: int, tagLen: int, cidLen: int, tag: seq<Byte>, cid: seq<Byte>)

  const ZERO := Key(0, 0, 0, 0, [], [])

  function Cut(n: int, most: nat): nat {
    if n < 0 then 0 else if n > most then most else n
  }

  datatype Msg = Msg(cseq: int, len: int, cidLen: int, cid: seq<Byte>, tagLen: int, tag: seq<Byte>)

  /** The bytes looked at are there. */
  predicate Whole(m: Msg) {
    Cut(m.tagLen, 8) <= |m.tag| && Cut(m.cidLen, 16) <= |m.cid|
  }

  function KeyOf(m: Msg): Key
    requires Whole(m)
  {
    Key(m.cseq, m.len, m.tagLen, m.cidLen, m.tag[..Cut(m.tagLen, 8)], m.cid[..Cut(m.cidLen, 16)])
  }

  /** Two messages are taken for the same exactly if their numbers and lengths are the same,
      and the first 8 bytes of their tags and the first 16 of their call ids. */
  lemma ToldApart(a: Msg, b: Msg)
    requires Whole(a) && Whole(b)
    ensures
      KeyOf(a) == KeyOf(b) <==>
        && a.cseq == b.cseq && a.len == b.len && a.tagLen == b.tagLen && a.cidLen == b.cidLen
        && (forall i :: 0 <= i < 8 && i < a.tagLen ==> a.tag[i] == b.tag[i])
        && (forall i :: 0 <= i < 16 && i < a.cidLen ==> a.cid[i] == b.cid[i])
  {
    var (ka, kb) := (KeyOf(a), KeyOf(b));
    if ka == kb {
      forall i | 0 <= i < 8 && i < a.tagLen
        ensures a.tag[i] == b.tag[i]
      {
        assert ka.tag[i] == kb.tag[i];
      }
      forall i | 0 <= i < 16 && i < a.cidLen
        ensures a.cid[i] == b.cid[i]
      {
        assert ka.cid[i] == kb.cid[i];
      }
    }
  }

  // ----- the bounded queue

  /** Asking about `k`: known, or else remembered at the cost of the oldest. */
  function Ask(w: seq<Key>, k: Key): (r: (bool, seq<Key>))
    requires |w| > 0
    ensures |r.1| == |w|
  {
    if k in w then (true, w) else (false, w[1..] + [k])
  }

  /** The queue after asking about all of `ks`, and the keys found new. */
  function AskAll(w: seq<Key>, ks: seq<Key>): (r: (seq<Key>, seq<Key>))
    requires |w| > 0
    ensures |r.0| == |w| && |r.1| <= |ks|
  {
    if ks == [] then (w, [])
    else
      var k := ks[|ks| - 1];
      var (w1, fresh1) := AskAll(w, ks[..|ks| - 1]);
      var (known, w2) := Ask(w1, k);
      (w2, if known then fresh1 else fresh1 + [k])
  }

  function Last(n: nat, s: seq<Key>): seq<Key>
    requires n <= |s|
  {
    s[|s| - n..]
  }

  /** The queue holds the last keys found new, behind what it held before. */
  lemma {:induction false} HoldsTheLatest(w: seq<Key>, ks: seq<Key>)
    requires |w| > 0
    ensures
      var (w', news) := AskAll(w, ks);
      w' == Last(|w|, w + news)
  {
    if ks == [] {
      assert w + [] == w;
    } else {
      var before, k := ks[..|ks| - 1], ks[|ks| - 1];
      HoldsTheLatest(w, before);
      var (w1, news) := AskAll(w, before);
      if k !in w1 {
        assert w + (news + [k]) == (w + news) + [k];
        assert Last(|w|, w + news)[1..] + [k] == Last(|w|, (w + news) + [k]);
      }
    }
  }

  function Zeros(n: nat): (w: seq<Key>)
    ensures |w| == n && forall i :: 0 <= i < n ==> w[i] == ZERO
  {
    seq(n, _ => ZERO)
  }

  /** Slot 0 up to `z` not used yet, then keys that are all different. */
  ghost predicate NoneTwice(w: seq<Key>, z: nat) {
    && z <= |w| && (forall i :: 0 <= i < z ==> w[i] == ZERO)
    && (forall i, j :: z <= i < j < |w| ==> w[i] != w[j])
    && (z > 0 ==> forall i :: z <= i < |w| ==> w[i] != ZERO)
  }

  lemma NoneTwiceNext(w: seq<Key>, z: nat, k: Key)
    requires |w| > 0 && NoneTwice(w, z) && k !in w
    ensures NoneTwice(w[1..] + [k], if z > 0 then z - 1 else 0)
  {
    var w' := w[1..] + [k];
    assert forall i :: 0 <= i < |w| - 1 ==> w'[i] == w[i + 1];
    if z > 0 {
      assert w[0] == ZERO;
    }
  }

  /** No key is ever stored while it is still there. */
  lemma {:induction false} StoredOnce(n: nat, ks: seq<Key>)
    requires n > 0
    ensures
      var (w, news) := AskAll(Zeros(n), ks);
      NoneTwice(w, if |news| < n then n - |news| else 0)
  {
    if ks == [] {
    } else {
      var k := ks[|ks| - 1];
      StoredOnce(n, ks[..|ks| - 1]);
      var (w, news) := AskAll(Zeros(n), ks[..|ks| - 1]);
      if k !in w {
        var z: nat := if |news| < n then n - |news| else 0;
        NoneTwiceNext(w, z, k);
      }
    }
  }

  /** How many keys come after the last `k` in `s`; all of them without one. */
  function After(s: seq<Key>, k: Key): (n: nat)
    ensures n <= |s|
  {
    if s == [] || s[|s| - 1] == k then 0 else 1 + After(s[..|s| - 1], k)
  }

  /** The last `n` of a sequence, by its last one. */
  lemma LastEnds(s: seq<Key>, n: nat)
    requires 0 < n <= |s|
    ensures Last(n, s) == Last(n - 1, s[..|s| - 1]) + [s[|s| - 1]]
  {
  }

  lemma LastNone(s: seq<Key>)
    ensures Last(0, s) == []
  {
  }

  lemma {:induction false} AmongLast(s: seq<Key>, k: Key, n: nat)
    requires k in s && n <= |s|
    ensures k in Last(n, s) <==> After(s, k) < n
    decreases |s|
  {
    hide Last;
    if n == 0 {
      LastNone(s);
    } else {
      LastEnds(s, n);
      if s[|s| - 1] != k {
        assert s == s[..|s| - 1] + [s[|s| - 1]];
        AmongLast(s[..|s| - 1], k, n - 1);
      }
    }
  }

  lemma {:induction false} AfterAppend(s: seq<Key>, k: Key, news: seq<Key>)
    requires s != [] && s[|s| - 1] == k
    ensures After(s + news, k) == After(news, k)
  {
    if news == [] {
      assert s + news == s;
    } else {
      AfterAppend(s, k, news[..|news| - 1]);
      assert (s + news)[..|s + news| - 1] == s + news[..|news| - 1];
    }
  }

  /** A key found new is known, whatever is asked afterwards, exactly while fewer keys than
      the queue holds were found new since it was last found new itself. */
  lemma KeptFor(w: seq<Key>, k: Key, ks: seq<Key>)
    requires |w| > 0 && k !in w
    ensures
      var (w', news) := AskAll(Ask(w, k).1, ks);
      k in w' <==> After(news, k) < |w|
  {
    var w1 := Ask(w, k).1;
    var (w', news) := AskAll(w1, ks);
    assert w1[|w| - 1] == k && (w1 + news)[|w| - 1] == k;
    HoldsTheLatest(w1, ks);
    AfterAppend(w1, k, news);
    AmongLast(w1 + news, k, |w|);
  }

  // ----- the class

  datatype Item = Item(cseq: int, len: int, tagLen: int, tagBuf: seq<Byte>, cidLen: int, cidBuf: seq<Byte>) {
    predicate Formed() {
      |tagBuf| == 8 && |cidBuf| == 16
    }

    /** Bytes behind the lengths do not count. */
    function View(): Key {
      Key(cseq, len, tagLen, cidLen, tagBuf[..Cut(tagLen, |tagBuf|)], cidBuf[..Cut(cidLen, |cidBuf|)])
    }
  }

  function Keys(items: seq<Item>): (ks: seq<Key>)
    ensures |ks| == |items| && forall i :: 0 <= i < |items| ==> ks[i] == items[i].View()
  {
    seq(|items|, i requires 0 <= i < |items| => items[i].View())
  }

  /** The keys of the slots, the oldest first: it is the one that is next to go. */
  function Queue(items: seq<Item>, cur: nat): (w: seq<Key>)
    requires cur <= |items|
    ensures |w| == |items|
  {
    Keys(items)[cur..] + Keys(items)[..cur]
  }

  lemma QueueHas(items: seq<Item>, cur: nat, k: Key)
    requires cur <= |items|
    ensures k in Queue(items, cur) <==> exists i :: 0 <= i < |items| && items[i].View() == k
  {
    var ks := Keys(items);
    assert k in Queue(items, cur) <==> k in ks;
    if k in ks {
      var i :| 0 <= i < |ks| && ks[i] == k;
      assert items[i].View() == k;
    } else if i :| 0 <= i < |items| && items[i].View() == k {
      assert ks[i] == k;
    }
  }

  lemma QueueWraps(items: seq<Item>)
    ensures Queue(items, |items|) == Queue(items, 0)
  {
  }

  lemma QueueReplaced(items: seq<Item>, cur: nat, x: Item)
    requires cur < |items|
    ensures Queue(items[cur := x], cur + 1) == Queue(items, cur)[1..] + [x.View()]
  {
    assert Keys(items[cur := x]) == Keys(items)[cur := x.View()];
  }

  function Blank(): (i: Item)
    ensures i.Formed() && i.View() == ZERO
  {
    Item(0, 0, 0, seq(8, _ => 0), 0, seq(16, _ => 0))
  }

  /** `src` copied over the front of `buf`, byte by byte, up to its length and the room. */
  method Overwrite(buf: seq<Byte>, n: int, src: seq<Byte>) returns (b: seq<Byte>)
    requires Cut(n, |buf|) <= |src|
    ensures |b| == |buf| && b[..Cut(n, |buf|)] == src[..Cut(n, |buf|)] && b[Cut(n, |buf|)..] == buf[Cut(n, |buf|)..]
  {
    b := buf;
    var i := 0;
    while i < |buf| && i < n
      invariant 0 <= i <= Cut(n, |buf|) && |b| == |buf|
      invariant b[..i] == src[..i] && b[i..] == buf[i..]
    {
      b := b[i := src[i]];
      i := i + 1;
    }
  }

  /** Compares the front of `buf` with `src`, byte by byte. */
  method SameFront(buf: seq<Byte>, n: int, src: seq<Byte>) returns (same: bool)
    requires Cut(n, |buf|) <= |src|
    ensures same <==> buf[..Cut(n, |buf|)] == src[..Cut(n, |buf|)]
  {
    var j := 0;
    while j < |buf| && j < n
      invariant 0 <= j <= Cut(n, |buf|) && buf[..j] == src[..j]
    {
      if buf[j] != src[j] {
        assert buf[..Cut(n, |buf|)][j] != src[..Cut(n, |buf|)][j];
        return false;
      }
      j := j + 1;
    }
    return true;
  }

  class CMsgMem {
    const root: array<Item>
    var cur: nat

    ghost predicate Valid()
      reads this, root
    {
      && root.Length > 0 && cur <= root.Length
      && forall i :: 0 <= i < root.Length ==> root[i].Formed()
    }

    /** The keys, the oldest first. */
    ghost function View(): (w: seq<Key>)
      requires Valid()
      reads this, root
      ensures |w| == root.Length
    {
      Queue(root[..], cur)
    }

    /** Twenty messages unless told otherwise. */
    constructor (cnt: nat := 20)
      requires cnt > 0
      ensures Valid() && fresh(root) && root.Length == cnt && View() == Zeros(cnt)
    {
      root := new Item[cnt](_ => Blank());
      cur := 0;
    }

    method SameItem(item: Item, m: Msg) returns (same: bool)
      requires item.Formed() && Whole(m)
      ensures same <==> item.View() == KeyOf(m)
    {
      if item.cseq == m.cseq && item.len == m.len && item.tagLen == m.tagLen && item.cidLen == m.cidLen {
        var ok := SameFront(item.tagBuf, m.tagLen, m.tag);
        if !ok {
          return false;
        }
        ok := SameFront(item.cidBuf, m.cidLen, m.cid);
        return ok;
      }
      return false;
    }

    method AddItem(m: Msg)
      requires Valid() && Whole(m)
      modifies this, root
      ensures Valid() && View() == old(View())[1..] + [KeyOf(m)]
    {
      hide Queue;
      if cur >= root.Length {
        QueueWraps(root[..]);
        cur := 0;
      }
      var p := root[cur];
      var cid := Overwrite(p.cidBuf, m.cidLen, m.cid);
      var tag := Overwrite(p.tagBuf, m.tagLen, m.tag);
      var item := Item(m.cseq, m.len, m.tagLen, tag, m.cidLen, cid);
      QueueReplaced(root[..], cur, item);
      root[cur] := item;
      cur := cur + 1;
    }

    /** `hasItem`: known exactly if the key is in the queue, and remembered otherwise. */
    method HasItem(m: Msg) returns (known: bool)
      requires Valid() && Whole(m)
      modifies this, root
      ensures Valid() && (known, View()) == Ask(old(View()), KeyOf(m))
    {
      hide Queue, KeyOf, Item.View;
      QueueHas(root[..], cur, KeyOf(m));
      var i := 0;
      while i < root.Length
        invariant 0 <= i <= root.Length && root[..] == old(root[..]) && cur == old(cur) && Valid()
        invariant forall j :: 0 <= j < i ==> root[j].View() != KeyOf(m)
      {
        var same := SameItem(root[i], m);
        if same {
          assert root[..][i].View() == KeyOf(m);
          return true;
        }
        i := i + 1;
      }
      AddItem(m);
      return false;
    }
  }
}
