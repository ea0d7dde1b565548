/** What it means to have written a stretch of a buffer. */
module Buffers {
  /** `now` is `was` with `ys` written from `at` on. */
  ghost predicate Wrote<T>(now: seq<T>, was: seq<T>, at: nat, ys: seq<T>) {
    && |now| == |was| && at + |ys| <= |now|
    && forall k :: 0 <= k < |now| ==> now[k] == (if at <= k < at + |ys| then ys[k - at] else was[k])
  }

  lemma WroteMore<T>(a: seq<T>, b: seq<T>, c: seq<T>, at: nat, ys: seq<T>, zs: seq<T>)
    requires Wrote(b, a, at, ys) && Wrote(c, b, at + |ys|, zs)
    ensures Wrote(c, a, at, ys + zs)
  {
  }

  /** One more element written behind a stretch. */
  lemma WroteOne<T>(a: seq<T>, b: seq<T>, at: nat, ys: seq<T>, y: T)
    requires Wrote(b, a, at, ys) && at + |ys| < |a|
    ensures Wrote(b[at + |ys| := y], a, at, ys + [y])
  {
  }
}
