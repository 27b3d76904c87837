/**
 * The record of recently sent messages: a double-ended queue with a maximum
 * length of 100, appended to whenever the bridge sends something, and swept
 * from the front of every entry older than 0.1 s. It is only recorded and
 * pruned; nothing reads it to suppress a message.
 */
module History {
  import opened Midi

  const Capacity: nat := 100

  /** The age, in seconds, beyond which an entry is swept. */
  const Window: real := 0.1

  datatype SentRecord = SentRecord(address: string, args: seq<int>, kind: Kind, sentAt: real)

  /** Appending to a bounded deque: when it is full, the oldest entry falls out at the front. */
  function Push(h: seq<SentRecord>, r: SentRecord): (h': seq<SentRecord>)
    requires |h| <= Capacity
    ensures |h'| == if |h| < Capacity then |h| + 1 else Capacity
    ensures h'[|h'| - 1] == r
  {
    if |h| == Capacity then h[1..] + [r] else h + [r]
  }

  /** An append keeps the newest entries: the old ones, less the oldest when full, then the new one. */
  lemma PushKeepsNewest(h: seq<SentRecord>, r: SentRecord)
    requires |h| <= Capacity
    ensures Push(h, r) == (h + [r])[|h| + 1 - |Push(h, r)|..]
  {
    if |h| == Capacity {
      assert (h + [r])[1..] == h[1..] + [r];
    }
  }

  /** Appending several entries, one after the other. */
  function PushAll(h: seq<SentRecord>, rs: seq<SentRecord>): (h': seq<SentRecord>)
    requires |h| <= Capacity
    ensures |h'| <= Capacity
    decreases |rs|
  {
    if rs == [] then h else Push(PushAll(h, rs[..|rs| - 1]), rs[|rs| - 1])
  }

  /** Appending two batches is appending their concatenation. */
  lemma {:induction false} PushAllAppend(h: seq<SentRecord>, a: seq<SentRecord>, b: seq<SentRecord>)
    requires |h| <= Capacity
    ensures PushAll(h, a + b) == PushAll(PushAll(h, a), b)
    decreases |b|
  {
    if b == [] {
      assert a + b == a;
    } else {
      assert (a + b)[..|a + b| - 1] == a + b[..|b| - 1];
      PushAllAppend(h, a, b[..|b| - 1]);
    }
  }

  /**
   * After any number of appends the deque holds the newest entries: the last
   * 100 (or all, if there are fewer) of the old entries followed by the new.
   */
  lemma {:induction false} PushAllKeepsNewest(h: seq<SentRecord>, rs: seq<SentRecord>)
    requires |h| <= Capacity
    ensures var total := |h| + |rs|;
      && |PushAll(h, rs)| == (if total < Capacity then total else Capacity)
      && PushAll(h, rs) == (h + rs)[total - |PushAll(h, rs)|..]
    decreases |rs|
  {
    if rs != [] {
      var init := rs[..|rs| - 1];
      var x := rs[|rs| - 1];
      PushAllKeepsNewest(h, init);
      var p := PushAll(h, init);
      var q := Push(p, x);
      var full := h + rs;
      assert full == (h + init) + [x];
      assert p + [x] == full[|full| - 1 - |p|..];
      PushKeepsNewest(p, x);
    }
  }

  predicate Stale(r: SentRecord, now: real) {
    now - r.sentAt > Window
  }

  /**
   * The sweep: pop from the front while the front entry is stale. The result
   * is what is left after the longest all-stale prefix.
   */
  function Sweep(h: seq<SentRecord>, now: real): (r: seq<SentRecord>)
    ensures |r| <= |h|
  {
    if h != [] && Stale(h[0], now) then Sweep(h[1..], now) else h
  }

  /**
   * What the sweep removes is a prefix of stale entries, and it stops at the
   * first entry that is not stale: the longest all-stale prefix goes.
   */
  lemma {:induction false} SweepDropsStalePrefix(h: seq<SentRecord>, now: real)
    ensures var r := Sweep(h, now);
      && r == h[|h| - |r|..]
      && (forall i :: 0 <= i < |h| - |r| ==> Stale(h[i], now))
      && (r != [] ==> !Stale(r[0], now))
  {
    if h != [] && Stale(h[0], now) {
      SweepDropsStalePrefix(h[1..], now);
      var r := Sweep(h, now);
      forall i | 0 <= i < |h| - |r| ensures Stale(h[i], now) {
        if i > 0 {
          assert h[i] == h[1..][i - 1];
        }
      }
    }
  }

  /** Entries in the order of their time stamps, as appends in real time produce them. */
  predicate Chronological(h: seq<SentRecord>) {
    forall i, j :: 0 <= i < j < |h| ==> h[i].sentAt <= h[j].sentAt
  }

  /** After a sweep of a chronological history, every entry left is within the window. */
  lemma SweepLeavesOnlyFresh(h: seq<SentRecord>, now: real)
    requires Chronological(h)
    ensures forall i :: 0 <= i < |Sweep(h, now)| ==> !Stale(Sweep(h, now)[i], now)
  {
    var r := Sweep(h, now);
    SweepDropsStalePrefix(h, now);
    if r != [] {
      var off := |h| - |r|;
      forall i | 0 <= i < |r| ensures !Stale(r[i], now) {
        assert r[i] == h[off + i] && r[0] == h[off];
      }
    }
  }

  /** Sweeping twice at the same moment removes nothing more. */
  lemma {:induction false} SweepIdempotent(h: seq<SentRecord>, now: real)
    ensures Sweep(Sweep(h, now), now) == Sweep(h, now)
  {
    SweepDropsStalePrefix(h, now);
  }

  /** A sweep never makes the history longer, so it keeps the bound. */
  lemma SweepKeepsBound(h: seq<SentRecord>, now: real)
    requires |h| <= Capacity
    ensures |Sweep(h, now)| <= Capacity
  {
  }

  /** Every entry was sent within [lo, hi]. */
  predicate SentBetween(h: seq<SentRecord>, lo: real, hi: real) {
    forall k :: 0 <= k < |h| ==> lo <= h[k].sentAt <= hi
  }

  lemma AppendBetween(h: seq<SentRecord>, rs: seq<SentRecord>, lo: real, hi: real, hi': real)
    requires SentBetween(h, lo, hi) && hi <= hi' && SentBetween(rs, lo, hi')
    ensures SentBetween(h + rs, lo, hi')
  {
    var full := h + rs;
    forall k | 0 <= k < |full| ensures lo <= full[k].sentAt <= hi' {
      if k < |h| {
        assert full[k] == h[k];
      } else {
        assert full[k] == rs[k - |h|];
      }
    }
  }

  lemma AppendChronological(h: seq<SentRecord>, r: SentRecord)
    requires Chronological(h)
    requires h != [] ==> h[|h| - 1].sentAt <= r.sentAt
    ensures Chronological(h + [r])
  {
    var full := h + [r];
    forall i, j | 0 <= i < j < |full| ensures full[i].sentAt <= full[j].sentAt {
      if j == |h| && i < |h| {
        assert h[i].sentAt <= h[|h| - 1].sentAt;
      }
    }
  }

  lemma AppendAfter(h: seq<SentRecord>, r: SentRecord, lo: real, hi: real)
    requires Chronological(h) && SentBetween(h, lo, hi) && hi <= r.sentAt
    ensures Chronological(h + [r])
  {
    if h != [] {
      assert h[|h| - 1].sentAt <= hi;
    }
    AppendChronological(h, r);
  }

  /** Appending an entry no older than the newest keeps the history chronological. */
  lemma PushKeepsChronological(h: seq<SentRecord>, r: SentRecord)
    requires |h| <= Capacity
    requires Chronological(h)
    requires h != [] ==> h[|h| - 1].sentAt <= r.sentAt
    ensures Chronological(Push(h, r))
  {
    var full := h + [r];
    AppendChronological(h, r);
    PushKeepsNewest(h, r);
    SuffixChronological(full, |h| + 1 - |Push(h, r)|);
  }

  lemma SuffixChronological(h: seq<SentRecord>, off: nat)
    requires off <= |h| && Chronological(h)
    ensures Chronological(h[off..])
  {
    var t := h[off..];
    forall i, j | 0 <= i < j < |t| ensures t[i].sentAt <= t[j].sentAt {
      assert t[i] == h[off + i] && t[j] == h[off + j];
    }
  }

  /**
   * Entries sent at t, t + 0.05 and t + 0.12, swept at t + 0.15: the first is
   * 0.15 s old and goes; the second is exactly 0.1 s old, which is not more
   * than the window, so it stays with the third.
   */
  lemma SweepExample(t: real, a: SentRecord, b: SentRecord, c: SentRecord)
    requires a.sentAt == t && b.sentAt == t + 0.05 && c.sentAt == t + 0.12
    ensures Sweep([a, b, c], t + 0.15) == [b, c]
  {
    assert [a, b, c][1..] == [b, c];
  }
}
