/** internal/http/ratelimit.go: a fixed-window counter per client, and the client's key. */
module RateLimiter {
  import opened Common

  /** The limiter's mutable part. */
  datatype Window = Window(counts: map<string, nat>, resetsAt: Time)

  /** One call: its key and the two clock readings; the second is taken only on a reset. */
  datatype Call = Call(key: string, now: Time, later: Time)

  function Count(counts: map<string, nat>, key: string): nat {
    if key in counts then counts[key] else 0
  }

  function Rolled(w: Window, window: Time, c: Call): Window {
    if c.now > w.resetsAt then Window(map[], c.later + window) else w
  }

  function After(w: Window, window: Time, c: Call): Window {
    var r := Rolled(w, window, c);
    r.(counts := r.counts[c.key := Count(r.counts, c.key) + 1])
  }

  class RateLimiter {
    var counts: map<string, nat>
    var resetsAt: Time
    const window: Time
    const limit: nat

    function State(): Window
      reads this
    {
      Window(counts, resetsAt)
    }

    constructor (limit: nat, window: Time, now: Time)
      ensures this.limit == limit && this.window == window
      ensures State() == Window(map[], now + window)
    {
      this.limit, this.window := limit, window;
      counts, resetsAt := map[], now + window;
    }

    method Allow(key: string, now: Time, later: Time) returns (ok: bool)
      modifies this
      ensures State() == After(old(State()), window, Call(key, now, later))
      ensures ok <==> Count(counts, key) <= limit
    {
      if now > resetsAt {
        counts := map[];
        resetsAt := later + window;
      }
      counts := counts[key := Count(counts, key) + 1];
      ok := counts[key] <= limit;
    }
  }

  // ---- Sequences of calls ----

  function Exec(w: Window, window: Time, calls: seq<Call>): Window {
    if calls == [] then w
    else After(Exec(w, window, calls[..|calls| - 1]), window, calls[|calls| - 1])
  }

  predicate Resets(w: Window, window: Time, calls: seq<Call>, k: nat)
    requires k < |calls|
  {
    calls[k].now > Exec(w, window, calls[..k]).resetsAt
  }

  predicate Allowed(w: Window, window: Time, limit: nat, calls: seq<Call>, k: nat)
    requires k < |calls|
  {
    Count(Exec(w, window, calls[..k + 1]).counts, calls[k].key) <= limit
  }

  /** A clock that never runs backwards, the second reading of a call included. */
  ghost predicate Clocked(calls: seq<Call>) {
    && (forall k | 0 <= k < |calls| :: calls[k].now <= calls[k].later)
    && (forall j, k | 0 <= j < k < |calls| :: calls[j].later <= calls[k].now)
  }

  /** How many of the calls key was allowed in the closed span [from, to]. */
  function AllowedWithin(w: Window, window: Time, limit: nat, calls: seq<Call>, key: string, from: Time, to: Time): nat
  {
    if calls == [] then 0
    else
      var n := |calls| - 1;
      AllowedWithin(w, window, limit, calls[..n], key, from, to)
      + if calls[n].key == key && from <= calls[n].now <= to && Allowed(w, window, limit, calls, n) then 1 else 0
  }

  function Min(a: nat, b: nat): nat { if a <= b then a else b }

  /** How far into the span the calls so far have come; see SpanPhase. */
  ghost predicate Phase(w: Window, limit: nat, key: string, seen: nat, from: Time, window: Time, last: Time) {
    var inEpoch := Min(Count(w.counts, key), limit);
    && (last < from ==> seen == 0)
    && (|| seen <= inEpoch                                                    // one epoch met the span
        || (seen <= limit + inEpoch && from + window <= w.resetsAt)           // two did; the next starts after it
        || (seen <= 2 * limit && from + window < last))                       // the span is over
  }

  lemma {:induction false} SpanPhase(w: Window, window: Time, limit: nat, calls: seq<Call>, key: string, from: Time)
    requires Clocked(calls) && calls != []
    ensures Phase(Exec(w, window, calls), limit, key,
      AllowedWithin(w, window, limit, calls, key, from, from + window), from, window, calls[|calls| - 1].now)
  {
    var n := |calls| - 1;
    assert calls[..n + 1] == calls;
    if n == 0 {
      assert calls[..0] == [];
    } else {
      SpanPhase(w, window, limit, calls[..n], key, from);
    }
  }

  /** Whatever the calls, a key is allowed at most twice the limit in any closed span as long as the window. */
  lemma AtMostTwiceTheLimit(w: Window, window: Time, limit: nat, calls: seq<Call>, key: string, from: Time)
    requires Clocked(calls)
    ensures AllowedWithin(w, window, limit, calls, key, from, from + window) <= 2 * limit
  {
    if calls != [] { SpanPhase(w, window, limit, calls, key, from); }
  }

  // ---- One epoch ----

  /** How many of calls a, ..., b-1 have this key. */
  function Mentions(calls: seq<Call>, key: string, a: nat, b: nat): nat
    requires a <= b <= |calls|
  {
    if a == b then 0 else Mentions(calls, key, a, b - 1) + if calls[b - 1].key == key then 1 else 0
  }

  /** A reset starts an epoch, and so does the first call on a new limiter. */
  ghost predicate EpochStarts(w: Window, window: Time, calls: seq<Call>, a: nat)
    requires a < |calls|
  {
    Resets(w, window, calls, a) || (a == 0 && w.counts == map[])
  }

  /**
   * From the start of an epoch on and until the next one, a key is let through exactly as long as the epoch has seen
   * it no more than `limit` times: the first `limit` calls pass and all others are refused.
   */
  lemma {:induction false} EpochAllowsTheFirstCalls(w: Window, window: Time, limit: nat, calls: seq<Call>,
                                                    a: nat, b: nat)
    requires a <= b < |calls| && EpochStarts(w, window, calls, a)
    requires forall k | a < k <= b :: !Resets(w, window, calls, k)
    ensures Allowed(w, window, limit, calls, b) <==> Mentions(calls, calls[b].key, a, b + 1) <= limit
  {
    EpochCounts(w, window, calls, a, b, calls[b].key);
  }

  lemma {:induction false} EpochCounts(w: Window, window: Time, calls: seq<Call>, a: nat, b: nat, key: string)
    requires a <= b < |calls| && EpochStarts(w, window, calls, a)
    requires forall k | a < k <= b :: !Resets(w, window, calls, k)
    ensures Count(Exec(w, window, calls[..b + 1]).counts, key) == Mentions(calls, key, a, b + 1)
  {
    assert calls[..b + 1][..b] == calls[..b];
    if a < b {
      EpochCounts(w, window, calls, a, b - 1, key);
      assert !Resets(w, window, calls, b);
    } else {
      assert Mentions(calls, key, a, a) == 0;
      assert Rolled(Exec(w, window, calls[..a]), window, calls[a]).counts == map[];
    }
  }

  lemma {:induction false} WindowHolds(w: Window, window: Time, calls: seq<Call>, a: nat, b: nat)
    requires a < b <= |calls| && Resets(w, window, calls, a)
    requires forall k | a < k < b :: !Resets(w, window, calls, k)
    ensures Exec(w, window, calls[..b]).resetsAt == calls[a].later + window
  {
    assert calls[..b][..b - 1] == calls[..b - 1];
    if a + 1 < b {
      WindowHolds(w, window, calls, a, b - 1);
      assert !Resets(w, window, calls, b - 1);
    }
  }

  /** After a reset, the next one comes with the first call later than one window after its second clock reading. */
  lemma EpochLastsOneWindow(w: Window, window: Time, calls: seq<Call>, a: nat, b: nat)
    requires a < b < |calls| && Resets(w, window, calls, a)
    requires forall k | a < k < b :: !Resets(w, window, calls, k)
    ensures Resets(w, window, calls, b) <==> calls[a].later + window < calls[b].now
  {
    WindowHolds(w, window, calls, a, b);
  }

  // ---- The bound is met ----

  function Repeated(n: nat, at: Time): seq<Call> {
    seq(n, _ => Call("k", at, at))
  }

  /** `limit` calls just as the window ends, and i right after it. */
  function Burst(limit: nat, i: nat, end: Time): seq<Call> {
    Repeated(limit, end) + Repeated(i, end + 1)
  }

  lemma OneMoreCall(w: Window, window: Time, limit: nat, calls: seq<Call>, c: Call, from: Time, to: Time)
    requires from <= c.now <= to
    ensures var after := After(Exec(w, window, calls), window, c);
      && Exec(w, window, calls + [c]) == after
      && AllowedWithin(w, window, limit, calls + [c], c.key, from, to)
         == AllowedWithin(w, window, limit, calls, c.key, from, to)
            + if Count(after.counts, c.key) <= limit then 1 else 0
  {
    var all := calls + [c];
    assert all[..|calls|] == calls && all[..|calls| + 1] == all;
  }

  lemma {:induction false} FirstHalf(window: Time, limit: nat, end: Time, i: nat)
    requires window >= 1 && i <= limit
    ensures var w, calls := Window(map[], end), Repeated(i, end);
      && Exec(w, window, calls).resetsAt == end && Count(Exec(w, window, calls).counts, "k") == i
      && AllowedWithin(w, window, limit, calls, "k", end, end + window) == i
  {
    if i > 0 {
      var calls := Repeated(i, end);
      assert calls[..i - 1] == Repeated(i - 1, end) && calls[..i] == calls;
      FirstHalf(window, limit, end, i - 1);
    }
  }

  lemma {:induction false} SecondHalf(window: Time, limit: nat, end: Time, i: nat)
    requires window >= 1 && i <= limit
    ensures var w, calls := Window(map[], end), Burst(limit, i, end);
      && (i > 0 ==> Exec(w, window, calls).resetsAt == end + 1 + window)
      && (i > 0 ==> Count(Exec(w, window, calls).counts, "k") == i)
      && AllowedWithin(w, window, limit, calls, "k", end, end + window) == limit + i
  {
    FirstHalf(window, limit, end, limit);
    var calls := Burst(limit, i, end);
    if i == 0 {
      assert calls == Repeated(limit, end);
    } else {
      var n := |calls| - 1;
      var before, c := Burst(limit, i - 1, end), Call("k", end + 1, end + 1);
      assert calls == before + [c];
      SecondHalf(window, limit, end, i - 1);
      if i == 1 { assert before == Repeated(limit, end); }
      OneMoreCall(Window(map[], end), window, limit, before, c, end, end + window);
    }
  }

  /** For every limit: `limit` calls just as the window ends and `limit` right after it all pass. */
  lemma TwiceTheLimitIsReached(window: Time, limit: nat, end: Time)
    requires window >= 1
    ensures var calls := Burst(limit, limit, end);
      Clocked(calls) && AllowedWithin(Window(map[], end), window, limit, calls, "k", end, end + window) == 2 * limit
  {
    SecondHalf(window, limit, end, limit);
  }

  // ---- clientKey and trimSpace ----

  predicate Blank(c: char) { c == ' ' || c == '\t' }

  ghost predicate Trims(s: string, t: string, a: nat, b: nat) {
    && a <= b <= |s| && t == s[a..b]
    && forall k | 0 <= k < |s| :: k < a || b <= k ==> Blank(s[k])
  }

  /** t is s without the blanks around it. */
  ghost predicate IsTrimmed(s: string, t: string) {
    && (exists a, b :: Trims(s, t, a, b))
    && (t != [] ==> !Blank(t[0]) && !Blank(t[|t| - 1]))
  }

  method TrimSpace(s: string) returns (t: string)
    ensures IsTrimmed(s, t)
  {
    t := s;
    ghost var a: nat, b: nat := 0, |s|;
    while |t| > 0 && (t[0] == ' ' || t[0] == '\t')
      invariant b == |s| && Trims(s, t, a, b)
      decreases |t|
    {
      t := t[1..];
      a := a + 1;
    }
    while |t| > 0 && (t[|t| - 1] == ' ' || t[|t| - 1] == '\t')
      invariant Trims(s, t, a, b)
      invariant |t| > 0 ==> !Blank(t[0])
      decreases |t|
    {
      t := t[..|t| - 1];
      b := b - 1;
    }
  }

  ghost predicate EntryAt(s: string, e: string, i: nat) {
    i <= |s| && s[i..] == e && (i == 0 || s[i - 1] == ',')
  }

  /** e is what follows the last comma of s, or all of s when it has none. */
  ghost predicate IsLastEntry(s: string, e: string) {
    ',' !in e && exists i :: EntryAt(s, e, i)
  }

  /** The key behind a trusted proxy whose X-Forwarded-For is not empty; otherwise the peer's address decides. */
  method ClientKey(trustProxy: bool, forwardedFor: string, remoteHost: string) returns (key: string)
    ensures trustProxy && forwardedFor != "" ==> exists e :: IsLastEntry(forwardedFor, e) && IsTrimmed(e, key)
    ensures !(trustProxy && forwardedFor != "") ==> key == remoteHost
  {
    if trustProxy {
      if forwardedFor != "" {
        var i := |forwardedFor| - 1;
        while i >= 0
          invariant -1 <= i < |forwardedFor|
          invariant ',' !in forwardedFor[i + 1..]
        {
          if forwardedFor[i] == ',' {
            key := TrimSpace(forwardedFor[i + 1..]);
            assert EntryAt(forwardedFor, forwardedFor[i + 1..], i + 1);
            return;
          }
          i := i - 1;
        }
        key := TrimSpace(forwardedFor);
        assert EntryAt(forwardedFor, forwardedFor, 0);
        return;
      }
    }
    key := remoteHost;
  }

  /** An entry without commas begins no earlier than any other. */
  lemma EntryBegins(s: string, e: string, e': string, i: nat, j: nat)
    requires EntryAt(s, e, i) && EntryAt(s, e', j) && ',' !in e
    ensures j <= i
  {
    assert forall k | i <= k < |s| :: s[k] == e[k - i];
  }

  /** Entry and trimming are both unambiguous, so the key is a function of the header. */
  lemma LastEntryIsUnique(s: string, e: string, e': string)
    requires IsLastEntry(s, e) && IsLastEntry(s, e')
    ensures e == e'
  {
    var i :| EntryAt(s, e, i);
    var j :| EntryAt(s, e', j);
    EntryBegins(s, e, e', i, j);
    EntryBegins(s, e', e, j, i);
  }

  lemma TrimBounds(s: string, t: string, t': string, a: nat, b: nat, c: nat, d: nat)
    requires Trims(s, t, a, b) && Trims(s, t', c, d)
    requires t != [] && !Blank(t[0]) && !Blank(t[|t| - 1])
    ensures c <= a && b <= d
  {
    assert t[0] == s[a] && t[|t| - 1] == s[b - 1];
  }

  lemma TrimmedIsUnique(s: string, t: string, t': string)
    requires IsTrimmed(s, t) && IsTrimmed(s, t')
    ensures t == t'
  {
    var a, b :| Trims(s, t, a, b);
    var c, d :| Trims(s, t', c, d);
    if t != [] { TrimBounds(s, t, t', a, b, c, d); }
    if t' != [] { TrimBounds(s, t', t, c, d, a, b); }
  }
}
