/**
 * The bounded in-memory rate limiter, against an unbounded fixed-window counter
 * that never forgets.
 */
module RateLimiter {
  import opened Picks
  import opened Store

  /** One key's window: how many requests it has seen, and when it ends. */
  datatype Entry = Entry(count: nat, resetAt: int)

  predicate Live(e: Entry, now: int) {
    now < e.resetAt
  }

  // ---- the ideal counter ----

  function Stepped(m: map<Id, Entry>, key: Id, now: int, window: int): Entry {
    if key in m && now < m[key].resetAt then m[key].(count := m[key].count + 1) else Entry(1, now + window)
  }

  function Retry(e: Entry, limit: int, now: int): int {
    if e.count <= limit then 0 else e.resetAt - now
  }

  datatype Request = Request(key: Id, at: int)

  /** The ideal counter's state after some requests, starting from nothing. */
  function After(requests: seq<Request>, window: int): map<Id, Entry> {
    if requests == [] then map[]
    else
      var last, m := requests[|requests| - 1], After(requests[..|requests| - 1], window);
      m[last.key := Stepped(m, last.key, last.at, window)]
  }

  /** The entry that answers the `i`-th request. */
  function Answer(requests: seq<Request>, i: nat, window: int): Entry
    requires i < |requests|
  {
    Stepped(After(requests[..i], window), requests[i].key, requests[i].at, window)
  }

  /** How many requests of a key were allowed in its window ending at `resetAt`. */
  function AllowedIn(requests: seq<Request>, key: Id, resetAt: int, limit: int, window: int): nat {
    if requests == [] then 0
    else
      var n := |requests| - 1;
      var e := Answer(requests, n, window);
      AllowedIn(requests[..n], key, resetAt, limit, window)
      + if requests[n].key == key && e.resetAt == resetAt && e.count <= limit then 1 else 0
  }

  predicate InOrder(requests: seq<Request>) {
    forall i, j | 0 <= i < j < |requests| :: requests[i].at <= requests[j].at
  }

  /** What the counter remembers about the windows of a key. */
  predicate Accounts(requests: seq<Request>, key: Id, resetAt: int, limit: int, window: int) {
    var m, allowed := After(requests, window), AllowedIn(requests, key, resetAt, limit, window);
    && allowed <= limit
    && (key in m && m[key].resetAt == resetAt ==> allowed == if m[key].count <= limit then m[key].count else limit)
    && (key in m && m[key].resetAt < resetAt ==> allowed == 0)
    && (key !in m ==> allowed == 0)
  }

  /** The ideal counter allows at most `limit` requests per key and window. */
  lemma {:induction false} WindowBudget(requests: seq<Request>, key: Id, resetAt: int, limit: int, window: int)
    requires limit >= 0 && window > 0 && InOrder(requests)
    ensures Accounts(requests, key, resetAt, limit, window)
  {
    if requests != [] {
      var n := |requests| - 1;
      var earlier, last := requests[..n], requests[n];
      WindowBudget(earlier, key, resetAt, limit, window);
      var m := After(earlier, window);
      assert After(requests, window) == m[last.key := Stepped(m, last.key, last.at, window)];
      assert Answer(requests, n, window) == Stepped(m, last.key, last.at, window);
    }
  }

  // ---- the bounded limiter ----

  /** A map holds exactly the ideal counter's live entries, next to expired ones. */
  ghost predicate Tracks(entries: map<Id, Entry>, ideal: map<Id, Entry>, now: int) {
    && (forall k | k in ideal && Live(ideal[k], now) :: k in entries && entries[k] == ideal[k])
    && (forall k | k in entries && Live(entries[k], now) :: k in ideal && ideal[k] == entries[k])
  }

  /** Tracking survives the passage of time. */
  lemma StillTracks(entries: map<Id, Entry>, ideal: map<Id, Entry>, now: int, later: int)
    requires Tracks(entries, ideal, now) && now <= later
    ensures Tracks(entries, ideal, later)
  {
  }

  /** The other keys whose window is still open. */
  function LiveOthers(entries: map<Id, Entry>, key: Id, now: int): set<Id> {
    set k | k in entries && k != key && Live(entries[k], now)
  }

  class Limiter {
    var entries: map<Id, Entry>
    const limit: nat
    const capacity: nat
    const window: int
    var nextCleanup: int
    /** What an unbounded counter would hold after the same requests. */
    ghost var ideal: map<Id, Entry>

    constructor (limit: nat, capacity: nat, window: int)
      requires capacity > 0 && window > 0
      ensures Valid() && entries == map[] && ideal == map[]
      ensures this.limit == limit && this.capacity == capacity && this.window == window
    {
      this.limit, this.capacity, this.window := limit, capacity, window;
      entries, nextCleanup, ideal := map[], 0, map[];
    }

    ghost predicate Valid()
      reads this
    {
      capacity > 0 && window > 0 && |entries| <= capacity && forall k | k in entries :: entries[k].resetAt > 0
    }

    /** Removes the expired entries. */
    method Cleanup(now: int)
      requires Valid()
      modifies this`entries
      ensures Valid()
      ensures forall k :: k in entries <==> k in old(entries) && Live(old(entries)[k], now)
      ensures forall k | k in entries :: entries[k] == old(entries)[k]
    {
      var todo := entries.Keys;
      while todo != {}
        invariant todo <= entries.Keys <= old(entries).Keys
        invariant forall k | k in old(entries) :: k in entries <==> k in todo || Live(old(entries)[k], now)
        invariant forall k | k in entries :: entries[k] == old(entries)[k]
        decreases todo
      {
        var k := PickAny(todo);
        if !Live(entries[k], now) {
          entries := entries - {k};
        }
        todo := todo - {k};
      }
      Fewer(entries, old(entries));
    }

    /** Removes the entry whose window ends first. */
    method EvictEarliest() returns (ghost victim: Id)
      requires Valid() && entries != map[]
      modifies this`entries
      ensures Valid() && victim in old(entries) && entries == old(entries) - {victim}
      ensures forall k | k in old(entries) :: old(entries)[victim].resetAt <= old(entries)[k].resetAt
      ensures |entries| == |old(entries)| - 1
    {
      var todo := entries.Keys;
      var oldest, earliest := 0, 0;
      while todo != {}
        invariant entries == old(entries) && todo <= entries.Keys
        invariant earliest == 0 <==> todo == entries.Keys
        invariant earliest != 0 ==> oldest in entries && entries[oldest].resetAt == earliest
        invariant earliest != 0 ==> forall k | k in entries && k !in todo :: earliest <= entries[k].resetAt
        decreases todo
      {
        var k := PickAny(todo);
        if earliest == 0 || entries[k].resetAt < earliest {
          oldest, earliest := k, entries[k].resetAt;
        }
        todo := todo - {k};
        assert k in entries.Keys && k !in todo;
      }
      victim := oldest;
      OneFewer(entries, oldest);
      Fewer(entries - {oldest}, entries);
      entries := entries - {oldest};
    }

    /** Makes room for a key without an open window: an expired entry goes, unless `capacity` other windows are open. */
    method MakeRoom(key: Id, now: int)
      requires Valid() && !(key in entries && Live(entries[key], now))
      modifies this`entries
      ensures Valid() && |entries| < capacity
      ensures !(key in entries && Live(entries[key], now))
      ensures |LiveOthers(old(entries), key, now)| < capacity && Tracks(old(entries), ideal, now) ==>
          Tracks(entries, ideal, now)
    {
      if |entries| >= capacity {
        ghost var full := entries;
        var victim := EvictEarliest();
        if |LiveOthers(full, key, now)| < capacity {
          SomeExpired(full, key, now, capacity);
          DroppingExpired(full, entries, ideal, key, now);
        }
      }
    }

    /**
     * `Allow`. The map never outgrows its capacity. As long as it has tracked
     * the ideal counter and fewer than `capacity` other keys are live, the
     * decision and the retry delay are the ideal ones and it keeps tracking:
     * cleanup and eviction then only ever remove expired entries.
     */
    method Allow(key: Id, now: int) returns (allowed: bool, retryAfter: int)
      requires Valid() && now > 0
      modifies this
      ensures Valid()
      ensures ideal == old(ideal)[key := Stepped(old(ideal), key, now, window)]
      ensures allowed ==> retryAfter == 0
      ensures Tracks(old(entries), old(ideal), now) && |LiveOthers(old(entries), key, now)| < capacity ==>
                && Tracks(entries, ideal, now)
                && (allowed <==> ideal[key].count <= limit)
                && retryAfter == Retry(ideal[key], limit, now)
    {
      ghost var first := entries;
      if nextCleanup == 0 || now >= nextCleanup {
        Cleanup(now);
        nextCleanup := now + window;
      }
      DroppingExpired(first, entries, ideal, key, now);
      hide Tracks, LiveOthers;
      var entry := Entry(0, 0);
      if key in entries && Live(entries[key], now) {
        entry := entries[key];
      } else {
        MakeRoom(key, now);
        entry := Entry(0, now + window);
      }
      entry := entry.(count := entry.count + 1);
      assert entry == Stepped(entries, key, now, window) && entry.resetAt > 0;
      hide Stepped, Live;
      if Tracks(entries, ideal, now) {
        StepTracks(entries, ideal, key, now, window);
      }
      OneMore(entries, key, entry);
      ideal := ideal[key := Stepped(ideal, key, now, window)];
      entries := entries[key := entry];
      allowed := entry.count <= limit;
      retryAfter := if allowed then 0 else entry.resetAt - now;
    }
  }

  // ---- a whole sequence of requests ----

  datatype Reply = Reply(allowed: bool, retryAfter: int)

  /** When every request comes, fewer than `capacity` other keys have an open window. */
  predicate Roomy(requests: seq<Request>, capacity: nat, window: int) {
    forall i | 0 <= i < |requests| ::
      |LiveOthers(After(requests[..i], window), requests[i].key, requests[i].at)| < capacity
  }

  /** A reply is the ideal counter's: its decision and its delay. */
  predicate IdealReply(requests: seq<Request>, i: nat, r: Reply, limit: nat, window: int)
    requires i < |requests|
  {
    var e := Answer(requests, i, window);
    r == if e.count <= limit then Reply(true, 0) else Reply(false, e.resetAt - requests[i].at)
  }

  /** How many requests of a key the replies let through in its window ending at `resetAt`. */
  function GrantedIn(requests: seq<Request>, replies: seq<Reply>, key: Id, resetAt: int, window: int): nat
    requires |requests| == |replies|
  {
    if requests == [] then 0
    else
      var n := |requests| - 1;
      GrantedIn(requests[..n], replies[..n], key, resetAt, window)
      + if requests[n].key == key && Answer(requests, n, window).resetAt == resetAt && replies[n].allowed then 1 else 0
  }

  /**
   * A bounded limiter serving any sequence of requests in nondecreasing time.
   * The map never outgrows its capacity, and while fewer than `capacity` other
   * keys are live every decision and every delay is the unbounded counter's; so
   * the bounded limiter, too, lets at most `limit` requests of a key through
   * per window.
   */
  method Serve(l: Limiter, requests: seq<Request>) returns (replies: seq<Reply>)
    requires l.Valid() && l.entries == map[] && l.ideal == map[]
    requires InOrder(requests) && forall i | 0 <= i < |requests| :: requests[i].at > 0
    modifies l
    ensures l.Valid() && |l.entries| <= l.capacity && |replies| == |requests|
    ensures Roomy(requests, l.capacity, l.window) ==>
              forall i | 0 <= i < |requests| :: IdealReply(requests, i, replies[i], l.limit, l.window)
    ensures Roomy(requests, l.capacity, l.window) ==>
              forall key, resetAt :: GrantedIn(requests, replies, key, resetAt, l.window) <= l.limit
  {
    hide Tracks, LiveOthers, IdealReply, After, GrantedIn;
    replies := [];
    ghost var last, roomy := 0, Roomy(requests, l.capacity, l.window);
    StartsTracking(requests[..0], l.window);
    for n := 0 to |requests|
      invariant l.Valid() && |replies| == n && (last == 0 || (n > 0 && last == requests[n - 1].at))
      invariant l.ideal == After(requests[..n], l.window)
      invariant roomy ==> Tracks(l.entries, l.ideal, last)
      invariant roomy ==> forall i | 0 <= i < n :: IdealReply(requests, i, replies[i], l.limit, l.window)
    {
      var reply := ServeNext(l, requests, n, last);
      replies := replies + [reply];
      last := requests[n].at;
    }
    if roomy {
      forall key, resetAt ensures GrantedIn(requests, replies, key, resetAt, l.window) <= l.limit {
        GrantedIsAllowed(requests, replies, key, resetAt, l.limit, l.window);
        WindowBudget(requests, key, resetAt, l.limit, l.window);
      }
    }
  }

  /** One request of the sequence: tracking is carried from the previous call's time to this one's. */
  method ServeNext(l: Limiter, requests: seq<Request>, n: nat, ghost last: int) returns (r: Reply)
    requires l.Valid() && n < |requests| && requests[n].at > 0 && last <= requests[n].at
    requires l.ideal == After(requests[..n], l.window)
    modifies l
    ensures l.Valid() && l.ideal == After(requests[..n + 1], l.window)
    ensures old(Tracks(l.entries, l.ideal, last))
            && |LiveOthers(After(requests[..n], l.window), requests[n].key, requests[n].at)| < l.capacity ==>
              Tracks(l.entries, l.ideal, requests[n].at) && IdealReply(requests, n, r, l.limit, l.window)
  {
    hide Tracks, LiveOthers, Stepped;
    var q := requests[n];
    if Tracks(l.entries, l.ideal, last) {
      StillTracks(l.entries, l.ideal, last, q.at);
      SameLiveOthers(l.entries, l.ideal, q.key, q.at);
    }
    assert requests[..n + 1][..n] == requests[..n];
    var allowed, retryAfter := l.Allow(q.key, q.at);
    return Reply(allowed, retryAfter);
  }

  lemma StartsTracking(none: seq<Request>, window: int)
    requires none == []
    ensures After(none, window) == map[] && Tracks(map[], map[], 0)
  {
  }

  lemma SameLiveOthers(entries: map<Id, Entry>, ideal: map<Id, Entry>, key: Id, now: int)
    requires Tracks(entries, ideal, now)
    ensures LiveOthers(entries, key, now) == LiveOthers(ideal, key, now)
  {
  }

  lemma PrefixAnswer(requests: seq<Request>, n: nat, i: nat, window: int)
    requires i < n <= |requests|
    ensures Answer(requests[..n], i, window) == Answer(requests, i, window)
  {
    assert requests[..n][..i] == requests[..i];
  }

  /** Ideal replies let through exactly what the ideal counter allows. */
  lemma {:induction false} GrantedIsAllowed(
    requests: seq<Request>, replies: seq<Reply>, key: Id, resetAt: int, limit: nat, window: int)
    requires |requests| == |replies|
    requires forall i | 0 <= i < |requests| :: IdealReply(requests, i, replies[i], limit, window)
    ensures GrantedIn(requests, replies, key, resetAt, window) == AllowedIn(requests, key, resetAt, limit, window)
  {
    hide Answer, Retry;
    if requests != [] {
      var n := |requests| - 1;
      forall i | 0 <= i < n ensures IdealReply(requests[..n], i, replies[..n][i], limit, window) {
        PrefixAnswer(requests, n, i, window);
        assert IdealReply(requests, i, replies[i], limit, window);
      }
      GrantedIsAllowed(requests[..n], replies[..n], key, resetAt, limit, window);
      assert IdealReply(requests, n, replies[n], limit, window);
    }
  }

  lemma Fewer(part: map<Id, Entry>, whole: map<Id, Entry>)
    requires part.Keys <= whole.Keys
    ensures |part| <= |whole|
  {
    KeysCount(part);
    KeysCount(whole);
    SubsetSize(part.Keys, whole.Keys);
  }

  lemma OneFewer(m: map<Id, Entry>, k: Id)
    requires k in m
    ensures |m - {k}| == |m| - 1
  {
    KeysCount(m);
    KeysCount(m - {k});
    assert (m - {k}).Keys == m.Keys - {k};
  }

  lemma OneMore(m: map<Id, Entry>, k: Id, e: Entry)
    ensures |m[k := e]| == if k in m then |m| else |m| + 1
  {
    KeysCount(m);
    KeysCount(m[k := e]);
    assert m[k := e].Keys == m.Keys + {k};
  }

  /**
   * A full map with fewer than `capacity` live others, and no live window for the key itself,
   * holds an expired entry.
   */
  lemma SomeExpired(m: map<Id, Entry>, key: Id, now: int, capacity: nat)
    requires |m| >= capacity > |LiveOthers(m, key, now)|
    requires !(key in m && Live(m[key], now))
    ensures exists k :: k in m && !Live(m[k], now)
  {
    var expired := set k | k in m && !Live(m[k], now);
    KeysCount(m);
    assert m.Keys == LiveOthers(m, key, now) + expired;
    UnionSize(LiveOthers(m, key, now), expired);
    var k := PickOne(expired);
    assert k in m && !Live(m[k], now);
  }

  /** Dropping expired entries is invisible. */
  lemma DroppingExpired(before: map<Id, Entry>, after: map<Id, Entry>, ideal: map<Id, Entry>, key: Id, now: int)
    requires forall k | k in after :: k in before && after[k] == before[k]
    requires forall k | k in before && Live(before[k], now) :: k in after
    ensures LiveOthers(after, key, now) == LiveOthers(before, key, now)
    ensures Tracks(before, ideal, now) ==> Tracks(after, ideal, now)
    ensures key in after && Live(after[key], now) <==> key in before && Live(before[key], now)
  {
  }

  /** One counted request on a map that tracks the ideal counter. */
  lemma StepTracks(entries: map<Id, Entry>, ideal: map<Id, Entry>, key: Id, now: int, window: int)
    requires Tracks(entries, ideal, now) && window > 0
    ensures Stepped(entries, key, now, window) == Stepped(ideal, key, now, window)
    ensures Tracks(entries[key := Stepped(entries, key, now, window)],
                   ideal[key := Stepped(ideal, key, now, window)], now)
  {
  }
}
