/**
 * The Postgres-backed rate limiter (lib/security/rateLimit.ts), for checks that
 * run one after another. Times are microseconds, windows are seconds. Every
 * check prunes the events of ALL buckets with the window of the current caller,
 * which is what the exact condition of `LimitHoldsExactly` is about.
 */
module RateLimit {
  import opened Common

  datatype Event = Event(bucket: string, at: int)
  /** A check, with the database clock at its DELETE, its SELECT and its INSERT. */
  datatype Request = Request(bucket: string, limit: int, window: int, pruned: int, counted: int, at: int)

  const SECOND := 1_000_000

  function Pruned(events: seq<Event>, since: int): seq<Event> {
    if events == [] then []
    else
      var e := events[|events| - 1];
      Pruned(events[..|events| - 1], since) + if e.at >= since then [e] else []
  }

  /** Hits of the bucket later than `t`. */
  function HitsAfter(events: seq<Event>, bucket: string, t: int): nat {
    if events == [] then 0
    else
      var e := events[|events| - 1];
      HitsAfter(events[..|events| - 1], bucket, t) + if e.bucket == bucket && e.at > t then 1 else 0
  }

  /** Hits of the bucket in the half-open interval (from, to]. */
  function HitsWithin(events: seq<Event>, bucket: string, from: int, to: int): nat {
    if events == [] then 0
    else
      var e := events[|events| - 1];
      HitsWithin(events[..|events| - 1], bucket, from, to) + if e.bucket == bucket && from < e.at <= to then 1 else 0
  }

  function Horizon(r: Request): int { r.pruned - r.window * 4 * SECOND }

  function WindowStart(r: Request): int { r.counted - r.window * SECOND }

  predicate Admits(events: seq<Event>, r: Request) {
    HitsAfter(Pruned(events, Horizon(r)), r.bucket, WindowStart(r)) < r.limit
  }

  function Hit(r: Request): seq<Event> { [Event(r.bucket, r.at)] }

  class RateLimiter {
    var events: seq<Event>

    constructor ()
      ensures events == []
    {
      events := [];
    }

    /** Three statements without a transaction: a refused request still prunes. */
    method CheckRateLimit(r: Request) returns (admitted: bool)
      modifies this
      ensures admitted == Admits(old(events), r)
      ensures events == Pruned(old(events), Horizon(r)) + if admitted then Hit(r) else []
    {
      Prune(r.pruned - r.window * 4 * SECOND);
      var count := CountHits(r.bucket, r.counted - r.window * SECOND);
      if count >= r.limit { return false; }
      events := events + [Event(r.bucket, r.at)];
      return true;
    }

    method Prune(since: int)
      modifies this
      ensures events == Pruned(old(events), since)
    {
      var kept := [];
      for i := 0 to |events|
        invariant events == old(events) && kept == Pruned(events[..i], since)
      {
        assert events[..i + 1][..i] == events[..i];
        if events[i].at >= since { kept := kept + [events[i]]; }
      }
      assert events[..|events|] == events;
      events := kept;
    }

    method CountHits(bucket: string, after: int) returns (n: nat)
      ensures n == HitsAfter(events, bucket, after)
    {
      n := 0;
      for i := 0 to |events|
        invariant n == HitsAfter(events[..i], bucket, after)
      {
        assert events[..i + 1][..i] == events[..i];
        if events[i].bucket == bucket && events[i].at > after { n := n + 1; }
      }
      assert events[..|events|] == events;
    }
  }

  // ---- Runs ---------------------------------------------------------------

  /** The table after a sequence of checks. */
  function Table(rs: seq<Request>): seq<Event> {
    if rs == [] then []
    else
      var r, before := rs[|rs| - 1], Table(rs[..|rs| - 1]);
      Pruned(before, Horizon(r)) + if Admits(before, r) then Hit(r) else []
  }

  /** Every request admitted on the way, pruned or not. */
  function Admitted(rs: seq<Request>): seq<Event> {
    if rs == [] then []
    else
      var r := rs[|rs| - 1];
      Admitted(rs[..|rs| - 1]) + if Admits(Table(rs[..|rs| - 1]), r) then Hit(r) else []
  }

  /** Serial checks: the bucket always asked with the same limit and window, the others with windows from `others`. */
  ghost predicate Legal(rs: seq<Request>, bucket: string, limit: int, window: int, others: set<int>) {
    && (forall k :: 0 <= k < |rs| ==> rs[k].pruned <= rs[k].counted <= rs[k].at)
    && (forall j, k :: 0 <= j < k < |rs| ==> rs[j].at <= rs[k].pruned)
    && (forall k :: 0 <= k < |rs| ==>
          if rs[k].bucket == bucket then rs[k].limit == limit && rs[k].window == window else rs[k].window in others)
  }

  /** The window beginning just after `from` holds no more admitted hits than the limit. */
  ghost predicate Within(rs: seq<Request>, bucket: string, limit: int, window: int, from: int) {
    HitsWithin(Admitted(rs), bucket, from, from + window * SECOND) <= Max(0, limit)
  }

  ghost predicate Holds(bucket: string, limit: int, window: int, others: set<int>) {
    forall rs, from :: Legal(rs, bucket, limit, window, others) ==> Within(rs, bucket, limit, window, from)
  }

  lemma HitsAppend(events: seq<Event>, e: Event, bucket: string, from: int, to: int)
    ensures HitsAfter(events + [e], bucket, from)
         == HitsAfter(events, bucket, from) + if e.bucket == bucket && e.at > from then 1 else 0
    ensures HitsWithin(events + [e], bucket, from, to)
         == HitsWithin(events, bucket, from, to) + if e.bucket == bucket && from < e.at <= to then 1 else 0
  {
    assert (events + [e])[..|events|] == events;
  }

  lemma {:induction false} PruningKeepsRecent(events: seq<Event>, since: int, bucket: string, t: int)
    requires since <= t + 1
    ensures HitsAfter(Pruned(events, since), bucket, t) == HitsAfter(events, bucket, t)
  {
    if events != [] {
      var init, e := events[..|events| - 1], events[|events| - 1];
      PruningKeepsRecent(init, since, bucket, t);
      if e.at >= since { HitsAppend(Pruned(init, since), e, bucket, t, t); }
      else { assert Pruned(init, since) + [] == Pruned(init, since); }
    }
  }

  lemma {:induction false} WithinIsAfter(events: seq<Event>, bucket: string, from: int, to: int, t: int)
    requires t <= from
    ensures HitsWithin(events, bucket, from, to) <= HitsAfter(events, bucket, t)
  {
    if events != [] { WithinIsAfter(events[..|events| - 1], bucket, from, to, t); }
  }

  lemma LegalPrefix(rs: seq<Request>, bucket: string, limit: int, window: int, others: set<int>)
    requires rs != [] && Legal(rs, bucket, limit, window, others)
    ensures Legal(rs[..|rs| - 1], bucket, limit, window, others)
    ensures |rs| > 1 ==> rs[|rs| - 2].pruned <= rs[|rs| - 1].pruned
  {
  }

  /** The table still holds every admitted hit recent enough to matter. */
  lemma {:induction false} TableRemembers(rs: seq<Request>, bucket: string, limit: int, window: int, others: set<int>,
                                          t: int)
    requires Legal(rs, bucket, limit, window, others) && window > 0
    requires forall w :: w in others ==> window <= 4 * w
    requires rs != [] ==> t >= rs[|rs| - 1].pruned - window * SECOND
    ensures HitsAfter(Table(rs), bucket, t) == HitsAfter(Admitted(rs), bucket, t)
  {
    if rs != [] {
      var init, r := rs[..|rs| - 1], rs[|rs| - 1];
      LegalPrefix(rs, bucket, limit, window, others);
      TableRemembers(init, bucket, limit, window, others, t);
      assert r.window in others || r.window == window;
      PruningKeepsRecent(Table(init), Horizon(r), bucket, t);
      HitsAppend(Pruned(Table(init), Horizon(r)), Event(r.bucket, r.at), bucket, t, t);
      HitsAppend(Admitted(init), Event(r.bucket, r.at), bucket, t, t);
      if !Admits(Table(init), r) {
        assert Table(rs) == Pruned(Table(init), Horizon(r)) && Admitted(rs) == Admitted(init);
      }
    }
  }

  lemma {:induction false} WindowBound(rs: seq<Request>, bucket: string, limit: int, window: int, others: set<int>,
                                       from: int)
    requires Legal(rs, bucket, limit, window, others) && window > 0
    requires forall w :: w in others ==> window <= 4 * w
    ensures Within(rs, bucket, limit, window, from)
  {
    if rs != [] {
      var init, r := rs[..|rs| - 1], rs[|rs| - 1];
      LegalPrefix(rs, bucket, limit, window, others);
      WindowBound(init, bucket, limit, window, others, from);
      var to := from + window * SECOND;
      if Admits(Table(init), r) {
        HitsAppend(Admitted(init), Event(r.bucket, r.at), bucket, from, to);
        if r.bucket == bucket && from < r.at <= to {
          TableRemembers(init, bucket, limit, window, others, WindowStart(r));
          PruningKeepsRecent(Table(init), Horizon(r), bucket, WindowStart(r));
          WithinIsAfter(Admitted(init), bucket, from, to, WindowStart(r));
        }
      } else {
        assert Admitted(rs) == Admitted(init);
      }
    }
  }

  // ---- The converse -------------------------------------------------------

  /** A check whose three statements fall on one instant. */
  function AtOnce(bucket: string, limit: int, window: int, t: int): Request { Request(bucket, limit, window, t, t, t) }

  function Burst(r: Request, n: nat): seq<Request> { seq(n, _ => r) }

  function Hits(r: Request, n: nat): seq<Event> {
    if n == 0 then [] else Hits(r, n - 1) + Hit(r)
  }

  lemma {:induction false} HitsCounted(r: Request, n: nat, from: int, to: int)
    requires from < r.at <= to
    ensures HitsAfter(Hits(r, n), r.bucket, from) == n && HitsWithin(Hits(r, n), r.bucket, from, to) == n
  {
    if n > 0 {
      HitsCounted(r, n - 1, from, to);
      HitsAppend(Hits(r, n - 1), Event(r.bucket, r.at), r.bucket, from, to);
    }
  }

  lemma {:induction false} HitsPruned(r: Request, n: nat, since: int)
    ensures Pruned(Hits(r, n), since) == if since <= r.at then Hits(r, n) else []
  {
    if n > 0 {
      HitsPruned(r, n - 1, since);
      assert Hits(r, n)[..|Hits(r, n)| - 1] == Hits(r, n - 1);
    }
  }

  lemma RunLast(rs: seq<Request>, r: Request)
    ensures Table(rs + [r]) == Pruned(Table(rs), Horizon(r)) + if Admits(Table(rs), r) then Hit(r) else []
    ensures Admitted(rs + [r]) == Admitted(rs) + if Admits(Table(rs), r) then Hit(r) else []
  {
    assert (rs + [r])[..|rs|] == rs;
  }

  lemma {:induction false} BurstAdmitted(r: Request, n: nat)
    requires n <= r.limit && r.window > 0 && r.pruned == r.counted == r.at
    ensures Table(Burst(r, n)) == Hits(r, n) && Admitted(Burst(r, n)) == Hits(r, n)
  {
    if n > 0 {
      assert Burst(r, n) == Burst(r, n - 1) + [r];
      RunLast(Burst(r, n - 1), r);
      BurstAdmitted(r, n - 1);
      HitsPruned(r, n - 1, Horizon(r));
      HitsCounted(r, n - 1, WindowStart(r), r.at);
    }
  }

  /**
   * Another caller's short window wipes the bucket's history, whatever that
   * caller's own limit: limit + 1 hits inside one window.
   */
  lemma PruningLetsOneMore(bucket: string, limit: int, window: int, w: int, otherLimit: int) returns (rs: seq<Request>)
    requires limit > 0 && window > 0 && 4 * w < window
    ensures Legal(rs, bucket, limit, window, {w})
    ensures HitsWithin(Admitted(rs), bucket, -1, -1 + window * SECOND) == limit + 1
  {
    var first := AtOnce(bucket, limit, window, 0);
    var other := AtOnce(bucket + "!", otherLimit, w, Max(0, 4 * w * SECOND + 1));
    rs := Burst(first, limit) + [other] + [AtOnce(bucket, limit, window, other.at)];
    WipedLegal(first, other);
    WipedBurst(first, other, -1, -1 + window * SECOND);
  }

  lemma WipedLegal(first: Request, other: Request)
    requires first == AtOnce(first.bucket, first.limit, first.window, 0) && first.limit >= 0
    requires other == AtOnce(other.bucket, other.limit, other.window, other.at) && other.at >= 0
    requires other.bucket != first.bucket
    ensures Legal(Burst(first, first.limit) + [other] + [AtOnce(first.bucket, first.limit, first.window, other.at)],
                  first.bucket, first.limit, first.window, {other.window})
  {
  }

  lemma WipedBurst(first: Request, other: Request, from: int, to: int)
    requires first == AtOnce(first.bucket, first.limit, first.window, first.at) && first.limit > 0 && first.window > 0
    requires other.bucket != first.bucket && Horizon(other) > first.at
    requires from < first.at <= to && from < other.at <= to
    ensures var again := AtOnce(first.bucket, first.limit, first.window, other.at);
            HitsWithin(Admitted(Burst(first, first.limit) + [other] + [again]), first.bucket, from, to)
                == first.limit + 1
  {
    var burst, again := Burst(first, first.limit), AtOnce(first.bucket, first.limit, first.window, other.at);
    BurstAdmitted(first, first.limit);
    HitsCounted(first, first.limit, from, to);
    HitsPruned(first, first.limit, Horizon(other));
    StepHits(burst, other, first.bucket, from, to);
    RunLast(burst, other);
    assert forall k :: 0 <= k < |Table(burst + [other])| ==> Table(burst + [other])[k] == Event(other.bucket, other.at);
    ForeignAdmits(Table(burst + [other]), again);
    StepHits(burst + [other], again, first.bucket, from, to);
  }

  lemma StepHits(rs: seq<Request>, r: Request, bucket: string, from: int, to: int)
    ensures HitsWithin(Admitted(rs + [r]), bucket, from, to) == HitsWithin(Admitted(rs), bucket, from, to)
              + if Admits(Table(rs), r) && r.bucket == bucket && from < r.at <= to then 1 else 0
  {
    RunLast(rs, r);
    HitsAppend(Admitted(rs), Event(r.bucket, r.at), bucket, from, to);
    assert Admitted(rs) + [] == Admitted(rs);
  }

  /** Hits of other buckets do not count. */
  lemma {:induction false} ForeignAdmits(events: seq<Event>, r: Request)
    requires forall i :: 0 <= i < |events| ==> events[i].bucket != r.bucket
    ensures Admits(events, r) <==> r.limit > 0
  {
    ForeignHits(events, Horizon(r), r.bucket, WindowStart(r));
  }

  lemma {:induction false} ForeignHits(events: seq<Event>, since: int, bucket: string, t: int)
    requires forall i :: 0 <= i < |events| ==> events[i].bucket != bucket
    ensures HitsAfter(Pruned(events, since), bucket, t) == 0
  {
    if events != [] {
      var init, e := events[..|events| - 1], events[|events| - 1];
      ForeignHits(init, since, bucket, t);
      if e.at >= since { HitsAppend(Pruned(init, since), e, bucket, t, t); }
      else { assert Pruned(init, since) + [] == Pruned(init, since); }
    }
  }

  /**
   * Whoever else uses the limiter, a bucket admits at most `limit` hits in every
   * interval of its window if and only if no other caller's window is shorter
   * than a quarter of it.
   */
  lemma LimitHoldsExactly(bucket: string, limit: int, window: int, others: set<int>)
    requires limit > 0 && window > 0
    ensures Holds(bucket, limit, window, others) <==> forall w :: w in others ==> window <= 4 * w
  {
    if forall w :: w in others ==> window <= 4 * w {
      forall rs, from | Legal(rs, bucket, limit, window, others)
        ensures Within(rs, bucket, limit, window, from)
      {
        WindowBound(rs, bucket, limit, window, others, from);
      }
    } else {
      var w :| w in others && window > 4 * w;
      var rs := PruningLetsOneMore(bucket, limit, window, w, 0);
      assert Legal(rs, bucket, limit, window, others);
      assert !Within(rs, bucket, limit, window, -1);
    }
  }

  /** The login limit (10 in 300 s) is not protected from the webhook limiter's 60 s window; the reverse is. */
  lemma RepositoryWindows(login: string, hook: string)
    ensures !Holds(login, 10, 300, {300, 60}) && Holds(hook, 120, 60, {300, 60})
  {
    LimitHoldsExactly(login, 10, 300, {300, 60});
    LimitHoldsExactly(hook, 120, 60, {300, 60});
    assert 60 in {300, 60} && 300 > 4 * 60;
  }
}
