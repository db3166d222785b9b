/** The relay's fixed-window limit on device registrations, and the bound it puts on any stretch of time. */
module RegistrationLimit {
  import opened Wrappers
  import opened Strings

  const WINDOW_MS := 60_000
  const MAX_REGISTRATIONS := 5

  datatype Limit = Limit(count: int, resetAt: int)

  datatype Attempt = Attempt(ip: Str, at: int)

  /** The new limits and the verdict on one attempt. */
  function Checked(limits: map<Str, Limit>, a: Attempt): (map<Str, Limit>, bool)
  {
    if a.ip !in limits || a.at >= limits[a.ip].resetAt then (limits[a.ip := Limit(1, a.at + WINDOW_MS)], true)
    else if limits[a.ip].count < MAX_REGISTRATIONS then
      (limits[a.ip := limits[a.ip].(count := limits[a.ip].count + 1)], true)
    else (limits, false)
  }

  class RateLimiter {
    var limits: map<Str, Limit>

    constructor ()
      ensures limits == map[]
    {
      limits := map[];
    }

    /** `checkRegistrationRateLimit`. */
    method CheckRegistrationRateLimit(ip: Str, now: int) returns (accepted: bool)
      modifies this
      ensures (limits, accepted) == Checked(old(limits), Attempt(ip, now))
    {
      if ip !in limits || now >= limits[ip].resetAt {
        limits := limits[ip := Limit(1, now + WINDOW_MS)];
        return true;
      }
      var limit := limits[ip];
      if limit.count < MAX_REGISTRATIONS {
        limits := limits[ip := limit.(count := limit.count + 1)];
        return true;
      }
      return false;
    }
  }

  // ------------------------------------------------------- runs

  function Limits(attempts: seq<Attempt>): map<Str, Limit>
  {
    if attempts == [] then map[] else Checked(Limits(attempts[..|attempts| - 1]), attempts[|attempts| - 1]).0
  }

  ghost predicate Monotone(attempts: seq<Attempt>)
  {
    forall i, j :: 0 <= i < j < |attempts| ==> attempts[i].at <= attempts[j].at
  }

  /** Accepted registrations of one address in the half-open interval from `from` to `to`. */
  function Accepted(attempts: seq<Attempt>, ip: Str, from: int, to: int): nat
  {
    if attempts == [] then 0
    else
      var n := |attempts| - 1;
      var a := attempts[n];
      Accepted(attempts[..n], ip, from, to)
      + if a.ip == ip && from <= a.at < to && Checked(Limits(attempts[..n]), a).1 then 1 else 0
  }

  /**
   * What an address's current window allows: a window opened before the interval has used one acceptance outside it,
   * and windows opened inside it start at least a window apart.
   */
  ghost predicate WindowBound(limit: Option<Limit>, accepted: int, from: int)
  {
    match limit
    case None => accepted == 0
    case Some(l) =>
      var since := l.resetAt - WINDOW_MS;
      && 1 <= l.count <= MAX_REGISTRATIONS
      && if since < from then accepted <= l.count - 1
         else exists q: nat :: Windows(since, from, q) && accepted <= 4 + 5 * q + l.count
  }

  /** `q` whole windows fit between the start of the interval and the opening of the current window. */
  ghost predicate Windows(since: int, from: int, q: nat)
  {
    from + WINDOW_MS * q <= since
  }

  function LimitOf(limits: map<Str, Limit>, ip: Str): Option<Limit>
  {
    if ip in limits then Some(limits[ip]) else None
  }

  /** Windows open no later than the latest attempt. */
  lemma {:induction false} OpenedInThePast(attempts: seq<Attempt>, ip: Str)
    requires Monotone(attempts) && attempts != []
    ensures ip in Limits(attempts) ==> Limits(attempts)[ip].resetAt <= attempts[|attempts| - 1].at + WINDOW_MS
  {
    var n := |attempts| - 1;
    if n > 0 { OpenedInThePast(attempts[..n], ip); }
  }

  lemma {:induction false} AcceptedBound(attempts: seq<Attempt>, ip: Str, from: int, to: int)
    requires Monotone(attempts)
    ensures WindowBound(LimitOf(Limits(attempts), ip), Accepted(attempts, ip, from, to), from)
  {
    if attempts != [] {
      var n := |attempts| - 1;
      var past := attempts[..n];
      AcceptedBound(past, ip, from, to);
      var a := attempts[n];
      if a.ip == ip {
        if a.at < from { NothingYet(past, ip, from, to); }
        StepBound(LimitOf(Limits(past), ip), Accepted(past, ip, from, to), from, a.at,
                  Accepted(attempts, ip, from, to) - Accepted(past, ip, from, to));
      }
    }
  }

  lemma {:induction false} NothingYet(attempts: seq<Attempt>, ip: Str, from: int, to: int)
    requires forall i :: 0 <= i < |attempts| ==> attempts[i].at < from
    ensures Accepted(attempts, ip, from, to) == 0
  {
    if attempts != [] { NothingYet(attempts[..|attempts| - 1], ip, from, to); }
  }

  /** A window opened by an attempt, after `q` whole windows since the start of the interval. */
  lemma Reopened(accepted: int, from: int, at: int, q: nat)
    requires Windows(at, from, q) && accepted <= 4 + 5 * q + 1
    ensures WindowBound(Some(Limit(1, at + WINDOW_MS)), accepted, from)
  {
    var l := Limit(1, at + WINDOW_MS);
    assert l.resetAt - WINDOW_MS == at;
    assert Windows(l.resetAt - WINDOW_MS, from, q);
  }

  /** One attempt keeps the window bound. */
  lemma StepBound(limit: Option<Limit>, accepted: int, from: int, at: int, more: int)
    requires WindowBound(limit, accepted, from) && (at < from ==> accepted == 0)
    requires more == 0 || (more == 1 && from <= at && !(limit.Some? && at < limit.value.resetAt && limit.value.count >= MAX_REGISTRATIONS))
    ensures WindowBound(
      if limit.None? || at >= limit.value.resetAt then Some(Limit(1, at + WINDOW_MS))
      else if limit.value.count < MAX_REGISTRATIONS then Some(limit.value.(count := limit.value.count + 1))
      else limit,
      accepted + more, from)
  {
    if limit.None? {
      if from <= at { Reopened(accepted + more, from, at, 0); }
    } else {
      var l := limit.value;
      var since := l.resetAt - WINDOW_MS;
      if since < from {
        if at >= l.resetAt && from <= at { Reopened(accepted + more, from, at, 0); }
      } else {
        var q: nat :| Windows(since, from, q) && accepted <= 4 + 5 * q + l.count;
        if at >= l.resetAt { Reopened(accepted + more, from, at, q + 1); }
      }
    }
  }

  /**
   * Any half-open interval of k windows holds at most 5k + 4 accepted registrations of one address, which is below the
   * 5(k + 1) that counting windows gives.
   */
  lemma {:induction false} IntervalBound(attempts: seq<Attempt>, ip: Str, from: int, k: nat)
    requires Monotone(attempts)
    ensures Accepted(attempts, ip, from, from + WINDOW_MS * k) <= 5 * k + 4
  {
    if attempts != [] {
      var n := |attempts| - 1;
      IntervalBound(attempts[..n], ip, from, k);
      var a := attempts[n];
      if from <= a.at < from + WINDOW_MS * k && a.ip == ip {
        AcceptedBound(attempts, ip, from, from + WINDOW_MS * k);
        OpenedInThePast(attempts, ip);
        WithinInterval(Limits(attempts)[ip], Accepted(attempts, ip, from, from + WINDOW_MS * k), from, k);
      }
    }
  }

  lemma WithinInterval(l: Limit, accepted: int, from: int, k: nat)
    requires WindowBound(Some(l), accepted, from) && l.resetAt - WINDOW_MS < from + WINDOW_MS * k
    ensures accepted <= 5 * k + 4
  {
    var since := l.resetAt - WINDOW_MS;
    if since >= from {
      var q: nat :| Windows(since, from, q) && accepted <= 4 + 5 * q + l.count;
      assert q < k;
    }
  }

  // ------------------------------------------------------- which attempt is accepted

  /** Attempt `i` of the run is accepted. */
  predicate AcceptedAt(attempts: seq<Attempt>, i: nat)
    requires i < |attempts|
  {
    Checked(Limits(attempts[..i]), attempts[i]).1
  }

  /** The attempt that opened the current window of this address: the first, or one a minute or more after the last. */
  function Opening(attempts: seq<Attempt>, ip: Str): (r: Option<nat>)
    ensures r.Some? ==> r.value < |attempts| && attempts[r.value].ip == ip
  {
    if attempts == [] then None
    else
      var n := |attempts| - 1;
      var before := Opening(attempts[..n], ip);
      if attempts[n].ip == ip && (before.None? || attempts[n].at >= attempts[before.value].at + 60_000) then Some(n) else before
  }

  /** The accepted attempts of this address from the `from`-th on. */
  function AcceptedSince(attempts: seq<Attempt>, ip: Str, from: nat): (r: set<nat>)
    ensures forall i :: i in r <==> from <= i < |attempts| && attempts[i].ip == ip && AcceptedAt(attempts, i)
  {
    set i: nat | from <= i < |attempts| && attempts[i].ip == ip && AcceptedAt(attempts, i)
  }

  lemma AcceptedSincePast(attempts: seq<Attempt>, ip: Str, from: nat)
    requires attempts != []
    ensures var n := |attempts| - 1;
      AcceptedSince(attempts, ip, from) ==
        AcceptedSince(attempts[..n], ip, from) + if from <= n && attempts[n].ip == ip && AcceptedAt(attempts, n) then {n} else {}
  {
    var n := |attempts| - 1;
    forall i: nat | i < n ensures AcceptedAt(attempts[..n], i) == AcceptedAt(attempts, i) {
      assert attempts[..n][..i] == attempts[..i];
    }
  }

  /** The stored limit of an address is its current window: when it closes, and how much of it is used. */
  ghost predicate Tracks(attempts: seq<Attempt>, ip: Str)
  {
    var open := Opening(attempts, ip);
    && (open.Some? <==> ip in Limits(attempts))
    && (open.Some? ==>
          && Limits(attempts)[ip].resetAt == attempts[open.value].at + 60_000
          && Limits(attempts)[ip].count == |AcceptedSince(attempts, ip, open.value)|)
  }

  lemma OthersTrack(past: seq<Attempt>, a: Attempt, ip: Str)
    requires Tracks(past, ip) && a.ip != ip
    ensures Tracks(past + [a], ip)
  {
    var all := past + [a];
    assert all[..|past|] == past && all[|past|] == a;
    var open := Opening(past, ip);
    assert Opening(all, ip) == open;
    assert ip in Limits(past) ==> ip in Limits(all) && Limits(all)[ip] == Limits(past)[ip];
    if open.Some? {
      AcceptedSincePast(all, ip, open.value);
      assert AcceptedSince(all, ip, open.value) == AcceptedSince(past, ip, open.value);
    }
  }

  lemma OpeningTracks(past: seq<Attempt>, a: Attempt)
    requires Tracks(past, a.ip)
    requires a.ip in Limits(past) ==> a.at >= Limits(past)[a.ip].resetAt
    ensures Tracks(past + [a], a.ip)
  {
    var all, n := past + [a], |past|;
    assert all[..n] == past;
    assert Opening(all, a.ip) == Some(n) && AcceptedAt(all, n);
    AcceptedSincePast(all, a.ip, n);
    assert AcceptedSince(past, a.ip, n) == {};
    assert |{n}| == 1;
  }

  lemma InsideTracks(past: seq<Attempt>, a: Attempt)
    requires Tracks(past, a.ip) && a.ip in Limits(past) && a.at < Limits(past)[a.ip].resetAt
    ensures Tracks(past + [a], a.ip)
  {
    var all, n := past + [a], |past|;
    assert all[..n] == past;
    var open := Opening(past, a.ip).value;
    assert Opening(all, a.ip) == Some(open);
    AcceptedSincePast(all, a.ip, open);
    assert n !in AcceptedSince(past, a.ip, open);
  }

  lemma {:induction false} LimitsTrack(attempts: seq<Attempt>, ip: Str)
    ensures Tracks(attempts, ip)
  {
    if attempts != [] {
      var past, a := attempts[..|attempts| - 1], attempts[|attempts| - 1];
      LimitsTrack(past, ip);
      assert attempts == past + [a];
      if a.ip != ip {
        OthersTrack(past, a, ip);
      } else if ip in Limits(past) && a.at < Limits(past)[ip].resetAt {
        InsideTracks(past, a);
      } else {
        OpeningTracks(past, a);
      }
    }
  }

  /**
   * In any run, at any clock, an attempt is accepted exactly when it opens a window of its address or fewer than five
   * attempts of that address have been accepted since its current window was opened.
   */
  lemma AcceptedExactlyWhen(attempts: seq<Attempt>, i: nat)
    requires i < |attempts|
    ensures var a := attempts[i];
      var open := Opening(attempts[..i], a.ip);
      AcceptedAt(attempts, i) <==>
        || open.None?
        || a.at >= attempts[open.value].at + 60_000
        || |AcceptedSince(attempts[..i], a.ip, open.value)| < 5
  {
    LimitsTrack(attempts[..i], attempts[i].ip);
  }

  function Times(ip: Str, at: int, n: nat): (r: seq<Attempt>)
    ensures |r| == n && forall i :: 0 <= i < n ==> r[i] == Attempt(ip, at)
  {
    seq(n, i requires 0 <= i < n => Attempt(ip, at))
  }

  lemma OneMore(past: seq<Attempt>, ip: Str, at: int, from: int, to: int)
    requires ip in Limits(past) && at < Limits(past)[ip].resetAt && from <= at < to && Limits(past)[ip].count < MAX_REGISTRATIONS
    ensures var all := past + [Attempt(ip, at)];
      && ip in Limits(all) && Limits(all)[ip] == Limits(past)[ip].(count := Limits(past)[ip].count + 1)
      && Accepted(all, ip, from, to) == Accepted(past, ip, from, to) + 1
  {
    var all := past + [Attempt(ip, at)];
    assert all[..|all| - 1] == past;
  }

  /** A burst of `n` attempts inside an open window with room for them is accepted in full. */
  lemma {:induction false} Burst(past: seq<Attempt>, ip: Str, at: int, n: nat, from: int, to: int)
    requires ip in Limits(past) && at < Limits(past)[ip].resetAt && from <= at < to
    requires Limits(past)[ip].count + n <= MAX_REGISTRATIONS
    ensures var all := past + Times(ip, at, n);
      && ip in Limits(all) && Limits(all)[ip] == Limits(past)[ip].(count := Limits(past)[ip].count + n)
      && Accepted(all, ip, from, to) == Accepted(past, ip, from, to) + n
  {
    if n == 0 {
      assert past + Times(ip, at, n) == past;
    } else {
      Burst(past, ip, at, n - 1, from, to);
      OneMore(past + Times(ip, at, n - 1), ip, at, from, to);
      assert past + Times(ip, at, n) == past + Times(ip, at, n - 1) + [Attempt(ip, at)];
    }
  }

  /** Once the current window has passed, five attempts open the next one and fill it. */
  lemma WindowFills(past: seq<Attempt>, ip: Str, at: int, from: int, to: int)
    requires ip in Limits(past) && Limits(past)[ip].resetAt <= at && from <= at < to
    ensures var all := past + [Attempt(ip, at)] + Times(ip, at, 4);
      && ip in Limits(all) && Limits(all)[ip] == Limit(MAX_REGISTRATIONS, at + WINDOW_MS)
      && Accepted(all, ip, from, to) == Accepted(past, ip, from, to) + 5
  {
    var reopened := past + [Attempt(ip, at)];
    assert reopened[..|reopened| - 1] == past;
    Burst(reopened, ip, at, 4, from, to);
  }

  /** One attempt opens a window, and four more just before it closes fill it. */
  lemma Prelude(ip: Str, to: int) returns (attempts: seq<Attempt>)
    requires WINDOW_MS <= to
    ensures Monotone(attempts) && attempts != [] && attempts[|attempts| - 1].at == WINDOW_MS - 1
    ensures ip in Limits(attempts) && Limits(attempts)[ip] == Limit(MAX_REGISTRATIONS, WINDOW_MS)
    ensures Accepted(attempts, ip, WINDOW_MS - 1, to) == 4
  {
    var first := [Attempt(ip, 0)];
    assert first[..0] == [];
    assert Limits(first)[ip] == Limit(1, WINDOW_MS) && Accepted(first, ip, WINDOW_MS - 1, to) == 0;
    Burst(first, ip, WINDOW_MS - 1, 4, WINDOW_MS - 1, to);
    attempts := first + Times(ip, WINDOW_MS - 1, 4);
  }

  /** The next `w` windows are then filled as soon as they can be opened. */
  lemma {:induction false} WindowsFill(ip: Str, w: nat, to: int) returns (attempts: seq<Attempt>)
    requires WINDOW_MS * w < to && WINDOW_MS <= to
    ensures Monotone(attempts) && attempts != [] && attempts[|attempts| - 1].at < WINDOW_MS * (w + 1)
    ensures ip in Limits(attempts) && Limits(attempts)[ip] == Limit(MAX_REGISTRATIONS, WINDOW_MS * (w + 1))
    ensures Accepted(attempts, ip, WINDOW_MS - 1, to) == 5 * w + 4
  {
    if w == 0 {
      attempts := Prelude(ip, to);
    } else {
      var past := WindowsFill(ip, w - 1, to);
      var at := WINDOW_MS * w;
      WindowFills(past, ip, at, WINDOW_MS - 1, to);
      attempts := past + [Attempt(ip, at)] + Times(ip, at, 4);
      forall i | 0 <= i < |past| ensures past[i].at <= at {
        assert past[i].at <= past[|past| - 1].at;
      }
    }
  }

  /** The bound is attained for every number of windows. */
  lemma BoundAttained(ip: Str, k: nat) returns (attempts: seq<Attempt>, from: int)
    requires k >= 1
    ensures Monotone(attempts) && Accepted(attempts, ip, from, from + WINDOW_MS * k) == 5 * k + 4
  {
    from := WINDOW_MS - 1;
    attempts := WindowsFill(ip, k, from + WINDOW_MS * k);
  }
}
