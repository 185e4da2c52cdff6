/** The per-IP request limiter of src/runtime/server.ts: fixed windows, reset lazily, evicted periodically. */
module RateLimiter {

  const WINDOW_MS := 60_000
  const MAX_REQUESTS := 120

  datatype Window = Window(count: nat, windowStart: int)

  type Table = map<string, Window>

  /** Whether a request at `now` opens a new window. */
  predicate Stale(w: Window, now: int) {
    now - w.windowStart > WINDOW_MS
  }

  function Hit(table: Table, ip: string, now: int): Table {
    if ip !in table || Stale(table[ip], now) then table[ip := Window(1, now)]
    else table[ip := Window(table[ip].count + 1, table[ip].windowStart)]
  }

  function Admits(table: Table, ip: string, now: int): bool {
    Hit(table, ip, now)[ip].count <= MAX_REQUESTS
  }

  function Evict(table: Table, now: int): Table {
    map ip | ip in table && table[ip].windowStart >= now - 2 * WINDOW_MS :: table[ip]
  }

  class Limiter {
    var windows: Table

    constructor ()
      ensures windows == map[]
    {
      windows := map[];
    }

    method CheckRateLimit(ip: string, now: int) returns (admitted: bool)
      modifies this
      ensures windows == Hit(old(windows), ip, now) && admitted == Admits(old(windows), ip, now)
    {
      if ip !in windows || now - windows[ip].windowStart > WINDOW_MS {
        windows := windows[ip := Window(1, now)];
        return true;
      }
      var entry := windows[ip].(count := windows[ip].count + 1);
      windows := windows[ip := entry];
      return entry.count <= MAX_REQUESTS;
    }

    /** After a cleanup no remaining window started more than two window lengths ago, and no other is gone. */
    method Cleanup(now: int)
      modifies this
      ensures windows == Evict(old(windows), now)
      ensures forall ip :: ip in windows ==> now - windows[ip].windowStart <= 2 * WINDOW_MS
    {
      var cutoff := now - 2 * WINDOW_MS;
      var left := windows.Keys;
      while left != {}
        invariant left <= windows.Keys <= old(windows).Keys
        invariant forall ip :: ip in windows ==> windows[ip] == old(windows)[ip]
        invariant forall ip :: ip in old(windows) && ip !in left ==>
                    (ip in windows <==> old(windows)[ip].windowStart >= cutoff)
        invariant forall ip :: ip in left ==> ip in windows
        decreases left
      {
        var ip :| ip in left;
        left := left - {ip};
        if windows[ip].windowStart < cutoff {
          windows := windows - {ip};
        }
      }
    }
  }

  // ---- Runs ----

  datatype Event = Request(ip: string, at: int) | Clean(at: int)

  predicate Monotone(events: seq<Event>) {
    forall k, l :: 0 <= k < l < |events| ==> events[k].at <= events[l].at
  }

  function Apply(table: Table, e: Event, evicts: bool): Table {
    match e
    case Request(ip, at) => Hit(table, ip, at)
    case Clean(at) => if evicts then Evict(table, at) else table
  }

  predicate Answer(table: Table, e: Event) {
    e.Request? && Admits(table, e.ip, e.at)
  }

  /** For every event, whether it was an admitted request. */
  function Answers(table: Table, events: seq<Event>, evicts: bool): (answers: seq<bool>)
    ensures |answers| == |events|
    decreases |events|
  {
    if events == [] then []
    else [Answer(table, events[0])] + Answers(Apply(table, events[0], evicts), events[1..], evicts)
  }

  // ---- Eviction is invisible ----

  /** The evicting table has the other's windows, except some that are long stale. */
  ghost predicate Simulates(evicting: Table, keeping: Table, now: int) {
    && (forall ip :: ip in evicting ==> ip in keeping && keeping[ip] == evicting[ip])
    && (forall ip :: ip in keeping && ip !in evicting ==> now - keeping[ip].windowStart > 2 * WINDOW_MS)
  }

  lemma {:induction false} AnswersAgree(evicting: Table, keeping: Table, now: int, events: seq<Event>)
    requires Simulates(evicting, keeping, now) && Monotone(events) && (events != [] ==> now <= events[0].at)
    ensures Answers(evicting, events, true) == Answers(keeping, events, false)
    decreases |events|
  {
    if events != [] {
      var e := events[0];
      assert Simulates(Apply(evicting, e, true), Apply(keeping, e, false), e.at);
      AnswersAgree(Apply(evicting, e, true), Apply(keeping, e, false), e.at, events[1..]);
    }
  }

  /** Under a clock that never goes back, every answer is that of a limiter that never evicts. */
  lemma EvictionIsInvisible(events: seq<Event>)
    requires Monotone(events)
    ensures Answers(map[], events, true) == Answers(map[], events, false)
  {
    if events != [] {
      AnswersAgree(map[], map[], events[0].at, events);
    }
  }

  // ---- How many requests a minute can admit ----

  predicate Counts(e: Event, ip: string, from: int) {
    e.Request? && e.ip == ip && from <= e.at <= from + WINDOW_MS
  }

  /** The admitted requests of `ip` in the closed interval of one window length starting at `from`. */
  function Admitted(events: seq<Event>, answers: seq<bool>, ip: string, from: int): nat
    requires |answers| == |events|
  {
    if events == [] then 0
    else (if answers[0] && Counts(events[0], ip, from) then 1 else 0) + Admitted(events[1..], answers[1..], ip, from)
  }

  function AtMostMax(count: nat): nat {
    if count <= MAX_REQUESTS then count else MAX_REQUESTS
  }

  /** What the interval may have admitted so far, given the current window of the address. */
  ghost predicate Within(table: Table, ip: string, from: int, now: int, admitted: nat) {
    && (now < from ==> admitted == 0)
    && (if ip !in table then admitted == 0
        else
          var w := table[ip];
          w.count >= 1 && w.windowStart <= now
          && admitted <= if w.windowStart < from then AtMostMax(w.count) - 1
                         else if w.windowStart <= from + WINDOW_MS then MAX_REQUESTS - 1 + AtMostMax(w.count)
                         else 2 * MAX_REQUESTS - 1)
  }

  lemma {:induction false} IntervalBound(table: Table, events: seq<Event>, ip: string, from: int, now: int, admitted: nat)
    requires Within(table, ip, from, now, admitted) && Monotone(events) && (events != [] ==> now <= events[0].at)
    ensures admitted + Admitted(events, Answers(table, events, false), ip, from) <= 2 * MAX_REQUESTS - 1
    decreases |events|
  {
    if events != [] {
      var e := events[0];
      var hit := if Answer(table, e) && Counts(e, ip, from) then 1 else 0;
      assert Within(Apply(table, e, false), ip, from, e.at, admitted + hit);
      IntervalBound(Apply(table, e, false), events[1..], ip, from, e.at, admitted + hit);
      assert Answers(table, events, false)[1..] == Answers(Apply(table, e, false), events[1..], false);
    }
  }

  /** Any closed minute admits at most 239 requests of an address, whatever the others do and whenever cleanups run. */
  lemma AnyMinuteAdmits239(events: seq<Event>, ip: string, from: int)
    requires Monotone(events)
    ensures Admitted(events, Answers(map[], events, true), ip, from) <= 2 * MAX_REQUESTS - 1
  {
    EvictionIsInvisible(events);
    if events != [] {
      IntervalBound(map[], events, ip, from, if events[0].at < from then events[0].at else from, 0);
    }
  }

  // ---- The bound is attained ----

  function Repeat(e: Event, n: nat): (r: seq<Event>)
    ensures |r| == n && forall k :: 0 <= k < n ==> r[k] == e
  {
    if n == 0 then [] else [e] + Repeat(e, n - 1)
  }

  lemma {:induction false} BurstIsAdmitted(table: Table, ip: string, at: int, n: nat, rest: seq<Event>, from: int)
    requires ip in table && !Stale(table[ip], at) && table[ip].count + n <= MAX_REQUESTS
    ensures var events := Repeat(Request(ip, at), n) + rest;
            var after := table[ip := Window(table[ip].count + n, table[ip].windowStart)];
            Admitted(events, Answers(table, events, true), ip, from)
            == (if from <= at <= from + WINDOW_MS then n else 0) + Admitted(rest, Answers(after, rest, true), ip, from)
    decreases n
  {
    var e := Request(ip, at);
    var events := Repeat(e, n) + rest;
    var after := table[ip := Window(table[ip].count + n, table[ip].windowStart)];
    if n == 0 {
      assert events == rest && after == table;
    } else {
      var table' := Hit(table, ip, at);
      assert events == [e] + (Repeat(e, n - 1) + rest);
      assert events[1..] == Repeat(e, n - 1) + rest;
      assert table'[ip := Window(table'[ip].count + (n - 1), table'[ip].windowStart)] == after;
      assert Answers(table, events, true)[1..] == Answers(table', events[1..], true);
      BurstIsAdmitted(table', ip, at, n - 1, rest, from);
    }
  }

  lemma FirstOfBurst(table: Table, ip: string, at: int, rest: seq<Event>, from: int)
    requires ip !in table || Stale(table[ip], at)
    ensures var events := [Request(ip, at)] + rest;
            Admitted(events, Answers(table, events, true), ip, from)
            == (if from <= at <= from + WINDOW_MS then 1 else 0)
               + Admitted(rest, Answers(table[ip := Window(1, at)], rest, true), ip, from)
  {
    var events := [Request(ip, at)] + rest;
    assert events[1..] == rest;
    assert Answers(table, events, true)[1..] == Answers(Hit(table, ip, at), rest, true);
  }

  function SecondWindow(ip: string): seq<Event> {
    [Request(ip, WINDOW_MS + 1)] + (Repeat(Request(ip, WINDOW_MS + 1), MAX_REQUESTS - 1) + [])
  }

  function LateBurst(ip: string): seq<Event> {
    [Request(ip, 0)] + (Repeat(Request(ip, WINDOW_MS), MAX_REQUESTS - 1) + SecondWindow(ip))
  }

  lemma LateBurstIsMonotone(ip: string)
    ensures Monotone(LateBurst(ip))
  {
    var events := LateBurst(ip);
    assert forall k :: 1 <= k < MAX_REQUESTS ==> events[k].at == WINDOW_MS;
    assert forall k :: MAX_REQUESTS <= k < |events| ==> events[k].at == WINDOW_MS + 1;
  }

  lemma SecondWindowIsAdmitted(table: Table, ip: string)
    requires ip in table && table[ip].windowStart == 0
    ensures Admitted(SecondWindow(ip), Answers(table, SecondWindow(ip), true), ip, 1) == MAX_REQUESTS
  {
    var started := table[ip := Window(1, WINDOW_MS + 1)];
    FirstOfBurst(table, ip, WINDOW_MS + 1, Repeat(Request(ip, WINDOW_MS + 1), MAX_REQUESTS - 1) + [], 1);
    BurstIsAdmitted(started, ip, WINDOW_MS + 1, MAX_REQUESTS - 1, [], 1);
  }

  /**
   * The limiter is not the sliding window of 120 requests per minute it is documented as: one request, then
   * 119 at the end of its window and 120 just after, are all admitted, 239 of them within one minute.
   */
  lemma MinuteAdmits239(ip: string)
    ensures Monotone(LateBurst(ip))
    ensures Admitted(LateBurst(ip), Answers(map[], LateBurst(ip), true), ip, 1) == 2 * MAX_REQUESTS - 1
  {
    LateBurstIsMonotone(ip);
    var started: Table := map[][ip := Window(1, 0)];
    var full := started[ip := Window(MAX_REQUESTS, 0)];
    FirstOfBurst(map[], ip, 0, Repeat(Request(ip, WINDOW_MS), MAX_REQUESTS - 1) + SecondWindow(ip), 1);
    BurstIsAdmitted(started, ip, WINDOW_MS, MAX_REQUESTS - 1, SecondWindow(ip), 1);
    SecondWindowIsAdmitted(full, ip);
  }

  // ---- Exactly which minutes keep to 120 ----

  /** The table after events, never evicting. */
  function TableAfter(table: Table, events: seq<Event>): Table
    decreases |events|
  {
    if events == [] then table else TableAfter(Apply(table, events[0], false), events[1..])
  }

  /** Whether the k-th event is a request that opens a new window of its address. */
  predicate Opens(events: seq<Event>, k: nat, ip: string)
    requires k < |events|
  {
    && events[k].Request? && events[k].ip == ip
    && var table := TableAfter(map[], events[..k]); ip !in table || Stale(table[ip], events[k].at)
  }

  /** The requests of `ip` in the interval, admitted or not. */
  function Requests(events: seq<Event>, ip: string, from: int): nat {
    if events == [] then 0 else (if Counts(events[0], ip, from) then 1 else 0) + Requests(events[1..], ip, from)
  }

  function AdmittedFrom(table: Table, events: seq<Event>, ip: string, from: int): nat {
    Admitted(events, Answers(table, events, false), ip, from)
  }

  lemma AdmittedFirst(table: Table, events: seq<Event>, ip: string, from: int)
    requires events != []
    ensures AdmittedFrom(table, events, ip, from)
            == (if Answer(table, events[0]) && Counts(events[0], ip, from) then 1 else 0)
               + AdmittedFrom(Apply(table, events[0], false), events[1..], ip, from)
  {
    assert Answers(table, events, false)[1..] == Answers(Apply(table, events[0], false), events[1..], false);
  }

  lemma {:induction false} AdmittedSplit(table: Table, events: seq<Event>, k: nat, ip: string, from: int)
    requires k <= |events|
    ensures AdmittedFrom(table, events, ip, from)
            == AdmittedFrom(table, events[..k], ip, from)
               + AdmittedFrom(TableAfter(table, events[..k]), events[k..], ip, from)
    decreases k
  {
    if k == 0 {
      assert events[k..] == events && events[..k] == [];
    } else {
      AdmittedFirst(table, events, ip, from);
      AdmittedFirst(table, events[..k], ip, from);
      assert events[..k][1..] == events[1..][..k - 1] && events[k..] == events[1..][k - 1..];
      AdmittedSplit(Apply(table, events[0], false), events[1..], k - 1, ip, from);
    }
  }

  lemma {:induction false} NothingLate(table: Table, events: seq<Event>, ip: string, from: int)
    requires Monotone(events) && (events != [] ==> events[0].at > from + WINDOW_MS)
    ensures AdmittedFrom(table, events, ip, from) == 0 && Requests(events, ip, from) == 0
    decreases |events|
  {
    if events != [] {
      AdmittedFirst(table, events, ip, from);
      NothingLate(Apply(table, events[0], false), events[1..], ip, from);
    }
  }

  /** Once a window has opened inside the interval, the rest of the interval lies in it. */
  lemma {:induction false} InsideWindow(table: Table, events: seq<Event>, ip: string, from: int)
    requires Monotone(events) && ip in table && from <= table[ip].windowStart
    requires events != [] ==> table[ip].windowStart <= events[0].at
    ensures AdmittedFrom(table, events, ip, from)
            == AtMostMax(table[ip].count + Requests(events, ip, from)) - AtMostMax(table[ip].count)
    decreases |events|
  {
    if events != [] {
      if events[0].at > from + WINDOW_MS {
        NothingLate(table, events, ip, from);
      } else {
        AdmittedFirst(table, events, ip, from);
        InsideWindow(Apply(table, events[0], false), events[1..], ip, from);
      }
    }
  }

  /**
   * When a window of the address opens inside the interval, what is admitted is what the interval admitted before,
   * from the earlier window, and the first 120 of the requests from then on.
   */
  lemma TwoWindows(events: seq<Event>, k: nat, ip: string, from: int)
    requires Monotone(events) && k < |events| && Opens(events, k, ip) && from <= events[k].at <= from + WINDOW_MS
    ensures AdmittedFrom(map[], events, ip, from)
            == AdmittedFrom(map[], events[..k], ip, from) + AtMostMax(Requests(events[k..], ip, from))
  {
    var table, rest := TableAfter(map[], events[..k]), events[k..];
    AdmittedSplit(map[], events, k, ip, from);
    AdmittedFirst(table, rest, ip, from);
    InsideWindow(Apply(table, rest[0], false), rest[1..], ip, from);
  }

  lemma {:induction false} TableAfterLast(table: Table, events: seq<Event>)
    requires events != []
    ensures TableAfter(table, events)
            == Apply(TableAfter(table, events[..|events| - 1]), events[|events| - 1], false)
    decreases |events|
  {
    if |events| == 1 {
      assert events[..0] == [];
    } else {
      var first, rest := Apply(table, events[0], false), events[1..];
      TableAfterLast(first, rest);
      assert events[..|events| - 1][1..] == rest[..|rest| - 1];
    }
  }

  lemma TableAfterNext(events: seq<Event>, done: nat)
    requires done < |events|
    ensures TableAfter(map[], events[..done + 1]) == Apply(TableAfter(map[], events[..done]), events[done], false)
  {
    TableAfterLast(map[], events[..done + 1]);
    assert events[..done + 1][..done] == events[..done];
  }

  /** No window of the address opens inside the interval. */
  ghost predicate NoneOpens(events: seq<Event>, ip: string, from: int) {
    forall k :: 0 <= k < |events| && from <= events[k].at <= from + WINDOW_MS ==> !Opens(events, k, ip)
  }

  lemma {:induction false} OneWindowFrom(events: seq<Event>, done: nat, ip: string, from: int)
    requires Monotone(events) && done <= |events| && NoneOpens(events, ip, from)
    ensures var table := TableAfter(map[], events[..done]);
            && AdmittedFrom(table, events[done..], ip, from) <= MAX_REQUESTS
            && (ip in table && done < |events| && events[done].at >= from ==>
                  AdmittedFrom(table, events[done..], ip, from) <= MAX_REQUESTS - AtMostMax(table[ip].count))
    decreases |events| - done
  {
    if done < |events| {
      var table, rest := TableAfter(map[], events[..done]), events[done..];
      if events[done].at > from + WINDOW_MS {
        NothingLate(table, rest, ip, from);
      } else {
        AdmittedFirst(table, rest, ip, from);
        TableAfterNext(events, done);
        assert rest[1..] == events[done + 1..];
        OneWindowFrom(events, done + 1, ip, from);
        if from <= events[done].at {
          assert !Opens(events, done, ip);
        }
      }
    }
  }

  /** When none opens, the interval admits at most 120. */
  lemma OneWindow(events: seq<Event>, ip: string, from: int)
    requires Monotone(events) && NoneOpens(events, ip, from)
    ensures AdmittedFrom(map[], events, ip, from) <= MAX_REQUESTS
  {
    OneWindowFrom(events, 0, ip, from);
    assert events[..0] == [] && events[0..] == events;
  }

  /**
   * A minute keeps to 120 exactly when, if a window opens inside it, the requests it admitted before that and the
   * requests from then on, up to 120 of them, add up to no more.
   */
  lemma MinuteKeeps120Exactly(events: seq<Event>, ip: string, from: int)
    requires Monotone(events)
    ensures Admitted(events, Answers(map[], events, true), ip, from) <= MAX_REQUESTS
            <==> forall k :: 0 <= k < |events| && from <= events[k].at <= from + WINDOW_MS && Opens(events, k, ip) ==>
                   AdmittedFrom(map[], events[..k], ip, from) + AtMostMax(Requests(events[k..], ip, from)) <= MAX_REQUESTS
  {
    EvictionIsInvisible(events);
    forall k | 0 <= k < |events| && from <= events[k].at <= from + WINDOW_MS && Opens(events, k, ip)
      ensures AdmittedFrom(map[], events, ip, from)
              == AdmittedFrom(map[], events[..k], ip, from) + AtMostMax(Requests(events[k..], ip, from))
    {
      TwoWindows(events, k, ip, from);
    }
    if NoneOpens(events, ip, from) {
      OneWindow(events, ip, from);
    }
  }

  /** In particular when no window opens inside it after a request it admitted. */
  lemma QuietMinuteKeeps120(events: seq<Event>, ip: string, from: int)
    requires Monotone(events)
    requires forall k :: 0 <= k < |events| && from <= events[k].at <= from + WINDOW_MS && Opens(events, k, ip) ==>
               AdmittedFrom(map[], events[..k], ip, from) == 0
    ensures Admitted(events, Answers(map[], events, true), ip, from) <= MAX_REQUESTS
  {
    MinuteKeeps120Exactly(events, ip, from);
  }

  // ---- The minutes that begin with a window ----

  lemma {:induction false} StaysFresh(table: Table, events: seq<Event>, ip: string, at: int)
    requires ip in table && !Stale(table[ip], at) && forall k :: 0 <= k < |events| ==> events[k].at == at
    ensures var after := TableAfter(table, events); ip in after && !Stale(after[ip], at)
    decreases |events|
  {
    if events != [] {
      StaysFresh(Apply(table, events[0], false), events[1..], ip, at);
    }
  }

  /** Before a window opens, its own first millisecond has no request of the address. */
  lemma {:induction false} NoneBeforeOpening(table: Table, events: seq<Event>, ip: string, at: int)
    requires Monotone(events) && forall k :: 0 <= k < |events| ==> events[k].at <= at
    requires var after := TableAfter(table, events); ip !in after || Stale(after[ip], at)
    ensures AdmittedFrom(table, events, ip, at) == 0
    decreases |events|
  {
    if events != [] {
      var next := Apply(table, events[0], false);
      AdmittedFirst(table, events, ip, at);
      NoneBeforeOpening(next, events[1..], ip, at);
      if Counts(events[0], ip, at) {
        StaysFresh(next, events[1..], ip, at);
      }
    }
  }

  /** A minute that begins when a window opens admits exactly its first 120 requests. */
  lemma AlignedMinuteKeeps120(events: seq<Event>, k: nat, ip: string)
    requires Monotone(events) && k < |events| && Opens(events, k, ip)
    ensures Admitted(events, Answers(map[], events, true), ip, events[k].at)
            == AtMostMax(Requests(events[k..], ip, events[k].at))
  {
    EvictionIsInvisible(events);
    TwoWindows(events, k, ip, events[k].at);
    NoneBeforeOpening(map[], events[..k], ip, events[k].at);
  }
}
