/** The in-memory fixed-window rate limiter and its reaper. */
module RateLimit {
  import opened Sets
  import opened Wrappers

  datatype Entry = Entry(count: nat, expires: int)

  type Entries = map<string, Entry>

  datatype RateResult = RateResult(allowed: bool, limit: nat, remaining: nat, resetAt: int)

  // ----- What one call does -----

  /** The entry whose window is still open. */
  function Live(entries: Entries, key: string, now: int): Option<Entry> {
    if key in entries && now < entries[key].expires then Some(entries[key]) else None
  }

  /** The entry after a request: the open window counts it, or a new one starts with it. */
  function Counted(live: Option<Entry>, window: nat, now: int): Entry {
    if live.Some? then Entry(live.value.count + 1, live.value.expires) else Entry(1, now + window)
  }

  function Answer(entry: Entry, limit: nat): RateResult {
    RateResult(entry.count <= limit, limit, if entry.count <= limit then limit - entry.count else 0, entry.expires)
  }

  /** What a sweep of some of the map's shards leaves. */
  function Swept(entries: Entries, shards: set<string>, now: int): Entries {
    map key | key in entries && (key in shards ==> now < entries[key].expires) :: entries[key]
  }

  class MemoryStore {
    var entries: Entries

    constructor ()
      ensures entries == map[]
    {
      entries := map[];
    }

    method CheckAndIncrement(key: string, limit: nat, window: nat, now: int) returns (r: RateResult)
      modifies this
      ensures entries == Apply(old(entries), Request(key, limit, window, now))
      ensures r == Answer(Counted(Live(old(entries), key, now), window, now), limit)
      ensures var open := key in old(entries) && now < old(entries)[key].expires;
        var n := if open then old(entries)[key].count + 1 else 1;
        var end := if open then old(entries)[key].expires else now + window;
        && entries == old(entries)[key := Entry(n, end)]
        && r.allowed == (n <= limit) && r.limit == limit && r.resetAt == end
        && r.remaining == (if n <= limit then limit - n else 0)
    {
      if key !in entries {
        entries := entries[key := Entry(0, now + window)];
      }
      var count, expires := entries[key].count, entries[key].expires;
      if now >= expires {
        count, expires := 0, now + window;
      }
      count := count + 1;
      entries := entries[key := Entry(count, expires)];
      if count <= limit {
        return RateResult(true, limit, limit - count, expires);
      } else {
        return RateResult(false, limit, 0, expires);
      }
    }

    /** `retain` goes through the map shard by shard; this is its work on some of them. */
    method Reap(shards: set<string>, now: int)
      modifies this
      ensures entries == Swept(old(entries), shards, now)
      ensures forall key :: key in entries <==>
        key in old(entries) && (key in shards ==> now < old(entries)[key].expires)
      ensures forall key :: key in entries ==> entries[key] == old(entries)[key]
    {
      var rest := shards * entries.Keys;
      ghost var before := entries;
      while rest != {}
        invariant rest <= shards * entries.Keys
        invariant entries.Keys <= before.Keys && forall key :: key in entries ==> entries[key] == before[key]
        invariant forall key :: key in before && key !in entries ==> key in shards && now >= before[key].expires
        invariant forall key :: key in shards && key in entries && key !in rest ==> now < entries[key].expires
        decreases |rest|
      {
        ghost var some := Member(rest);
        var key :| key in rest;
        rest := rest - {key};
        if now >= entries[key].expires {
          entries := entries - {key};
        }
      }
      assert entries == Swept(before, shards, now);
    }

    method Reset(key: string)
      modifies this
      ensures entries == old(entries) - {key}
    {
      entries := entries - {key};
    }
  }

  // ----- Runs -----

  datatype Event =
    | Request(key: string, limit: nat, window: nat, now: int)
    | Reap(shards: set<string>, sweptAt: int)
    | Reset(resetKey: string, resetAt: int)

  function TimeOf(event: Event): int {
    match event
    case Request(_, _, _, now) => now
    case Reap(_, now) => now
    case Reset(_, now) => now
  }

  /** The clock never goes back. */
  ghost predicate InOrder(events: seq<Event>) {
    forall i, j :: 0 <= i < j < |events| ==> TimeOf(events[i]) <= TimeOf(events[j])
  }

  function Apply(entries: Entries, event: Event): Entries {
    match event
    case Request(key, limit, window, now) => entries[key := Counted(Live(entries, key, now), window, now)]
    case Reap(shards, now) => Swept(entries, shards, now)
    case Reset(key, _) => entries - {key}
  }

  /** The answers to the requests of a run, in order. */
  function Answers(entries: Entries, events: seq<Event>): seq<RateResult>
    decreases |events|
  {
    if events == [] then []
    else
      var e := events[0];
      (if e.Request? then [Answer(Counted(Live(entries, e.key, e.now), e.window, e.now), e.limit)] else [])
      + Answers(Apply(entries, e), events[1..])
  }

  function WithoutReaps(events: seq<Event>): seq<Event> {
    if events == [] then []
    else (if events[0].Reap? then [] else [events[0]]) + WithoutReaps(events[1..])
  }

  // ----- The reaper changes no answer -----

  /** Two stores that agree on every window still open at `now`. */
  ghost predicate Agree(a: Entries, b: Entries, now: int) {
    forall key :: Live(a, key, now) == Live(b, key, now)
  }

  lemma AgreeLater(a: Entries, b: Entries, now: int, later: int)
    requires Agree(a, b, now) && now <= later
    ensures Agree(a, b, later)
  {
    forall key ensures Live(a, key, later) == Live(b, key, later) {
      assert Live(a, key, now) == Live(b, key, now);
    }
  }

  lemma StepsAgree(a: Entries, b: Entries, event: Event)
    requires Agree(a, b, TimeOf(event))
    ensures event.Reap? ==> Agree(Apply(a, event), b, TimeOf(event))
    ensures !event.Reap? ==> Agree(Apply(a, event), Apply(b, event), TimeOf(event))
    ensures event.Request? ==> Live(a, event.key, event.now) == Live(b, event.key, event.now)
  {
    var now := TimeOf(event);
    var a', b' := Apply(a, event), if event.Reap? then b else Apply(b, event);
    forall key ensures Live(a', key, now) == Live(b', key, now) {
      assert Live(a, key, now) == Live(b, key, now);
    }
  }

  /** Sweeps inserted anywhere in a run, in whole or in part, change no answer. */
  lemma {:induction false} ReaperIsInvisible(a: Entries, b: Entries, events: seq<Event>)
    requires InOrder(events) && (events == [] || Agree(a, b, TimeOf(events[0])))
    ensures Answers(a, events) == Answers(b, WithoutReaps(events))
    decreases |events|
  {
    if events == [] {
    } else {
      var e, rest := events[0], events[1..];
      StepsAgree(a, b, e);
      var a', b' := Apply(a, e), if e.Reap? then b else Apply(b, e);
      if rest != [] {
        AgreeLater(a', b', TimeOf(e), TimeOf(rest[0]));
      }
      ReaperIsInvisible(a', b', rest);
      if e.Reap? {
        assert Answers(a, events) == Answers(a', rest) && [] + WithoutReaps(rest) == WithoutReaps(rest);
      } else {
        var kept := WithoutReaps(events);
        assert kept[0] == e && kept[1..] == WithoutReaps(rest);
      }
    }
  }

  // ----- How many requests are allowed -----

  predicate IsAllowed(entries: Entries, e: Event, key: string) {
    e.Request? && e.key == key && Answer(Counted(Live(entries, key, e.now), e.window, e.now), e.limit).allowed
  }

  /** The requests for `key` that are allowed at times from `from` to `to`. */
  function AllowedIn(entries: Entries, events: seq<Event>, key: string, from: int, to: int): nat
    decreases |events|
  {
    if events == [] then 0
    else
      var e := events[0];
      (if IsAllowed(entries, e, key) && from <= e.now <= to then 1 else 0)
      + AllowedIn(Apply(entries, e), events[1..], key, from, to)
  }

  /** All requests for the key use one limit and one window, and nobody resets it. */
  ghost predicate Fixed(events: seq<Event>, key: string, limit: nat, window: nat) {
    forall e :: e in events ==>
      && (e.Request? && e.key == key ==> e.limit == limit && e.window == window)
      && (e.Reset? ==> e.resetKey != key)
  }

  /**
   What can still be allowed from `now` up to `to`: the rest of the open window,
   and a whole window for each that can still start.
   */
  function Budget(live: Option<Entry>, limit: nat, window: nat, now: int, to: int): int {
    if live.None? then if now + window > to then limit else 2 * limit
    else
      var left := if live.value.count < limit then limit - live.value.count else 0;
      if live.value.expires > to then left else left + limit
  }

  lemma BudgetShrinks(entries: Entries, key: string, limit: nat, window: nat, from: int, now: int, later: int, to: int)
    requires from <= now <= later <= to <= from + window
    ensures Budget(Live(entries, key, later), limit, window, later, to)
         <= Budget(Live(entries, key, now), limit, window, now, to)
  {}

  lemma BudgetPays(entries: Entries, e: Event, key: string, limit: nat, window: nat, from: int, to: int)
    requires window > 0 && from <= TimeOf(e) <= to <= from + window
    requires Fixed([e], key, limit, window)
    ensures (if IsAllowed(entries, e, key) then 1 else 0)
      + Budget(Live(Apply(entries, e), key, TimeOf(e)), limit, window, TimeOf(e), to)
      <= Budget(Live(entries, key, TimeOf(e)), limit, window, TimeOf(e), to)
  {
    assert e in [e];
  }

  lemma {:induction false} NothingAfter(entries: Entries, events: seq<Event>, key: string, from: int, to: int)
    requires InOrder(events) && (events == [] || TimeOf(events[0]) > to)
    ensures AllowedIn(entries, events, key, from, to) == 0
    decreases |events|
  {
    if events == [] {
    } else {
      NothingAfter(Apply(entries, events[0]), events[1..], key, from, to);
    }
  }

  lemma {:induction false} BudgetIsEnough(entries: Entries, events: seq<Event>, key: string, limit: nat, window: nat,
      from: int, now: int, to: int)
    requires window > 0 && from <= now <= to <= from + window
    requires InOrder(events) && (events == [] || now <= TimeOf(events[0])) && Fixed(events, key, limit, window)
    ensures AllowedIn(entries, events, key, from, to) <= Budget(Live(entries, key, now), limit, window, now, to)
    decreases |events|
  {
    if events == [] {
    } else {
      var e := events[0];
      if TimeOf(e) > to {
        NothingAfter(entries, events, key, from, to);
      } else {
        BudgetShrinks(entries, key, limit, window, from, now, TimeOf(e), to);
        assert Fixed([e], key, limit, window);
        BudgetPays(entries, e, key, limit, window, from, to);
        BudgetIsEnough(Apply(entries, e), events[1..], key, limit, window, from, TimeOf(e), to);
      }
    }
  }

  /**
   Whatever the store holds at first, at most `2 * limit` requests for a key are
   allowed in any closed interval as long as the window: at most two windows
   reach into it.
   */
  lemma {:induction false} AtMostTwiceTheLimit(entries: Entries, events: seq<Event>, key: string, limit: nat,
      window: nat, from: int)
    requires window > 0 && InOrder(events) && Fixed(events, key, limit, window)
    ensures AllowedIn(entries, events, key, from, from + window) <= 2 * limit
    decreases |events|
  {
    if events == [] {
    } else {
      var e := events[0];
      if TimeOf(e) < from {
        AtMostTwiceTheLimit(Apply(entries, e), events[1..], key, limit, window, from);
      } else {
        BudgetIsEnough(entries, events, key, limit, window, from, from, from + window);
      }
    }
  }

  /** `n` requests at once. */
  function Burst(n: nat, key: string, limit: nat, window: nat, now: int): (events: seq<Event>)
    ensures |events| == n && forall e :: e in events ==> e == Request(key, limit, window, now)
  {
    if n == 0 then [] else [Request(key, limit, window, now)] + Burst(n - 1, key, limit, window, now)
  }

  /** A burst that fits into the open window is allowed, and counted. */
  lemma {:induction false} BurstInWindow(
      entries: Entries, n: nat, key: string, limit: nat, window: nat, now: int, rest: seq<Event>, from: int, to: int)
    requires from <= now <= to && key in entries && now < entries[key].expires && entries[key].count + n <= limit
    ensures AllowedIn(entries, Burst(n, key, limit, window, now) + rest, key, from, to) ==
      n + AllowedIn(entries[key := Entry(entries[key].count + n, entries[key].expires)], rest, key, from, to)
    decreases n
  {
    var events := Burst(n, key, limit, window, now) + rest;
    if n == 0 {
      assert events == rest && entries[key := entries[key]] == entries;
    } else {
      var e := Request(key, limit, window, now);
      assert events == [e] + (Burst(n - 1, key, limit, window, now) + rest);
      assert events[1..] == Burst(n - 1, key, limit, window, now) + rest;
      var next := Apply(entries, e);
      BurstInWindow(next, n - 1, key, limit, window, now, rest, from, to);
      assert next[key := Entry(next[key].count + (n - 1), next[key].expires)]
          == entries[key := Entry(entries[key].count + n, entries[key].expires)];
    }
  }

  /** A burst of `limit` that opens a window is allowed, and uses it up. */
  lemma BurstOpensWindow(entries: Entries, key: string, limit: nat, window: nat, now: int, rest: seq<Event>, from: int,
      to: int)
    requires from <= now <= to && window > 0 && limit > 0 && Live(entries, key, now).None?
    ensures AllowedIn(entries, Burst(limit, key, limit, window, now) + rest, key, from, to) ==
      limit + AllowedIn(entries[key := Entry(limit, now + window)], rest, key, from, to)
  {
    var e := Request(key, limit, window, now);
    var events := Burst(limit, key, limit, window, now) + rest;
    assert events == [e] + (Burst(limit - 1, key, limit, window, now) + rest);
    assert events[1..] == Burst(limit - 1, key, limit, window, now) + rest;
    var next := Apply(entries, e);
    BurstInWindow(next, limit - 1, key, limit, window, now, rest, from, to);
    assert next[key := Entry(limit, now + window)] == entries[key := Entry(limit, now + window)];
  }

  lemma NothingMore(entries: Entries, key: string, from: int, to: int)
    ensures AllowedIn(entries, [], key, from, to) == 0
  {}

  lemma BurstsInOrder(key: string, limit: nat, window: nat)
    ensures var events := Burst(limit, key, limit, window, 0) + Burst(limit, key, limit, window, window);
      InOrder(events) && Fixed(events, key, limit, window)
  {
    var first, second := Burst(limit, key, limit, window, 0), Burst(limit, key, limit, window, window);
    var events := first + second;
    forall i | 0 <= i < |events| ensures events[i] == Request(key, limit, window, if i < limit then 0 else window) {
      assert i < limit ==> events[i] in first;
      assert i >= limit ==> events[i] in second;
    }
  }

  /** The bound is reached for every limit and window: a full window, and a full one right at its end. */
  lemma TwiceTheLimitHappens(key: string, limit: nat, window: nat) returns (events: seq<Event>)
    requires window > 0
    ensures InOrder(events) && Fixed(events, key, limit, window)
    ensures AllowedIn(map[], events, key, 0, window) == 2 * limit
  {
    hide Burst;
    var first, second := Burst(limit, key, limit, window, 0), Burst(limit, key, limit, window, window);
    events := first + second;
    BurstsInOrder(key, limit, window);
    if limit == 0 {
      assert events == [];
    } else {
      hide InOrder, Fixed, AllowedIn;
      NothingMore(map[key := Entry(limit, window + window)], key, 0, window);
      assert Live(map[], key, 0) == None && Live(map[key := Entry(limit, window)], key, window) == None;
      assert map[key := Entry(limit, window)][key := Entry(limit, window + window)] ==
        map[key := Entry(limit, window + window)];
      BurstOpensWindow(map[], key, limit, window, 0, second, 0, window);
      assert second + [] == second;
      BurstOpensWindow(map[key := Entry(limit, window)], key, limit, window, window, [], 0, window);
    }
  }

  // ----- The answers within one window -----

  /** The answers to the requests for one key, in order. */
  function AnswersFor(entries: Entries, events: seq<Event>, key: string): seq<RateResult>
    decreases |events|
  {
    if events == [] then []
    else
      var e := events[0];
      (if e.Request? && e.key == key
       then [Answer(Counted(Live(entries, key, e.now), e.window, e.now), e.limit)] else [])
      + AnswersFor(Apply(entries, e), events[1..], key)
  }

  /** Requests for the key with one limit, all before `end`, and no reset of it. */
  ghost predicate Within(events: seq<Event>, key: string, limit: nat, end: int) {
    forall e :: e in events ==>
      && TimeOf(e) < end
      && (e.Request? && e.key == key ==> e.limit == limit)
      && (e.Reset? ==> e.resetKey != key)
  }

  /**
   While a window is open, whatever requests for other keys and sweeps come in
   between, its n-th request is allowed exactly if n is at most the limit; the
   answer says how many more will be, and when the window ends.
   */
  lemma {:induction false} WindowAnswers(entries: Entries, events: seq<Event>, key: string, limit: nat, i: nat)
    requires key in entries && Within(events, key, limit, entries[key].expires)
    requires i < |AnswersFor(entries, events, key)|
    ensures var n := entries[key].count + i + 1;
      AnswersFor(entries, events, key)[i] ==
        RateResult(n <= limit, limit, if n <= limit then limit - n else 0, entries[key].expires)
    decreases |events|
  {
    var e := events[0];
    assert e in events && forall other :: other in events[1..] ==> other in events;
    var next := Apply(entries, e);
    if e.Request? && e.key == key {
      if i > 0 {
        WindowAnswers(next, events[1..], key, limit, i - 1);
      }
    } else {
      WindowAnswers(next, events[1..], key, limit, i);
    }
  }

  /** The request that finds no open window opens one, as long as its own window says. */
  lemma WindowOpens(entries: Entries, events: seq<Event>, key: string, limit: nat, window: nat, now: int, i: nat)
    requires window > 0 && Live(entries, key, now).None?
    requires Within(events, key, limit, now + window)
    requires i < |AnswersFor(entries, [Request(key, limit, window, now)] + events, key)|
    ensures AnswersFor(entries, [Request(key, limit, window, now)] + events, key)[i] ==
      RateResult(i + 1 <= limit, limit, if i + 1 <= limit then limit - (i + 1) else 0, now + window)
  {
    var all := [Request(key, limit, window, now)] + events;
    assert all[1..] == events;
    var next := entries[key := Entry(1, now + window)];
    assert Apply(entries, all[0]) == next;
    if i > 0 {
      WindowAnswers(next, events, key, limit, i - 1);
    }
  }
}
