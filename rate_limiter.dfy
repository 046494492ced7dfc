/** A sliding-window rate limiter for events, per key
    (io/github/andresviedma/poket/utils/ratelimit/RateLimiter.kt). */
module RateLimiting {
  import opened Base
  import opened RateLimitConfiguration

  /** The events of `events` (epoch milliseconds) that are still in the slot ending at
      `timestamp`: those at most `slotTimeMillis` before it. */
  function InSlot(events: seq<int>, timestamp: int, slotTimeMillis: int): (r: seq<int>)
    ensures |r| <= |events|
  {
    if events == [] then []
    else
      var rest := InSlot(events[..|events| - 1], timestamp, slotTimeMillis);
      var last := events[|events| - 1];
      assert events == events[..|events| - 1] + [last];
      if timestamp - last <= slotTimeMillis then rest + [last] else rest
  }

  /** The decision of `eventInRateLimitLogic` on the stored events of a key: whether the
      event is in the limit, and the events stored for the key afterwards. */
  datatype Decision = Decision(inLimit: bool, stored: seq<int>)

  function Decide(stored: seq<int>, timestamp: int, config: RateLimitTypeConfig): (d: Decision)
    ensures d.inLimit <==> |InSlot(stored, timestamp, config.slotTimeMillis)| + 1 <= config.maxEvents
    ensures d.inLimit ==> d.stored == InSlot(stored, timestamp, config.slotTimeMillis) + [timestamp]
    ensures !d.inLimit ==> d.stored == InSlot(stored, timestamp, config.slotTimeMillis)
  {
    var slotEvents := InSlot(stored, timestamp, config.slotTimeMillis);
    if |slotEvents| + 1 > config.maxEvents then Decision(false, slotEvents)
    else Decision(true, slotEvents + [timestamp])
  }

  /** The events cache of one rate limiter: stored events per key, and the switch that
      makes every later event exceed the limit. */
  class RateLimiter {
    const limiterType: string
    var events: map<string, seq<int>>
    var forceRateLimit: bool

    /** The key used by the calls that take no key. */
    static const GlobalKey := "-"

    constructor (limiterType: string)
      ensures this.limiterType == limiterType && events == map[] && !forceRateLimit
    {
      this.limiterType := limiterType;
      events := map[];
      forceRateLimit := false;
    }

    function StoredEvents(key: string): seq<int>
      reads this
    {
      if key in events then events[key] else []
    }

    /** `eventInRateLimitLogic`: prunes the key's events to the current slot and records
        the event when it fits in the limit. */
    method EventInRateLimitLogic(key: string, timestamp: int, config: RateLimitTypeConfig) returns (inLimit: bool)
      modifies this`events
      ensures var d := Decide(old(StoredEvents(key)), timestamp, config);
              inLimit == d.inLimit && events == old(events)[key := d.stored]
    {
      var d := Decide(StoredEvents(key), timestamp, config);
      events := events[key := d.stored];
      inLimit := d.inLimit;
    }

    /** `eventInRateLimit(key, timestamp)`: always in the limit when the limit is not
        active; never once the limit has been forced; otherwise decided by the events of
        the slot. */
    method EventInRateLimit(key: string, timestamp: int, config: RateLimitTypeConfig) returns (inLimit: bool)
      modifies this`events
      ensures !config.Active() ==> inLimit && events == old(events)
      ensures config.Active() && forceRateLimit ==> !inLimit && events == old(events)
      ensures config.Active() && !forceRateLimit ==>
                var d := Decide(old(StoredEvents(key)), timestamp, config);
                inLimit == d.inLimit && events == old(events)[key := d.stored]
    {
      if !config.Active() {
        inLimit := true;
      } else if forceRateLimit {
        inLimit := false;
      } else {
        inLimit := EventInRateLimitLogic(key, timestamp, config);
      }
    }

    /** `runIfInRateLimit(key, timestamp, action)`: the action's result when the event is in
        the limit, null otherwise. */
    method RunIfInRateLimit<T>(key: string, timestamp: int, config: RateLimitTypeConfig, action: () -> T)
      returns (r: Option<T>)
      modifies this`events
      ensures !config.Active() ==> r == Some(action()) && events == old(events)
      ensures config.Active() && forceRateLimit ==> r == None && events == old(events)
      ensures config.Active() && !forceRateLimit ==>
                var d := Decide(old(StoredEvents(key)), timestamp, config);
                r == (if d.inLimit then Some(action()) else None) && events == old(events)[key := d.stored]
    {
      var inLimit := EventInRateLimit(key, timestamp, config);
      r := if inLimit then Some(action()) else None;
    }

    /** `exceedsRateLimit(key, timestamp)`: the negation of `eventInRateLimit`. */
    method ExceedsRateLimit(key: string, timestamp: int, config: RateLimitTypeConfig) returns (exceeds: bool)
      modifies this`events
      ensures !config.Active() ==> !exceeds && events == old(events)
      ensures config.Active() && forceRateLimit ==> exceeds && events == old(events)
      ensures config.Active() && !forceRateLimit ==>
                var d := Decide(old(StoredEvents(key)), timestamp, config);
                exceeds == !d.inLimit && events == old(events)[key := d.stored]
    {
      var inLimit := EventInRateLimit(key, timestamp, config);
      exceeds := !inLimit;
    }

    /** `forceRateLimitInEvents`. */
    method ForceRateLimitInEvents()
      modifies this`forceRateLimit
      ensures forceRateLimit
    {
      forceRateLimit := true;
    }
  }

  /** The stored events and the admitted events after a sequence of events for one key,
      with an active limit that was never forced. */
  datatype Replay = Replay(stored: seq<int>, admitted: seq<int>)

  function ReplayEvents(timestamps: seq<int>, config: RateLimitTypeConfig): Replay {
    if timestamps == [] then Replay([], [])
    else
      var before := ReplayEvents(timestamps[..|timestamps| - 1], config);
      var t := timestamps[|timestamps| - 1];
      var d := Decide(before.stored, t, config);
      Replay(d.stored, if d.inLimit then before.admitted + [t] else before.admitted)
  }

  predicate NonDecreasing(s: seq<int>) { forall i, j :: 0 <= i < j < |s| ==> s[i] <= s[j] }

  lemma {:induction false} InSlotAppend(s: seq<int>, x: int, t: int, slot: int)
    ensures InSlot(s + [x], t, slot) == InSlot(s, t, slot) + (if t - x <= slot then [x] else [])
  {
    assert (s + [x])[..|s + [x]| - 1] == s;
  }

  /** Pruning by an earlier time and then by a later one is pruning by the later one. */
  lemma {:induction false} InSlotTwice(s: seq<int>, t1: int, t2: int, slot: int)
    requires t1 <= t2
    ensures InSlot(InSlot(s, t1, slot), t2, slot) == InSlot(s, t2, slot)
    decreases |s|
  {
    if s != [] {
      var init, x := s[..|s| - 1], s[|s| - 1];
      assert s == init + [x];
      InSlotTwice(init, t1, t2, slot);
      InSlotAppend(init, x, t1, slot);
      InSlotAppend(init, x, t2, slot);
      if t1 - x <= slot {
        InSlotAppend(InSlot(init, t1, slot), x, t2, slot);
      }
    }
  }

  /** With events in time order, the stored events are exactly the admitted events that
      are still in the slot of the latest event. */
  lemma {:induction false} StoredAreAdmittedInSlot(timestamps: seq<int>, config: RateLimitTypeConfig)
    requires |timestamps| >= 1 && NonDecreasing(timestamps) && config.slotTimeMillis >= 0
    ensures var r := ReplayEvents(timestamps, config);
            r.stored == InSlot(r.admitted, timestamps[|timestamps| - 1], config.slotTimeMillis)
    decreases |timestamps|
  {
    var init := timestamps[..|timestamps| - 1];
    var t := timestamps[|timestamps| - 1];
    var slot := config.slotTimeMillis;
    var before := ReplayEvents(init, config);
    if init == [] {
      assert before == Replay([], []);
      assert InSlot([t], t, slot) == [t] by { InSlotAppend([], t, t, slot); }
    } else {
      StoredAreAdmittedInSlot(init, config);
      var previous := init[|init| - 1];
      assert previous <= t;
      InSlotTwice(before.admitted, previous, t, slot);
      InSlotAppend(before.admitted, t, t, slot);
    }
  }

  /** The rate limit guarantee: whenever an event is admitted, the admitted events in the
      slot ending at it, itself included, are at most `maxEvents`. */
  lemma AdmittedWithinLimit(timestamps: seq<int>, config: RateLimitTypeConfig)
    requires |timestamps| >= 1 && NonDecreasing(timestamps) && config.slotTimeMillis >= 0
    requires Decide(ReplayEvents(timestamps[..|timestamps| - 1], config).stored, timestamps[|timestamps| - 1], config).inLimit
    ensures |InSlot(ReplayEvents(timestamps, config).admitted, timestamps[|timestamps| - 1], config.slotTimeMillis)|
              <= config.maxEvents
  {
    StoredAreAdmittedInSlot(timestamps, config);
  }

  /** The events of a slot, for up to three stored events. */
  lemma InSlotOfThree(a: int, b: int, c: int, t: int, slot: int)
    ensures InSlot([a], t, slot) == if t - a <= slot then [a] else []
    ensures InSlot([a, b], t, slot) == InSlot([a], t, slot) + if t - b <= slot then [b] else []
    ensures InSlot([a, b, c], t, slot) == InSlot([a, b], t, slot) + if t - c <= slot then [c] else []
  {
    InSlotAppend([], a, t, slot);
    assert [] + [a] == [a];
    InSlotAppend([a], b, t, slot);
    assert [a] + [b] == [a, b];
    InSlotAppend([a, b], c, t, slot);
    assert [a, b] + [c] == [a, b, c];
  }

  /** "More events than the limit": at most three events per 2 seconds, after events 1900,
      500 and 100 ms earlier, a fourth one is rejected. */
  method MoreEventsThanTheLimit(now: int) returns (last: bool)
    ensures !last
  {
    var config := RateLimitTypeConfig(3, 2000, false);
    var key := RateLimiter.GlobalKey;
    var limiter := new RateLimiter("test");
    InSlotOfThree(now - 1900, now - 500, now - 100, now - 500, 2000);
    InSlotOfThree(now - 1900, now - 500, now - 100, now - 100, 2000);
    InSlotOfThree(now - 1900, now - 500, now - 100, now, 2000);
    var a := limiter.EventInRateLimit(key, now - 1900, config);
    assert limiter.StoredEvents(key) == [now - 1900];
    var b := limiter.EventInRateLimit(key, now - 500, config);
    assert limiter.StoredEvents(key) == [now - 1900, now - 500];
    var c := limiter.EventInRateLimit(key, now - 100, config);
    assert limiter.StoredEvents(key) == [now - 1900, now - 500, now - 100];
    last := limiter.EventInRateLimit(key, now, config);
  }

  /** "Events too old are not considered": an event 2100 ms earlier has left the slot. */
  method EventsTooOldAreNotConsidered(now: int) returns (last: bool)
    ensures last
  {
    var config := RateLimitTypeConfig(3, 2000, false);
    var key := RateLimiter.GlobalKey;
    var limiter := new RateLimiter("test");
    InSlotOfThree(now - 2100, now - 500, now - 50, now - 500, 2000);
    InSlotOfThree(now - 2100, now - 500, now - 50, now - 50, 2000);
    InSlotOfThree(now - 500, now - 50, now, now, 2000);
    var a := limiter.EventInRateLimit(key, now - 2100, config);
    assert limiter.StoredEvents(key) == [now - 2100];
    var b := limiter.EventInRateLimit(key, now - 500, config);
    assert limiter.StoredEvents(key) == [now - 2100, now - 500];
    var c := limiter.EventInRateLimit(key, now - 50, config);
    assert limiter.StoredEvents(key) == [now - 500, now - 50];
    last := limiter.EventInRateLimit(key, now, config);
  }

  /** "Events with key": the limit is counted per key. */
  method EventsWithKey(now: int) returns (result1: bool, result2: bool)
    ensures !result1 && result2
  {
    var config := RateLimitTypeConfig(3, 2000, false);
    var limiter := new RateLimiter("test");
    InSlotOfThree(now - 1900, now - 500, now - 200, now - 500, 2000);
    InSlotOfThree(now - 1900, now - 500, now - 200, now - 200, 2000);
    InSlotOfThree(now - 1900, now - 500, now - 200, now, 2000);
    InSlotOfThree(now - 100, now, now, now, 2000);
    var a := limiter.EventInRateLimit("1", now - 1900, config);
    var b := limiter.EventInRateLimit("1", now - 500, config);
    var c := limiter.EventInRateLimit("1", now - 200, config);
    var d := limiter.EventInRateLimit("2", now - 100, config);
    assert limiter.StoredEvents("1") == [now - 1900, now - 500, now - 200];
    assert limiter.StoredEvents("2") == [now - 100];
    result1 := limiter.EventInRateLimit("1", now, config);
    result2 := limiter.EventInRateLimit("2", now, config);
  }

  /** "Disabled": a disabled type admits an event whatever was recorded before, even with a
      limit of three events per slot. */
  method DisabledAdmitsEverything(now: int) returns (last: bool)
    ensures last
  {
    var config := RateLimitTypeConfig(3, 2000, true);
    var key := RateLimiter.GlobalKey;
    var limiter := new RateLimiter("test");
    var a := limiter.EventInRateLimit(key, now - 1900, config);
    var b := limiter.EventInRateLimit(key, now - 500, config);
    var c := limiter.EventInRateLimit(key, now - 100, config);
    last := limiter.EventInRateLimit(key, now, config);
  }

  /** `n` events at the same instant `x`. */
  function Copies(x: int, n: nat): (r: seq<int>)
    ensures |r| == n
  {
    if n == 0 then [] else Copies(x, n - 1) + [x]
  }

  /** Events at an instant within the slot are all kept. */
  lemma {:induction false} InSlotCopies(x: int, n: nat, t: int, slot: int)
    requires t - x <= slot
    ensures InSlot(Copies(x, n), t, slot) == Copies(x, n)
  {
    if n > 0 {
      InSlotCopies(x, n - 1, t, slot);
      InSlotAppend(Copies(x, n - 1), x, t, slot);
    }
  }

  /** "runIfInRateLimit without key": five actions at the same instant with a limit of
      three events per slot; three of them run. */
  method RunFiveTimesInRateLimit(now: int) returns (counter: nat)
    ensures counter == 3
  {
    var config := RateLimitTypeConfig(3, 2000, false);
    var key := RateLimiter.GlobalKey;
    var limiter := new RateLimiter("test");
    counter := 0;
    var i := 0;
    while i < 5
      invariant 0 <= i <= 5 && counter == (if i < 3 then i else 3)
      invariant limiter.StoredEvents(key) == Copies(now, counter)
      invariant !limiter.forceRateLimit
    {
      InSlotCopies(now, counter, now, 2000);
      var r := limiter.RunIfInRateLimit(key, now, config, () => 1);
      if r.Some? {
        counter := counter + 1;
      }
      i := i + 1;
    }
  }
}
