/**
 The in-memory sliding-window rate limiter (frontend/src/lib/rate-limit.ts).

 `RateLimiter` is the class of the source, run against an explicit event loop that owns the
 cleanup timers.  Its methods are tied to pure steps on `State`; the theorems are about whole
 runs of those steps and compare the limiter with one that never forgets anything.
 */
module RateLimiting {

  datatype Options = Options(maxRequests: int, windowMs: int)
  datatype Timer = Timer(ip: string, due: int)
  datatype Entry = Entry(timestamps: seq<int>, timer: nat)
  datatype State = State(clock: int, entries: map<string, Entry>, timers: map<nat, Timer>, nextTimer: nat)

  /** Timers of the Node.js runtime: a delay outside 1 .. 2^31-1 is replaced by one millisecond. */
  const MAX_TIMER_DELAY := 0x7fff_ffff

  function TimerDelay(ms: int): int {
    if 1 <= ms <= MAX_TIMER_DELAY then ms else 1
  }

  /** The timestamps strictly after `cutoff`, in order. */
  function After(ts: seq<int>, cutoff: int): seq<int> {
    if ts == [] then []
    else After(ts[..|ts| - 1], cutoff) + (if ts[|ts| - 1] > cutoff then [ts[|ts| - 1]] else [])
  }

  const INIT := State(0, map[], map[], 0)

  /** The state once `ip` has an entry: a new one starts empty, with a cleanup timer of its own. */
  function Created(o: Options, s: State, ip: string): State {
    if ip in s.entries then s
    else s.(entries := s.entries[ip := Entry([], s.nextTimer)],
            timers := s.timers[s.nextTimer := Timer(ip, s.clock + TimerDelay(2 * o.windowMs))],
            nextTimer := s.nextTimer + 1)
  }

  /** The state once the timestamps of `ip` outside the current window are dropped. */
  function Slid(o: Options, s: State, ip: string): State
    requires ip in s.entries
  {
    var Entry(ts, timer) := s.entries[ip];
    s.(entries := s.entries[ip := Entry(After(ts, s.clock - o.windowMs), timer)])
  }

  /** The state once a request of `ip` is let through: recorded, and the cleanup timer restarted. */
  function Admitted(o: Options, s: State, ip: string): State
    requires ip in s.entries
  {
    var Entry(ts, timer) := s.entries[ip];
    s.(entries := s.entries[ip := Entry(ts + [s.clock], s.nextTimer)],
       timers := (s.timers - {timer})[s.nextTimer := Timer(ip, s.clock + TimerDelay(2 * o.windowMs))],
       nextTimer := s.nextTimer + 1)
  }

  function Remembered(s: State, ip: string): seq<int> {
    if ip in s.entries then s.entries[ip].timestamps else []
  }

  predicate Admits(o: Options, ts: seq<int>, now: int) {
    |After(ts, now - o.windowMs)| < o.maxRequests
  }

  /** What `check` tells its caller. */
  predicate Answer(o: Options, s: State, ip: string, now: int) {
    Admits(o, Remembered(s, ip), now)
  }

  /** What one `check` does to the limiter and its timers. */
  function AfterCheck(o: Options, s: State, ip: string, now: int): State {
    var slid := Slid(o, Created(o, s.(clock := now), ip), ip);
    if Answer(o, s, ip, now) then Admitted(o, slid, ip) else slid
  }

  lemma SlidRemembers(o: Options, s: State, ip: string, now: int)
    ensures var slid := Slid(o, Created(o, s.(clock := now), ip), ip);
            ip in slid.entries && slid.entries[ip].timestamps == After(Remembered(s, ip), now - o.windowMs)
  {
    assert After([], now - o.windowMs) == [];
  }

  /** The effect of a live timer's callback. */
  function FireStep(s: State, id: nat, now: int): State {
    if id !in s.timers then s.(clock := now)
    else State(now, s.entries - {s.timers[id].ip}, s.timers - {id}, s.nextTimer)
  }

  // ---------------------------------------------------------------- the class

  class LimiterEntry {
    var timestamps: seq<int>
    var timer: nat

    constructor (timer: nat)
      ensures timestamps == [] && this.timer == timer
    {
      this.timestamps, this.timer := [], timer;
    }
  }

  /** The timers the runtime currently holds, and the clock. */
  class EventLoop {
    var clock: int
    var timers: map<nat, Timer>
    var nextTimer: nat

    constructor ()
      ensures clock == 0 && timers == map[] && nextTimer == 0
    {
      clock, timers, nextTimer := 0, map[], 0;
    }

    method SetTimeout(ip: string, ms: int) returns (id: nat)
      modifies this
      ensures id == old(nextTimer) && nextTimer == id + 1 && clock == old(clock)
      ensures timers == old(timers)[id := Timer(ip, clock + TimerDelay(ms))]
    {
      id := nextTimer;
      timers, nextTimer := timers[id := Timer(ip, clock + TimerDelay(ms))], id + 1;
    }

    method ClearTimeout(id: nat)
      modifies this`timers
      ensures timers == old(timers) - {id}
    {
      timers := timers - {id};
    }
  }

  class RateLimiter {
    const options: Options
    const loop: EventLoop
    var entries: map<string, LimiterEntry>

    /** No two addresses share an entry object. */
    ghost predicate Valid()
      reads this
    {
      forall a, b :: a in entries && b in entries && entries[a] == entries[b] ==> a == b
    }

    ghost function View(): State
      reads this, loop, entries.Values
    {
      State(loop.clock, map ip | ip in entries :: Entry(entries[ip].timestamps, entries[ip].timer),
            loop.timers, loop.nextTimer)
    }

    constructor (options: Options, loop: EventLoop)
      requires loop.clock == 0 && loop.timers == map[] && loop.nextTimer == 0
      ensures Valid() && this.options == options && this.loop == loop
      ensures View() == INIT
    {
      this.options, this.loop, this.entries := options, loop, map[];
    }

    /** The entry of `ip`, created with its cleanup timer when there is none. */
    method EntryFor(ip: string) returns (entry: LimiterEntry)
      requires Valid()
      modifies this, loop
      ensures Valid() && fresh(entries.Values - old(entries.Values))
      ensures ip in entries && entries[ip] == entry
      ensures View() == Created(options, old(View()), ip)
    {
      hide TimerDelay;
      if ip in entries {
        return entries[ip];
      }
      var timer := loop.SetTimeout(ip, 2 * options.windowMs);
      entry := new LimiterEntry(timer);
      entries := entries[ip := entry];
    }

    /** Records an admitted request and restarts the entry's cleanup timer. */
    method Admit(ip: string, entry: LimiterEntry)
      requires Valid() && ip in entries && entries[ip] == entry
      modifies loop, entry
      ensures Valid()
      ensures View() == Admitted(options, old(View()), ip)
    {
      hide TimerDelay;
      entry.timestamps := entry.timestamps + [loop.clock];
      loop.ClearTimeout(entry.timer);
      entry.timer := loop.SetTimeout(ip, 2 * options.windowMs);
      assert View().entries == Admitted(options, old(View()), ip).entries;
    }

    method Slide(ip: string, entry: LimiterEntry)
      requires Valid() && ip in entries && entries[ip] == entry
      modifies entry
      ensures Valid()
      ensures View() == Slid(options, old(View()), ip)
    {
      hide After;
      entry.timestamps := After(entry.timestamps, loop.clock - options.windowMs);
      assert View().entries == Slid(options, old(View()), ip).entries;
    }

    /** The part of `check` before its decision. */
    method Refresh(ip: string, now: int) returns (entry: LimiterEntry)
      requires Valid() && now >= loop.clock
      modifies this, loop, entries.Values
      ensures Valid() && fresh(entries.Values - old(entries.Values))
      ensures ip in entries && entries[ip] == entry
      ensures View() == Slid(options, Created(options, old(View()).(clock := now), ip), ip)
    {
      ghost var before := View();
      loop.clock := now;
      assert View() == before.(clock := now);
      entry := EntryFor(ip);
      Slide(ip, entry);
    }

    /** `check`, at the time `now`. */
    method Check(ip: string, now: int) returns (ok: bool)
      requires Valid() && now >= loop.clock
      modifies this, loop, entries.Values
      ensures Valid() && fresh(entries.Values - old(entries.Values))
      ensures ok == Answer(options, old(View()), ip, now)
      ensures View() == AfterCheck(options, old(View()), ip, now)
    {
      hide Created, Slid, Admitted, After;
      SlidRemembers(options, View(), ip, now);
      var entry := Refresh(ip, now);
      if |entry.timestamps| >= options.maxRequests {
        return false;
      }
      Admit(ip, entry);
      return true;
    }

    /** The event loop runs the callback of a timer it holds. */
    method Fire(id: nat, now: int)
      requires Valid() && now >= loop.clock
      requires id in loop.timers && loop.timers[id].due <= now
      modifies this, loop
      ensures Valid() && entries.Values <= old(entries.Values)
      ensures View() == FireStep(old(View()), id, now)
    {
      ghost var before := View();
      entries := entries - {loop.timers[id].ip};
      loop.clock := now;
      loop.ClearTimeout(id);
      assert View().entries == FireStep(before, id, now).entries;
    }
  }

  // ---------------------------------------------------------------- runs

  datatype Event = Check(ip: string, at: int) | Fire(id: nat, at: int)

  function Step(o: Options, s: State, e: Event): State {
    match e
    case Check(ip, at) => AfterCheck(o, s, ip, at)
    case Fire(id, at) => FireStep(s, id, at)
  }

  /** The clock never goes back, and a timer fires only while live and at or after its due time. */
  predicate Legal(s: State, e: Event) {
    e.at >= s.clock && (e.Fire? ==> e.id in s.timers && s.timers[e.id].due <= e.at)
  }

  function Run(o: Options, evs: seq<Event>): State {
    if evs == [] then INIT else Step(o, Run(o, evs[..|evs| - 1]), evs[|evs| - 1])
  }

  predicate LegalRun(o: Options, evs: seq<Event>) {
    evs == [] || (LegalRun(o, evs[..|evs| - 1]) && Legal(Run(o, evs[..|evs| - 1]), evs[|evs| - 1]))
  }

  /** What the callers of `check` were told, in order. */
  function Answers(o: Options, evs: seq<Event>): seq<bool> {
    if evs == [] then []
    else
      var front, e := evs[..|evs| - 1], evs[|evs| - 1];
      Answers(o, front) + (if e.Check? then [Answer(o, Run(o, front), e.ip, e.at)] else [])
  }

  /** The times at which requests of `ip` were let through. */
  function Accepted(o: Options, evs: seq<Event>, ip: string): seq<int> {
    if evs == [] then []
    else
      var front, e := evs[..|evs| - 1], evs[|evs| - 1];
      Accepted(o, front, ip) +
      (if e.Check? && e.ip == ip && Answer(o, Run(o, front), ip, e.at) then [e.at] else [])
  }

  // ------------------------------------------- the limiter that never forgets

  type Log = map<string, seq<int>>

  function LogOf(log: Log, ip: string): seq<int> {
    if ip in log then log[ip] else []
  }

  /** The full log of accepted timestamps: no timers, no eviction, nothing dropped. */
  function FullLog(o: Options, evs: seq<Event>): Log {
    if evs == [] then map[]
    else
      var log, e := FullLog(o, evs[..|evs| - 1]), evs[|evs| - 1];
      if e.Check? && Admits(o, LogOf(log, e.ip), e.at) then log[e.ip := LogOf(log, e.ip) + [e.at]] else log
  }

  function FullLogAnswers(o: Options, evs: seq<Event>): seq<bool> {
    if evs == [] then []
    else
      var front, e := evs[..|evs| - 1], evs[|evs| - 1];
      FullLogAnswers(o, front) +
      (if e.Check? then [Admits(o, LogOf(FullLog(o, front), e.ip), e.at)] else [])
  }

  // ---------------------------------------------------------------- invariant

  predicate Ascending(ts: seq<int>) {
    forall i, j :: 0 <= i < j < |ts| ==> ts[i] <= ts[j]
  }

  predicate NoneAfter(ts: seq<int>, t: int) {
    forall i :: 0 <= i < |ts| ==> ts[i] <= t
  }

  /** Every entry owns exactly one live timer, and every live timer belongs to a present entry. */
  predicate TimersMatch(s: State) {
    && (forall ip :: ip in s.entries ==> s.entries[ip].timer in s.timers && s.timers[s.entries[ip].timer].ip == ip)
    && (forall id :: id in s.timers ==>
          id < s.nextTimer && s.timers[id].ip in s.entries && s.entries[s.timers[id].ip].timer == id)
  }

  /** A timer is due one delay after its address's last accepted request. */
  predicate TimersDue(o: Options, s: State, log: Log) {
    forall id :: id in s.timers && LogOf(log, s.timers[id].ip) != [] ==>
      var ts := LogOf(log, s.timers[id].ip);
      s.timers[id].due == ts[|ts| - 1] + TimerDelay(2 * o.windowMs)
  }

  predicate LogBounded(o: Options, s: State, log: Log) {
    && (o.maxRequests <= 0 ==> log == map[])
    && forall ip :: ip in log ==> Ascending(log[ip]) && NoneAfter(log[ip], s.clock)
  }

  predicate SameWindow(o: Options, s: State, log: Log, ip: string, at: int) {
    After(Remembered(s, ip), at - o.windowMs) == After(LogOf(log, ip), at - o.windowMs)
  }

  /** Whatever was dropped, by sliding or by eviction, has left the window for good. */
  ghost predicate Agrees(o: Options, s: State, log: Log) {
    forall ip :: SameWindow(o, s, log, ip, s.clock)
  }

  ghost predicate Inv(o: Options, s: State, log: Log) {
    TimersMatch(s) && TimersDue(o, s, log) && LogBounded(o, s, log) && Agrees(o, s, log)
  }

  // ---------------------------------------------------------------- lemmas about After

  lemma {:induction false} AfterAfter(ts: seq<int>, c: int, d: int)
    requires c <= d
    ensures After(After(ts, c), d) == After(ts, d)
  {
    if ts != [] {
      var front, t := ts[..|ts| - 1], ts[|ts| - 1];
      AfterAfter(front, c, d);
      if t > c {
        assert After(ts, c)[..|After(ts, c)| - 1] == After(front, c);
      } else {
        assert After(ts, c) == After(front, c);
      }
    }
  }

  lemma {:induction false} AfterNothing(ts: seq<int>, c: int)
    requires NoneAfter(ts, c)
    ensures After(ts, c) == []
  {
    if ts != [] {
      AfterNothing(ts[..|ts| - 1], c);
    }
  }

  lemma AfterSnoc(ts: seq<int>, t: int, c: int)
    ensures After(ts + [t], c) == After(ts, c) + (if t > c then [t] else [])
  {
    assert (ts + [t])[..|ts|] == ts;
  }

  lemma {:induction false} AfterLater(ts: seq<int>, c: int, d: int)
    requires c <= d
    ensures |After(ts, d)| <= |After(ts, c)|
  {
    if ts != [] {
      AfterLater(ts[..|ts| - 1], c, d);
    }
  }

  lemma SameWindowLater(o: Options, s: State, log: Log, ip: string, now: int)
    requires SameWindow(o, s, log, ip, s.clock) && s.clock <= now
    ensures SameWindow(o, s, log, ip, now)
  {
    AfterAfter(Remembered(s, ip), s.clock - o.windowMs, now - o.windowMs);
    AfterAfter(LogOf(log, ip), s.clock - o.windowMs, now - o.windowMs);
  }

  // ---------------------------------------------------------------- every step keeps the invariant

  /** The one configuration requirement: the runtime honours a delay of two windows. */
  predicate TimerFits(o: Options) {
    2 * o.windowMs <= MAX_TIMER_DELAY
  }

  function Logged(o: Options, log: Log, ip: string, now: int): Log {
    if Admits(o, LogOf(log, ip), now) then log[ip := LogOf(log, ip) + [now]] else log
  }

  lemma AfterCheckRemembers(o: Options, s: State, ip: string, a: string, now: int)
    ensures var s', ok := AfterCheck(o, s, ip, now), Answer(o, s, ip, now);
            Remembered(s', a) ==
            if a == ip then After(Remembered(s, ip), now - o.windowMs) + (if ok then [now] else [])
            else Remembered(s, a)
  {
    hide After, TimerDelay;
  }

  lemma {:induction false} AfterIsLater(ts: seq<int>, c: int)
    ensures forall i :: 0 <= i < |After(ts, c)| ==> After(ts, c)[i] > c
  {
    if ts != [] {
      AfterIsLater(ts[..|ts| - 1], c);
    }
  }

  /** After a check only timestamps of the current window are remembered for that address. */
  lemma WindowIsKept(o: Options, s: State, ip: string, now: int)
    ensures forall i :: 0 <= i < |Remembered(AfterCheck(o, s, ip, now), ip)| ==>
              Remembered(AfterCheck(o, s, ip, now), ip)[i] > now - o.windowMs || Remembered(AfterCheck(o, s, ip, now), ip)[i] == now
  {
    hide AfterCheck, Remembered, After, Answer;
    AfterCheckRemembers(o, s, ip, ip, now);
    AfterIsLater(Remembered(s, ip), now - o.windowMs);
  }

  lemma AnswersAlike(o: Options, s: State, log: Log, ip: string, now: int)
    requires Agrees(o, s, log) && s.clock <= now
    ensures Answer(o, s, ip, now) == Admits(o, LogOf(log, ip), now)
  {
    SameWindowLater(o, s, log, ip, now);
  }

  lemma SlideAgrees(kept: seq<int>, full: seq<int>, more: seq<int>, c: int)
    requires After(kept, c) == After(full, c) && |more| <= 1
    ensures After(After(kept, c) + more, c) == After(full + more, c)
  {
    AfterAfter(kept, c, c);
    if more == [] {
      assert After(kept, c) + more == After(kept, c) && full + more == full;
    } else {
      assert more == [more[0]];
      AfterSnoc(full, more[0], c);
      AfterSnoc(After(kept, c), more[0], c);
    }
  }

  lemma ClockAfter(o: Options, s: State, e: Event)
    ensures Step(o, s, e).clock == e.at
  {
  }

  lemma LogOfLogged(o: Options, log: Log, ip: string, now: int, a: string)
    ensures LogOf(Logged(o, log, ip, now), a) ==
            LogOf(log, a) + (if a == ip && Admits(o, LogOf(log, a), now) then [now] else [])
  {
  }

  lemma CheckKeepsWindow(o: Options, s: State, log: Log, ip: string, a: string, now: int)
    requires SameWindow(o, s, log, a, s.clock) && s.clock <= now
    requires Answer(o, s, ip, now) == Admits(o, LogOf(log, ip), now)
    ensures SameWindow(o, AfterCheck(o, s, ip, now), Logged(o, log, ip, now), a, now)
  {
    hide AfterCheck, Logged, Answer, Admits, After, LogOf, Remembered;
    SameWindowLater(o, s, log, a, now);
    AfterCheckRemembers(o, s, ip, a, now);
    LogOfLogged(o, log, ip, now, a);
    if a == ip {
      SlideAgrees(Remembered(s, ip), LogOf(log, ip), if Answer(o, s, ip, now) then [now] else [], now - o.windowMs);
    } else {
      assert LogOf(Logged(o, log, ip, now), a) == LogOf(log, a);
    }
  }

  lemma CheckKeepsAgrees(o: Options, s: State, log: Log, ip: string, now: int)
    requires Agrees(o, s, log) && s.clock <= now
    ensures Agrees(o, AfterCheck(o, s, ip, now), Logged(o, log, ip, now))
  {
    hide AfterCheck, Logged, Answer, Admits, SameWindow, LogOf;
    AnswersAlike(o, s, log, ip, now);
    ClockAfter(o, s, Check(ip, now));
    forall a
      ensures SameWindow(o, AfterCheck(o, s, ip, now), Logged(o, log, ip, now), a, now)
    {
      CheckKeepsWindow(o, s, log, ip, a, now);
    }
  }

  lemma CheckKeepsTimersMatch(o: Options, s: State, ip: string, now: int)
    requires TimersMatch(s)
    ensures TimersMatch(AfterCheck(o, s, ip, now))
  {
  }

  lemma CheckKeepsTimersDue(o: Options, s: State, log: Log, ip: string, now: int)
    requires TimersMatch(s) && TimersDue(o, s, log) && LogBounded(o, s, log)
    requires Answer(o, s, ip, now) == Admits(o, LogOf(log, ip), now)
    ensures TimersDue(o, AfterCheck(o, s, ip, now), Logged(o, log, ip, now))
  {
    hide After, TimerDelay, Ascending, NoneAfter, LogOf, Logged;
    var s', log' := AfterCheck(o, s, ip, now), Logged(o, log, ip, now);
    if !Answer(o, s, ip, now) && ip !in s.entries {
      EmptyLog(o, s, log, ip, now);
    }
    forall id | id in s'.timers && LogOf(log', s'.timers[id].ip) != []
      ensures var ts := LogOf(log', s'.timers[id].ip);
              s'.timers[id].due == ts[|ts| - 1] + TimerDelay(2 * o.windowMs)
    {
      LogOfLogged(o, log, ip, now, s'.timers[id].ip);
    }
  }

  /** An address without an entry is refused only by a limiter that refuses everything. */
  lemma EmptyLog(o: Options, s: State, log: Log, ip: string, now: int)
    requires LogBounded(o, s, log) && ip !in s.entries && !Answer(o, s, ip, now)
    ensures LogOf(log, ip) == []
  {
  }

  lemma CheckKeepsLogBounded(o: Options, s: State, log: Log, ip: string, now: int)
    requires LogBounded(o, s, log) && s.clock <= now
    ensures LogBounded(o, AfterCheck(o, s, ip, now), Logged(o, log, ip, now))
  {
    forall a | a in Logged(o, log, ip, now)
      ensures Ascending(Logged(o, log, ip, now)[a]) && NoneAfter(Logged(o, log, ip, now)[a], now)
    {
      var ts := LogOf(log, a);
      assert Ascending(ts) && NoneAfter(ts, s.clock);
    }
  }

  lemma FireKeepsTimers(o: Options, s: State, log: Log, id: nat, now: int)
    requires TimersMatch(s) && TimersDue(o, s, log)
    ensures TimersMatch(FireStep(s, id, now)) && TimersDue(o, FireStep(s, id, now), log)
  {
  }

  /** What a firing timer evicts has left the window, because the runtime waits at least one window. */
  lemma FireKeepsWindow(o: Options, s: State, log: Log, id: nat, a: string, now: int)
    requires TimerFits(o) && TimersMatch(s) && TimersDue(o, s, log) && LogBounded(o, s, log)
    requires SameWindow(o, s, log, a, s.clock) && Legal(s, Fire(id, now))
    ensures SameWindow(o, FireStep(s, id, now), log, a, now)
  {
    hide After, TimerFits, TimersMatch, TimerDelay;
    SameWindowLater(o, s, log, a, now);
    if a == s.timers[id].ip {
      assert Ascending(LogOf(log, a));
      EvictedAreStale(o, LogOf(log, a), s.timers[id].due, now);
      AfterNothing([], now - o.windowMs);
    } else {
      assert Remembered(FireStep(s, id, now), a) == Remembered(s, a);
    }
  }

  lemma FireKeepsAgrees(o: Options, s: State, log: Log, id: nat, now: int)
    requires TimerFits(o) && Inv(o, s, log)
    requires Legal(s, Fire(id, now))
    ensures Agrees(o, FireStep(s, id, now), log)
  {
    hide SameWindow, TimerFits, TimersMatch, TimersDue, LogBounded, Legal;
    ClockAfter(o, s, Fire(id, now));
    forall a
      ensures SameWindow(o, FireStep(s, id, now), log, a, now)
    {
      FireKeepsWindow(o, s, log, id, a, now);
    }
  }

  lemma EvictedAreStale(o: Options, ts: seq<int>, due: int, now: int)
    requires TimerFits(o) && Ascending(ts) && due <= now
    requires ts != [] ==> due == ts[|ts| - 1] + TimerDelay(2 * o.windowMs)
    ensures After(ts, now - o.windowMs) == []
  {
    AfterNothing(ts, now - o.windowMs);
  }

  // ---------------------------------------------------------------- eviction is invisible

  /** Every answer is that of the limiter keeping the full log, when the runtime honours the delay. */
  lemma {:induction false} EvictionInvisible(o: Options, evs: seq<Event>)
    requires TimerFits(o) && LegalRun(o, evs)
    ensures Answers(o, evs) == FullLogAnswers(o, evs)
    ensures Inv(o, Run(o, evs), FullLog(o, evs))
    ensures forall ip :: Accepted(o, evs, ip) == LogOf(FullLog(o, evs), ip)
  {
    if evs == [] {
    } else {
      var front, e := evs[..|evs| - 1], evs[|evs| - 1];
      EvictionInvisible(o, front);
      match e
      case Check(ip, at) =>
        AnswersAlike(o, Run(o, front), FullLog(o, front), ip, at);
        CheckKeepsAgrees(o, Run(o, front), FullLog(o, front), ip, at);
        CheckKeepsTimersMatch(o, Run(o, front), ip, at);
        CheckKeepsTimersDue(o, Run(o, front), FullLog(o, front), ip, at);
        CheckKeepsLogBounded(o, Run(o, front), FullLog(o, front), ip, at);
      case Fire(id, at) =>
        FireKeepsTimers(o, Run(o, front), FullLog(o, front), id, at);
        FireKeepsAgrees(o, Run(o, front), FullLog(o, front), id, at);
    }
  }

  // ---------------------------------------------------------------- when each timer is due

  /** When the entry of `ip` was last created. */
  function CreatedAt(o: Options, evs: seq<Event>, ip: string): int {
    if evs == [] then 0
    else
      var front, e := evs[..|evs| - 1], evs[|evs| - 1];
      if e.Check? && e.ip == ip && ip !in Run(o, front).entries then e.at else CreatedAt(o, front, ip)
  }

  /** The last request let through, or the creation of the entry when there was none. */
  function LastUse(o: Options, evs: seq<Event>, ip: string): int {
    var ts := Accepted(o, evs, ip);
    if ts == [] then CreatedAt(o, evs, ip) else ts[|ts| - 1]
  }

  /** The entry of `ip` has its own live timer, due one delay after the time given. */
  predicate DueAfter(o: Options, s: State, ip: string, t: int) {
    ip in s.entries ==>
      s.entries[ip].timer in s.timers && s.timers[s.entries[ip].timer] == Timer(ip, t + TimerDelay(2 * o.windowMs))
  }

  lemma FireKeepsTimersMatch(s: State, id: nat, now: int)
    requires TimersMatch(s)
    ensures TimersMatch(FireStep(s, id, now))
  {
  }

  lemma {:induction false} TimersAlwaysMatch(o: Options, evs: seq<Event>)
    ensures TimersMatch(Run(o, evs))
  {
    hide AfterCheck, FireStep, TimersMatch;
    if evs == [] {
      NoTimers();
    } else {
      var s, e := Run(o, evs[..|evs| - 1]), evs[|evs| - 1];
      TimersAlwaysMatch(o, evs[..|evs| - 1]);
      match e
      case Check(ip, at) => CheckKeepsTimersMatch(o, s, ip, at);
      case Fire(id, at) => FireKeepsTimersMatch(s, id, at);
    }
  }

  lemma NoTimers()
    ensures TimersMatch(INIT)
  {
  }

  lemma CheckSetsTimer(o: Options, s: State, ip: string, a: string, now: int, t: int)
    requires TimersMatch(s) && DueAfter(o, s, a, t)
    ensures DueAfter(o, AfterCheck(o, s, ip, now), a, if a == ip && (Answer(o, s, ip, now) || ip !in s.entries) then now else t)
  {
    hide After, TimerDelay;
  }

  lemma FireSparesTimer(o: Options, s: State, id: nat, a: string, now: int, t: int)
    requires TimersMatch(s) && DueAfter(o, s, a, t)
    ensures DueAfter(o, FireStep(s, id, now), a, t)
  {
    hide TimerDelay;
  }

  lemma NewEntryIsAdmitted(o: Options, s: State, ip: string, now: int)
    requires ip !in s.entries && o.maxRequests > 0
    ensures Answer(o, s, ip, now)
  {
  }

  /**
   In every run, whatever the delay, each entry has exactly one live timer, due one delay after the last
   request let through, or after the entry was created when there was none.
   */
  lemma {:induction false} EveryTimerIsDue(o: Options, evs: seq<Event>, ip: string)
    ensures TimersMatch(Run(o, evs)) && DueAfter(o, Run(o, evs), ip, LastUse(o, evs, ip))
    ensures var s, ts := Run(o, evs), Accepted(o, evs, ip);
            ip in s.entries ==>
              var used := if ts == [] then CreatedAt(o, evs, ip) else ts[|ts| - 1];
              && s.entries[ip].timer in s.timers
              && s.timers[s.entries[ip].timer] ==
                   Timer(ip, used + (if 1 <= 2 * o.windowMs <= 0x7fff_ffff then 2 * o.windowMs else 1))
  {
    hide AfterCheck, FireStep, TimersMatch, DueAfter, Answer;
    TimersAlwaysMatch(o, evs);
    if evs == [] {
      NothingDue(o, ip, LastUse(o, evs, ip));
    } else {
      var front, e := evs[..|evs| - 1], evs[|evs| - 1];
      var s := Run(o, front);
      EveryTimerIsDue(o, front, ip);
      match e
      case Check(a, at) =>
        CheckSetsTimer(o, s, a, ip, at, LastUse(o, front, ip));
        if a == ip && ip !in s.entries && !Answer(o, s, ip, at) {
          if o.maxRequests > 0 {
            NewEntryIsAdmitted(o, s, ip, at);
          }
          NothingAdmitted(o, evs, ip);
        }
      case Fire(id, at) => FireSparesTimer(o, s, id, ip, at, LastUse(o, front, ip));
    }
    if ip in Run(o, evs).entries {
      DueAfterIs(o, Run(o, evs), ip, LastUse(o, evs, ip));
    }
  }

  lemma DueAfterIs(o: Options, s: State, ip: string, t: int)
    requires DueAfter(o, s, ip, t) && ip in s.entries
    ensures s.entries[ip].timer in s.timers
    ensures s.timers[s.entries[ip].timer] == Timer(ip, t + (if 1 <= 2 * o.windowMs <= 0x7fff_ffff then 2 * o.windowMs else 1))
  {
  }

  lemma NothingDue(o: Options, ip: string, t: int)
    ensures DueAfter(o, INIT, ip, t)
  {
  }

  // ---------------------------------------------------------------- the window bound

  /** How many timestamps lie in (lo, hi]. */
  function Within(ts: seq<int>, lo: int, hi: int): nat {
    if ts == [] then 0
    else Within(ts[..|ts| - 1], lo, hi) + (if lo < ts[|ts| - 1] <= hi then 1 else 0)
  }

  function Limit(o: Options): nat {
    if o.maxRequests < 0 then 0 else o.maxRequests
  }

  /** Every timestamp was admissible after the ones before it. */
  predicate Spaced(o: Options, ts: seq<int>) {
    ts == [] || (Spaced(o, ts[..|ts| - 1]) && Admits(o, ts[..|ts| - 1], ts[|ts| - 1]))
  }

  lemma {:induction false} WithinAtMostAfter(ts: seq<int>, lo: int, hi: int)
    ensures Within(ts, lo, hi) <= |After(ts, lo)|
    ensures NoneAfter(ts, hi) ==> Within(ts, lo, hi) == |After(ts, lo)|
  {
    if ts != [] {
      WithinAtMostAfter(ts[..|ts| - 1], lo, hi);
    }
  }

  lemma {:induction false} SpacedBound(o: Options, ts: seq<int>, T: int)
    requires Spaced(o, ts)
    ensures Within(ts, T - o.windowMs, T) <= Limit(o)
  {
    if ts != [] {
      var front, t := ts[..|ts| - 1], ts[|ts| - 1];
      SpacedBound(o, front, T);
      if T - o.windowMs < t <= T {
        WithinAtMostAfter(front, T - o.windowMs, T);
        AfterLater(front, t - o.windowMs, T - o.windowMs);
      }
    }
  }

  lemma {:induction false} FullLogSpaced(o: Options, evs: seq<Event>, ip: string)
    ensures Spaced(o, LogOf(FullLog(o, evs), ip))
  {
    if evs != [] {
      var front, e := evs[..|evs| - 1], evs[|evs| - 1];
      FullLogSpaced(o, front, ip);
      if e.Check? && e.ip == ip {
        var ts := LogOf(FullLog(o, front), ip);
        assert (ts + [e.at])[..|ts|] == ts;
      }
    }
  }

  /** The answer to a request depends on the accepted requests of its own address alone. */
  lemma AnswerFromAccepted(o: Options, evs: seq<Event>, ip: string, at: int)
    requires TimerFits(o) && LegalRun(o, evs) && Run(o, evs).clock <= at
    ensures Answer(o, Run(o, evs), ip, at) == Admits(o, Accepted(o, evs, ip), at)
    ensures NoneAfter(Accepted(o, evs, ip), at)
    ensures Accepted(o, evs, ip) == LogOf(FullLog(o, evs), ip)
  {
    EvictionInvisible(o, evs);
    AnswersAlike(o, Run(o, evs), FullLog(o, evs), ip, at);
    NoneAfterLogOf(o, Run(o, evs), FullLog(o, evs), ip, at);
  }

  lemma NoneAfterLogOf(o: Options, s: State, log: Log, ip: string, at: int)
    requires LogBounded(o, s, log) && s.clock <= at
    ensures NoneAfter(LogOf(log, ip), at)
  {
    assert ip in log ==> NoneAfter(log[ip], s.clock);
  }

  /** In no window of any run are more than the configured number of requests of an address let through. */
  lemma AtMostMaxPerWindow(o: Options, evs: seq<Event>, ip: string, T: int)
    requires TimerFits(o) && LegalRun(o, evs)
    ensures Within(Accepted(o, evs, ip), T - o.windowMs, T) <= Limit(o)
  {
    EvictionInvisible(o, evs);
    FullLogSpaced(o, evs, ip);
    SpacedBound(o, LogOf(FullLog(o, evs), ip), T);
  }

  lemma AdmitsIffWithin(o: Options, ts: seq<int>, at: int)
    requires NoneAfter(ts, at)
    ensures Admits(o, ts, at) <==> Within(ts, at - o.windowMs, at) < Limit(o)
  {
    WithinAtMostAfter(ts, at - o.windowMs, at);
  }

  /** A request is refused exactly when its own window is already full. */
  lemma RefusedExactlyWhenFull(o: Options, evs: seq<Event>, ip: string, at: int)
    requires TimerFits(o) && LegalRun(o, evs) && Run(o, evs).clock <= at
    ensures Answer(o, Run(o, evs), ip, at) <==>
            Within(Accepted(o, evs, ip), at - o.windowMs, at) < Limit(o)
  {
    AnswerFromAccepted(o, evs, ip, at);
    AdmitsIffWithin(o, Accepted(o, evs, ip), at);
  }

  // ---------------------------------------------------------------- addresses do not interfere

  function AnswersFor(o: Options, evs: seq<Event>, ip: string): seq<bool> {
    if evs == [] then []
    else
      var front, e := evs[..|evs| - 1], evs[|evs| - 1];
      AnswersFor(o, front, ip) +
      (if e.Check? && e.ip == ip then [Answer(o, Run(o, front), ip, e.at)] else [])
  }

  function ChecksOf(evs: seq<Event>, ip: string): seq<Event> {
    if evs == [] then []
    else
      var front, e := evs[..|evs| - 1], evs[|evs| - 1];
      ChecksOf(front, ip) + (if e.Check? && e.ip == ip then [e] else [])
  }

  lemma Snoc(o: Options, evs: seq<Event>, e: Event)
    ensures Run(o, evs + [e]) == Step(o, Run(o, evs), e)
    ensures LegalRun(o, evs + [e]) <==> LegalRun(o, evs) && Legal(Run(o, evs), e)
    ensures e.Check? ==> Answers(o, evs + [e]) == Answers(o, evs) + [Answer(o, Run(o, evs), e.ip, e.at)]
    ensures e.Fire? ==> Answers(o, evs + [e]) == Answers(o, evs)
    ensures e.Fire? ==> FullLog(o, evs + [e]) == FullLog(o, evs)
    ensures e.Check? ==> FullLog(o, evs + [e]) == Logged(o, FullLog(o, evs), e.ip, e.at)
  {
    assert (evs + [e])[..|evs|] == evs;
  }

  lemma AcceptedSnoc(o: Options, evs: seq<Event>, ip: string, at: int)
    ensures Run(o, evs + [Check(ip, at)]) == AfterCheck(o, Run(o, evs), ip, at)
    ensures LegalRun(o, evs + [Check(ip, at)]) <==> LegalRun(o, evs) && Run(o, evs).clock <= at
    ensures Accepted(o, evs + [Check(ip, at)], ip) ==
            Accepted(o, evs, ip) + (if Answer(o, Run(o, evs), ip, at) then [at] else [])
    ensures LogOf(FullLog(o, evs + [Check(ip, at)]), ip) ==
            LogOf(FullLog(o, evs), ip) + (if Admits(o, LogOf(FullLog(o, evs), ip), at) then [at] else [])
  {
    assert (evs + [Check(ip, at)])[..|evs|] == evs;
  }

  lemma {:induction false} ChecksOfRun(o: Options, evs: seq<Event>, ip: string)
    requires LegalRun(o, evs)
    ensures LegalRun(o, ChecksOf(evs, ip)) && Run(o, ChecksOf(evs, ip)).clock <= Run(o, evs).clock
    ensures LogOf(FullLog(o, ChecksOf(evs, ip)), ip) == LogOf(FullLog(o, evs), ip)
  {
    if evs != [] {
      var front, e := evs[..|evs| - 1], evs[|evs| - 1];
      assert evs == front + [e];
      ChecksOfRun(o, front, ip);
      var only := ChecksOf(front, ip);
      Snoc(o, front, e);
      Snoc(o, only, e);
      assert Legal(Run(o, front), e);
      assert ChecksOf(evs, ip) == if e.Check? && e.ip == ip then only + [e] else only;
      ClockAfter(o, Run(o, front), e);
      ClockAfter(o, Run(o, only), e);
      if e.Check? {
        LogOfLogged(o, FullLog(o, front), e.ip, e.at, ip);
        LogOfLogged(o, FullLog(o, only), e.ip, e.at, ip);
      }
    }
  }

  lemma SameAnswer(o: Options, evs: seq<Event>, other: seq<Event>, ip: string, at: int)
    requires TimerFits(o) && LegalRun(o, evs) && LegalRun(o, other)
    requires Run(o, evs).clock <= at && Run(o, other).clock <= at
    requires LogOf(FullLog(o, evs), ip) == LogOf(FullLog(o, other), ip)
    ensures Answer(o, Run(o, evs), ip, at) == Answer(o, Run(o, other), ip, at)
  {
    AnswerFromAccepted(o, evs, ip, at);
    AnswerFromAccepted(o, other, ip, at);
  }

  /** An address is answered as by a fresh limiter that sees no other address and runs no timer. */
  lemma {:induction false} NoInterference(o: Options, evs: seq<Event>, ip: string)
    requires TimerFits(o) && LegalRun(o, evs)
    ensures LegalRun(o, ChecksOf(evs, ip))
    ensures AnswersFor(o, evs, ip) == Answers(o, ChecksOf(evs, ip))
  {
    ChecksOfRun(o, evs, ip);
    if evs != [] {
      var front, e := evs[..|evs| - 1], evs[|evs| - 1];
      NoInterference(o, front, ip);
      assert ChecksOf(evs, ip) == if e.Check? && e.ip == ip then ChecksOf(front, ip) + [e] else ChecksOf(front, ip);
      if e.Check? && e.ip == ip {
        ChecksOfRun(o, front, ip);
        SameAnswer(o, front, ChecksOf(front, ip), ip, e.at);
        Snoc(o, ChecksOf(front, ip), e);
      }
    }
  }

  // ------------------------------------- exactly which configurations keep the bound

  function Burst(k: nat): seq<Event> {
    if k == 0 then [] else Burst(k - 1) + [Check("a", 0)]
  }

  function Zeros(k: nat): seq<int> {
    if k == 0 then [] else Zeros(k - 1) + [0]
  }

  lemma {:induction false} ZerosAfter(k: nat, c: int)
    requires c < 0
    ensures |Zeros(k)| == k && After(Zeros(k), c) == Zeros(k)
  {
    if k > 0 {
      ZerosAfter(k - 1, c);
      AfterSnoc(Zeros(k - 1), 0, c);
    }
  }

  /** A burst of requests of one address at time zero, seen from its entry. */
  predicate Bursting(s: State, k: nat) {
    && s.clock == 0
    && Remembered(s, "a") == Zeros(k)
    && (k > 0 ==> "a" in s.entries && s.entries["a"].timer in s.timers && s.timers[s.entries["a"].timer] == Timer("a", 1))
  }

  lemma BurstStep(o: Options, s: State, k: nat)
    requires !TimerFits(o) && k < o.maxRequests && Bursting(s, k)
    ensures Answer(o, s, "a", 0) && Bursting(AfterCheck(o, s, "a", 0), k + 1)
    ensures Admits(o, Zeros(k), 0)
  {
    hide After;
    ZerosAfter(k, 0 - o.windowMs);
    AfterCheckRemembers(o, s, "a", "a", 0);
    assert TimerDelay(2 * o.windowMs) == 1;
  }

  predicate BurstRun(o: Options, evs: seq<Event>, k: nat) {
    && LegalRun(o, evs) && Bursting(Run(o, evs), k)
    && Accepted(o, evs, "a") == LogOf(FullLog(o, evs), "a") == Zeros(k)
  }

  lemma BurstRunStep(o: Options, evs: seq<Event>, k: nat)
    requires !TimerFits(o) && k < o.maxRequests && BurstRun(o, evs, k)
    ensures BurstRun(o, evs + [Check("a", 0)], k + 1)
  {
    AcceptedSnoc(o, evs, "a", 0);
    BurstStep(o, Run(o, evs), k);
  }

  lemma NoBurst(o: Options)
    ensures BurstRun(o, Burst(0), 0)
  {
  }

  lemma {:induction false} BurstRuns(o: Options, k: nat)
    requires !TimerFits(o) && k <= o.maxRequests
    ensures BurstRun(o, Burst(k), k)
  {
    hide BurstRun, TimerFits;
    if k > 0 {
      BurstRuns(o, k - 1);
      BurstRunStep(o, Burst(k - 1), k - 1);
    } else {
      NoBurst(o);
    }
  }

  /** A full burst, the cleanup timer the runtime cut to one millisecond, and one more request. */
  function ForgetfulRun(o: Options): seq<Event>
    requires o.maxRequests > 0
  {
    FiredBurst(o) + [Check("a", 1)]
  }

  function FiredBurst(o: Options): seq<Event>
    requires o.maxRequests > 0
  {
    var s := Run(o, Burst(o.maxRequests));
    Burst(o.maxRequests) + [Fire(if "a" in s.entries then s.entries["a"].timer else 0, 1)]
  }

  lemma FiredBurstForgets(o: Options)
    requires !TimerFits(o) && o.maxRequests > 0
    ensures LegalRun(o, FiredBurst(o)) && Run(o, FiredBurst(o)).clock == 1
    ensures Remembered(Run(o, FiredBurst(o)), "a") == []
    ensures Accepted(o, FiredBurst(o), "a") == LogOf(FullLog(o, FiredBurst(o)), "a") == Zeros(o.maxRequests)
  {
    var burst := Burst(o.maxRequests);
    BurstRuns(o, o.maxRequests);
    Snoc(o, burst, FiredBurst(o)[|burst|]);
    assert FiredBurst(o)[..|FiredBurst(o)| - 1] == burst;
  }

  lemma EmptyAdmits(o: Options, s: State)
    requires o.maxRequests > 0 && Remembered(s, "a") == []
    ensures Answer(o, s, "a", 1)
  {
  }

  lemma AnswersSnoc(o: Options, evs: seq<Event>, ip: string, at: int)
    ensures Answers(o, evs + [Check(ip, at)]) == Answers(o, evs) + [Answer(o, Run(o, evs), ip, at)]
    ensures FullLogAnswers(o, evs + [Check(ip, at)]) == FullLogAnswers(o, evs) + [Admits(o, LogOf(FullLog(o, evs), ip), at)]
  {
    assert (evs + [Check(ip, at)])[..|evs|] == evs;
  }

  lemma LastDiffers(a: seq<bool>, b: seq<bool>)
    ensures a + [true] != b + [false]
  {
    assert (a + [true])[|a|] && (|a| == |b| ==> !(b + [false])[|a|]);
  }

  lemma ForgetfulRunAnswers(o: Options)
    requires !TimerFits(o) && o.maxRequests > 0
    ensures LegalRun(o, ForgetfulRun(o))
    ensures Answers(o, ForgetfulRun(o)) != FullLogAnswers(o, ForgetfulRun(o))
  {
    hide FiredBurst, Run, LegalRun, Answers, FullLogAnswers, FullLog, Accepted, AfterCheck, Answer, LogOf, Zeros, Remembered;
    var fired := FiredBurst(o);
    FiredBurstForgets(o);
    AcceptedSnoc(o, fired, "a", 1);
    AnswersSnoc(o, fired, "a", 1);
    EmptyAdmits(o, Run(o, fired));
    ZerosAfter(o.maxRequests, 1 - o.windowMs);
    var a, b := Answers(o, fired), FullLogAnswers(o, fired);
    LastDiffers(a, b);
  }

  /** One request more than allowed is let through within two milliseconds. */
  lemma ForgetfulRunOverfills(o: Options)
    requires !TimerFits(o) && o.maxRequests > 0
    ensures Within(Accepted(o, ForgetfulRun(o), "a"), 1 - o.windowMs, 1) == o.maxRequests + 1
  {
    var m, fired := o.maxRequests, FiredBurst(o);
    FiredBurstForgets(o);
    AcceptedSnoc(o, fired, "a", 1);
    EmptyAdmits(o, Run(o, fired));
    WithinSnoc(Zeros(m), 1, 1 - o.windowMs, 1);
    AllWithin(m, 1 - o.windowMs);
  }

  lemma WithinSnoc(ts: seq<int>, t: int, lo: int, hi: int)
    ensures Within(ts + [t], lo, hi) == Within(ts, lo, hi) + (if lo < t <= hi then 1 else 0)
  {
    assert (ts + [t])[..|ts|] == ts;
  }

  lemma {:induction false} AllWithin(k: nat, lo: int)
    requires lo < 0
    ensures |Zeros(k)| == k && Within(Zeros(k), lo, 1) == k
  {
    if k > 0 {
      AllWithin(k - 1, lo);
      assert Zeros(k)[..|Zeros(k)| - 1] == Zeros(k - 1);
    }
  }

  lemma {:induction false} NothingAdmitted(o: Options, evs: seq<Event>, ip: string)
    requires o.maxRequests <= 0
    ensures Answers(o, evs) == FullLogAnswers(o, evs) && Accepted(o, evs, ip) == []
  {
    if evs != [] {
      NothingAdmitted(o, evs[..|evs| - 1], ip);
    }
  }

  /** Eviction is invisible in every run exactly when the runtime honours the cleanup delay. */
  lemma InvisibleIffTimerFits(o: Options)
    ensures (forall evs | LegalRun(o, evs) :: Answers(o, evs) == FullLogAnswers(o, evs))
            <==> 2 * o.windowMs <= 0x7fff_ffff || o.maxRequests <= 0
  {
    if TimerFits(o) {
      forall evs | LegalRun(o, evs)
        ensures Answers(o, evs) == FullLogAnswers(o, evs)
      {
        EvictionInvisible(o, evs);
      }
    } else if o.maxRequests <= 0 {
      forall evs | LegalRun(o, evs)
        ensures Answers(o, evs) == FullLogAnswers(o, evs)
      {
        NothingAdmitted(o, evs, "");
      }
    } else {
      ForgetfulRunAnswers(o);
    }
  }

  predicate BoundAt(o: Options, evs: seq<Event>, ip: string, T: int) {
    Within(Accepted(o, evs, ip), T - o.windowMs, T) <= Limit(o)
  }

  /** So does the window bound. */
  lemma BoundIffTimerFits(o: Options)
    ensures (forall evs, ip, T | LegalRun(o, evs) :: BoundAt(o, evs, ip, T))
            <==> 2 * o.windowMs <= 0x7fff_ffff || o.maxRequests <= 0
  {
    if TimerFits(o) {
      forall evs, ip, T | LegalRun(o, evs)
        ensures BoundAt(o, evs, ip, T)
      {
        AtMostMaxPerWindow(o, evs, ip, T);
      }
    } else if o.maxRequests <= 0 {
      forall evs, ip, T | LegalRun(o, evs)
        ensures BoundAt(o, evs, ip, T)
      {
        NothingAdmitted(o, evs, ip);
      }
    } else {
      ForgetfulRunAnswers(o);
      ForgetfulRunOverfills(o);
      assert !BoundAt(o, ForgetfulRun(o), "a", 1);
    }
  }
}
