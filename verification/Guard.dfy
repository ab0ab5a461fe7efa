/** The per-source rate limiter of match-server/guard.go. Times are milliseconds. */
module Guard {
  const WINDOW := 1000
  const MAX_WEIGHT := 400
  const BAD_WEIGHT := 4
  const BLOCK := 60_000
  const MAX_TRACKED := 8192

  /** The zero time of an entry that was never blocked lies before every other. */
  datatype Until = Never | Time(t: int)

  datatype Stat = Stat(winStart: int, weight: nat, blocked: Until)

  type Table = map<string, Stat>

  function Weight(bad: bool): nat {
    if bad then BAD_WEIGHT else 1
  }

  predicate Blocked(st: Stat, now: int) {
    st.blocked.Time? && now < st.blocked.t
  }

  /** The window that now lies in: the current one, or a new one. */
  function Opened(st: Stat, now: int): Stat {
    if now - st.winStart >= WINDOW then Stat(now, 0, st.blocked) else st
  }

  /** One datagram counted against a tracked source. */
  function Count(st: Stat, bad: bool, now: int): (Stat, bool) {
    if Blocked(st, now) then (st, false) else
    var o := Opened(st, now);
    var w := o.weight + Weight(bad);
    if w > MAX_WEIGHT then (Stat(o.winStart, w, Time(now + BLOCK)), false) else (Stat(o.winStart, w, st.blocked), true)
  }

  /** The source is tracked, or there is room to track it. */
  predicate Tracked(m: Table, ip: string) {
    ip in m || |m| < MAX_TRACKED
  }

  function Entry(m: Table, ip: string, now: int): Stat {
    if ip in m then m[ip] else Stat(now, 0, Never)
  }

  /** allowSource: a source that the full table has no room for is not limited, only its junk is dropped. */
  function Allow(m: Table, ip: string, bad: bool, now: int): (Table, bool) {
    if !Tracked(m, ip) then (m, !bad) else
    var r := Count(Entry(m, ip, now), bad, now);
    (m[ip := r.0], r.1)
  }

  /** Idle for more than a window and not blocked. */
  predicate Idle(st: Stat, now: int) {
    (st.blocked.Never? || now > st.blocked.t) && now - st.winStart > WINDOW
  }

  function Prune(m: Table, now: int): Table {
    map ip | ip in m && !Idle(m[ip], now) :: m[ip]
  }

  datatype Event = Datagram(ip: string, bad: bool, now: int) | Maintenance(now: int)

  function Step(m: Table, ev: Event): Table {
    match ev
    case Datagram(ip, bad, now) => Allow(m, ip, bad, now).0
    case Maintenance(now) => Prune(m, now)
  }

  function Run(evs: seq<Event>): Table {
    if evs == [] then map[] else Step(Run(evs[..|evs| - 1]), evs[|evs| - 1])
  }

  /** The clock does not run backwards. */
  ghost predicate Ordered(evs: seq<Event>) {
    forall i, j :: 0 <= i < j < |evs| ==> evs[i].now <= evs[j].now
  }

  // ----- The table stays small -----

  lemma PruneShrinks(m: Table, now: int)
    ensures |Prune(m, now)| <= |m|
  {
    assert Prune(m, now).Keys <= m.Keys;
    SubsetSize(Prune(m, now).Keys, m.Keys);
    assert |Prune(m, now)| == |Prune(m, now).Keys| && |m| == |m.Keys|;
  }

  lemma SubsetSize<T>(a: set<T>, b: set<T>)
    requires a <= b
    ensures |a| <= |b|
  {
    assert b == a + (b - a);
  }

  lemma {:induction false} TableBounded(evs: seq<Event>)
    ensures |Run(evs)| <= 8192
    decreases |evs|
  {
    if evs != [] {
      var m, ev := Run(evs[..|evs| - 1]), evs[|evs| - 1];
      TableBounded(evs[..|evs| - 1]);
      if ev.Maintenance? {
        PruneShrinks(m, ev.now);
      } else if ev.ip !in m && Tracked(m, ev.ip) {
        assert Step(m, ev).Keys == m.Keys + {ev.ip};
      }
    }
  }

  // ----- How much a tracked source gets through -----

  /** A datagram that was let through, with its weight. */
  datatype Pass = Pass(at: int, weight: nat)

  /** What got through of a source while it was tracked. */
  function Passed(evs: seq<Event>, ip: string): seq<Pass> {
    if evs == [] then [] else
    var before, ev := evs[..|evs| - 1], evs[|evs| - 1];
    if ev.Datagram? && ev.ip == ip && Tracked(Run(before), ip) && Allow(Run(before), ip, ev.bad, ev.now).1
    then Passed(before, ip) + [Pass(ev.now, Weight(ev.bad))]
    else Passed(before, ip)
  }

  function Since(passes: seq<Pass>, lo: int): nat {
    if passes == [] then 0
    else Since(passes[..|passes| - 1], lo) + if passes[|passes| - 1].at >= lo then passes[|passes| - 1].weight else 0
  }

  /** What got through in the second from lo on. */
  function InSecond(passes: seq<Pass>, lo: int): nat {
    if passes == [] then 0
    else InSecond(passes[..|passes| - 1], lo)
         + if lo <= passes[|passes| - 1].at < lo + WINDOW then passes[|passes| - 1].weight else 0
  }

  lemma PassMore(passes: seq<Pass>, p: Pass, lo: int)
    ensures Since(passes + [p], lo) == Since(passes, lo) + if p.at >= lo then p.weight else 0
    ensures InSecond(passes + [p], lo) == InSecond(passes, lo) + if lo <= p.at < lo + WINDOW then p.weight else 0
  {
    assert (passes + [p])[..|passes|] == passes;
  }

  lemma {:induction false} InSecondSince(passes: seq<Pass>, lo: int)
    ensures InSecond(passes, lo) <= Since(passes, lo)
    decreases |passes|
  {
    if passes != [] {
      InSecondSince(passes[..|passes| - 1], lo);
    }
  }

  lemma {:induction false} SinceShrinks(passes: seq<Pass>, lo: int, hi: int)
    requires lo <= hi
    ensures Since(passes, hi) <= Since(passes, lo)
    decreases |passes|
  {
    if passes != [] {
      SinceShrinks(passes[..|passes| - 1], lo, hi);
    }
  }

  /** No second lets through more than two windows' worth. */
  ghost predicate Limited(passes: seq<Pass>) {
    forall lo :: InSecond(passes, lo) <= 2 * MAX_WEIGHT
  }

  /**
   What a tracked source's entry says: its weight covers what got through in the current window, which is one
   window's worth at most, and so is what got through in the second before it.
   */
  ghost predicate Covered(passes: seq<Pass>, st: Stat) {
    && Since(passes, st.winStart) <= st.weight && Since(passes, st.winStart) <= MAX_WEIGHT
    && (forall lo :: lo > st.winStart - WINDOW ==> Since(passes, lo) <= MAX_WEIGHT + Since(passes, st.winStart))
    && Since(passes, st.winStart + WINDOW) == 0
  }

  /** A source that is not tracked has had at most one window's worth in the last second. */
  ghost predicate Resting(passes: seq<Pass>, now: int) {
    (forall lo :: lo > now - WINDOW ==> Since(passes, lo) <= MAX_WEIGHT) && Since(passes, now) == 0
  }

  ghost predicate Sound(m: Table, ip: string, passes: seq<Pass>, now: int) {
    Limited(passes) && if ip in m then Covered(passes, m[ip]) && m[ip].winStart <= now else Resting(passes, now)
  }

  lemma OpenedCovers(passes: seq<Pass>, st: Stat, now: int)
    requires Covered(passes, st) && st.winStart <= now
    ensures Covered(passes, Opened(st, now)) && now - WINDOW < Opened(st, now).winStart <= now
  {
    if now - st.winStart >= WINDOW {
      SinceShrinks(passes, st.winStart + WINDOW, now);
      SinceShrinks(passes, now, now + WINDOW);
      forall lo | lo > now - WINDOW
        ensures Since(passes, lo) <= MAX_WEIGHT
      {
        SinceShrinks(passes, st.winStart, lo);
      }
    }
  }

  lemma FreshCovers(passes: seq<Pass>, now: int)
    requires Resting(passes, now)
    ensures Covered(passes, Stat(now, 0, Never))
  {
    SinceShrinks(passes, now, now + WINDOW);
  }

  /** One more datagram in the current window. */
  lemma PassCovers(passes: seq<Pass>, st: Stat, w: nat, now: int, blocked: Until)
    requires Limited(passes) && Covered(passes, st) && now - WINDOW < st.winStart <= now && st.weight + w <= MAX_WEIGHT
    ensures var more := passes + [Pass(now, w)];
            Limited(more) && Covered(more, Stat(st.winStart, st.weight + w, blocked))
  {
    var p, more := Pass(now, w), passes + [Pass(now, w)];
    PassMore(passes, p, st.winStart);
    PassMore(passes, p, st.winStart + WINDOW);
    forall lo | lo > st.winStart - WINDOW
      ensures Since(more, lo) <= MAX_WEIGHT + Since(more, st.winStart)
    {
      PassMore(passes, p, lo);
    }
    forall lo
      ensures InSecond(more, lo) <= 2 * MAX_WEIGHT
    {
      PassMore(passes, p, lo);
      if lo <= now < lo + WINDOW {
        InSecondSince(more, lo);
      }
    }
  }

  lemma OverCovers(passes: seq<Pass>, st: Stat, w: nat, blocked: Until)
    requires Covered(passes, st)
    ensures Covered(passes, Stat(st.winStart, st.weight + w, blocked))
  {
  }

  lemma CountCovers(passes: seq<Pass>, st: Stat, bad: bool, now: int)
    requires Limited(passes) && Covered(passes, st) && st.winStart <= now
    ensures var r := Count(st, bad, now);
            var more := if r.1 then passes + [Pass(now, Weight(bad))] else passes;
            Limited(more) && Covered(more, r.0) && r.0.winStart <= now
  {
    if !Blocked(st, now) {
      var o := Opened(st, now);
      OpenedCovers(passes, st, now);
      if o.weight + Weight(bad) <= MAX_WEIGHT {
        PassCovers(passes, o, Weight(bad), now, st.blocked);
      } else {
        OverCovers(passes, o, Weight(bad), Time(now + BLOCK));
      }
    }
  }

  lemma AllowKeeps(m: Table, ip: string, bad: bool, now: int, x: string, passes: seq<Pass>)
    requires Sound(m, x, passes, now)
    ensures var r := Allow(m, ip, bad, now);
            var more := if ip == x && Tracked(m, ip) && r.1 then passes + [Pass(now, Weight(bad))] else passes;
            Sound(r.0, x, more, now)
  {
    if ip == x && Tracked(m, ip) {
      if ip !in m {
        FreshCovers(passes, now);
      }
      CountCovers(passes, Entry(m, ip, now), bad, now);
    }
  }

  lemma PruneKeeps(m: Table, now: int, x: string, passes: seq<Pass>)
    requires Sound(m, x, passes, now)
    ensures Sound(Prune(m, now), x, passes, now)
  {
    if x in m && Idle(m[x], now) {
      SinceShrinks(passes, m[x].winStart + WINDOW, now);
      forall lo | lo > now - WINDOW
        ensures Since(passes, lo) <= MAX_WEIGHT
      {
        SinceShrinks(passes, m[x].winStart, lo);
      }
    }
  }

  lemma LaterSound(m: Table, x: string, passes: seq<Pass>, now: int, later: int)
    requires Sound(m, x, passes, now) && now <= later
    ensures Sound(m, x, passes, later)
  {
    SinceShrinks(passes, now, later);
  }

  function Last(evs: seq<Event>): int
    requires evs != []
  {
    evs[|evs| - 1].now
  }

  lemma {:induction false} RunLimits(evs: seq<Event>, x: string)
    requires Ordered(evs) && evs != []
    ensures Sound(Run(evs), x, Passed(evs, x), Last(evs))
    decreases |evs|
  {
    var before, ev := evs[..|evs| - 1], evs[|evs| - 1];
    if before == [] {
      assert Sound(map[], x, [], ev.now);
    } else {
      RunLimits(before, x);
      assert before[|before| - 1].now <= ev.now;
      LaterSound(Run(before), x, Passed(before, x), Last(before), ev.now);
    }
    match ev
    case Datagram(ip, bad, now) => AllowKeeps(Run(before), ip, bad, now, x, Passed(before, x));
    case Maintenance(now) => PruneKeeps(Run(before), now, x, Passed(before, x));
  }

  /** However datagrams and maintenance are interleaved, no second lets more than 800 through of a tracked source. */
  lemma SecondLimited(evs: seq<Event>, ip: string, lo: int)
    requires Ordered(evs)
    ensures InSecond(Passed(evs, ip), lo) <= 800
  {
    if evs != [] {
      RunLimits(evs, ip);
    }
  }

  /** And the current window at most 400. */
  lemma WindowLimited(evs: seq<Event>, ip: string)
    requires Ordered(evs) && evs != [] && ip in Run(evs)
    ensures Since(Passed(evs, ip), Run(evs)[ip].winStart) <= 400
  {
    RunLimits(evs, ip);
  }

  // ----- Runs from any table -----

  function From(m: Table, evs: seq<Event>): Table {
    if evs == [] then m else Step(From(m, evs[..|evs| - 1]), evs[|evs| - 1])
  }

  lemma {:induction false} RunIsFrom(evs: seq<Event>)
    ensures Run(evs) == From(map[], evs)
    decreases |evs|
  {
    if evs != [] {
      RunIsFrom(evs[..|evs| - 1]);
    }
  }

  /** What the datagrams are answered, one after the other. */
  function Answers(m: Table, evs: seq<Event>): seq<bool> {
    if evs == [] then [] else
    var before, ev := evs[..|evs| - 1], evs[|evs| - 1];
    Answers(m, before) + if ev.Datagram? then [Allow(From(m, before), ev.ip, ev.bad, ev.now).1] else []
  }

  // ----- A block lasts -----

  /** No datagram of the source gets through. */
  ghost predicate Refused(m: Table, evs: seq<Event>, ip: string) {
    forall i :: 0 <= i < |evs| && evs[i].Datagram? && evs[i].ip == ip ==>
      !Allow(From(m, evs[..i]), ip, evs[i].bad, evs[i].now).1
  }

  lemma BlockedStep(m: Table, ip: string, until: int, ev: Event)
    requires ip in m && m[ip].blocked == Time(until) && ev.now < until
    ensures ip in Step(m, ev) && Step(m, ev)[ip] == m[ip]
    ensures ev.Datagram? && ev.ip == ip ==> !Allow(m, ip, ev.bad, ev.now).1
  {
  }

  lemma {:induction false} StaysBlocked(m: Table, ip: string, until: int, evs: seq<Event>)
    requires ip in m && m[ip].blocked == Time(until) && forall i :: 0 <= i < |evs| ==> evs[i].now < until
    ensures ip in From(m, evs) && From(m, evs)[ip] == m[ip] && Refused(m, evs, ip)
    decreases |evs|
  {
    if evs != [] {
      var before := evs[..|evs| - 1];
      StaysBlocked(m, ip, until, before);
      BlockedStep(From(m, before), ip, until, evs[|evs| - 1]);
      RefusedMore(m, evs, ip);
    }
  }

  lemma RefusedMore(m: Table, evs: seq<Event>, ip: string)
    requires evs != [] && Refused(m, evs[..|evs| - 1], ip)
    requires var ev := evs[|evs| - 1];
             ev.Datagram? && ev.ip == ip ==> !Allow(From(m, evs[..|evs| - 1]), ip, ev.bad, ev.now).1
    ensures Refused(m, evs, ip)
  {
    var before := evs[..|evs| - 1];
    forall i | 0 <= i < |evs| && evs[i].Datagram? && evs[i].ip == ip
      ensures !Allow(From(m, evs[..i]), ip, evs[i].bad, evs[i].now).1
    {
      assert i < |before| ==> before[i] == evs[i] && before[..i] == evs[..i];
    }
  }

  /**
   A tracked source that goes over the limit gets nothing through for a minute, whatever datagrams of its own or of
   others and whatever pruning come in that time; then its block is over.
   */
  lemma BlockHolds(m: Table, ip: string, bad: bool, now: int, evs: seq<Event>)
    requires Tracked(m, ip) && !Blocked(Entry(m, ip, now), now) && !Allow(m, ip, bad, now).1
    requires forall i :: 0 <= i < |evs| ==> evs[i].now < now + 60_000
    ensures var after := Allow(m, ip, bad, now).0;
            && Refused(after, evs, ip) && ip in From(after, evs)
            && forall t :: Blocked(From(after, evs)[ip], t) <==> t < now + 60_000
  {
    StaysBlocked(Allow(m, ip, bad, now).0, ip, now + BLOCK, evs);
  }

  // ----- Pruning is not noticed -----

  /** The entry answers like one that is not there. */
  ghost predicate Stale(st: Stat, now: int) {
    !Blocked(st, now) && now - st.winStart >= WINDOW
  }

  ghost predicate Alike(x: Stat, y: Stat, now: int) {
    && x.winStart == y.winStart && x.weight == y.weight
    && (x.blocked == y.blocked || (!Blocked(x, now) && !Blocked(y, now)))
  }

  /** What both tables have is alike, and what one of them lacks is stale in the other. */
  ghost predicate Matches(a: Table, b: Table, now: int) {
    && (forall ip :: ip in a ==> if ip in b then Alike(a[ip], b[ip], now) else Stale(a[ip], now))
    && (forall ip :: ip in b && ip !in a ==> Stale(b[ip], now))
  }

  lemma LaterMatches(a: Table, b: Table, now: int, later: int)
    requires Matches(a, b, now) && now <= later
    ensures Matches(a, b, later)
  {
  }

  lemma CountAlike(x: Stat, y: Stat, bad: bool, now: int)
    requires Alike(x, y, now)
    ensures Count(x, bad, now).1 == Count(y, bad, now).1 && Alike(Count(x, bad, now).0, Count(y, bad, now).0, now)
  {
  }

  lemma CountStale(y: Stat, bad: bool, now: int)
    requires Stale(y, now)
    ensures var x := Stat(now, 0, Never);
            Count(x, bad, now).1 == Count(y, bad, now).1 && Alike(Count(x, bad, now).0, Count(y, bad, now).0, now)
  {
  }

  /** A datagram that both tables have room for is answered alike. */
  lemma AllowMatches(a: Table, b: Table, ip: string, bad: bool, now: int)
    requires Matches(a, b, now) && Tracked(a, ip) && Tracked(b, ip)
    ensures Allow(a, ip, bad, now).1 == Allow(b, ip, bad, now).1
    ensures Matches(Allow(a, ip, bad, now).0, Allow(b, ip, bad, now).0, now)
  {
    if ip in a && ip in b {
      CountAlike(a[ip], b[ip], bad, now);
    } else if ip in a {
      CountStale(a[ip], bad, now);
    } else if ip in b {
      CountStale(b[ip], bad, now);
    }
  }

  /** Pruning either table, or both, leaves them alike. */
  lemma PruneMatches(a: Table, b: Table, now: int)
    requires Matches(a, b, now)
    ensures Matches(Prune(a, now), b, now) && Matches(a, Prune(b, now), now)
    ensures Matches(Prune(a, now), Prune(b, now), now)
  {
  }

  /** Every source that turns up is tracked or finds room. */
  ghost predicate Roomy(m: Table, evs: seq<Event>) {
    evs == [] ||
    var before, ev := evs[..|evs| - 1], evs[|evs| - 1];
    Roomy(m, before) && (ev.Datagram? ==> Tracked(From(m, before), ev.ip))
  }

  /** A datagram that comes to two limiters, and maintenance of either, both or none. */
  datatype Turn = Arrival(ip: string, bad: bool, now: int) | Upkeep(now: int, left: bool, right: bool)

  function Take(evs: seq<Event>, turn: Turn, left: bool): seq<Event> {
    match turn
    case Arrival(ip, bad, now) => evs + [Datagram(ip, bad, now)]
    case Upkeep(now, l, r) => evs + if (if left then l else r) then [Maintenance(now)] else []
  }

  /** What one of the two goes through. */
  function Side(turns: seq<Turn>, left: bool): seq<Event> {
    if turns == [] then [] else Take(Side(turns[..|turns| - 1], left), turns[|turns| - 1], left)
  }

  ghost predicate InOrder(turns: seq<Turn>, start: int) {
    && (forall i :: 0 <= i < |turns| ==> start <= turns[i].now)
    && (forall i, j :: 0 <= i < j < |turns| ==> turns[i].now <= turns[j].now)
  }

  function LastTurn(turns: seq<Turn>, start: int): int {
    if turns == [] then start else turns[|turns| - 1].now
  }

  lemma OneMore(m: Table, evs: seq<Event>, ev: Event)
    ensures From(m, evs + [ev]) == Step(From(m, evs), ev)
    ensures Answers(m, evs + [ev]) ==
            Answers(m, evs) + if ev.Datagram? then [Allow(From(m, evs), ev.ip, ev.bad, ev.now).1] else []
    ensures Roomy(m, evs + [ev]) <==> Roomy(m, evs) && (ev.Datagram? ==> Tracked(From(m, evs), ev.ip))
  {
    assert (evs + [ev])[..|evs|] == evs;
  }

  /** Both limiters are alike and have answered alike. */
  ghost predicate Agree(a: Table, b: Table, turns: seq<Turn>, start: int) {
    && Matches(From(a, Side(turns, true)), From(b, Side(turns, false)), LastTurn(turns, start))
    && Answers(a, Side(turns, true)) == Answers(b, Side(turns, false))
  }

  lemma ArrivalAgrees(a: Table, b: Table, l: seq<Event>, r: seq<Event>, ev: Event)
    requires ev.Datagram? && Matches(From(a, l), From(b, r), ev.now) && Answers(a, l) == Answers(b, r)
    requires Roomy(a, l + [ev]) && Roomy(b, r + [ev])
    ensures Matches(From(a, l + [ev]), From(b, r + [ev]), ev.now)
    ensures Answers(a, l + [ev]) == Answers(b, r + [ev])
  {
    OneMore(a, l, ev);
    OneMore(b, r, ev);
    AllowMatches(From(a, l), From(b, r), ev.ip, ev.bad, ev.now);
  }

  lemma UpkeepAgrees(a: Table, b: Table, l: seq<Event>, r: seq<Event>, now: int, left: bool, right: bool)
    requires Matches(From(a, l), From(b, r), now) && Answers(a, l) == Answers(b, r)
    ensures var l', r' := l + (if left then [Maintenance(now)] else []), r + if right then [Maintenance(now)] else [];
            Matches(From(a, l'), From(b, r'), now) && Answers(a, l') == Answers(b, r')
  {
    PruneMatches(From(a, l), From(b, r), now);
    OneMore(a, l, Maintenance(now));
    OneMore(b, r, Maintenance(now));
    assert l + [] == l && r + [] == r;
  }

  lemma TurnRoom(m: Table, evs: seq<Event>, turn: Turn, left: bool)
    requires Roomy(m, Take(evs, turn, left))
    ensures Roomy(m, evs)
  {
    match turn
    case Arrival(ip, bad, now) => OneMore(m, evs, Datagram(ip, bad, now));
    case Upkeep(now, _, _) =>
      OneMore(m, evs, Maintenance(now));
      assert evs + [] == evs;
  }

  lemma TurnAgrees(a: Table, b: Table, l: seq<Event>, r: seq<Event>, turn: Turn)
    requires Matches(From(a, l), From(b, r), turn.now) && Answers(a, l) == Answers(b, r)
    requires Roomy(a, Take(l, turn, true)) && Roomy(b, Take(r, turn, false))
    ensures var l', r' := Take(l, turn, true), Take(r, turn, false);
            Matches(From(a, l'), From(b, r'), turn.now) && Answers(a, l') == Answers(b, r')
  {
    match turn
    case Arrival(ip, bad, now) => ArrivalAgrees(a, b, l, r, Datagram(ip, bad, now));
    case Upkeep(now, left, right) => UpkeepAgrees(a, b, l, r, now, left, right);
  }

  /**
   Two limiters that are alike answer the same datagrams alike, however each of them is pruned in between, as long as
   both have room for the sources that turn up.
   */
  lemma {:induction false} SchedulesAgree(a: Table, b: Table, turns: seq<Turn>, start: int)
    requires Matches(a, b, start) && InOrder(turns, start)
    requires Roomy(a, Side(turns, true)) && Roomy(b, Side(turns, false))
    ensures Agree(a, b, turns, start)
    decreases |turns|
  {
    if turns != [] {
      var before, turn := turns[..|turns| - 1], turns[|turns| - 1];
      var l, r := Side(before, true), Side(before, false);
      TurnRoom(a, l, turn, true);
      TurnRoom(b, r, turn, false);
      assert before != [] ==> before[|before| - 1].now <= turn.now;
      SchedulesAgree(a, b, before, start);
      LaterMatches(From(a, l), From(b, r), LastTurn(before, start), turn.now);
      TurnAgrees(a, b, l, r, turn);
    }
  }

  /** So from the start of the process on it does not matter when maintenance comes, if it comes at all. */
  lemma AnyMaintenance(turns: seq<Turn>, start: int)
    requires InOrder(turns, start) && Roomy(map[], Side(turns, true)) && Roomy(map[], Side(turns, false))
    ensures Answers(map[], Side(turns, true)) == Answers(map[], Side(turns, false))
    ensures Matches(Run(Side(turns, true)), Run(Side(turns, false)), LastTurn(turns, start))
  {
    SchedulesAgree(map[], map[], turns, start);
    RunIsFrom(Side(turns, true));
    RunIsFrom(Side(turns, false));
  }

  // ----- One pruning -----

  /** The pruned table has part of the entries, and was blocked no longer. */
  ghost predicate Fewer(pruned: Table, full: Table, now: int) {
    && Matches(pruned, full, now) && |full| <= MAX_TRACKED
    && forall ip :: ip in pruned ==>
         ip in full && (pruned[ip].blocked == full[ip].blocked || pruned[ip].blocked.Never?)
  }

  lemma FewerKeys(a: Table, b: Table, ip: string)
    requires forall x :: x in a ==> x in b
    ensures |a| <= |b| && (ip in b && ip !in a ==> |a| < |b|)
  {
    assert |a| == |a.Keys| && |b| == |b.Keys|;
    SubsetSize(a.Keys, b.Keys);
    if ip in b && ip !in a {
      SubsetSize(a.Keys, b.Keys - {ip});
    }
  }

  lemma AllowBounded(m: Table, ip: string, bad: bool, now: int)
    requires |m| <= MAX_TRACKED
    ensures |Allow(m, ip, bad, now).0| <= MAX_TRACKED
  {
    if ip !in m && Tracked(m, ip) {
      assert Allow(m, ip, bad, now).0.Keys == m.Keys + {ip};
    }
  }

  /** Where the full table has room, the pruned one has. */
  lemma FewerAllow(pruned: Table, full: Table, ip: string, bad: bool, now: int)
    requires Fewer(pruned, full, now) && Tracked(full, ip)
    ensures Tracked(pruned, ip) && Allow(pruned, ip, bad, now).1 == Allow(full, ip, bad, now).1
    ensures Fewer(Allow(pruned, ip, bad, now).0, Allow(full, ip, bad, now).0, now)
  {
    FewerKeys(pruned, full, ip);
    AllowMatches(pruned, full, ip, bad, now);
    AllowBounded(full, ip, bad, now);
  }

  lemma FewerPrune(pruned: Table, full: Table, now: int)
    requires Fewer(pruned, full, now)
    ensures Fewer(Prune(pruned, now), Prune(full, now), now)
  {
    PruneMatches(pruned, full, now);
    PruneShrinks(full, now);
  }

  lemma OnePruning(m: Table, t: int)
    requires |m| <= MAX_TRACKED
    ensures Fewer(Prune(m, t), m, t)
  {
  }

  lemma LaterFewer(pruned: Table, full: Table, now: int, later: int)
    requires Fewer(pruned, full, now) && now <= later
    ensures Fewer(pruned, full, later)
  {
  }

  lemma {:induction false} FewerRun(pruned: Table, full: Table, evs: seq<Event>, start: int, now: int)
    requires Fewer(pruned, full, start) && Ordered(evs) && Roomy(full, evs) && start <= now
    requires forall i :: 0 <= i < |evs| ==> start <= evs[i].now <= now
    ensures Fewer(From(pruned, evs), From(full, evs), now)
    ensures Roomy(pruned, evs) && Answers(pruned, evs) == Answers(full, evs)
    decreases |evs|
  {
    if evs == [] {
      LaterFewer(pruned, full, start, now);
    } else {
      var before, ev := evs[..|evs| - 1], evs[|evs| - 1];
      FewerRun(pruned, full, before, start, ev.now);
      match ev {
        case Datagram(ip, bad, at) => FewerAllow(From(pruned, before), From(full, before), ip, bad, at);
        case Maintenance(at) => FewerPrune(From(pruned, before), From(full, before), at);
      }
      LaterFewer(From(pruned, evs), From(full, evs), ev.now, now);
    }
  }

  /**
   A pruning changes no answer from then on, while the table that was not pruned has room for the sources that turn up;
   maintenance goes on in both.
   */
  lemma PruningUnobservable(m: Table, t: int, evs: seq<Event>)
    requires |m| <= MAX_TRACKED && Ordered(evs) && (forall i :: 0 <= i < |evs| ==> t <= evs[i].now)
    requires Roomy(m, evs)
    ensures Roomy(Prune(m, t), evs) && Answers(Prune(m, t), evs) == Answers(m, evs)
  {
    OnePruning(m, t);
    if evs == [] {
      FewerRun(Prune(m, t), m, evs, t, t);
    } else {
      FewerRun(Prune(m, t), m, evs, t, Last(evs));
    }
  }

  // ----- The Go code -----

  /** guardMap. */
  class Limiter {
    var guardMap: Table
    ghost var past: seq<Event>

    constructor ()
      ensures guardMap == map[] && past == []
    {
      guardMap, past := map[], [];
    }

    /** allowSource. */
    method Check(ip: string, bad: bool, now: int) returns (ok: bool)
      modifies this`guardMap
      ensures guardMap == Allow(old(guardMap), ip, bad, now).0 && ok == Allow(old(guardMap), ip, bad, now).1
    {
      var st: Stat;
      if ip in guardMap {
        st := guardMap[ip];
      } else {
        if |guardMap| >= MAX_TRACKED {
          return !bad;
        }
        st := Stat(now, 0, Never);
        guardMap := guardMap[ip := st];
      }
      if st.blocked.Time? && now < st.blocked.t {
        guardMap := guardMap[ip := st];
        return false;
      }
      if now - st.winStart >= WINDOW {
        st := st.(winStart := now, weight := 0);
      }
      st := st.(weight := st.weight + if bad then BAD_WEIGHT else 1);
      ok := true;
      if st.weight > MAX_WEIGHT {
        st := st.(blocked := Time(now + BLOCK));
        ok := false;
      }
      guardMap := guardMap[ip := st];
    }

    /** The table stays that of the run of all events so far, to which the results about runs apply. */
    method AllowSource(ip: string, bad: bool, now: int) returns (ok: bool)
      requires guardMap == Run(past)
      modifies this
      ensures guardMap == Run(past) && past == old(past) + [Datagram(ip, bad, now)]
      ensures ok == Allow(Run(old(past)), ip, bad, now).1
    {
      assert (past + [Datagram(ip, bad, now)])[..|past|] == past;
      ok := Check(ip, bad, now);
      past := past + [Datagram(ip, bad, now)];
    }

    /** The pruning of guardMaintenance, whatever order the map is walked in. */
    method Maintain(now: int)
      requires guardMap == Run(past)
      modifies this
      ensures guardMap == Run(past) && past == old(past) + [Maintenance(now)]
    {
      ghost var m := guardMap;
      assert (past + [Maintenance(now)])[..|past|] == past;
      past := past + [Maintenance(now)];
      var pending := guardMap.Keys;
      while pending != {}
        invariant past == old(past) + [Maintenance(now)] && pending <= m.Keys
        invariant guardMap == map ip | ip in m && (ip in pending || !Idle(m[ip], now)) :: m[ip]
        decreases pending
      {
        var ip :| ip in pending;
        pending := pending - {ip};
        if Idle(guardMap[ip], now) {
          guardMap := guardMap - {ip};
        }
      }
    }
  }
}
