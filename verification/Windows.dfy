/**
 Just what the rate limiter of match-server/guard.go lets through in a second: the datagrams of a source up to a weight
 of 400, a bad one counting as four, whatever comes from others. Times are milliseconds.
 */
module Windows {
  import opened Guard

  /** A datagram of the source at t0 begins a new second for it. */
  ghost predicate Begins(m: Table, ip: string, t0: int) {
    Tracked(m, ip) && (ip in m ==> !Blocked(m[ip], t0) && t0 - m[ip].winStart >= 1000)
  }

  predicate Own(ev: Event, ip: string) {
    ev.Datagram? && ev.ip == ip
  }

  /** What the source has sent, a bad datagram counting as four. */
  function Spent(evs: seq<Event>, ip: string): nat {
    if evs == [] then 0 else
    var ev := evs[|evs| - 1];
    Spent(evs[..|evs| - 1], ip) + if Own(ev, ip) then (if ev.bad then 4 else 1) else 0
  }

  ghost predicate InSecondOf(evs: seq<Event>, t0: int) {
    forall i :: 0 <= i < |evs| ==> t0 <= evs[i].now < t0 + 1000
  }

  /** The entry after that much in the second from t0 on. */
  ghost predicate Counted(m: Table, ip: string, spent: nat, t0: int) {
    && ip in m
    && if spent <= 400
       then m[ip].winStart == t0 && m[ip].weight == spent && (m[ip].blocked.Time? ==> m[ip].blocked.t <= t0)
       else m[ip].blocked.Time? && m[ip].blocked.t >= t0 + 60_000
  }

  lemma FirstCounted(m: Table, ip: string, bad: bool, t0: int)
    requires Begins(m, ip, t0)
    ensures Counted(Allow(m, ip, bad, t0).0, ip, if bad then 4 else 1, t0) && Allow(m, ip, bad, t0).1
  {
  }

  lemma NextCounted(m: Table, ip: string, spent: nat, ev: Event, t0: int)
    requires Counted(m, ip, spent, t0) && t0 <= ev.now < t0 + 1000
    ensures var more := spent + if Own(ev, ip) then (if ev.bad then 4 else 1) else 0;
            && Counted(Step(m, ev), ip, more, t0)
            && (Own(ev, ip) ==> (Allow(m, ip, ev.bad, ev.now).1 <==> more <= 400))
  {
  }

  lemma {:induction false} RunCounted(m: Table, ip: string, evs: seq<Event>, t0: int)
    requires Begins(m, ip, t0) && InSecondOf(evs, t0) && evs != [] && Own(evs[0], ip) && evs[0].now == t0
    ensures Counted(From(m, evs), ip, Spent(evs, ip), t0)
    decreases |evs|
  {
    var before, ev := evs[..|evs| - 1], evs[|evs| - 1];
    if before == [] {
      FirstCounted(m, ip, ev.bad, t0);
    } else {
      RunCounted(m, ip, before, t0);
      NextCounted(From(m, before), ip, Spent(before, ip), ev, t0);
    }
  }

  /**
   Of the datagrams that a source sends in a second of its own, each gets through exactly if they come to no more than
   400 with it, whatever others send and whatever is pruned meanwhile.
   */
  lemma ExactLimit(m: Table, ip: string, evs: seq<Event>, ev: Event, t0: int)
    requires Begins(m, ip, t0) && InSecondOf(evs + [ev], t0) && Own(ev, ip)
    requires var first := (evs + [ev])[0]; Own(first, ip) && first.now == t0
    ensures Allow(From(m, evs), ip, ev.bad, ev.now).1 <==> Spent(evs + [ev], ip) <= 400
  {
    var all := evs + [ev];
    assert all[..|evs|] == evs;
    if evs == [] {
      FirstCounted(m, ip, ev.bad, t0);
    } else {
      assert all[0] == evs[0];
      assert forall i :: 0 <= i < |evs| ==> evs[i] == all[i];
      assert all[|evs|] == ev;
      RunCounted(m, ip, evs, t0);
      NextCounted(From(m, evs), ip, Spent(evs, ip), ev, t0);
    }
  }

  // ----- Who is not tracked -----

  /** With 8192 sources tracked, and only then, a new one is not: it is not limited, but its junk is dropped. */
  lemma NotLimited(m: Table, ip: string, bad: bool, now: int)
    requires ip !in m
    ensures ip !in Allow(m, ip, bad, now).0 <==> |m| >= 8192
    ensures Allow(m, ip, bad, now).1 <==> |m| < 8192 || !bad
  {
  }

  /** A maintenance run that comes later than a second after the window began, and later than the block. */
  predicate Forgets(ev: Event, st: Stat) {
    ev.Maintenance? && ev.now > st.winStart + 1000 && (st.blocked.Time? ==> ev.now > st.blocked.t)
  }

  /** A source that sends nothing stays as it is until such a run, and is forgotten by it. */
  lemma {:induction false} SilentIsForgotten(m: Table, ip: string, evs: seq<Event>)
    requires ip in m && forall i :: 0 <= i < |evs| ==> !Own(evs[i], ip)
    ensures ip in From(m, evs) <==> forall i :: 0 <= i < |evs| ==> !Forgets(evs[i], m[ip])
    ensures ip in From(m, evs) ==> From(m, evs)[ip] == m[ip]
    decreases |evs|
  {
    if evs != [] {
      var before, ev := evs[..|evs| - 1], evs[|evs| - 1];
      SilentIsForgotten(m, ip, before);
      assert forall i :: 0 <= i < |before| ==> before[i] == evs[i];
      assert evs[|before|] == ev;
    }
  }
}
