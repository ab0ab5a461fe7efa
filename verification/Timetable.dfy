/**
 How long the phases of a match last (match-server/match.go): each of them, from the end of a round to the next fight,
 and from the end of the last one to the end of the match. Times are milliseconds.
 */
module Timetable {
  import opened Phases
  import opened Results

  function RunFrom(c: Config, s: State, ticks: seq<Tick>): State {
    if ticks == [] then s else Advance(c, RunFrom(c, s, ticks[..|ticks| - 1]), ticks[|ticks| - 1])
  }

  function Last(start: int, ticks: seq<Tick>): int {
    if ticks == [] then start else ticks[|ticks| - 1].now
  }

  /** Each tick comes at most g after the one before. */
  ghost predicate Dense(start: int, ticks: seq<Tick>, g: nat) {
    ticks == [] ||
    (Dense(start, ticks[..|ticks| - 1], g) && ticks[|ticks| - 1].now <= Last(start, ticks[..|ticks| - 1]) + g)
  }

  // ----- Each phase -----

  /** When the present phase began, or in the first one the present wait: for players, or for the buy phase to end. */
  function Since(c: Config, start: int, bot: bool, ticks: seq<Tick>): int {
    if ticks == [] then start else
    var before := ticks[..|ticks| - 1];
    if Left(Run(c, start, bot, before), Run(c, start, bot, ticks)) then ticks[|ticks| - 1].now
    else Since(c, start, bot, before)
  }

  predicate Left(s: State, t: State) {
    s.phase != t.phase || s.started != t.started
  }

  /** How long it lasts. A length that is not positive is without end. */
  function Length(c: Config, s: State): int {
    match s.phase
    case SetupBind => 150
    case SetupGap => 1000
    case SetupWait => 3000
    case Prepare => if c.holdPrepare then 21_600_000 else if s.started then c.buyPhase else 30_000
    case Fight => 21_600_000
    case PostBanner => 6300
    case PostReviveBind => 150
    case PostBlack => 400
    case IntroWait => 150
    case Intro => 2300
    case MatchEndPause => 500
    case MatchEnd => 20_000
    case Cancelled => 10_000
  }

  ghost predicate Timed(c: Config, s: State, since: int) {
    && s.deadline == (if Length(c, s) <= 0 then None else Some(since + Length(c, s)))
    && (c.holdPrepare && s.phase == Prepare ==> s.started)
  }

  /** The phase that a tick begins, if it begins one, has just the time it is to last. */
  ghost predicate Begun(c: Config, s: State, t: Tick, u: State) {
    if Left(s, u) then Timed(c, u, t.now) else u.deadline == s.deadline && u.phase == s.phase
  }

  lemma FightBegins(c: Config, s: State, t: Tick)
    requires s.phase == Fight
    ensures Begun(c, s, t, EndFight(c, s, t))
  {
  }

  lemma SetupBegins(c: Config, s: State, t: Tick)
    requires s.phase == SetupBind || s.phase == SetupGap
    ensures Begun(c, s, t, OnDeadline(c, s, t))
  {
  }

  lemma PrepareBegins(c: Config, s: State, t: Tick)
    requires s.phase == SetupWait || s.phase == Intro
    ensures Begun(c, s, t, EnterPrepare(c, s, t))
  {
  }

  lemma StartBegins(c: Config, s: State, t: Tick)
    requires !s.started && !c.holdPrepare
    ensures Begun(c, s, t, StartBuyPhase(c, s, t.now)) && Begun(c, s, t, StartBuyPhase(c, s.(bot := true), t.now))
  {
  }

  lemma WaitBegins(c: Config, s: State, t: Tick)
    requires s.phase == Prepare && (c.holdPrepare ==> s.started)
    ensures Begun(c, s, t, OnDeadline(c, s, t))
  {
    if !s.started {
      StartBegins(c, s, t);
    }
  }

  lemma BannerBegins(c: Config, s: State, t: Tick)
    requires s.phase == PostBanner || s.phase == PostReviveBind || s.phase == PostBlack || s.phase == IntroWait
    ensures Begun(c, s, t, OnDeadline(c, s, t))
  {
  }

  lemma EndBegins(c: Config, s: State, t: Tick)
    requires s.phase == MatchEndPause || Final(s.phase)
    ensures Begun(c, s, t, OnDeadline(c, s, t))
  {
  }

  lemma DeadlineBegins(c: Config, s: State, t: Tick)
    requires s.phase != Fight && (c.holdPrepare && s.phase == Prepare ==> s.started)
    ensures Begun(c, s, t, OnDeadline(c, s, t))
  {
    match s.phase {
      case SetupBind | SetupGap => SetupBegins(c, s, t);
      case SetupWait | Intro => PrepareBegins(c, s, t);
      case Prepare => WaitBegins(c, s, t);
      case PostBanner | PostReviveBind | PostBlack | IntroWait => BannerBegins(c, s, t);
      case _ => EndBegins(c, s, t);
    }
  }

  lemma TimedStep(c: Config, s: State, t: Tick, since: int)
    requires Timed(c, s, since)
    ensures var u := Advance(c, s, t); Begun(c, s, t, u)
  {
    if s.phase == Fight {
      FightBegins(c, s, t);
    } else if s.phase == Prepare && !s.started && t.teamsReady {
      StartBegins(c, s, t);
    } else {
      DeadlineBegins(c, s, t);
    }
  }

  lemma BegunTimed(c: Config, s: State, t: Tick, u: State, since: int)
    requires Timed(c, s, since) && Begun(c, s, t, u)
    ensures Timed(c, u, if Left(s, u) then t.now else since)
  {
  }

  lemma {:induction false} RunTimed(c: Config, start: int, bot: bool, ticks: seq<Tick>)
    ensures Timed(c, Run(c, start, bot, ticks), Since(c, start, bot, ticks))
    decreases |ticks|
  {
    if ticks != [] {
      var before := ticks[..|ticks| - 1];
      var s, t := Run(c, start, bot, before), ticks[|ticks| - 1];
      RunTimed(c, start, bot, before);
      TimedStep(c, s, t, Since(c, start, bot, before));
      BegunTimed(c, s, t, Advance(c, s, t), Since(c, start, bot, before));
    }
  }

  /**
   In every reachable state a phase other than a fight is left at a tick exactly if its length has passed since it
   began, or if it is the wait for players and they are there; after the last one the match is closed.
   */
  lemma PhaseLasts(c: Config, start: int, bot: bool, ticks: seq<Tick>, t: Tick)
    ensures var s := Run(c, start, bot, ticks); var u := Advance(c, s, t);
            var over := Length(c, s) > 0 && t.now >= Since(c, start, bot, ticks) + Length(c, s);
            var joined := s.phase == Prepare && !s.started && t.teamsReady;
            && (s.phase != Fight && !Final(s.phase) ==> (Left(s, u) <==> over || joined))
            && (Final(s.phase) ==> !Left(s, u) && (u.tearingDown <==> s.tearingDown || over))
  {
    RunTimed(c, start, bot, ticks);
  }

  predicate Final(p: Phase) {
    p == MatchEnd || p == Cancelled
  }

  // ----- How many rounds -----

  /** The round number counts the rounds played, and a second one is played only if the match has that many. */
  ghost predicate Numbered(c: Config, s: State) {
    if s.phase == PostBanner || s.phase == PostReviveBind || s.phase == PostBlack
    then |s.history| == s.round < c.maxRound
    else (|s.history| == if s.phase == MatchEndPause || s.phase == MatchEnd then s.round else s.round - 1)
         && (s.round == 1 || s.round <= c.maxRound)
  }

  /** Neither the round nor the rounds played. */
  predicate SameRound(s: State, u: State) {
    u.round == s.round && u.history == s.history
  }

  lemma FightNumbered(c: Config, s: State, t: Tick)
    requires Numbered(c, s) && s.phase == Fight
    ensures Numbered(c, EndFight(c, s, t))
  {
  }

  lemma BannerNumbered(c: Config, s: State, t: Tick)
    requires Numbered(c, s) && (s.phase == PostBanner || s.phase == PostReviveBind || s.phase == PostBlack)
    ensures Numbered(c, OnDeadline(c, s, t))
  {
  }

  lemma OthersNumbered(c: Config, s: State, t: Tick)
    requires s.phase != Fight && s.phase != PostBanner && s.phase != PostReviveBind && s.phase != PostBlack
    ensures var u := OnDeadline(c, s, t);
            && SameRound(s, u) && u.phase != PostBanner && u.phase != PostReviveBind && u.phase != PostBlack
            && (u.phase == MatchEndPause || u.phase == MatchEnd <==> s.phase == MatchEndPause || s.phase == MatchEnd)
  {
  }

  lemma NumberedStep(c: Config, s: State, t: Tick)
    requires Numbered(c, s)
    ensures Numbered(c, Advance(c, s, t))
  {
    if s.phase == Fight {
      FightNumbered(c, s, t);
    } else if s.phase == PostBanner || s.phase == PostReviveBind || s.phase == PostBlack {
      BannerNumbered(c, s, t);
    } else {
      OthersNumbered(c, s, t);
    }
  }

  /** Whatever the settings, even those that let nobody win: a match has one round, or no more than its settings say. */
  lemma {:induction false} NoMoreRounds(c: Config, start: int, bot: bool, ticks: seq<Tick>)
    ensures var s := Run(c, start, bot, ticks); Numbered(c, s) && (|s.history| <= 1 || |s.history| <= c.maxRound)
    decreases |ticks|
  {
    if ticks != [] {
      var before := ticks[..|ticks| - 1];
      NoMoreRounds(c, start, bot, before);
      NumberedStep(c, Run(c, start, bot, before), ticks[|ticks| - 1]);
    }
  }

  // ----- Between two fights -----

  predicate Break(p: Phase) {
    p == PostBanner || p == PostReviveBind || p == PostBlack || p == IntroWait || p == Intro || p == Prepare
  }

  /** When a phase of the break is over at the earliest, counted from the end of the fight. */
  function Earliest(p: Phase, buy: int): int {
    match p
    case PostBanner => 6300
    case PostReviveBind => 6450
    case PostBlack => 6700
    case IntroWait => 6850
    case Intro => 9150
    case _ => 9150 + buy
  }

  /** And at the latest, with ticks at most g apart. */
  function AtLatest(p: Phase, buy: int, g: nat): int {
    match p
    case PostBanner => 6300
    case PostReviveBind => 6450 + g
    case PostBlack => 6850 + 2 * g
    case IntroWait => 7000 + 3 * g
    case Intro => 9300 + 4 * g
    case _ => 9300 + buy + 5 * g
  }

  /** The fight ended at the time end, and this is the break after it. */
  ghost predicate Breaking(c: Config, s: State, end: int, g: nat) {
    && s.started && Break(s.phase) && s.deadline.Some?
    && end + Earliest(s.phase, c.buyPhase) <= s.deadline.value <= end + AtLatest(s.phase, c.buyPhase, g)
  }

  /** No fight so far. */
  ghost predicate Peaceful(c: Config, s: State, ticks: seq<Tick>) {
    s.phase != Fight &&
    (ticks == [] || (Peaceful(c, s, ticks[..|ticks| - 1]) && RunFrom(c, s, ticks).phase != Fight))
  }

  lemma BannerOver(c: Config, s: State, t: Tick, end: int, g: nat)
    requires c.buyPhase > 0 && Breaking(c, s, end, g) && s.deadline.value <= t.now < s.deadline.value + g
    requires s.phase == PostBanner || s.phase == PostReviveBind || s.phase == PostBlack
    ensures var u := OnDeadline(c, s, t); Breaking(c, u, end, g) && t.now < u.deadline.value
  {
  }

  lemma IntroOver(c: Config, s: State, t: Tick, end: int, g: nat)
    requires !c.holdPrepare && c.buyPhase > 0 && Breaking(c, s, end, g)
    requires s.deadline.value <= t.now < s.deadline.value + g
    requires s.phase == IntroWait || s.phase == Intro
    ensures var u := OnDeadline(c, s, t); Breaking(c, u, end, g) && t.now < u.deadline.value
  {
  }

  lemma BreakStep(c: Config, s: State, t: Tick, end: int, last: int, g: nat)
    requires !c.holdPrepare && c.buyPhase > 0 && Breaking(c, s, end, g) && t.now <= last + g
    requires last < s.deadline.value
    ensures var u := Advance(c, s, t);
            if u.phase == Fight then t.now >= end + 9150 + c.buyPhase
            else Breaking(c, u, end, g) && t.now < u.deadline.value
  {
    if Expired(s, t.now) {
      if s.phase == IntroWait || s.phase == Intro {
        IntroOver(c, s, t, end, g);
      } else if s.phase != Prepare {
        BannerOver(c, s, t, end, g);
      }
    }
  }

  lemma {:induction false} RunBreak(c: Config, s: State, ticks: seq<Tick>, end: int, g: nat)
    requires !c.holdPrepare && c.buyPhase > 0 && Breaking(c, s, end, g) && end < s.deadline.value
    requires Dense(end, ticks, g) && Peaceful(c, s, ticks)
    ensures var u := RunFrom(c, s, ticks); Breaking(c, u, end, g) && Last(end, ticks) < u.deadline.value
    decreases |ticks|
  {
    if ticks != [] {
      var before := ticks[..|ticks| - 1];
      RunBreak(c, s, before, end, g);
      BreakStep(c, RunFrom(c, s, before), ticks[|ticks| - 1], end, Last(end, before), g);
    }
  }

  /**
   After a round that does not decide the match the next fight begins 9.15 s and a buy phase after the last at the
   earliest, and at the latest 0.15 s later, with a tick's distance for each phase of the break.
   */
  lemma NextFight(c: Config, s: State, t: Tick, ticks: seq<Tick>, g: nat)
    requires !c.holdPrepare && c.buyPhase > 0 && s.started && s.phase == Fight
    requires Advance(c, s, t).phase == PostBanner && Dense(t.now, ticks, g)
    requires ticks != [] && Peaceful(c, Advance(c, s, t), ticks[..|ticks| - 1])
    ensures var u, last := RunFrom(c, Advance(c, s, t), ticks), ticks[|ticks| - 1].now;
            && (u.phase == Fight ==> last >= t.now + 9150 + c.buyPhase)
            && (last >= t.now + 9300 + c.buyPhase + 5 * g ==> u.phase == Fight)
  {
    var u, before := Advance(c, s, t), ticks[..|ticks| - 1];
    RunBreak(c, u, before, t.now, g);
    BreakStep(c, RunFrom(c, u, before), ticks[|ticks| - 1], t.now, Last(t.now, before), g);
  }

  // ----- After the last one -----

  predicate Ending(s: State, end: int, g: nat) {
    && s.deadline.Some? && !s.tearingDown
    && match s.phase
       case MatchEndPause => s.deadline.value == end + 500
       case MatchEnd => end + 20_500 <= s.deadline.value <= end + 20_500 + g
       case _ => false
  }

  lemma EndStep(c: Config, s: State, t: Tick, end: int, last: int, g: nat)
    requires Ending(s, end, g) && last < s.deadline.value && t.now <= last + g
    ensures var u := Advance(c, s, t);
            if u.tearingDown then t.now >= end + 20_500 && u.closed == s.closed + 1
            else Ending(u, end, g) && t.now < u.deadline.value && u.closed == s.closed
  {
  }

  ghost predicate Open(c: Config, s: State, ticks: seq<Tick>) {
    !s.tearingDown &&
    (ticks == [] || (Open(c, s, ticks[..|ticks| - 1]) && !RunFrom(c, s, ticks).tearingDown))
  }

  lemma {:induction false} RunEnd(c: Config, s: State, ticks: seq<Tick>, end: int, g: nat)
    requires Ending(s, end, g) && end < s.deadline.value && Dense(end, ticks, g) && Open(c, s, ticks)
    ensures var u := RunFrom(c, s, ticks);
            Ending(u, end, g) && Last(end, ticks) < u.deadline.value && u.closed == s.closed
    decreases |ticks|
  {
    if ticks != [] {
      var before := ticks[..|ticks| - 1];
      RunEnd(c, s, before, end, g);
      EndStep(c, RunFrom(c, s, before), ticks[|ticks| - 1], end, Last(end, before), g);
    }
  }

  /** The match is done 20.5 s after the fight that decided it, and no more than two ticks' distances later. */
  lemma MatchCloses(c: Config, s: State, t: Tick, ticks: seq<Tick>, g: nat)
    requires !s.tearingDown && s.phase == Fight && Advance(c, s, t).phase == MatchEndPause && Dense(t.now, ticks, g)
    requires ticks != [] && Open(c, Advance(c, s, t), ticks[..|ticks| - 1])
    ensures var u, last := RunFrom(c, Advance(c, s, t), ticks), ticks[|ticks| - 1].now;
            && (u.closed > s.closed ==> last >= t.now + 20_500)
            && (last >= t.now + 20_500 + g ==> u.closed == s.closed + 1)
  {
    var u, before := Advance(c, s, t), ticks[..|ticks| - 1];
    RunEnd(c, u, before, t.now, g);
    EndStep(c, RunFrom(c, u, before), ticks[|ticks| - 1], t.now, Last(t.now, before), g);
  }
}
