/**
 What becomes of a match that nobody joins: the wait of match-server/match.go (enterPrepare and advancePhase) runs out,
 and the match is cancelled, or goes on against a bot where the server has one. Times are milliseconds.
 */
module Waiting {
  import opened Phases
  import opened Results

  /** A match that waits for players: no custom room, and not held in its first phase. */
  predicate Waits(c: Config) {
    !c.isCustom && !c.holdPrepare
  }

  /** Nobody joins. */
  ghost predicate Alone(ticks: seq<Tick>) {
    forall i :: 0 <= i < |ticks| ==> !ticks[i].teamsReady
  }

  /** Before the match has started. */
  predicate Before(s: State) {
    !s.started && (Setup(s.phase) || s.phase == Prepare)
  }

  /** It has not started yet, or was cancelled for want of a bot, or has started with one. */
  ghost predicate Outcome(c: Config, s: State) {
    Before(s) || if c.matchBot then s.started && s.bot && s.phase != Cancelled else !s.started && s.phase == Cancelled
  }

  lemma StartedStays(c: Config, s: State, t: Tick)
    requires s.started && s.bot && s.phase != Cancelled && !Setup(s.phase)
    ensures var u := Advance(c, s, t); u.started && u.bot && u.phase != Cancelled && !Setup(u.phase)
  {
  }

  lemma OutcomeStep(c: Config, s: State, t: Tick)
    requires Waits(c) && Flagged(s) && Outcome(c, s) && !t.teamsReady
    ensures Outcome(c, Advance(c, s, t))
  {
    if Before(s) {
    } else if c.matchBot {
      StartedStays(c, s, t);
    }
  }

  lemma {:induction false} RunFlagged(c: Config, start: int, bot: bool, ticks: seq<Tick>)
    ensures Flagged(Run(c, start, bot, ticks))
    decreases |ticks|
  {
    if ticks != [] {
      var s := Run(c, start, bot, ticks[..|ticks| - 1]);
      RunFlagged(c, start, bot, ticks[..|ticks| - 1]);
      if s.phase == Fight {
        EndFightFlags(c, s, ticks[|ticks| - 1]);
      } else {
        DeadlineKeeps(c, s, ticks[|ticks| - 1]);
      }
    }
  }

  /** In every state of a match that nobody joins. */
  lemma {:induction false} RunOutcome(c: Config, start: int, bot: bool, ticks: seq<Tick>)
    requires Waits(c) && Alone(ticks)
    ensures Outcome(c, Run(c, start, bot, ticks))
    decreases |ticks|
  {
    if ticks != [] {
      RunOutcome(c, start, bot, ticks[..|ticks| - 1]);
      RunFlagged(c, start, bot, ticks[..|ticks| - 1]);
      OutcomeStep(c, Run(c, start, bot, ticks[..|ticks| - 1]), ticks[|ticks| - 1]);
    }
  }

  // ----- The wait ends -----

  function Last(start: int, ticks: seq<Tick>): int {
    if ticks == [] then start else ticks[|ticks| - 1].now
  }

  /** Each tick comes at most g after the one before. */
  ghost predicate Dense(start: int, ticks: seq<Tick>, g: nat) {
    ticks == [] ||
    (Dense(start, ticks[..|ticks| - 1], g) && ticks[|ticks| - 1].now <= Last(start, ticks[..|ticks| - 1]) + g)
  }

  /** When a phase before the start is over at the latest. */
  function Limit(start: int, p: Phase, g: nat): int {
    match p
    case SetupBind => start + BIND_DELAY
    case SetupGap => start + BIND_DELAY + SETUP_GAP + g
    case SetupWait => start + BIND_DELAY + SETUP_GAP + SETUP_WAIT + 2 * g
    case _ => start + BIND_DELAY + SETUP_GAP + SETUP_WAIT + WAIT_PLAYERS + 3 * g
  }

  ghost predicate Timely(s: State, start: int, last: int, g: nat) {
    Before(s) ==>
      && s.deadline.Some? && s.deadline.value <= Limit(start, s.phase, g)
      && (last < s.deadline.value || last == start)
  }

  lemma TimelyStep(c: Config, s: State, t: Tick, start: int, last: int, g: nat)
    requires Waits(c) && Flagged(s) && Timely(s, start, last, g) && !t.teamsReady && t.now <= last + g
    ensures Timely(Advance(c, s, t), start, t.now, g)
  {
  }

  lemma {:induction false} RunTimely(c: Config, start: int, bot: bool, ticks: seq<Tick>, g: nat)
    requires Waits(c) && Alone(ticks) && Dense(start, ticks, g)
    ensures Timely(Run(c, start, bot, ticks), start, Last(start, ticks), g)
    decreases |ticks|
  {
    if ticks != [] {
      var before := ticks[..|ticks| - 1];
      RunTimely(c, start, bot, before, g);
      RunFlagged(c, start, bot, before);
      TimelyStep(c, Run(c, start, bot, before), ticks[|ticks| - 1], start, Last(start, before), g);
    }
  }

  /** The setup takes 4.15 s and the wait 30 s, with a tick's distance for each of their four phases. */
  function WaitOver(start: int, g: nat): int {
    start + 34_150 + 4 * g
  }

  /**
   With ticks at most g apart, a match that nobody joins is cancelled by the end of the wait exactly if the server has
   no bot for it; otherwise it has been started, with the bot.
   */
  lemma NobodyJoins(c: Config, start: int, bot: bool, ticks: seq<Tick>, g: nat)
    requires Waits(c) && Alone(ticks) && Dense(start, ticks, g) && Last(start, ticks) >= WaitOver(start, g)
    ensures var s := Run(c, start, bot, ticks);
            && (s.phase == Cancelled <==> !c.matchBot) && (s.started <==> c.matchBot) && (c.matchBot ==> s.bot)
  {
    RunOutcome(c, start, bot, ticks);
    RunTimely(c, start, bot, ticks, g);
    RunFlagged(c, start, bot, ticks);
  }

  /** As soon as somebody does, it starts, with no bot but one that was there before. */
  lemma SomebodyJoins(c: Config, s: State, t: Tick)
    requires Before(s) && s.phase == Prepare && t.teamsReady
    ensures var u := Advance(c, s, t); u.started && u.phase == Prepare && u.bot == s.bot
  {
  }

  lemma NoWaitStep(c: Config, s: State, t: Tick)
    requires !Waits(c) && Flagged(s) && s.phase != Cancelled && (s.phase == Prepare ==> s.started)
    ensures var u := Advance(c, s, t); u.phase != Cancelled && (u.phase == Prepare ==> u.started)
  {
  }

  /** A custom room, and a match that is held, never waits and is never cancelled. */
  lemma {:induction false} OthersNeverWait(c: Config, start: int, bot: bool, ticks: seq<Tick>)
    requires !Waits(c)
    ensures var s := Run(c, start, bot, ticks); s.phase != Cancelled && (s.phase == Prepare ==> s.started)
    decreases |ticks|
  {
    if ticks != [] {
      OthersNeverWait(c, start, bot, ticks[..|ticks| - 1]);
      RunFlagged(c, start, bot, ticks[..|ticks| - 1]);
      NoWaitStep(c, Run(c, start, bot, ticks[..|ticks| - 1]), ticks[|ticks| - 1]);
    }
  }

  lemma FightBot(c: Config, s: State, t: Tick)
    ensures EndFight(c, s, t).bot == s.bot
  {
  }

  lemma DeadlineBot(c: Config, s: State, t: Tick)
    ensures OnDeadline(c, s, t).bot == (s.bot || (c.matchBot && OnDeadline(c, s, t).bot))
  {
  }

  lemma BotStep(c: Config, s: State, t: Tick)
    ensures var more := Advance(c, s, t).bot; (more ==> s.bot || c.matchBot) && (s.bot ==> more)
  {
    if s.phase == Fight {
      FightBot(c, s, t);
    } else {
      DeadlineBot(c, s, t);
    }
  }

  /** In every match a bot is there only if there was one from the start or the server has bots. */
  lemma {:induction false} BotsOnlyIfAny(c: Config, start: int, bot: bool, ticks: seq<Tick>)
    ensures Run(c, start, bot, ticks).bot ==> bot || c.matchBot
    ensures bot ==> Run(c, start, bot, ticks).bot
    decreases |ticks|
  {
    if ticks != [] {
      BotsOnlyIfAny(c, start, bot, ticks[..|ticks| - 1]);
      BotStep(c, Run(c, start, bot, ticks[..|ticks| - 1]), ticks[|ticks| - 1]);
    }
  }

  /** A custom room that is not full when its setup ends starts at once, with the bot where the server has one. */
  lemma CustomStarts(c: Config, s: State, t: Tick)
    requires c.isCustom && !c.holdPrepare && Before(s) && s.phase == SetupWait && !t.teamsReady
    requires s.deadline.Some? && s.deadline.value <= t.now
    ensures var u := Advance(c, s, t); u.started && u.phase == Prepare && (u.bot <==> s.bot || c.matchBot)
  {
  }
}
