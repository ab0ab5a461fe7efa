/** The methods of match-server/match.go that drive the phases: each makes its transition of Phases.dfy. */
module PhaseClock {
  import opened Phases
  import opened Results

  /** The match's own phase fields, and whether it has a bot. done counts how often the channel was closed. */
  class Clock {
    const c: Config

    var phase: Phase
    var deadline: Option<int>
    var round: int
    var localScore: nat
    var enemyScore: nat
    var localStreak: nat
    var enemyStreak: nat
    var started: bool
    var ended: bool
    var tearingDown: bool
    var done: nat
    var bot: bool
    var winner: Option<Side>
    ghost var history: seq<Side>
    ghost var past: seq<Tick>
    ghost const start: int
    ghost const startBot: bool

    ghost function Now(): State
      reads this
    {
      State(phase, deadline, round, localScore, enemyScore, localStreak, enemyStreak, started, ended, tearingDown,
            done, bot, winner, history)
    }

    constructor (c: Config, now: int, bot: bool)
      ensures this.c == c && Now() == Start(now, bot) && past == [] && start == now && startBot == bot
    {
      this.c := c;
      phase, deadline, round := SetupBind, Some(now + BIND_DELAY), 1;
      localScore, enemyScore, localStreak, enemyStreak := 0, 0, 0, 0;
      started, ended, tearingDown, done, this.bot, winner := false, false, false, 0, bot, None;
      history, past, start, startBot := [], [], now, bot;
    }

    method Enter(now: int, ph: Phase, dur: int)
      modifies this`phase, this`deadline
      ensures Now() == Phases.Enter(old(Now()), now, ph, dur)
    {
      phase := ph;
      if dur <= 0 {
        deadline := None;
      } else {
        deadline := Some(now + dur);
      }
    }

    method StartBuyPhase(now: int)
      modifies this`phase, this`deadline, this`started
      ensures Now() == Phases.StartBuyPhase(c, old(Now()), now)
    {
      started := true;
      Enter(now, Prepare, c.buyPhase);
    }

    method EnterPrepare(t: Tick)
      modifies this`phase, this`deadline, this`started, this`bot
      ensures Now() == Phases.EnterPrepare(c, old(Now()), t)
    {
      if c.holdPrepare {
        started := true;
        Enter(t.now, Prepare, HOLD);
        return;
      }
      if !started && !t.teamsReady {
        if c.isCustom {
          if c.matchBot && !bot {
            bot := true;
          }
          StartBuyPhase(t.now);
          return;
        }
        Enter(t.now, Prepare, WAIT_PLAYERS);
        return;
      }
      StartBuyPhase(t.now);
    }

    method EnterCancel(now: int)
      modifies this`phase, this`deadline, this`ended
      ensures Now() == Phases.EnterCancel(old(Now()), now)
    {
      ended := true;
      Enter(now, Cancelled, CANCEL_HOLD);
    }

    method Score(localWon: bool)
      modifies this`localScore, this`enemyScore, this`localStreak, this`enemyStreak, this`history
      ensures var side := if localWon then Local else Enemy;
              Now() == Scored(old(Now()), side).(history := old(history) + [side])
    {
      if localWon {
        localScore := (localScore + 1) % BYTE;
        localStreak := 0;
        enemyStreak := (enemyStreak + 1) % BYTE;
        history := history + [Local];
      } else {
        enemyScore := (enemyScore + 1) % BYTE;
        enemyStreak := 0;
        localStreak := (localStreak + 1) % BYTE;
        history := history + [Enemy];
      }
    }

    method EndFight(t: Tick)
      modifies this`phase, this`deadline, this`winner, this`history
      modifies this`localScore, this`enemyScore, this`localStreak, this`enemyStreak
      ensures Now() == Phases.EndFight(c, old(Now()), t)
    {
      var localWon := t.localAlive > 0;
      Score(localWon);
      if localScore >= c.roundsToWin || enemyScore >= c.roundsToWin || round >= c.maxRound {
        winner := Some(if localWon then Local else Enemy);
        Enter(t.now, MatchEndPause, MATCH_END_PAUSE);
        return;
      }
      Enter(t.now, PostBanner, POST_TO_BLACK);
    }

    method CloseDone()
      modifies this`tearingDown, this`done
      ensures Now() == Close(old(Now()))
    {
      if !tearingDown {
        tearingDown := true;
        done := done + 1;
      }
    }

    /** The deadline of the phase before the first fight has passed. */
    method LeaveSetup(t: Tick)
      requires Setup(phase) || phase == Prepare
      modifies this`phase, this`deadline, this`started, this`ended, this`bot
      ensures Now() == OnDeadline(c, old(Now()), t)
    {
      if phase == SetupBind {
        Enter(t.now, SetupGap, SETUP_GAP);
      } else if phase == SetupGap {
        Enter(t.now, SetupWait, SETUP_WAIT);
      } else if phase == SetupWait {
        EnterPrepare(t);
      } else if started {
        Enter(t.now, Fight, HOLD);
      } else if c.matchBot {
        bot := true;
        StartBuyPhase(t.now);
      } else {
        EnterCancel(t.now);
      }
    }

    /** The deadline of a phase after a fight has passed. */
    method LeaveRound(t: Tick)
      requires !Setup(phase) && phase != Prepare && phase != Fight
      modifies this`phase, this`deadline, this`round, this`started, this`ended, this`tearingDown, this`done, this`bot
      ensures Now() == OnDeadline(c, old(Now()), t)
    {
      if phase == MatchEndPause {
        ended := true;
        Enter(t.now, MatchEnd, STATS_HOLD);
      } else if phase == PostBanner {
        if t.anyDead {
          Enter(t.now, PostReviveBind, BIND_DELAY);
        } else {
          Enter(t.now, PostBlack, POST_BLACK_HOLD);
        }
      } else if phase == PostReviveBind {
        Enter(t.now, PostBlack, POST_BLACK_HOLD);
      } else if phase == PostBlack {
        round := round + 1;
        Enter(t.now, IntroWait, BIND_DELAY);
      } else if phase == IntroWait {
        Enter(t.now, Intro, INTRO_HOLD);
      } else if phase == Intro {
        EnterPrepare(t);
      } else {
        CloseDone();
      }
    }

    method Leave(t: Tick)
      requires phase != Fight
      modifies this`phase, this`deadline, this`round, this`started, this`ended, this`tearingDown, this`done, this`bot
      ensures Now() == OnDeadline(c, old(Now()), t)
    {
      if Setup(phase) || phase == Prepare {
        LeaveSetup(t);
      } else {
        LeaveRound(t);
      }
    }

    /** One tick. */
    method AdvancePhase(t: Tick)
      modifies this`phase, this`deadline, this`round, this`started, this`ended, this`tearingDown, this`done, this`bot
      modifies this`localScore, this`enemyScore, this`localStreak, this`enemyStreak, this`winner, this`history
      ensures Now() == Advance(c, old(Now()), t)
    {
      if phase == Fight {
        if t.localAlive == 0 || t.enemyAlive == 0 {
          EndFight(t);
        }
        return;
      }
      if phase == Prepare && !started && t.teamsReady {
        StartBuyPhase(t.now);
        return;
      }
      if deadline.None? || t.now < deadline.value {
        return;
      }
      Leave(t);
    }

    /** The fields stay those of the run of all ticks so far, to which the results about runs apply. */
    method OnTick(t: Tick)
      requires Now() == Run(c, start, startBot, past)
      modifies this
      ensures Now() == Run(c, start, startBot, past) && past == old(past) + [t]
    {
      assert (past + [t])[..|past|] == past;
      AdvancePhase(t);
      past := past + [t];
    }
  }
}
