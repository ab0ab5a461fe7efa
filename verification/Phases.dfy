/**
 The phase machine of a match: match-server/match.go (enterPrepare, startBuyPhase, enterCancel, advancePhase, endFight,
 postBannerEdge) and the round settings of match-server/matchsettings.go. Times are milliseconds.
 */
module Phases {
  import opened Results

  const BYTE := 256

  const BIND_DELAY := 150
  const SETUP_GAP := 1000
  const SETUP_WAIT := 3000
  const WAIT_PLAYERS := 30_000
  const CANCEL_HOLD := 10_000
  const MATCH_END_PAUSE := 500
  const POST_TO_BLACK := 6300
  const POST_BLACK_HOLD := 400
  const INTRO_HOLD := 2300
  const STATS_HOLD := 20_000
  const HOLD := 21_600_000

  datatype Phase =
    | SetupBind | SetupGap | SetupWait | Prepare | Fight | MatchEndPause | PostBanner | PostReviveBind | PostBlack
    | IntroWait | Intro | MatchEnd | Cancelled

  datatype Side = Local | Enemy

  /** The settings of a match, the switches of the server and the configured length of the buy phase. */
  datatype Config = Config(maxRound: nat, roundsToWin: nat, isCustom: bool, holdPrepare: bool, matchBot: bool,
                           buyPhase: int)

  /** Rounds to win, as loadMatchSettings computes it from a room's round count in 8-bit arithmetic. */
  function RoundsToWin(roundCount: nat): nat {
    ((roundCount + 1) % BYTE) / 2
  }

  /** A match length that lets a winner be found: it takes at least one win, and the last round is never beyond it. */
  predicate Decidable(c: Config) {
    1 <= c.roundsToWin <= 127 && 2 * c.roundsToWin - 1 <= c.maxRound
  }

  /** Of all the round counts a room can ask for, exactly 255 breaks the match: its rounds to win wrap to zero. */
  lemma RoundCountsThatWork(c: Config, roundCount: nat)
    requires 1 <= roundCount < BYTE && c.maxRound == roundCount && c.roundsToWin == RoundsToWin(roundCount)
    ensures Decidable(c) <==> roundCount != 255
  {
    if roundCount < 255 {
      assert (roundCount + 1) % BYTE == roundCount + 1;
    } else {
      assert RoundsToWin(255) == 0;
    }
  }

  datatype State = State(phase: Phase, deadline: Option<int>, round: int, localScore: nat, enemyScore: nat,
                         localStreak: nat, enemyStreak: nat, started: bool, ended: bool, tearingDown: bool,
                         closed: nat, bot: bool, winner: Option<Side>, history: seq<Side>)

  /** What a tick sees of the rest of the match. */
  datatype Tick = Tick(now: int, localAlive: nat, enemyAlive: nat, teamsReady: bool, anyDead: bool)

  // ----- The transitions -----

  function Start(now: int, bot: bool): State {
    State(SetupBind, Some(now + BIND_DELAY), 1, 0, 0, 0, 0, false, false, false, 0, bot, None, [])
  }

  function Enter(s: State, now: int, phase: Phase, dur: int): State {
    s.(phase := phase, deadline := if dur <= 0 then None else Some(now + dur))
  }

  function StartBuyPhase(c: Config, s: State, now: int): State {
    Enter(s.(started := true), now, Prepare, c.buyPhase)
  }

  function EnterPrepare(c: Config, s: State, t: Tick): State {
    if c.holdPrepare then Enter(s.(started := true), t.now, Prepare, HOLD)
    else if !s.started && !t.teamsReady then
      if c.isCustom then StartBuyPhase(c, s.(bot := s.bot || c.matchBot), t.now)
      else Enter(s, t.now, Prepare, WAIT_PLAYERS)
    else StartBuyPhase(c, s, t.now)
  }

  function EnterCancel(s: State, now: int): State {
    Enter(s.(ended := true), now, Cancelled, CANCEL_HOLD)
  }

  /** The scores and streaks after a round that side won. */
  function Scored(s: State, side: Side): State {
    if side == Local
    then s.(localScore := (s.localScore + 1) % BYTE, localStreak := 0, enemyStreak := (s.enemyStreak + 1) % BYTE)
    else s.(enemyScore := (s.enemyScore + 1) % BYTE, enemyStreak := 0, localStreak := (s.localStreak + 1) % BYTE)
  }

  predicate Over(c: Config, s: State) {
    s.localScore >= c.roundsToWin || s.enemyScore >= c.roundsToWin || s.round >= c.maxRound
  }

  /** The side with somebody left won; if nobody is left, the enemy did. */
  function EndFight(c: Config, s: State, t: Tick): State {
    var side := if t.localAlive > 0 then Local else Enemy;
    var u := Scored(s, side).(history := s.history + [side]);
    if Over(c, u) then Enter(u.(winner := Some(side)), t.now, MatchEndPause, MATCH_END_PAUSE)
    else Enter(u, t.now, PostBanner, POST_TO_BLACK)
  }

  function Close(s: State): State {
    if s.tearingDown then s else s.(tearingDown := true, closed := s.closed + 1)
  }

  function Expired(s: State, now: int): bool {
    s.deadline.Some? && s.deadline.value <= now
  }

  function OnDeadline(c: Config, s: State, t: Tick): State {
    match s.phase
    case SetupBind => Enter(s, t.now, SetupGap, SETUP_GAP)
    case SetupGap => Enter(s, t.now, SetupWait, SETUP_WAIT)
    case SetupWait => EnterPrepare(c, s, t)
    case Prepare =>
      if s.started then Enter(s, t.now, Fight, HOLD)
      else if c.matchBot then StartBuyPhase(c, s.(bot := true), t.now)
      else EnterCancel(s, t.now)
    case Fight => s
    case MatchEndPause => Enter(s.(ended := true), t.now, MatchEnd, STATS_HOLD)
    case PostBanner =>
      if t.anyDead then Enter(s, t.now, PostReviveBind, BIND_DELAY) else Enter(s, t.now, PostBlack, POST_BLACK_HOLD)
    case PostReviveBind => Enter(s, t.now, PostBlack, POST_BLACK_HOLD)
    case PostBlack => Enter(s.(round := s.round + 1), t.now, IntroWait, BIND_DELAY)
    case IntroWait => Enter(s, t.now, Intro, INTRO_HOLD)
    case Intro => EnterPrepare(c, s, t)
    case MatchEnd => Close(s)
    case Cancelled => Close(s)
  }

  function Advance(c: Config, s: State, t: Tick): State {
    if s.phase == Fight then (if t.localAlive == 0 || t.enemyAlive == 0 then EndFight(c, s, t) else s)
    else if s.phase == Prepare && !s.started && t.teamsReady then StartBuyPhase(c, s, t.now)
    else if !Expired(s, t.now) then s
    else OnDeadline(c, s, t)
  }

  function Run(c: Config, start: int, bot: bool, ticks: seq<Tick>): State {
    if ticks == [] then Start(start, bot)
    else Advance(c, Run(c, start, bot, ticks[..|ticks| - 1]), ticks[|ticks| - 1])
  }

  // ----- What the state says about the history -----

  function Wins(history: seq<Side>, side: Side): nat {
    if history == [] then 0
    else Wins(history[..|history| - 1], side) + if history[|history| - 1] == side then 1 else 0
  }

  /** The rounds lost in a row, up to now. */
  function Losing(history: seq<Side>, side: Side): nat {
    if history == [] || history[|history| - 1] == side then 0 else Losing(history[..|history| - 1], side) + 1
  }

  lemma HistoryOneMore(history: seq<Side>, won: Side, side: Side)
    ensures Wins(history + [won], side) == Wins(history, side) + if won == side then 1 else 0
    ensures Losing(history + [won], side) == if won == side then 0 else Losing(history, side) + 1
  {
    assert (history + [won])[..|history|] == history;
  }

  lemma {:induction false} EveryRoundIsWon(history: seq<Side>)
    ensures Wins(history, Local) + Wins(history, Enemy) == |history|
    ensures Losing(history, Local) <= |history| && Losing(history, Enemy) <= |history|
    decreases |history|
  {
    if history != [] {
      EveryRoundIsWon(history[..|history| - 1]);
    }
  }

  /** A finished round is over but the next has not begun: the round number is that of the last round played. */
  predicate BetweenRounds(p: Phase) {
    p in {MatchEndPause, PostBanner, PostReviveBind, PostBlack, MatchEnd}
  }

  predicate Finished(p: Phase) {
    p == MatchEndPause || p == MatchEnd
  }

  ghost predicate Counts(history: seq<Side>, localScore: nat, enemyScore: nat, localStreak: nat, enemyStreak: nat) {
    && localScore == Wins(history, Local) && enemyScore == Wins(history, Enemy)
    && localStreak == Losing(history, Local) && enemyStreak == Losing(history, Enemy)
  }

  ghost predicate Tallied(s: State) {
    && Counts(s.history, s.localScore, s.enemyScore, s.localStreak, s.enemyStreak)
    && s.round == |s.history| + if BetweenRounds(s.phase) then 0 else 1
  }

  /** The last round decided the match: its winner has just the wins needed, the other side fewer. */
  ghost predicate Decided(c: Config, s: State) {
    && s.history != [] && s.winner == Some(s.history[|s.history| - 1])
    && (if s.winner.value == Local then s.enemyScore < s.localScore == c.roundsToWin
        else s.localScore < s.enemyScore == c.roundsToWin)
  }

  ghost predicate Open(c: Config, s: State) {
    s.localScore < c.roundsToWin && s.enemyScore < c.roundsToWin && s.winner == None
  }

  predicate Setup(p: Phase) {
    p == SetupBind || p == SetupGap || p == SetupWait
  }

  ghost predicate Judged(c: Config, s: State) {
    if Finished(s.phase) then Decided(c, s) else Open(c, s)
  }

  ghost predicate Flagged(s: State) {
    && (s.ended <==> s.phase == MatchEnd || s.phase == Cancelled)
    && (s.tearingDown ==> s.ended) && s.closed == (if s.tearingDown then 1 else 0)
    && (if s.started then !Setup(s.phase) && s.phase != Cancelled
        else (Setup(s.phase) || s.phase == Prepare || s.phase == Cancelled) && s.history == [])
  }

  ghost predicate Sound(c: Config, s: State) {
    Tallied(s) && Judged(c, s) && Flagged(s)
  }

  // ----- Every run keeps it -----

  lemma ScoredCounts(s: State, side: Side)
    requires Counts(s.history, s.localScore, s.enemyScore, s.localStreak, s.enemyStreak) && |s.history| < 255
    ensures var u := Scored(s, side);
            Counts(s.history + [side], u.localScore, u.enemyScore, u.localStreak, u.enemyStreak)
  {
    EveryRoundIsWon(s.history);
    HistoryOneMore(s.history, side, Local);
    HistoryOneMore(s.history, side, Enemy);
    assert s.localScore < 255 && s.enemyScore < 255 && s.localStreak < 255 && s.enemyStreak < 255;
  }

  /** Before the last round nobody has the wins needed, so it cannot be beyond the match length. */
  lemma RoundsLeft(c: Config, s: State)
    requires Decidable(c) && Tallied(s) && Judged(c, s) && !Finished(s.phase)
    ensures |s.history| == s.localScore + s.enemyScore <= 2 * c.roundsToWin - 2 < c.maxRound
  {
    EveryRoundIsWon(s.history);
  }

  lemma EndFightTallies(c: Config, s: State, t: Tick)
    requires Tallied(s) && s.phase == Fight && |s.history| < 255
    ensures Tallied(EndFight(c, s, t))
  {
    ScoredCounts(s, if t.localAlive > 0 then Local else Enemy);
  }

  lemma EndFightFlags(c: Config, s: State, t: Tick)
    requires Flagged(s) && s.phase == Fight
    ensures Flagged(EndFight(c, s, t))
  {
    assert s.started && !s.ended && !s.tearingDown && s.closed == 0;
    var u := EndFight(c, s, t);
    assert u.started && !u.ended && !u.tearingDown && u.closed == 0;
    assert u.phase == MatchEndPause || u.phase == PostBanner;
  }

  lemma EndFightJudges(c: Config, s: State, side: Side, now: int)
    requires Open(c, s) && s.localScore + s.enemyScore == |s.history| == s.round - 1
    requires Decidable(c) && s.round < c.maxRound + 1 && |s.history| <= 2 * c.roundsToWin - 2
    ensures var u := Scored(s, side).(history := s.history + [side]);
            if Over(c, u) then Decided(c, u.(winner := Some(side))) else Open(c, u)
  {
    assert s.localScore < 127 && s.enemyScore < 127;
    assert (s.history + [side])[|s.history|] == side;
  }

  lemma EndFightJudged(c: Config, s: State, t: Tick)
    requires Open(c, s) && s.localScore + s.enemyScore == |s.history| == s.round - 1
    requires Decidable(c) && s.round < c.maxRound + 1 && |s.history| <= 2 * c.roundsToWin - 2
    ensures Judged(c, EndFight(c, s, t))
  {
    EndFightJudges(c, s, if t.localAlive > 0 then Local else Enemy, t.now);
  }

  lemma EndFightKeeps(c: Config, s: State, t: Tick)
    requires Decidable(c) && Sound(c, s) && s.phase == Fight
    ensures Sound(c, EndFight(c, s, t))
  {
    RoundsLeft(c, s);
    EndFightTallies(c, s, t);
    EndFightFlags(c, s, t);
    EndFightJudged(c, s, t);
  }

  lemma DeadlineKeeps(c: Config, s: State, t: Tick)
    requires Flagged(s) && s.phase != Fight
    ensures Flagged(OnDeadline(c, s, t))
    ensures Tallied(s) ==> Tallied(OnDeadline(c, s, t))
    ensures Judged(c, s) ==> Judged(c, OnDeadline(c, s, t))
  {
  }

  lemma AdvanceKeeps(c: Config, s: State, t: Tick)
    requires Decidable(c) && Sound(c, s)
    ensures Sound(c, Advance(c, s, t))
  {
    if s.phase == Fight {
      EndFightKeeps(c, s, t);
    } else {
      DeadlineKeeps(c, s, t);
    }
  }

  /**
   In every state a match can reach, the scores are the rounds won, each streak is the run of rounds just lost, the
   round number is that of the round played or about to be played, and the match is over exactly when somebody has
   the wins needed.
   */
  lemma {:induction false} RunSound(c: Config, start: int, bot: bool, ticks: seq<Tick>)
    requires Decidable(c)
    ensures Sound(c, Run(c, start, bot, ticks))
    decreases |ticks|
  {
    if ticks != [] {
      RunSound(c, start, bot, ticks[..|ticks| - 1]);
      AdvanceKeeps(c, Run(c, start, bot, ticks[..|ticks| - 1]), ticks[|ticks| - 1]);
    }
  }

  function Other(side: Side): Side {
    if side == Local then Enemy else Local
  }

  /** The winner of the last round has just the wins needed, the other side fewer. */
  ghost predicate Won(c: Config, s: State) {
    && s.history != [] && s.winner == Some(s.history[|s.history| - 1])
    && Wins(s.history, Other(s.winner.value)) < Wins(s.history, s.winner.value) == c.roundsToWin
  }

  /** A match is finished exactly when it is won, and takes no more rounds than the settings allow. */
  lemma MatchHasAWinner(c: Config, start: int, bot: bool, ticks: seq<Tick>)
    requires Decidable(c)
    ensures var s := Run(c, start, bot, ticks);
            |s.history| <= 2 * c.roundsToWin - 1 <= c.maxRound && (Finished(s.phase) <==> Won(c, s))
  {
    var s := Run(c, start, bot, ticks);
    RunSound(c, start, bot, ticks);
    EveryRoundIsWon(s.history);
  }

  /** done is closed at most once, and only after the match has ended or been cancelled. */
  lemma DoneClosedOnce(c: Config, start: int, bot: bool, ticks: seq<Tick>)
    requires Decidable(c)
    ensures var s := Run(c, start, bot, ticks);
            s.closed <= 1 && (s.closed == 1 ==> s.phase == MatchEnd || s.phase == Cancelled)
    ensures var s := Run(c, start, bot, ticks); s.ended <==> s.phase == MatchEnd || s.phase == Cancelled
  {
    RunSound(c, start, bot, ticks);
  }

  /** A cancelled match was never started and nobody scored. */
  lemma CancelledNeverStarted(c: Config, start: int, bot: bool, ticks: seq<Tick>)
    requires Decidable(c) && Run(c, start, bot, ticks).phase == Cancelled
    ensures var s := Run(c, start, bot, ticks);
            !s.started && s.history == [] && s.localScore == 0 && s.enemyScore == 0
  {
    RunSound(c, start, bot, ticks);
  }

  // ----- Every match comes to an end -----

  predicate Moved(s: State, t: State) {
    s.phase != t.phase || s.started != t.started
  }

  /** How far a phase is from the end of its round. */
  function Rank(p: Phase, started: bool): nat {
    match p
    case SetupBind => 7
    case SetupGap => 6
    case SetupWait => 5
    case Prepare => if started then 3 else 4
    case Fight => 2
    case PostBanner => 8
    case PostReviveBind => 7
    case PostBlack => 6
    case IntroWait => 5
    case Intro => 4
    case MatchEndPause => 1
    case MatchEnd => 0
    case Cancelled => 0
  }

  predicate Last(p: Phase) {
    p == MatchEndPause || p == MatchEnd || p == Cancelled
  }

  /** The rounds still possible, and the phases still to come in this one. */
  function Measure(c: Config, s: State): int {
    Rank(s.phase, s.started) + if Last(s.phase) then 0 else 7 * (2 * c.roundsToWin - 1 - |s.history|)
  }

  lemma DeadlineGoesDown(c: Config, s: State, t: Tick)
    requires Flagged(s) && s.phase != Fight && |s.history| <= 2 * c.roundsToWin - 1
    ensures var u := OnDeadline(c, s, t);
            u.history == s.history && Measure(c, u) <= Measure(c, s) && (Moved(s, u) <==> Measure(c, u) < Measure(c, s))
  {
  }

  lemma FightGoesDown(c: Config, s: State, t: Tick)
    requires s.phase == Fight && |s.history| <= 2 * c.roundsToWin - 2
    ensures Moved(s, EndFight(c, s, t)) && Measure(c, EndFight(c, s, t)) < Measure(c, s)
  {
  }

  lemma MeasureNatural(c: Config, s: State)
    requires Decidable(c) && Sound(c, s)
    ensures 0 <= Measure(c, s) && |s.history| <= 2 * c.roundsToWin - 1
    ensures !Finished(s.phase) ==> |s.history| <= 2 * c.roundsToWin - 2
  {
    EveryRoundIsWon(s.history);
  }

  /** Exactly the ticks that change the phase, or start the match, bring it nearer to its end. */
  lemma MovesGoDown(c: Config, s: State, t: Tick)
    requires Decidable(c) && Sound(c, s)
    ensures var u := Advance(c, s, t);
            0 <= Measure(c, u) <= Measure(c, s) && (Moved(s, u) <==> Measure(c, u) < Measure(c, s))
  {
    AdvanceKeeps(c, s, t);
    MeasureNatural(c, s);
    MeasureNatural(c, Advance(c, s, t));
    if s.phase == Fight {
      FightGoesDown(c, s, t);
    } else {
      DeadlineGoesDown(c, s, t);
    }
  }

  function Moves(c: Config, start: int, bot: bool, ticks: seq<Tick>): nat {
    if ticks == [] then 0 else
    var before := ticks[..|ticks| - 1];
    Moves(c, start, bot, before)
    + if Moved(Run(c, start, bot, before), Run(c, start, bot, ticks)) then 1 else 0
  }

  lemma {:induction false} MovesAndMeasure(c: Config, start: int, bot: bool, ticks: seq<Tick>)
    requires Decidable(c)
    ensures 0 <= Measure(c, Run(c, start, bot, ticks))
    ensures Moves(c, start, bot, ticks) + Measure(c, Run(c, start, bot, ticks)) <= 14 * c.roundsToWin
    decreases |ticks|
  {
    if ticks != [] {
      var before := ticks[..|ticks| - 1];
      MovesAndMeasure(c, start, bot, before);
      RunSound(c, start, bot, before);
      MovesGoDown(c, Run(c, start, bot, before), ticks[|ticks| - 1]);
    }
  }

  /** However long it runs, a match changes its phase at most fourteen times for every win needed. */
  lemma BoundedMoves(c: Config, start: int, bot: bool, ticks: seq<Tick>)
    requires Decidable(c)
    ensures Moves(c, start, bot, ticks) <= 14 * c.roundsToWin
  {
    MovesAndMeasure(c, start, bot, ticks);
  }

  // ----- The round count that breaks it -----

  ghost predicate Reached(c: Config, s: State) {
    exists start: int, bot: bool, ticks: seq<Tick> :: Run(c, start, bot, ticks) == s
  }

  lemma ReachedNext(c: Config, s: State, t: Tick, u: State)
    requires Reached(c, s) && Advance(c, s, t) == u
    ensures Reached(c, u)
  {
    var start: int, bot: bool, ticks: seq<Tick> :| Run(c, start, bot, ticks) == s;
    assert (ticks + [t])[..|ticks|] == ticks;
    assert Run(c, start, bot, ticks + [t]) == u;
  }

  lemma FirstWait(c: Config)
    ensures Reached(c, Start(0, false).(phase := SetupWait, deadline := Some(6_000)))
  {
    var s0 := Start(0, false);
    assert Run(c, 0, false, []) == s0;
    var s1 := s0.(phase := SetupGap, deadline := Some(2_000));
    ReachedNext(c, s0, Tick(1_000, 1, 1, true, false), s1);
    ReachedNext(c, s1, Tick(3_000, 1, 1, true, false), s0.(phase := SetupWait, deadline := Some(6_000)));
  }

  lemma FirstPrepare(c: Config)
    requires !c.holdPrepare && c.buyPhase > 0
    ensures Reached(c, Start(0, false).(phase := Prepare, deadline := Some(7_000 + c.buyPhase), started := true))
  {
    FirstWait(c);
    var s2 := Start(0, false).(phase := SetupWait, deadline := Some(6_000));
    var s3 := s2.(phase := Prepare, deadline := Some(7_000 + c.buyPhase), started := true);
    ReachedNext(c, s2, Tick(7_000, 1, 1, true, false), s3);
  }

  /** Balanced teams bring a match to its first fight. */
  lemma FirstFight(c: Config)
    requires !c.holdPrepare && c.buyPhase > 0
    ensures exists s: State ::
              && Reached(c, s) && s.phase == Fight && s.history == [] && s.round == 1
              && s.localScore == 0 && s.enemyScore == 0
  {
    FirstPrepare(c);
    var s3 := Start(0, false).(phase := Prepare, deadline := Some(7_000 + c.buyPhase), started := true);
    var s4 := s3.(phase := Fight, deadline := Some(7_000 + c.buyPhase + HOLD));
    ReachedNext(c, s3, Tick(7_000 + c.buyPhase, 1, 1, true, false), s4);
  }

  /** With 255 rounds asked for, a match can be over after one round although nobody has just the wins needed. */
  lemma FullByteEndsEarly()
    ensures exists c: Config, s: State ::
              && c.maxRound == 255 && c.roundsToWin == RoundsToWin(255) && Reached(c, s)
              && Finished(s.phase) && |s.history| == 1 && !Won(c, s)
  {
    var c := Config(255, 0, false, false, false, 10_000);
    FirstFight(c);
    var s: State :| Reached(c, s) && s.phase == Fight && s.history == [] && s.round == 1
                    && s.localScore == 0 && s.enemyScore == 0;
    var t := Tick(0, 1, 0, true, false);
    var u := Advance(c, s, t);
    ReachedNext(c, s, t, u);
    assert u.history == [Local] && u.phase == MatchEndPause && u.winner == Some(Local);
    OneWin();
    assert !Won(c, u);
    assert RoundsToWin(255) == 0;
  }

  lemma OneWin()
    ensures Wins([Local], Local) == 1
  {
    HistoryOneMore([], Local, Local);
    assert [] + [Local] == [Local];
  }
}
