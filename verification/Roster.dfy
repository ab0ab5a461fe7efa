/** The match roster of match-server/match.go and the team helpers of match-server/knockdown.go. */
module Roster {

  type Entity = x: nat | x < 0x1_0000_0000
  type Team = x: nat | x < 256

  const LOCAL_TEAM: Team := 1
  const ENEMY_TEAM: Team := 2
  const SLOT_RANGE := 0x100_0000

  datatype Player = Player(entityID: Entity, team: Team)

  /** The humans in join order, and the filler bot's entity or 0. */
  datatype Roster = Roster(players: seq<Player>, bot: Entity)
  {
    predicate IsHuman(e: Entity) {
      exists i :: 0 <= i < |players| && players[i].entityID == e
    }

    /** Ids are distinct and carry their team; LobbyValid shows that every admission to a match leads to this. */
    ghost predicate Valid() {
      && (forall i :: 0 <= i < |players| ==>
            && players[i].team in {LOCAL_TEAM, ENEMY_TEAM} && TeamOf(players[i].entityID) == players[i].team
            && (bot != 0 ==> players[i].entityID != bot))
      && (forall i, j :: 0 <= i < j < |players| ==> players[i].entityID != players[j].entityID)
      && (bot != 0 ==> TeamOf(bot) == ENEMY_TEAM)
    }

    function Ids(): set<Entity> {
      HumanIds(players) + if bot != 0 then {bot} else {}
    }
  }

  function HumanIds(players: seq<Player>): set<Entity> {
    set i | 0 <= i < |players| :: players[i].entityID
  }

  /** The team is the entity id's high byte. */
  function TeamOf(e: Entity): Team {
    e / SLOT_RANGE
  }

  // ----- Handing out slots -----

  function Humans(players: seq<Player>, team: Team): nat {
    if players == [] then 0 else (if players[0].team == team then 1 else 0) + Humans(players[1..], team)
  }

  lemma {:induction false} HumansSnoc(players: seq<Player>, p: Player, team: Team)
    ensures Humans(players + [p], team) == Humans(players, team) + if p.team == team then 1 else 0
  {
    if players == [] {
    } else {
      assert (players + [p])[1..] == players[1..] + [p];
      HumansSnoc(players[1..], p, team);
    }
  }

  const MAX_PLAYERS := 8
  const PLAYER_REP := 1000
  const BOT_ID: Entity := 0x200_0002
  const BOT_SLOT := 2

  /** What a participant is given: the ids, the side, the place among the teammates. */
  datatype Slot = Slot(entityID: nat, repID: nat, faction: int, team: Team, idx: nat, slot: nat)

  function NextSlot(slot: nat): nat {
    (slot + 1) % 256
  }

  /** The preferred team if there is one, else the team with fewer humans. */
  function TeamFor(players: seq<Player>, prefer: Team): Team {
    if prefer == 1 || prefer == 2 then prefer else if Humans(players, 2) < Humans(players, 1) then 2 else 1
  }

  function Alloc(players: seq<Player>, slot: nat, prefer: Team): Slot {
    var team := TeamFor(players, prefer);
    Slot(team * SLOT_RANGE + slot, PLAYER_REP + slot - 1, team - 1, team, Humans(players, team), slot)
  }

  /**
   Who is in a match and on the way into it: reserved counts the places claimed so far, which are never given back. The
   first place is filled at once, and with it the bot's slot is set aside.
   */
  datatype Lobby = Lobby(players: seq<Player>, bot: Entity, nextSlot: nat, reserved: nat)

  function AddTo(l: Lobby, prefer: Team): Lobby
    requires l.nextSlot < 256
  {
    var slot := NextSlot(l.nextSlot);
    var a := Alloc(l.players, slot, prefer);
    l.(players := l.players + [Player(a.entityID, a.team)], nextSlot := slot)
  }

  /** A fresh match with its first player. */
  function Opening(prefer: Team): Lobby {
    var l := AddTo(Lobby([], 0, 0, 1), prefer);
    l.(nextSlot := NextSlot(l.nextSlot), bot := 0)
  }

  /** open says that the match has neither started nor ended. */
  datatype Arrival = Claim(open: bool) | Admit(prefer: Team) | Fallback | Leave(entityID: Entity)

  /** Somebody has claimed a place and is not in yet. */
  predicate Waiting(l: Lobby) {
    l.nextSlot - 1 < l.reserved
  }

  function Without(players: seq<Player>, e: Entity): seq<Player> {
    if players == [] then []
    else Without(players[..|players| - 1], e) +
         if players[|players| - 1].entityID != e then [players[|players| - 1]] else []
  }

  function Arrive(l: Lobby, a: Arrival): Lobby
    requires l.nextSlot < 256
  {
    match a
    case Claim(open) => if open && l.reserved < MAX_PLAYERS then l.(reserved := l.reserved + 1) else l
    case Admit(prefer) => if Waiting(l) then AddTo(l, prefer).(bot := 0) else l
    case Fallback => l.(bot := BOT_ID)
    case Leave(e) => l.(players := Without(l.players, e))
  }

  function LobbyRun(first: Team, arrivals: seq<Arrival>): (l: Lobby)
    ensures l.nextSlot < 256
  {
    if arrivals == [] then Opening(first)
    else Arrive(LobbyRun(first, arrivals[..|arrivals| - 1]), arrivals[|arrivals| - 1])
  }

  lemma ArriveMore(first: Team, past: seq<Arrival>, a: Arrival)
    ensures LobbyRun(first, past + [a]) == Arrive(LobbyRun(first, past), a)
  {
    assert (past + [a])[..|past|] == past;
  }

  /** The slot is one handed out to a human: the bot's is not. */
  predicate HumanSlot(slot: nat, nextSlot: nat) {
    1 <= slot <= nextSlot && slot != BOT_SLOT
  }

  ghost predicate OwnSlot(p: Player, nextSlot: nat) {
    p.team in {LOCAL_TEAM, ENEMY_TEAM} && TeamOf(p.entityID) == p.team && HumanSlot(p.entityID % SLOT_RANGE, nextSlot)
  }

  /** Every human has a slot of his own, with his team on top; slots do not run out and the bot's stays free. */
  ghost predicate Seated(l: Lobby) {
    && BOT_SLOT <= l.nextSlot <= l.reserved + 1 <= MAX_PLAYERS + 1
    && (l.bot == 0 || l.bot == BOT_ID)
    && (forall i :: 0 <= i < |l.players| ==> OwnSlot(l.players[i], l.nextSlot))
    && (forall i, j :: 0 <= i < j < |l.players| ==>
          l.players[i].entityID % SLOT_RANGE != l.players[j].entityID % SLOT_RANGE)
  }

  lemma SlotParts(team: Team, slot: nat)
    requires team in {LOCAL_TEAM, ENEMY_TEAM} && slot < SLOT_RANGE
    ensures (team * SLOT_RANGE + slot) / SLOT_RANGE == team && (team * SLOT_RANGE + slot) % SLOT_RANGE == slot
  {
  }

  lemma AddSeats(l: Lobby, prefer: Team)
    requires Seated(l) && Waiting(l)
    ensures Seated(AddTo(l, prefer))
  {
    SlotParts(TeamFor(l.players, prefer), NextSlot(l.nextSlot));
  }

  lemma {:induction false} WithoutIs(players: seq<Player>, e: Entity)
    ensures forall p :: p in Without(players, e) <==> p in players && p.entityID != e
    decreases |players|
  {
    if players != [] {
      WithoutIs(players[..|players| - 1], e);
      assert players == players[..|players| - 1] + [players[|players| - 1]];
    }
  }

  /**
   Who is admitted gets the team he asks for, or the one with fewer humans, the local one if they are even, and the ids
   that go with the slot: entity, replication, faction, and his number among the teammates. The bot goes.
   */
  lemma AdmittedTo(l: Lobby, prefer: Team)
    requires Seated(l) && Waiting(l)
    ensures var local, enemy := Humans(l.players, 1), Humans(l.players, 2);
            var more := Arrive(l, Admit(prefer)).players;
            && Arrive(l, Admit(prefer)).bot == 0
            && |more| == |l.players| + 1 && more[..|l.players|] == l.players
            && var last := more[|l.players|];
               && last.team == (if prefer == 1 || prefer == 2 then prefer else if enemy < local then 2 else 1)
               && last.entityID == 0x100_0000 * last.team + l.nextSlot + 1
               && Alloc(l.players, NextSlot(l.nextSlot), prefer) ==
                  Slot(last.entityID, 1000 + l.nextSlot, if last.team == 2 then 1 else 0, last.team,
                       if last.team == 2 then enemy else local, l.nextSlot + 1)
  {
  }

  ghost predicate OneSlotEach(players: seq<Player>) {
    forall i, j :: 0 <= i < j < |players| ==> players[i].entityID % SLOT_RANGE != players[j].entityID % SLOT_RANGE
  }

  lemma {:induction false} WithoutOneEach(players: seq<Player>, e: Entity)
    requires OneSlotEach(players)
    ensures OneSlotEach(Without(players, e))
    decreases |players|
  {
    if players != [] {
      var before, last := players[..|players| - 1], players[|players| - 1];
      WithoutOneEach(before, e);
      WithoutIs(before, e);
      var rest := Without(before, e);
      forall i | 0 <= i < |rest|
        ensures rest[i].entityID % SLOT_RANGE != last.entityID % SLOT_RANGE
      {
        assert rest[i] in before;
        var j :| 0 <= j < |before| && before[j] == rest[i];
        assert players[j] == rest[i];
      }
    }
  }

  lemma LeaveSeats(l: Lobby, e: Entity)
    requires Seated(l)
    ensures Seated(l.(players := Without(l.players, e)))
  {
    WithoutIs(l.players, e);
    WithoutOneEach(l.players, e);
    var rest := Without(l.players, e);
    forall i | 0 <= i < |rest|
      ensures OwnSlot(rest[i], l.nextSlot)
    {
      assert rest[i] in l.players;
    }
  }

  lemma ArriveSeats(l: Lobby, a: Arrival)
    requires Seated(l)
    ensures Seated(Arrive(l, a))
  {
    match a
    case Claim(_) =>
    case Admit(prefer) =>
      if Waiting(l) {
        AddSeats(l, prefer);
      }
    case Fallback =>
    case Leave(e) => LeaveSeats(l, e);
  }

  lemma {:induction false} LobbySeated(first: Team, arrivals: seq<Arrival>)
    ensures Seated(LobbyRun(first, arrivals))
    decreases |arrivals|
  {
    if arrivals == [] {
      SlotParts(TeamFor([], first), 1);
    } else {
      LobbySeated(first, arrivals[..|arrivals| - 1]);
      ArriveSeats(LobbyRun(first, arrivals[..|arrivals| - 1]), arrivals[|arrivals| - 1]);
    }
  }

  lemma SeatedValid(l: Lobby, bot: Entity)
    requires Seated(l) && (bot == 0 || bot == BOT_ID)
    ensures Roster(l.players, bot).Valid()
  {
  }

  /**
   Whoever claims a place, is admitted with whatever preference, leaves or is filled in for, in whatever order: the
   roster is one that all results about lives rest on, the bot's id stays free, and there are at most eight humans.
   */
  lemma LobbyValid(first: Team, arrivals: seq<Arrival>)
    ensures var l := LobbyRun(first, arrivals);
            && Roster(l.players, l.bot).Valid() && Roster(l.players, BOT_ID).Valid() && |l.players| <= MAX_PLAYERS
  {
    LobbySeated(first, arrivals);
    SeatedValid(LobbyRun(first, arrivals), LobbyRun(first, arrivals).bot);
    SeatedValid(LobbyRun(first, arrivals), BOT_ID);
    AtMostEight(first, arrivals);
  }

  lemma {:induction false} WithoutFewer(players: seq<Player>, e: Entity)
    ensures |Without(players, e)| <= |players|
    decreases |players|
  {
    if players != [] {
      WithoutFewer(players[..|players| - 1], e);
    }
  }

  lemma {:induction false} AtMostEight(first: Team, arrivals: seq<Arrival>)
    ensures var l := LobbyRun(first, arrivals); |l.players| + 1 <= l.nextSlot <= 9
    decreases |arrivals|
  {
    LobbySeated(first, arrivals);
    if arrivals != [] {
      var before, a := arrivals[..|arrivals| - 1], arrivals[|arrivals| - 1];
      AtMostEight(first, before);
      LobbySeated(first, before);
      if a.Leave? {
        WithoutFewer(LobbyRun(first, before).players, a.entityID);
      }
    }
  }

  /** How many asked for a place while the match was open. */
  function OpenClaims(arrivals: seq<Arrival>): nat {
    if arrivals == [] then 0 else
    OpenClaims(arrivals[..|arrivals| - 1]) + if arrivals[|arrivals| - 1] == Claim(true) then 1 else 0
  }

  /** Each of them gets one until eight are taken, and nobody else does; none comes back. */
  lemma {:induction false} PlacesTaken(first: Team, arrivals: seq<Arrival>)
    ensures LobbyRun(first, arrivals).reserved == if OpenClaims(arrivals) < 7 then 1 + OpenClaims(arrivals) else 8
    decreases |arrivals|
  {
    if arrivals != [] {
      PlacesTaken(first, arrivals[..|arrivals| - 1]);
    }
  }

  /** The match's own fields for this. */
  class Slots {
    var players: seq<Player>
    var bot: Entity
    var nextSlot: nat
    var reserved: nat
    ghost var past: seq<Arrival>
    ghost const first: Team

    ghost function Now(): Lobby
      reads this
    {
      Lobby(players, bot, nextSlot, reserved)
    }

    /** newMatch, the first reservation and setupMatch. */
    constructor (prefer: Team)
      ensures Now() == LobbyRun(first, past) == Opening(prefer) && past == [] && first == prefer
    {
      players, bot, nextSlot, reserved := [], 0, 0, 1;
      past, first := [], prefer;
      new;
      AddPlayer(prefer);
      var _ := AllocSlot(0);
      bot := 0;
    }

    method CountHumans(team: Team) returns (n: nat)
      ensures n == Humans(players, team)
    {
      n := 0;
      for i := 0 to |players|
        invariant n == Humans(players[..i], team)
      {
        assert players[..i + 1] == players[..i] + [players[i]];
        HumansSnoc(players[..i], players[i], team);
        if players[i].team == team {
          n := n + 1;
        }
      }
      assert players[..|players|] == players;
    }

    /** allocSlot. */
    method AllocSlot(prefer: Team) returns (a: Slot)
      requires nextSlot < 256
      modifies this`nextSlot
      ensures nextSlot == NextSlot(old(nextSlot)) && a == Alloc(players, nextSlot, prefer)
      ensures TeamOf(a.entityID) == a.team && a.entityID % SLOT_RANGE == a.slot
    {
      nextSlot := (nextSlot + 1) % 256;
      var h1 := CountHumans(1);
      var h2 := CountHumans(2);
      var team: Team := 1;
      if prefer == 1 || prefer == 2 {
        team := prefer;
      } else if h2 < h1 {
        team := 2;
      }
      SlotParts(team, nextSlot);
      a := Slot(team * SLOT_RANGE + nextSlot, PLAYER_REP + nextSlot - 1, team - 1, team, if team == 1 then h1 else h2,
                nextSlot);
    }

    method AddPlayer(prefer: Team)
      requires nextSlot < 256
      modifies this`players, this`nextSlot
      ensures Now() == AddTo(old(Now()), prefer)
    {
      var a := AllocSlot(prefer);
      players := players + [Player(a.entityID, a.team)];
    }

    /** canAdmit and reserve, as the manager calls them under its lock. */
    method Join(open: bool) returns (ok: bool)
      requires Now() == LobbyRun(first, past)
      modifies this`reserved, this`past
      ensures Now() == LobbyRun(first, past) && past == old(past) + [Claim(open)]
      ensures ok <==> open && old(reserved) < MAX_PLAYERS
    {
      ArriveMore(first, past, Claim(open));
      ok := open && reserved < MAX_PLAYERS;
      if ok {
        reserved := reserved + 1;
      }
      past := past + [Claim(open)];
    }

    /** The roster part of admitLater, for somebody who has claimed a place; the filler bot retires. */
    method AdmitLater(prefer: Team)
      requires Now() == LobbyRun(first, past) && Waiting(Now())
      modifies this
      ensures Now() == LobbyRun(first, past) && past == old(past) + [Admit(prefer)]
    {
      ArriveMore(first, past, Admit(prefer));
      AddPlayer(prefer);
      if bot != 0 {
        bot := 0;
      }
      past := past + [Admit(prefer)];
    }

    method SpawnFallbackBot()
      requires Now() == LobbyRun(first, past)
      modifies this
      ensures Now() == LobbyRun(first, past) && past == old(past) + [Fallback]
    {
      ArriveMore(first, past, Fallback);
      bot := BOT_ID;
      past := past + [Fallback];
    }

    /** The loop of removePlayer. */
    method Keep(e: Entity) returns (kept: seq<Player>)
      ensures kept == Without(players, e)
    {
      kept := [];
      for i := 0 to |players|
        invariant kept == Without(players[..i], e)
      {
        assert players[..i + 1][..i] == players[..i];
        if players[i].entityID != e {
          kept := kept + [players[i]];
        }
      }
      assert players[..|players|] == players;
    }

    /** The roster part of removePlayer. */
    method RemovePlayer(e: Entity)
      requires Now() == LobbyRun(first, past)
      modifies this
      ensures Now() == LobbyRun(first, past) && past == old(past) + [Leave(e)]
    {
      ArriveMore(first, past, Leave(e));
      players := Keep(e);
      past := past + [Leave(e)];
    }
  }

  /** With no preferences the two teams never differ by more than one human, and team 1 is never behind. */
  lemma BalancedJoin(players: seq<Player>, entityID: Entity)
    requires Humans(players, 2) <= Humans(players, 1) <= Humans(players, 2) + 1
    ensures var more := players + [Player(entityID, TeamFor(players, 0))];
            Humans(more, 2) <= Humans(more, 1) <= Humans(more, 2) + 1
  {
    HumansSnoc(players, Player(entityID, TeamFor(players, 0)), 1);
    HumansSnoc(players, Player(entityID, TeamFor(players, 0)), 2);
  }

  /** The match has both teams, of the same size. */
  predicate TeamsReady(players: seq<Player>) {
    Humans(players, 1) > 0 && Humans(players, 2) > 0 && Humans(players, 1) == Humans(players, 2)
  }

  lemma {:induction false} EveryHumanCounted(players: seq<Player>)
    requires forall i :: 0 <= i < |players| ==> players[i].team in {LOCAL_TEAM, ENEMY_TEAM}
    ensures Humans(players, 1) + Humans(players, 2) == |players|
  {
    if players != [] {
      EveryHumanCounted(players[1..]);
    }
  }

  ghost predicate NoWishes(arrivals: seq<Arrival>) {
    forall a :: a in arrivals ==> (a.Admit? ==> a.prefer == 0) && !a.Leave?
  }

  lemma {:induction false} LobbyBalanced(arrivals: seq<Arrival>)
    requires NoWishes(arrivals)
    ensures var p := LobbyRun(0, arrivals).players; Humans(p, 2) <= Humans(p, 1) <= Humans(p, 2) + 1
    decreases |arrivals|
  {
    if arrivals == [] {
      HumansSnoc([], Opening(0).players[0], 1);
      HumansSnoc([], Opening(0).players[0], 2);
      assert Opening(0).players == [] + [Opening(0).players[0]];
    } else {
      var before := arrivals[..|arrivals| - 1];
      assert arrivals[|arrivals| - 1] in arrivals;
      LobbyBalanced(before);
      var l := LobbyRun(0, before);
      LobbySeated(0, before);
      SlotParts(TeamFor(l.players, 0), NextSlot(l.nextSlot));
      BalancedJoin(l.players, Alloc(l.players, NextSlot(l.nextSlot), 0).entityID);
    }
  }

  /** So while nobody states a preference or leaves, a match is ready exactly when an even number has joined. */
  lemma PairsAreReady(arrivals: seq<Arrival>)
    requires NoWishes(arrivals)
    ensures var p := LobbyRun(0, arrivals).players; TeamsReady(p) <==> |p| > 0 && |p| % 2 == 0
  {
    LobbyBalanced(arrivals);
    LobbySeated(0, arrivals);
    ReadyIfEven(LobbyRun(0, arrivals).players);
  }

  lemma ReadyIfEven(players: seq<Player>)
    requires Humans(players, 2) <= Humans(players, 1) <= Humans(players, 2) + 1
    requires forall i :: 0 <= i < |players| ==> players[i].team in {LOCAL_TEAM, ENEMY_TEAM}
    ensures TeamsReady(players) <==> |players| > 0 && |players| % 2 == 0
  {
    EveryHumanCounted(players);
  }

  // ----- Team counts -----

  /** How many participants of the team satisfy up: the humans, and the bot on the enemy team. */
  function CountUp(r: Roster, team: Team, up: Entity -> bool): nat {
    CountPlayers(r.players, team, up) + if team == ENEMY_TEAM && r.bot != 0 && up(r.bot) then 1 else 0
  }

  function CountPlayers(players: seq<Player>, team: Team, up: Entity -> bool): nat {
    if players == [] then 0
    else (if players[0].team == team && up(players[0].entityID) then 1 else 0) + CountPlayers(players[1..], team, up)
  }

  lemma {:induction false} CountPlayersSnoc(players: seq<Player>, p: Player, team: Team, up: Entity -> bool)
    ensures CountPlayers(players + [p], team, up) ==
            CountPlayers(players, team, up) + if p.team == team && up(p.entityID) then 1 else 0
  {
    if players == [] {
    } else {
      assert (players + [p])[1..] == players[1..] + [p];
      CountPlayersSnoc(players[1..], p, team, up);
    }
  }

  lemma {:induction false} NoPlayersCounted(players: seq<Player>, team: Team, up: Entity -> bool)
    ensures CountPlayers(players, team, up) == 0 <==>
            forall i :: 0 <= i < |players| && players[i].team == team ==> !up(players[i].entityID)
  {
    if players != [] {
      NoPlayersCounted(players[1..], team, up);
      assert forall i :: 0 < i < |players| ==> players[i] == players[1..][i - 1];
      assert forall i :: 0 <= i < |players[1..]| ==> players[1..][i] == players[i + 1];
    }
  }

  /** The count is zero exactly when nobody on the team is up. */
  lemma NobodyUp(r: Roster, team: Team, up: Entity -> bool)
    requires r.Valid()
    ensures CountUp(r, team, up) == 0 <==> forall e :: e in r.Ids() && TeamOf(e) == team ==> !up(e)
  {
    NoPlayersCounted(r.players, team, up);
    if CountUp(r, team, up) == 0 {
      forall e | e in r.Ids() && TeamOf(e) == team
        ensures !up(e)
      {
        if e != r.bot || r.bot == 0 {
          var i :| 0 <= i < |r.players| && r.players[i].entityID == e;
          assert r.players[i].team == team;
        }
      }
    }
    forall i | 0 <= i < |r.players| && r.players[i].team == team
      ensures r.players[i].entityID in r.Ids() && TeamOf(r.players[i].entityID) == team
    {
    }
  }

  lemma {:induction false} TwoCounted(players: seq<Player>, team: Team, i: nat, j: nat)
    requires i < j < |players| && players[i].team == team && players[j].team == team
    ensures CountPlayers(players, team, _ => true) >= 2
  {
    if i == 0 {
      OneCounted(players[1..], team, j - 1);
    } else {
      TwoCounted(players[1..], team, i - 1, j - 1);
    }
  }

  lemma {:induction false} OneCounted(players: seq<Player>, team: Team, i: nat)
    requires i < |players| && players[i].team == team
    ensures CountPlayers(players, team, _ => true) >= 1
  {
    if i > 0 {
      OneCounted(players[1..], team, i - 1);
    }
  }

  /** A team with two different members has size at least two. */
  lemma TwoMembers(r: Roster, team: Team, a: Entity, b: Entity)
    requires r.Valid() && a in r.Ids() && b in r.Ids() && a != b && TeamOf(a) == team && TeamOf(b) == team
    ensures CountUp(r, team, _ => true) >= 2
  {
    if r.IsHuman(a) && r.IsHuman(b) {
      var i :| 0 <= i < |r.players| && r.players[i].entityID == a;
      var j :| 0 <= j < |r.players| && r.players[j].entityID == b;
      TwoCounted(r.players, team, if i < j then i else j, if i < j then j else i);
    } else {
      var h := if r.IsHuman(a) then a else b;
      var i :| 0 <= i < |r.players| && r.players[i].entityID == h;
      OneCounted(r.players, team, i);
    }
  }
}
