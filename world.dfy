/** The server's mutable game world: the module globals of server.py as the
    fields of one object, and its operations as methods that update them in
    place. Every method is proved to leave the world its specification function
    in module WorldSpec describes. */
module Server {
  import opened GameRules
  import opened WorldSpec

  /** The running best of end_round: scan the players in iteration order and
      keep the first one whose score beats everything before it (the best score
      starts at -1, below every score). */
  method RunningBest(order: seq<Pid>, players: map<Pid, Player>) returns (bestPid: Option<Pid>, bestScore: int)
    requires Listed(order, players)
    ensures bestPid == Winner(order, players)
    ensures order == [] ==> bestScore == -1
    ensures order != [] ==> bestScore == players[bestPid.value].score
    ensures forall i :: 0 <= i < |order| ==> players[order[i]].score <= bestScore
  {
    bestPid, bestScore := None, -1;
    for i := 0 to |order|
      invariant i == 0 ==> bestPid == None && bestScore == -1
      invariant i > 0 ==> bestPid == Some(order[BestIndex(order[..i], players)])
      invariant i > 0 ==> bestScore == players[bestPid.value].score
    {
      var pid := order[i];
      assert order[..i + 1][..i] == order[..i];
      if players[pid].score > bestScore {
        bestScore := players[pid].score;
        bestPid := Some(pid);
      }
    }
    assert order[..|order|] == order;
    if order != [] {
      var k := BestIndex(order, players);
      assert bestPid.value == order[k] && bestScore == ScoreAt(order, players, k);
      forall i | 0 <= i < |order| ensures players[order[i]].score <= bestScore {
        assert ScoreAt(order, players, i) <= ScoreAt(order, players, k);
      }
    }
  }

  class World {
    var order: seq<Pid>
    var players: map<Pid, Player>
    var nextPid: Pid
    var coin: Option<Point>
    var gameActive: bool
    var gameEndTime: real
    var intermissionEnd: real
    var lastWinner: Option<Pid>

    /** The world's abstract value. */
    ghost function State(): WorldState
      reads this
    {
      WorldState(order, players, nextPid, coin, gameActive, gameEndTime, intermissionEnd, lastWinner)
    }

    ghost predicate Valid()
      reads this
    {
      Inv(State())
    }

    constructor ()
      ensures Valid() && State() == Initial()
    {
      order, players, nextPid := [], map[], 1;
      coin := None;
      gameActive, gameEndTime, intermissionEnd := false, 0.0, 0.0;
      lastWinner := None;
    }

    /** A new connection takes the next pid and a fresh player record at a
        random spawn point. */
    method Register(at: Point) returns (pid: Pid)
      requires Valid() && SpawnArea(at)
      modifies this
      ensures Valid() && State() == Registered(old(State()), at)
      ensures pid == old(nextPid) && pid !in old(players)
    {
      pid := nextPid;
      nextPid := nextPid + 1;
      players := players[pid := Player(at.x, at.y, 0.0, 0.0, 0, ColorFor(pid))];
      order := order + [pid];
    }

    /** After the welcome message: start a round if none is running. */
    method AutoStart(now: real, spawns: map<Pid, Point>)
      requires Valid() && SpawnsFor(players, spawns)
      modifies this
      ensures Valid() && State() == AutoStarted(old(State()), now, spawns)
    {
      if !gameActive && players != map[] {
        StartRound(now, spawns);
      }
    }

    /** A connection closes: pop its record, if it is still there. */
    method Unregister(pid: Pid)
      requires Valid()
      modifies this
      ensures Valid() && State() == Unregistered(old(State()), pid)
    {
      ghost var t := Unregistered(State(), pid);
      players := players - {pid};
      order := Without(order, pid);
      assert State() == t;
    }

    /** Reset every player onto a fresh spawn point and arm the round deadline. */
    method StartRound(now: real, spawns: map<Pid, Point>)
      requires Valid() && SpawnsFor(players, spawns)
      modifies this
      ensures Valid() && State() == StartedRound(old(State()), now, spawns)
    {
      assert Inv(State()) && Listed(order, players);
      for i := 0 to |order|
        invariant State() == old(State()).(players := players)
        invariant players.Keys == old(players).Keys
        invariant forall j :: 0 <= j < |order| ==> order[j] in old(players) && order[j] in spawns
        invariant forall j :: 0 <= j < i ==>
          players[order[j]] == Reset(old(players)[order[j]], spawns[order[j]])
        invariant forall j :: i <= j < |order| ==> players[order[j]] == old(players)[order[j]]
      {
        var pid := order[i];
        var p := players[pid];
        players := players[pid := p.(score := 0, x := spawns[pid].x, y := spawns[pid].y, vx := 0.0, vy := 0.0)];
      }
      ResetAllDone(old(State()), players, spawns);
      coin := None;
      lastWinner := None;
      intermissionEnd := 0.0;
      gameActive := true;
      gameEndTime := now + GAME_DURATION;
      assert State() == StartedRound(old(State()), now, spawns);
    }

    /** Record the winner, clear the coin and arm the intermission deadline. */
    method EndRound(now: real)
      requires Valid()
      modifies this
      ensures Valid() && State() == EndedRound(old(State()), now)
    {
      gameActive := false;
      if players != map[] {
        var bestPid, bestScore := RunningBest(order, players);
        lastWinner := bestPid;
      } else {
        lastWinner := None;
      }
      coin := None;
      intermissionEnd := now + INTERMISSION;
    }

    /** Motion: every player advances by its velocity and is clamped into the arena. */
    method Integrate(dt: real)
      requires Valid()
      modifies this
      ensures Valid() && State() == Integrated(old(State()), dt)
    {
      for i := 0 to |order|
        invariant State() == old(State()).(players := players)
        invariant players.Keys == old(players).Keys
        invariant forall j :: 0 <= j < i ==> players[order[j]] == Moved(old(players)[order[j]], dt)
        invariant forall j :: i <= j < |order| ==> players[order[j]] == old(players)[order[j]]
      {
        var pid := order[i];
        var p := players[pid];
        var x := p.x + p.vx * PLAYER_SPEED * dt;
        var y := p.y + p.vy * PLAYER_SPEED * dt;
        var q := p.(x := Clamp(x, PLAYER_R, MAP_W - PLAYER_R), y := Clamp(y, PLAYER_R, MAP_H - PLAYER_R));
        assert q == Moved(p, dt);
        players := players[pid := q];
      }
      MoveAllDone(old(State()), players, dt);
    }

    /** Coin collision: the first player in iteration order within reach scores
        and takes the coin; the scan stops there. */
    method ResolveCoin()
      requires Valid() && coin.Some?
      modifies this
      ensures Valid() && State() == CoinResolved(old(State()))
    {
      var c := coin.value;
      var i := 0;
      while i < |order|
        invariant 0 <= i <= |order|
        invariant State() == old(State())
        invariant forall j :: 0 <= j < i ==> !InReach(players[order[j]], c)
      {
        var pid := order[i];
        if InReach(players[pid], c) {
          FirstInReachUnique(order, players, c, i);
          players := players[pid := players[pid].(score := players[pid].score + 1)];
          coin := None;
          return;
        }
        i := i + 1;
      }
      assert FirstInReach(order, players, c).None?;
    }

    /** One iteration of the game loop, up to the broadcast. */
    method Tick(now: real, dt: real, spawns: map<Pid, Point>)
      requires Valid() && SpawnsFor(players, spawns)
      modifies this
      ensures Valid() && State() == Ticked(old(State()), now, dt, spawns)
    {
      if gameActive {
        Integrate(dt);
        if coin.Some? {
          ResolveCoin();
        }
        if now >= gameEndTime {
          EndRound(now);
        }
      } else if intermissionEnd != 0.0 && now >= intermissionEnd && players != map[] {
        StartRound(now, spawns);
      }
    }

    /** One firing of the coin timer. */
    method SpawnCoin(at: Point)
      requires Valid() && CoinArea(at)
      modifies this
      ensures Valid() && State() == CoinSpawned(old(State()), at)
    {
      if gameActive && coin.None? {
        coin := Some(at);
      }
    }

    /** A delayed input message takes effect, unless its player has gone. */
    method ApplyInput(pid: Pid, keys: Keys)
      requires Valid()
      modifies this
      ensures Valid() && State() == InputApplied(old(State()), pid, keys)
    {
      if pid !in players {
        return;
      }
      var dir := RawDirection(keys);
      var v := Normalize(dir.0, dir.1);
      players := players[pid := players[pid].(vx := v.0, vy := v.1)];
    }
  }

  /** A per-player update applied along the whole order updates the whole dictionary. */
  lemma ResetAllDone(s: WorldState, players: map<Pid, Player>, spawns: map<Pid, Point>)
    requires Inv(s) && SpawnsFor(s.players, spawns)
    requires players.Keys == s.players.Keys
    requires forall j :: 0 <= j < |s.order| ==> s.order[j] in spawns
    requires forall j :: 0 <= j < |s.order| ==>
      players[s.order[j]] == Reset(s.players[s.order[j]], spawns[s.order[j]])
    ensures players == StartedRound(s, 0.0, spawns).players
  {
    forall pid | pid in players
      ensures players[pid] == Reset(s.players[pid], spawns[pid])
    {
      var j :| 0 <= j < |s.order| && s.order[j] == pid;
    }
  }

  lemma MoveAllDone(s: WorldState, players: map<Pid, Player>, dt: real)
    requires Inv(s)
    requires players.Keys == s.players.Keys
    requires forall j :: 0 <= j < |s.order| ==> players[s.order[j]] == Moved(s.players[s.order[j]], dt)
    ensures players == Integrated(s, dt).players
  {
    forall pid | pid in players
      ensures players[pid] == Moved(s.players[pid], dt)
    {
      var j :| 0 <= j < |s.order| && s.order[j] == pid;
    }
  }
}
