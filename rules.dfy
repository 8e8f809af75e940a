/** The pure rules of the coin-collector game: configuration, the records the
    server keeps per player, and the helpers the world operations are built from
    (colour assignment, clamping, steering, motion, coin reach, round winner). */
module GameRules {

  type Pid = int

  // Configuration (server.py, lines 9-16). Map sizes, speed and radii are in
  // pixels, durations in seconds.
  const MAP_W: real := 800.0
  const MAP_H: real := 500.0
  const PLAYER_SPEED: real := 180.0
  const PLAYER_R: real := 15.0
  const COIN_R: real := 10.0
  const GAME_DURATION: real := 180.0
  const INTERMISSION: real := 10.0

  /** Inset of the area where players are (re)spawned and where coins appear. */
  const SPAWN_MARGIN: real := 50.0
  const COIN_MARGIN: real := 20.0

  /** 1 / hypot(1, 1) as double-precision arithmetic yields it: the length of
      each component of a normalised diagonal heading. */
  const DIAGONAL: real := 0.7071067811865475

  /** How far the squared length of a normalised heading may stray from 1. */
  const UNIT_TOLERANCE: real := 0.000000001

  const PALETTE: seq<string> := ["#2b85f0", "#ff4d4f", "#2bbf57", "#f07f2b", "#a02bf0", "#f02b85"]

  datatype Option<T> = None | Some(value: T)

  datatype Point = Point(x: real, y: real)

  /** The per-player record; the session handle is not part of the model. */
  datatype Player = Player(x: real, y: real, vx: real, vy: real, score: nat, color: string)

  /** The keys of one input message. */
  datatype Keys = Keys(up: bool, down: bool, left: bool, right: bool)

  // ---------------------------------------------------------------- areas

  /** Where a player's centre may be: one radius away from every wall. */
  predicate InArena(x: real, y: real)
  {
    PLAYER_R <= x <= MAP_W - PLAYER_R && PLAYER_R <= y <= MAP_H - PLAYER_R
  }

  /** The range of random.uniform(50, MAP - 50) on both axes. */
  predicate SpawnArea(at: Point)
  {
    SPAWN_MARGIN <= at.x <= MAP_W - SPAWN_MARGIN && SPAWN_MARGIN <= at.y <= MAP_H - SPAWN_MARGIN
  }

  /** The range of random.uniform(20, MAP - 20) on both axes. */
  predicate CoinArea(at: Point)
  {
    COIN_MARGIN <= at.x <= MAP_W - COIN_MARGIN && COIN_MARGIN <= at.y <= MAP_H - COIN_MARGIN
  }

  /** Every spawn point already lies inside the arena, so a freshly placed
      player satisfies the position bound without clamping. */
  lemma SpawnInsideArena(at: Point)
    requires SpawnArea(at)
    ensures InArena(at.x, at.y)
  {
  }

  // ---------------------------------------------------------------- colour

  /** The stable colour of a player: the palette is cycled by pid, starting at pid 1. */
  function ColorFor(pid: Pid): (c: string)
    ensures c in PALETTE
  {
    PALETTE[(pid - 1) % |PALETTE|]
  }

  /** Two pids share a colour exactly when they are a multiple of six apart. */
  lemma ColorPeriod(p: Pid, q: Pid)
    ensures ColorFor(p) == ColorFor(q) <==> (p - q) % 6 == 0
  {
    var i, j := (p - 1) % 6, (q - 1) % 6;
    assert ColorFor(p) == PALETTE[i] && ColorFor(q) == PALETTE[j];
    assert (p - q) % 6 == 0 <==> i == j;
    if i != j {
      assert PALETTE[i][1] != PALETTE[j][1] || PALETTE[i][3] != PALETTE[j][3];
    }
  }

  // ---------------------------------------------------------------- motion

  function Min(a: real, b: real): real { if b < a then b else a }

  function Max(a: real, b: real): real { if b > a then b else a }

  /** max(a, min(b, v)): the point of [a, b] nearest to v. */
  function Clamp(v: real, a: real, b: real): (r: real)
    ensures a <= b ==> a <= r <= b
    ensures a <= b ==> (r == v <==> a <= v <= b)
    ensures v < a ==> r == a
    ensures a <= b < v ==> r == b
  {
    Max(a, Min(b, v))
  }

  /** One tick of motion: advance by velocity * speed * dt, then clamp into the arena. */
  function Moved(p: Player, dt: real): (q: Player)
    ensures InArena(q.x, q.y)
    ensures q.vx == p.vx && q.vy == p.vy && q.score == p.score && q.color == p.color
    ensures InArena(p.x + p.vx * PLAYER_SPEED * dt, p.y + p.vy * PLAYER_SPEED * dt) ==>
              q.x == p.x + p.vx * PLAYER_SPEED * dt && q.y == p.y + p.vy * PLAYER_SPEED * dt
  {
    p.(x := Clamp(p.x + p.vx * PLAYER_SPEED * dt, PLAYER_R, MAP_W - PLAYER_R),
       y := Clamp(p.y + p.vy * PLAYER_SPEED * dt, PLAYER_R, MAP_H - PLAYER_R))
  }

  /** A standing player inside the arena stays exactly where it is. */
  lemma StandingStill(p: Player, dt: real)
    requires p.vx == 0.0 && p.vy == 0.0 && InArena(p.x, p.y)
    ensures Moved(p, dt) == p
  {
    assert p.x + p.vx * PLAYER_SPEED * dt == p.x;
    assert p.y + p.vy * PLAYER_SPEED * dt == p.y;
  }

  // ---------------------------------------------------------------- steering

  /** The raw direction (right - left, down - up) of an input message. */
  function RawDirection(k: Keys): (d: (int, int))
    ensures -1 <= d.0 <= 1 && -1 <= d.1 <= 1
    ensures d.0 == 0 <==> k.left == k.right
    ensures d.1 == 0 <==> k.up == k.down
  {
    ((if k.left then -1 else 0) + (if k.right then 1 else 0),
     (if k.up then -1 else 0) + (if k.down then 1 else 0))
  }

  function Sign(r: real): int
  {
    if r > 0.0 then 1 else if r < 0.0 then -1 else 0
  }

  /** The squared length of a velocity. */
  function Speed2(vx: real, vy: real): real
  {
    vx * vx + vy * vy
  }

  /** A stored velocity is a heading: zero, or of length 1 within the tolerance. */
  predicate Heading(vx: real, vy: real)
  {
    (vx == 0.0 && vy == 0.0) || (1.0 - UNIT_TOLERANCE <= Speed2(vx, vy) <= 1.0 + UNIT_TOLERANCE)
  }

  /** The raw direction divided by its length, unless it is zero. */
  function Normalize(rx: int, ry: int): (v: (real, real))
    requires -1 <= rx <= 1 && -1 <= ry <= 1
    ensures (v.0 == 0.0 && v.1 == 0.0) <==> (rx == 0 && ry == 0)
    ensures Sign(v.0) == rx && Sign(v.1) == ry
    ensures Heading(v.0, v.1)
    ensures rx != 0 || ry != 0 ==> 1.0 - UNIT_TOLERANCE <= Speed2(v.0, v.1) <= 1.0 + UNIT_TOLERANCE
  {
    if rx == 0 && ry == 0 then (0.0, 0.0)
    else if rx != 0 && ry != 0 then (rx as real * DIAGONAL, ry as real * DIAGONAL)
    else (rx as real, ry as real)
  }

  /** What a player's velocity becomes on an input message. */
  function Steer(k: Keys): (v: (real, real))
    ensures Heading(v.0, v.1)
  {
    var d := RawDirection(k);
    Normalize(d.0, d.1)
  }

  /** The observable meaning of steering: the player stops exactly when opposite
      keys cancel on both axes, and moves right, left, down or up exactly when that
      key is held without its opposite. */
  lemma SteerFacts(k: Keys)
    ensures var v := Steer(k);
      && ((v.0 == 0.0 && v.1 == 0.0) <==> (k.left == k.right && k.up == k.down))
      && (v.0 > 0.0 <==> k.right && !k.left) && (v.0 < 0.0 <==> k.left && !k.right)
      && (v.1 > 0.0 <==> k.down && !k.up) && (v.1 < 0.0 <==> k.up && !k.down)
  {
    var d := RawDirection(k);
    var v := Normalize(d.0, d.1);
    assert Sign(v.0) == d.0 && Sign(v.1) == d.1;
  }

  // ---------------------------------------------------------------- coin reach

  function Sq(r: real): real { r * r }

  /** hypot(dx, dy) <= PLAYER_R + COIN_R, stated on squares (both sides are non-negative). */
  predicate InReach(p: Player, c: Point)
  {
    Sq(p.x - c.x) + Sq(p.y - c.y) <= Sq(PLAYER_R + COIN_R)
  }

  /** Every pid of the iteration order has a record. */
  predicate Listed(order: seq<Pid>, players: map<Pid, Player>)
  {
    forall i :: 0 <= i < |order| ==> order[i] in players
  }

  /** The position, from index i on, of the first player within reach of the coin. */
  function FirstInReachFrom(order: seq<Pid>, players: map<Pid, Player>, c: Point, i: nat): (r: Option<nat>)
    requires Listed(order, players) && i <= |order|
    ensures r.Some? ==> i <= r.value < |order| && InReach(players[order[r.value]], c)
    ensures r.Some? ==> forall j :: i <= j < r.value ==> !InReach(players[order[j]], c)
    ensures r.None? ==> forall j :: i <= j < |order| ==> !InReach(players[order[j]], c)
    decreases |order| - i
  {
    if i == |order| then None
    else if InReach(players[order[i]], c) then Some(i)
    else FirstInReachFrom(order, players, c, i + 1)
  }

  /** The position of the first player, in iteration order, within reach of the coin. */
  function FirstInReach(order: seq<Pid>, players: map<Pid, Player>, c: Point): (r: Option<nat>)
    requires Listed(order, players)
  {
    FirstInReachFrom(order, players, c, 0)
  }

  /** The first in-reach player is the unique one that is in reach with nobody
      in reach before it; none is found exactly when nobody is in reach. */
  lemma FirstInReachUnique(order: seq<Pid>, players: map<Pid, Player>, c: Point, k: nat)
    requires Listed(order, players)
    ensures FirstInReach(order, players, c) == Some(k) <==>
      k < |order| && InReach(players[order[k]], c) &&
      forall j :: 0 <= j < k ==> !InReach(players[order[j]], c)
  {
    var r := FirstInReach(order, players, c);
    if r.Some? && r.value != k && k < |order| && InReach(players[order[k]], c) {
      if r.value < k {
        assert InReach(players[order[r.value]], c);
      }
    }
  }

  /** When the iteration order is the order of pids, the first player within
      reach is also the lowest pid within reach. */
  lemma FirstInReachLowest(order: seq<Pid>, players: map<Pid, Player>, c: Point)
    requires Listed(order, players) && Increasing(order)
    ensures var k := FirstInReach(order, players, c);
      && (k.None? ==> forall pid :: pid in order ==> !InReach(players[pid], c))
      && (k.Some? ==> forall pid :: pid in order && pid < order[k.value] ==> !InReach(players[pid], c))
  {
    var k := FirstInReach(order, players, c);
    forall pid | pid in order
      ensures k.None? ==> !InReach(players[pid], c)
      ensures k.Some? && pid < order[k.value] ==> !InReach(players[pid], c)
    {
      var j :| 0 <= j < |order| && order[j] == pid;
      if k.Some? && pid < order[k.value] {
        assert j < k.value;
      }
    }
  }

  // ---------------------------------------------------------------- round winner

  function ScoreAt(order: seq<Pid>, players: map<Pid, Player>, i: nat): nat
    requires Listed(order, players) && i < |order|
  {
    players[order[i]].score
  }

  /** Position k holds a maximum score and every earlier position a strictly smaller one. */
  predicate FirstBest(order: seq<Pid>, players: map<Pid, Player>, k: nat)
    requires Listed(order, players)
  {
    && k < |order|
    && (forall j :: 0 <= j < |order| ==> ScoreAt(order, players, j) <= ScoreAt(order, players, k))
    && (forall j :: 0 <= j < k ==> ScoreAt(order, players, j) < ScoreAt(order, players, k))
  }

  /** The position a running best with strict comparison ends on. */
  function BestIndex(order: seq<Pid>, players: map<Pid, Player>): (k: nat)
    requires Listed(order, players) && order != []
    ensures FirstBest(order, players, k)
    decreases |order|
  {
    var n := |order|;
    if n == 1 then 0
    else
      var prefix := order[..n - 1];
      var k := BestIndex(prefix, players);
      assert forall j :: 0 <= j < n - 1 ==> ScoreAt(prefix, players, j) == ScoreAt(order, players, j);
      if players[order[n - 1]].score > players[order[k]].score then n - 1 else k
  }

  /** The round winner: the first player in iteration order among those with the top score. */
  function Winner(order: seq<Pid>, players: map<Pid, Player>): (w: Option<Pid>)
    requires Listed(order, players)
    ensures w.None? <==> order == []
    ensures w.Some? ==> exists k: nat :: FirstBest(order, players, k) && order[k] == w.value
  {
    if order == [] then None else Some(order[BestIndex(order, players)])
  }

  predicate Increasing(order: seq<Pid>)
  {
    forall i, j :: 0 <= i < j < |order| ==> order[i] < order[j]
  }

  /** When the iteration order is the order of pids, the winner holds the top score
      and has the lowest pid among the players tied on it. */
  lemma WinnerLowestTied(order: seq<Pid>, players: map<Pid, Player>)
    requires Listed(order, players) && Increasing(order) && order != []
    ensures var w := Winner(order, players).value;
      && w in order
      && (forall pid :: pid in order ==> players[pid].score <= players[w].score)
      && (forall pid :: pid in order && players[pid].score == players[w].score ==> w <= pid)
  {
    var k := BestIndex(order, players);
    var w := order[k];
    forall pid | pid in order
      ensures players[pid].score <= players[w].score
      ensures players[pid].score == players[w].score ==> w <= pid
    {
      var j :| 0 <= j < |order| && order[j] == pid;
      assert ScoreAt(order, players, j) <= ScoreAt(order, players, k);
      if j < k {
        assert ScoreAt(order, players, j) < ScoreAt(order, players, k);
      }
    }
  }

  // ---------------------------------------------------------------- removal

  /** The iteration order after popping pid from the dictionary. */
  function Without(order: seq<Pid>, pid: Pid): (r: seq<Pid>)
    ensures forall q :: q in r <==> q in order && q != pid
    ensures pid !in order ==> r == order
  {
    if order == [] then []
    else if order[0] == pid then Without(order[1..], pid)
    else [order[0]] + Without(order[1..], pid)
  }

  /** Popping a pid keeps the remaining pids in increasing order. */
  lemma {:induction false} WithoutIncreasing(order: seq<Pid>, pid: Pid)
    requires Increasing(order)
    ensures Increasing(Without(order, pid))
  {
    if order != [] {
      var tail := order[1..];
      assert Increasing(tail);
      WithoutIncreasing(tail, pid);
      var rest := Without(tail, pid);
      if order[0] != pid {
        forall q | q in rest ensures order[0] < q {
          var j :| 0 <= j < |tail| && tail[j] == q;
          assert order[j + 1] == q;
        }
        var r := [order[0]] + rest;
        forall i, j | 0 <= i < j < |r| ensures r[i] < r[j] {
          if i == 0 {
            assert r[j] == rest[j - 1] && rest[j - 1] in rest;
          } else {
            assert r[i] == rest[i - 1] && r[j] == rest[j - 1];
          }
        }
      }
    }
  }
}
