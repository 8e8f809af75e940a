# Coin-collector game server: a verified model of the game world

The server of the coin-collector game keeps all game truth in a handful of module
globals (`server.py`, lines 19-27): the players dictionary (position, velocity, score
and colour per pid), the pid counter, the optional coin, and the round state
(`game_active`, `game_end_time`, `intermission_end`, `last_winner`). Connections
register and leave, delayed input messages steer players, a coin timer drops a coin
during a round, and a fixed-rate game loop moves the players, resolves coin
collection and switches between the round and the intermission.

This project models that world in Dafny:

- `rules.dfy` (module `GameRules`): the configuration constants, the player record,
  and the pure helpers: the colour of a pid, `clamp`, steering (raw direction and its
  normalisation), one tick of motion, coin reach, the first player within reach, the
  round winner, and popping a pid from the iteration order.
- `world_spec.dfy` (module `WorldSpec`): the globals as one value (`WorldState`, with
  the dictionary's iteration order kept as a sequence of pids), the invariant they
  keep, one function per operation giving the world after it, and the lemmas about
  them: scoring at most once per tick, phase changes only at their deadlines, and
  pids handed out as 1, 2, 3, ... over any run of the server.
- `world.dfy` (module `Server`): the class `World`, whose fields are the globals and
  whose methods update them in place, with the loops of `start_round`, `end_round`
  and the game loop; each method is proved to produce exactly the world its
  specification function describes, and so to keep the invariant.

Every operation is one atomic step. The points where the source suspends
(`await`) separate steps: in particular registration (lines 113-125) and the round
start check after the welcome message (lines 140-141) are two steps, because other
work can run while the welcome message is sent (line 130). A run of the server is
a sequence of such steps (`WorldSpec.Event`), and the random draws and clock
readings each step uses are its parameters.

Where the written design and the code differ, the model follows the code:

- The design describes one phase deadline; the code keeps two, `game_end_time` and
  `intermission_end`, and `intermission_end` is 0 during a round and is never
  re-armed when an intermission passes with nobody connected.
- The design breaks a tie for the winner by the lowest pid; the code takes the first
  player in the dictionary's iteration order. The model follows the code and proves
  the two agree, because pids enter the dictionary in increasing order and popping
  keeps that order (`GameRules.WinnerLowestTied`, `WorldSpec.EndedRound`).

## Model

| member | source | states |
|---|---|---|
| `GameRules.ColorFor` | server.py:33-35 | the colour of a pid is one of the six palette colours |
| `GameRules.ColorPeriod` | server.py:33-35 | two pids get the same colour exactly when they differ by a multiple of six, so the palette is cycled from pid 1 |
| `GameRules.Clamp` | server.py:38 | for `a <= b` the result lies in `[a, b]`, equals `v` exactly when `v` is already in range, and is the nearer end otherwise |
| `GameRules.SpawnInsideArena` | server.py:120-121 | a spawn point drawn from `[50, MAP - 50]` already satisfies the position bound `[PLAYER_R, MAP - PLAYER_R]` |
| `GameRules.Moved` | server.py:205-209 | after a motion step the player is inside the arena on both axes, moved exactly by velocity times speed times dt when that stays inside, with velocity, score and colour unchanged |
| `GameRules.StandingStill` | server.py:205-209 | a player with zero velocity inside the arena does not move |
| `GameRules.RawDirection` | server.py:94-100 | each raw component is in {-1, 0, 1} and is 0 exactly when the two opposite keys agree |
| `GameRules.Normalize` | server.py:102-105 | the velocity is zero exactly when the raw direction is zero, has the raw direction's signs, and otherwise has length 1 within 1e-9 |
| `GameRules.Steer` | server.py:94-105 | the velocity an input yields is zero or of unit length |
| `GameRules.SteerFacts` | server.py:94-108 | a player stops exactly when opposite keys cancel on both axes, and moves right, left, down or up exactly when that key is held without its opposite |
| `GameRules.FirstInReachFrom` | server.py:213-218 | the scan returns the first position within reach of the coin, with nobody before it in reach, or nothing when nobody is in reach |
| `GameRules.FirstInReachUnique` | server.py:213-218 | the scan's answer is the unique position that is in reach with nobody in reach before it |
| `GameRules.FirstInReachLowest` | server.py:213-218 | with pids in increasing order, the first player in reach is also the lowest pid in reach |
| `GameRules.BestIndex` | server.py:184-187 | the running best with strict `>` ends on a position holding the top score with every earlier position strictly lower |
| `GameRules.Winner` | server.py:181-188 | there is a winner exactly when there are players, and it is the first player holding the top score |
| `GameRules.WinnerLowestTied` | server.py:181-188 | with pids in increasing order, the winner holds the top score and has the lowest pid among the players tied on it |
| `GameRules.Without` | server.py:154 | popping a pid removes exactly that pid from the iteration order and leaves it unchanged when the pid is absent |
| `GameRules.WithoutIncreasing` | server.py:154 | popping a pid keeps the iteration order increasing |
| `WorldSpec.Initial` | server.py:19-27 | the starting world has no players, next pid 1, no round running and no intermission deadline, and satisfies the invariant |
| `WorldSpec.Registered` | server.py:113-125 | a new connection gets the counter's pid, which no present player has; the counter goes up by one; the new player has score 0, zero velocity, its spawn point and the colour of its pid, and iterates last; nothing else changes |
| `WorldSpec.Unregistered` | server.py:154 | the pid's record is removed and every other record is untouched; removing an absent pid changes nothing |
| `WorldSpec.StartedRound` | server.py:160-174 | every player keeps its pid and colour and gets score 0, zero velocity and its spawn point; coin and last winner are cleared, the intermission deadline is 0, the round runs and ends at now plus the round length |
| `WorldSpec.AutoStarted` | server.py:140-141 | after the welcome message a round runs exactly when one already ran or somebody is connected; otherwise the world is unchanged |
| `WorldSpec.EndedRound` | server.py:176-193 | the round stops, the coin is cleared and the intermission ends at now plus its length; the winner is unset exactly when nobody is connected and otherwise holds the top score with the lowest pid among those tied; players are untouched |
| `WorldSpec.Integrated` | server.py:204-209 | every player, and only the players, take one motion step and stay inside the arena |
| `WorldSpec.Collector` | server.py:212-218 | the collector is a player within reach of the coin with no lower pid in reach, or there is none and nobody is in reach |
| `WorldSpec.CoinResolved` | server.py:212-218 | if somebody is in reach the collector gains exactly one point and the coin is gone, otherwise nothing changes |
| `WorldSpec.Ticked` | server.py:199-227 | a tick keeps the invariant; a round ends exactly when now has reached its deadline, and then the coin is cleared, the intermission ends at now plus its length and a winner is set exactly when somebody is connected; a new round starts exactly when the intermission deadline is set and reached and somebody is connected; otherwise an intermission tick changes nothing |
| `WorldSpec.TickScoresOnce` | server.py:204-222 | during a round at most one player scores in a tick, by exactly one point, nobody else's score changes, and the coin stays unless it was collected or the round ended |
| `WorldSpec.CoinSpawned` | server.py:81-85 | after a firing a coin exists exactly when a round runs; an existing coin is never replaced, and a new one is at the drawn point in the coin area |
| `WorldSpec.InputApplied` | server.py:91-108 | an input for a departed pid changes nothing; otherwise only that player's velocity changes, to the steered heading |
| `WorldSpec.TimeLeft` | server.py:52-56 | the snapshot's seconds left are never negative, are the whole part of the time left in the phase, and are 0 once the deadline has passed |
| `WorldSpec.Step` | server.py:113-227 | each step keeps the invariant; only a registration moves the pid counter, by one; a round ends only at a tick past its deadline and starts only when somebody is connected, after a welcome or at a tick past the intermission deadline |
| `WorldSpec.IssuedConsecutive` | server.py:113-115 | the pids handed out over a run are the counter's consecutive values, and the counter ends past all of them |
| `WorldSpec.IdsFromOne` | server.py:20 | from a fresh server the pids handed out are 1, 2, 3, ... whatever disconnections happen in between: increasing and never reused |
| `WorldSpec.Reachable` | server.py:19-27 | every reachable world has its players inside the arena with heading velocities, and a coin only during a round and inside the coin area |
| `Server.RunningBest` | server.py:181-188 | the running-best loop returns the round winner and the top score (-1 when there are no players) |
| `Server.World.constructor` | server.py:19-27 | the new world is the starting world |
| `Server.World.Register` | server.py:113-125 | updates the fields to the registered world and returns the old counter, a pid no present player has |
| `Server.World.AutoStart` | server.py:140-141 | updates the fields to the world after the round start check |
| `Server.World.Unregister` | server.py:154 | updates the fields to the world without the pid |
| `Server.World.StartRound` | server.py:160-174 | the reset loop and the round fields leave the started-round world |
| `Server.World.EndRound` | server.py:176-193 | leaves the ended-round world, with the winner from the running-best loop |
| `Server.World.Integrate` | server.py:204-209 | the motion loop leaves every player moved and clamped |
| `Server.World.ResolveCoin` | server.py:212-218 | the collision loop stops at the first player in reach, scores it and removes the coin |
| `Server.World.Tick` | server.py:199-227 | one loop iteration leaves the ticked world |
| `Server.World.SpawnCoin` | server.py:81-85 | one timer firing leaves the world with the coin spawned if a round runs without one |
| `Server.World.ApplyInput` | server.py:89-108 | a delayed input leaves the world with that player's velocity steered, or unchanged if the player left |

## Left out

- The websocket transport (serving, receiving messages, sending, closing; lines 143-158, 236) and the session handle kept in each player record: plain I/O.
- Scheduling: the simulated latency sleeps (lines 41, 90), `create_task` (line 148), the `gather` fan-outs (lines 76, 238) and the tick-rate sleep (line 232). Each operation is an atomic step; their interleavings are the orders of a run's events.
- JSON decoding of input messages and the `welcome` and `state` messages (lines 58-75, 130-137, 146-150); of the snapshot only `time_left` is modelled. An input's keys are booleans, so a missing key is `false` and other JSON values are not modelled.
- Logging, and the infinite `while True` loops of the coin timer and the game loop: one firing and one iteration are modelled.
- `time.time()`: a tick takes one reading `now` and `dt` as parameters, while the source reads the clock anew for the deadline check and inside `start_round` and `end_round`; a later reading only moves the deadlines it sets.
- `random.uniform`: spawn points and coin points are parameters constrained to the drawn ranges; for a round start, one point per pid.
- Floating point: positions and times are reals. The collision test compares squared distances, which equals the `hypot` test on reals.
- GameRules.Normalize: computes the diagonal components as the double 0.7071067811865475 and states only zero-ness, signs and unit length within 1e-9, not the exact rounding of `vx / hypot(vx, vy)`.
