/** The room over whole runs: players enter, leave, move, in the room or after leaving it, and query, in
any order. There is one object per id. */
module GameRoomRuns {
  import opened SectorMath
  import opened Rooms = GameRoom

  /** What happens to the room; `k` is the id of a player. */
  datatype RoomOp =
    | EnterOp(k: nat)
    | LeaveOp(k: nat)
    | MoveOp(k: nat, x: real, y: real)
    | QueryOp(x: real, y: real)

  /** Where the players are, and which of them are in the room, without table and grid. */
  datatype Scene = Scene(at: seq<(real, real)>, present: set<nat>)

  predicate OpOk(op: RoomOp, n: nat) {
    match op
    case EnterOp(k) => k < n
    case LeaveOp(k) => k < n
    case MoveOp(k, x, y) => k < n && InWorld(x) && InWorld(y)
    case QueryOp(x, y) => InWorld(x) && InWorld(y)
  }

  function NextScene(s: Scene, op: RoomOp): Scene
    requires OpOk(op, |s.at|)
  {
    match op
    case EnterOp(k) => s.(present := s.present + {k})
    case LeaveOp(k) => s.(present := s.present - {k})
    case MoveOp(k, x, y) => s.(at := s.at[k := (x, y)])
    case QueryOp(_, _) => s
  }

  function SceneAfter(starts: seq<(real, real)>, ops: seq<RoomOp>): (s: Scene)
    requires forall i :: 0 <= i < |ops| ==> OpOk(ops[i], |starts|)
    ensures |s.at| == |starts|
  {
    if ops == [] then Scene(starts, {}) else NextScene(SceneAfter(starts, ops[..|ops| - 1]), ops[|ops| - 1])
  }

  /** The players in the room within 2000 of a point. */
  function NearIds(s: Scene, x: real, y: real): set<nat> {
    set k | k in s.present && k < |s.at|
      && (s.at[k].0 - x) * (s.at[k].0 - x) + (s.at[k].1 - y) * (s.at[k].1 - y) <= 2000.0 * 2000.0
  }

  /** The ids an operation should find. */
  function Expected(s: Scene, op: RoomOp): set<nat> {
    if op.QueryOp? then NearIds(s, op.x, op.y) else {}
  }

  predicate SceneInWorld(s: Scene) {
    forall k :: 0 <= k < |s.at| ==> InWorld(s.at[k].0) && InWorld(s.at[k].1)
  }

  /** A move, to another cell, of a player that is not in the room. */
  predicate MovesOutside(s: Scene, op: RoomOp)
    requires SceneInWorld(s) && OpOk(op, |s.at|)
  {
    op.MoveOp? && op.k !in s.present && SectorIndex(s.at[op.k].0, s.at[op.k].1) != SectorIndex(op.x, op.y)
  }

  lemma NextInWorld(s: Scene, op: RoomOp)
    requires SceneInWorld(s) && OpOk(op, |s.at|)
    ensures SceneInWorld(NextScene(s, op)) && |NextScene(s, op).at| == |s.at|
  {
  }

  lemma {:induction false} AfterInWorld(starts: seq<(real, real)>, ops: seq<RoomOp>)
    requires SceneInWorld(Scene(starts, {})) && forall i :: 0 <= i < |ops| ==> OpOk(ops[i], |starts|)
    ensures SceneInWorld(SceneAfter(starts, ops))
  {
    if ops != [] {
      AfterInWorld(starts, ops[..|ops| - 1]);
      NextInWorld(SceneAfter(starts, ops[..|ops| - 1]), ops[|ops| - 1]);
    }
  }

  /** The room with its player objects is in this scene. */
  class Cast {
    const room: GameRoom
    const objects: seq<Player>
    ghost const Repr: set<object>

    ghost predicate ObjectsOk(at: seq<(real, real)>)
      reads objects
    {
      && |objects| == |at|
      && (forall k :: 0 <= k < |objects| ==> objects[k] in Repr)
      && forall k :: 0 <= k < |at| ==> objects[k].id == k && (objects[k].x, objects[k].y) == at[k] && objects[k].Placed()
    }

    ghost predicate TableIs(present: set<nat>)
      reads room`players
    {
      && (forall k :: k in room.players <==> k in present && k < |objects|)
      && forall k :: k in room.players ==> k < |objects| && room.players[k] == objects[k]
    }

    /** Every player of the table is filed under its cell, so that queries are right. */
    ghost predicate In(s: Scene)
      reads room, room.players.Values, objects
    {
      room in Repr && ObjectsOk(s.at) && TableIs(s.present) && room.Valid()
    }

    /** Nothing else is filed, so that queries list nobody twice and save comparisons. */
    ghost predicate Clean()
      reads room, room.players.Values
    {
      room.Exact() && room.StatsOk()
    }

    constructor (starts: seq<(real, real)>)
      requires SceneInWorld(Scene(starts, {}))
      ensures In(Scene(starts, {})) && Clean() && fresh(Repr)
    {
      var ps: seq<Player> := [];
      for i := 0 to |starts|
        invariant |ps| == i && fresh(ps)
        invariant forall k :: 0 <= k < i ==> ps[k].id == k && (ps[k].x, ps[k].y) == starts[k]
      {
        var p := new Player(i, starts[i].0, starts[i].1);
        ps := ps + [p];
      }
      var r := new GameRoom();
      room, objects := r, ps;
      var cast: set<object> := set p | p in ps;
      Repr := cast + {r};
    }

    method DoEnter(k: nat, ghost s: Scene)
      requires In(s) && k < |objects|
      modifies room
      ensures In(NextScene(s, EnterOp(k))) && (old(Clean()) ==> Clean())
    {
      room.Enter(objects[k]);
    }

    method DoLeave(k: nat, ghost s: Scene)
      requires In(s) && k < |objects|
      modifies room
      ensures In(NextScene(s, LeaveOp(k))) && (old(Clean()) ==> Clean())
    {
      room.Leave(objects[k]);
    }

    method DoMove(k: nat, x: real, y: real, ghost s: Scene)
      requires In(s) && k < |objects| && InWorld(x) && InWorld(y) && SceneInWorld(s)
      modifies Repr
      ensures In(NextScene(s, MoveOp(k, x, y)))
      ensures old(Clean()) && !MovesOutside(s, MoveOp(k, x, y)) ==> Clean()
    {
      room.HandleMove(objects[k], x, y);
    }

    method Ask(x: real, y: real, ghost s: Scene) returns (adjacent: seq<Player>)
      requires In(s) && InWorld(x) && InWorld(y)
      modifies room`stats
      ensures In(s) && (old(Clean()) ==> Clean()) && (set p | p in adjacent) == room.FullScan(x, y)
    {
      adjacent := room.GetAdjacentSectorPlayers(x, y);
    }

    method DoQuery(x: real, y: real, ghost s: Scene) returns (found: set<nat>)
      requires In(s) && InWorld(x) && InWorld(y)
      modifies room
      ensures In(s) && (old(Clean()) ==> Clean()) && found == NearIds(s, x, y)
    {
      var adjacent := Ask(x, y, s);
      found := set p | p in adjacent :: p.id;
      FoundIsScene(s, x, y, adjacent);
    }

    lemma FoundIsScene(s: Scene, x: real, y: real, adjacent: seq<Player>)
      requires In(s) && (set p | p in adjacent) == room.FullScan(x, y)
      ensures (set p | p in adjacent :: p.id) == NearIds(s, x, y)
    {
      var ids, scan := set p | p in adjacent :: p.id, set p | p in adjacent;
      forall k | k in ids ensures k in NearIds(s, x, y) {
        var p :| p in adjacent && p.id == k;
        assert p in scan;
      }
      forall k | k in NearIds(s, x, y) ensures k in ids {
        assert room.players[k] == objects[k] && objects[k] in scan;
      }
    }

    method Do(op: RoomOp, ghost s: Scene) returns (found: set<nat>)
      requires In(s) && SceneInWorld(s) && OpOk(op, |s.at|)
      modifies Repr
      ensures In(NextScene(s, op)) && found == Expected(s, op)
      ensures old(Clean()) && !MovesOutside(s, op) ==> Clean()
    {
      found := {};
      match op
      case EnterOp(k) => DoEnter(k, s);
      case LeaveOp(k) => DoLeave(k, s);
      case MoveOp(k, x, y) => DoMove(k, x, y, s);
      case QueryOp(x, y) => found := DoQuery(x, y, s);
    }
  }

  ghost predicate OpsOk(starts: seq<(real, real)>, ops: seq<RoomOp>) {
    SceneInWorld(Scene(starts, {})) && forall i :: 0 <= i < |ops| ==> OpOk(ops[i], |starts|)
  }

  /** The scene before operation `i`. */
  ghost function SceneAt(starts: seq<(real, real)>, ops: seq<RoomOp>, i: nat): Scene
    requires OpsOk(starts, ops) && i <= |ops|
  {
    SceneAfter(starts, ops[..i])
  }

  lemma SceneNext(starts: seq<(real, real)>, ops: seq<RoomOp>, i: nat)
    requires OpsOk(starts, ops) && i < |ops|
    ensures SceneInWorld(SceneAt(starts, ops, i)) && |SceneAt(starts, ops, i).at| == |starts|
    ensures SceneAt(starts, ops, i + 1) == NextScene(SceneAt(starts, ops, i), ops[i])
  {
    AfterInWorld(starts, ops[..i]);
    assert ops[..i + 1][..i] == ops[..i];
  }

  /** Operation `i` is a move, to another cell, of a player that is not in the room. */
  ghost predicate LateAt(starts: seq<(real, real)>, ops: seq<RoomOp>, i: nat)
    requires OpsOk(starts, ops) && i < |ops|
  {
    SceneNext(starts, ops, i);
    MovesOutside(SceneAt(starts, ops, i), ops[i])
  }

  method Play(c: Cast, starts: seq<(real, real)>, ops: seq<RoomOp>, i: nat) returns (found: set<nat>)
    requires OpsOk(starts, ops) && i < |ops| && c.In(SceneAt(starts, ops, i))
    modifies c.Repr
    ensures c.In(SceneAt(starts, ops, i + 1)) && found == Expected(SceneAt(starts, ops, i), ops[i])
    ensures old(c.Clean()) && !LateAt(starts, ops, i) ==> c.Clean()
  {
    SceneNext(starts, ops, i);
    found := c.Do(ops[i], SceneAt(starts, ops, i));
  }

  /** The first `i` operations have none of these. */
  ghost predicate NoneLate(starts: seq<(real, real)>, ops: seq<RoomOp>, i: nat)
    requires OpsOk(starts, ops) && i <= |ops|
  {
    forall j :: 0 <= j < i ==> !LateAt(starts, ops, j)
  }

  lemma NoneLateMore(starts: seq<(real, real)>, ops: seq<RoomOp>, i: nat)
    requires OpsOk(starts, ops) && i < |ops|
    ensures NoneLate(starts, ops, i + 1) <==> NoneLate(starts, ops, i) && !LateAt(starts, ops, i)
  {
    if NoneLate(starts, ops, i + 1) { assert !LateAt(starts, ops, i); }
  }

  /** What the operations found is what the scenes say. */
  ghost predicate AllExpected(starts: seq<(real, real)>, ops: seq<RoomOp>, found: seq<set<nat>>)
    requires OpsOk(starts, ops) && |found| <= |ops|
  {
    forall i :: 0 <= i < |found| ==> found[i] == Expected(SceneAt(starts, ops, i), ops[i])
  }

  lemma ExpectedMore(starts: seq<(real, real)>, ops: seq<RoomOp>, found: seq<set<nat>>, ids: set<nat>)
    requires OpsOk(starts, ops) && |found| < |ops| && AllExpected(starts, ops, found)
    requires ids == Expected(SceneAt(starts, ops, |found|), ops[|found|])
    ensures AllExpected(starts, ops, found + [ids])
  {
  }

  /** Where the run stands before operation `i`. */
  ghost predicate Stands(c: Cast, starts: seq<(real, real)>, ops: seq<RoomOp>, i: nat)
    requires OpsOk(starts, ops) && i <= |ops|
    reads c.room, c.room.players.Values, c.objects
  {
    c.In(SceneAt(starts, ops, i)) && (NoneLate(starts, ops, i) ==> c.Clean())
  }

  method PlayNext(c: Cast, starts: seq<(real, real)>, ops: seq<RoomOp>, found: seq<set<nat>>) returns (found': seq<set<nat>>)
    requires OpsOk(starts, ops) && |found| < |ops| && Stands(c, starts, ops, |found|) && AllExpected(starts, ops, found)
    modifies c.Repr
    ensures |found'| == |found| + 1 && Stands(c, starts, ops, |found'|) && AllExpected(starts, ops, found')
  {
    NoneLateMore(starts, ops, |found|);
    var ids := Play(c, starts, ops, |found|);
    ExpectedMore(starts, ops, found, ids);
    found' := found + [ids];
  }

  /** Any sequence of operations on the room: the table, the positions and every query are what the scenes
  say, in which there is no grid. And unless a player has moved to another cell while out of the room, the
  grid is exact, so that no query lists a player twice or compares more than a full scan. */
  method RunSchedule(starts: seq<(real, real)>, ops: seq<RoomOp>) returns (c: Cast, found: seq<set<nat>>)
    requires OpsOk(starts, ops)
    ensures fresh(c) && c.In(SceneAt(starts, ops, |ops|))
    ensures |found| == |ops| && AllExpected(starts, ops, found)
    ensures NoneLate(starts, ops, |ops|) ==> c.Clean()
  {
    c := new Cast(starts);
    found := [];
    while |found| < |ops|
      invariant fresh(c) && fresh(c.Repr) && |found| <= |ops|
      invariant Stands(c, starts, ops, |found|) && AllExpected(starts, ops, found)
    {
      found := PlayNext(c, starts, ops, found);
    }
  }
}
