/** The room's table of players and the grid that indexes it.

Players are objects shared with their sessions: a move changes the player in place, and may reach the
room after the player has left it, or when another object has taken over its id. */
module GameRoom {
  import opened SectorMath

  const CELL_SIZE := 1000.0
  const AOI_RADIUS := 2000.0
  const CELL_SPAN := TruncatedSpan(AOI_RADIUS, CELL_SIZE)
  const WINDOW_SIDE := 2 * CELL_SPAN + 1

  /** The casts and the loop bounds of a query at this coordinate stay within 32 bits. */
  predicate InWorld(v: real) {
    -0x8000_0000 + CELL_SPAN <= SectorCoord(v, CELL_SIZE) < 0x7FFF_FFFF - CELL_SPAN
  }

  lemma InWorldIff(v: real)
    ensures InWorld(v) <==> -2147483646000.0 <= v < 2147483645000.0
  {
    SpanIsTwo();
    DivBounds(v, CELL_SIZE, -2147483646);
    DivBounds(v, CELL_SIZE, 2147483645);
  }

  function SectorIndex(x: real, y: real): int64
    requires InWorld(x) && InWorld(y)
  {
    assert CELL_SPAN >= 0;
    MakeSectorKey(SectorCoord(x, CELL_SIZE), SectorCoord(y, CELL_SIZE))
  }

  predicate Near(px: real, py: real, x: real, y: real) {
    (px - x) * (px - x) + (py - y) * (py - y) <= AOI_RADIUS * AOI_RADIUS
  }

  /** The distance in numbers: at most 2000, the boundary included. */
  lemma NearIsWithin2000(px: real, py: real, x: real, y: real)
    ensures Near(px, py, x, y) <==> (px - x) * (px - x) + (py - y) * (py - y) <= 2000.0 * 2000.0
  {
  }

  /** Along an axis, and at a point at distance exactly 2000. */
  lemma NearAlongAxis(x: real, y: real, d: real)
    ensures Near(x + d, y, x, y) <==> -2000.0 <= d <= 2000.0
    ensures Near(x, y + d, x, y) <==> -2000.0 <= d <= 2000.0
    ensures Near(x + 1200.0, y + 1600.0, x, y)
  {
    if d > 2000.0 { SquareGrows(2000.0, d); }
    if -d > 2000.0 { SquareGrows(2000.0, -d); }
    if 0.0 < d < 2000.0 { SquareGrows(d, 2000.0); }
    if 0.0 < -d < 2000.0 { SquareGrows(-d, 2000.0); }
    assert x + d - x == d && y + d - y == d && -d * -d == d * d;
  }

  lemma SpanIsTwo()
    ensures CELL_SPAN == 2
  {
  }

  lemma SquareGrows(r: real, d: real)
    requires 0.0 < r < d
    ensures r * r < d * d
  {
    MulStrict(r, d, d);
    MulMono(r, d, r);
    assert r * d == d * r;
  }

  lemma SquareBound(d: real, e: real, r: real)
    requires r > 0.0 && d * d + e * e <= r * r
    ensures Abs(d) <= r
  {
    assert e * e >= 0.0;
    if d > r { SquareGrows(r, d); }
    if -d > r { SquareGrows(r, -d); }
  }

  lemma SpanCovers(a: real, b: real)
    requires Abs(a - b) <= AOI_RADIUS
    ensures AbsInt(SectorCoord(a, CELL_SIZE) - SectorCoord(b, CELL_SIZE)) <= CELL_SPAN
  {
    SpanIsTwo();
    TruncatedSpanSufficesIff(AOI_RADIUS, CELL_SIZE);
  }

  lemma NearIsClose(px: real, py: real, x: real, y: real)
    requires Near(px, py, x, y)
    ensures Abs(px - x) <= AOI_RADIUS && Abs(py - y) <= AOI_RADIUS
  {
    SquareBound(px - x, py - y, AOI_RADIUS);
    SquareBound(py - y, px - x, AOI_RADIUS);
  }

  /** A point near the query lies in a visited cell. */
  lemma NearIsVisited(px: real, py: real, x: real, y: real)
    requires Near(px, py, x, y)
    ensures AbsInt(SectorCoord(px, CELL_SIZE) - SectorCoord(x, CELL_SIZE)) <= CELL_SPAN
    ensures AbsInt(SectorCoord(py, CELL_SIZE) - SectorCoord(y, CELL_SIZE)) <= CELL_SPAN
  {
    NearIsClose(px, py, x, y);
    SpanCovers(px, x);
    SpanCovers(py, y);
  }

  type Sectors = map<int64, set<nat>>

  function Bucket(sectors: Sectors, key: int64): set<nat> {
    if key in sectors then sectors[key] else {}
  }

  predicate NoEmptyBucket(sectors: Sectors) {
    forall k :: k in sectors ==> sectors[k] != {}
  }

  /** Where the players of the table are: id to cell key. */
  type Cells = map<nat, int64>

  /** Every player sits in the bucket of its current cell. */
  ghost predicate Covers(cells: Cells, sectors: Sectors) {
    forall id :: id in cells ==> id in Bucket(sectors, cells[id])
  }

  /** The grid says nothing else: every entry is a player in its current cell. */
  ghost predicate ExactGrid(cells: Cells, sectors: Sectors) {
    && NoEmptyBucket(sectors)
    && forall k, id :: id in Bucket(sectors, k) <==> id in cells && cells[id] == k
  }

  ghost predicate Added(sectors: Sectors, sectors': Sectors, id: nat, key: int64) {
    forall k: int64 :: Bucket(sectors', k) == if k == key then Bucket(sectors, k) + {id} else Bucket(sectors, k)
  }

  ghost predicate Removed(sectors: Sectors, sectors': Sectors, id: nat, key: int64) {
    forall k: int64 :: Bucket(sectors', k) == if k == key then Bucket(sectors, k) - {id} else Bucket(sectors, k)
  }

  /** Moving between two cells takes the id out of one bucket and puts it into the other, whether or not
  it was in the first. */
  ghost predicate Moved(sectors: Sectors, sectors': Sectors, id: nat, from: int64, to: int64) {
    if from == to then sectors' == sectors
    else
      forall k: int64 :: Bucket(sectors', k) ==
        if k == from then Bucket(sectors, k) - {id}
        else if k == to then Bucket(sectors, k) + {id}
        else Bucket(sectors, k)
  }

  /** Filing an id keeps every player covered, and an exact grid exact unless the id was in the table
  under another cell. */
  lemma AddKeeps(cells: Cells, sectors: Sectors, sectors': Sectors, id: nat, key: int64)
    requires Added(sectors, sectors', id, key)
    ensures Covers(cells, sectors) ==> Covers(cells[id := key], sectors')
    ensures ExactGrid(cells, sectors) && NoEmptyBucket(sectors') ==>
      (ExactGrid(cells[id := key], sectors') <==> id !in cells || cells[id] == key)
  {
    if ExactGrid(cells, sectors) && id in cells && cells[id] != key {
      var at, cells' := cells[id], cells[id := key];
      assert id in Bucket(sectors, at) && id in Bucket(sectors', at) && cells'[id] != at;
    }
  }

  lemma RemoveKeeps(cells: Cells, sectors: Sectors, sectors': Sectors, id: nat, key: int64)
    requires Removed(sectors, sectors', id, key)
    ensures Covers(cells, sectors) ==> Covers(cells - {id}, sectors')
    ensures ExactGrid(cells, sectors) && NoEmptyBucket(sectors') ==>
      (ExactGrid(cells - {id}, sectors') <==> id !in cells || cells[id] == key)
  {
    if ExactGrid(cells, sectors) && id in cells && cells[id] != key {
      var at, cells' := cells[id], cells - {id};
      assert id in Bucket(sectors, at) && id in Bucket(sectors', at) && id !in cells';
    }
  }

  /** A move by the object that the table holds under the id. */
  lemma OwnMoveKeeps(cells: Cells, sectors: Sectors, sectors': Sectors, id: nat, from: int64, to: int64)
    requires Moved(sectors, sectors', id, from, to) && id in cells && cells[id] == from
    ensures Covers(cells, sectors) ==> Covers(cells[id := to], sectors')
    ensures ExactGrid(cells, sectors) && NoEmptyBucket(sectors') ==> ExactGrid(cells[id := to], sectors')
  {
  }

  /** A move by an object that is not in the table, whose id may be: the players stay covered unless it
  takes the id out of the cell of the object that is, and the grid stays exact only if it leaves the id
  in that cell alone, or changes nothing. */
  lemma ForeignMoveKeeps(cells: Cells, sectors: Sectors, sectors': Sectors, id: nat, from: int64, to: int64)
    requires Moved(sectors, sectors', id, from, to)
    ensures Covers(cells, sectors) ==>
      (Covers(cells, sectors') <==> from == to || id !in cells || cells[id] != from)
    ensures ExactGrid(cells, sectors) && NoEmptyBucket(sectors') ==>
      (ExactGrid(cells, sectors') <==> from == to || (id in cells && cells[id] == to))
  {
    if from != to {
      assert id in Bucket(sectors', to) && id !in Bucket(sectors', from);
    }
  }

  /** The keys of the cells that a query at cell (cx, cy) visits before it comes to cell (sx, sy). */
  ghost function Visited(cx: int, cy: int, sx: int, sy: int): set<int64> {
    set a: int32, b: int32 | cx - CELL_SPAN <= a <= cx + CELL_SPAN && cy - CELL_SPAN <= b <= cy + CELL_SPAN
                             && (a < sx || (a == sx && b < sy)) :: MakeSectorKey(a, b)
  }

  lemma VisitOneMore(cx: int, cy: int, sx: int32, sy: int32)
    requires AbsInt(sx - cx) <= CELL_SPAN && AbsInt(sy - cy) <= CELL_SPAN
    ensures MakeSectorKey(sx, sy) !in Visited(cx, cy, sx, sy)
    ensures Visited(cx, cy, sx, sy + 1) == Visited(cx, cy, sx, sy) + {MakeSectorKey(sx, sy)}
  {
    if MakeSectorKey(sx, sy) in Visited(cx, cy, sx, sy) {
      var a: int32, b: int32 :| (a < sx || (a == sx && b < sy)) && MakeSectorKey(a, b) == MakeSectorKey(sx, sy);
      KeyInjective(a, b, sx, sy);
    }
  }

  lemma NextColumn(cx: int, cy: int, sx: int)
    ensures Visited(cx, cy, sx, cy + CELL_SPAN + 1) == Visited(cx, cy, sx + 1, cy - CELL_SPAN)
    ensures Visited(cx, cy, cx - CELL_SPAN, cy - CELL_SPAN) == {}
  {
  }

  /** The keys of the square of cells around a point. */
  ghost function Window(x: real, y: real): set<int64>
    requires InWorld(x) && InWorld(y)
  {
    var cx, cy := SectorCoord(x, CELL_SIZE), SectorCoord(y, CELL_SIZE);
    Visited(cx, cy, cx + CELL_SPAN + 1, cy - CELL_SPAN)
  }

  lemma InWindow(x: real, y: real, a: int32, b: int32)
    requires InWorld(x) && InWorld(y)
    requires AbsInt(a - SectorCoord(x, CELL_SIZE)) <= CELL_SPAN && AbsInt(b - SectorCoord(y, CELL_SIZE)) <= CELL_SPAN
    ensures MakeSectorKey(a, b) in Window(x, y)
  {
  }

  /** The cells among `seen` in which an id is filed. */
  ghost function Filed(sectors: Sectors, seen: set<int64>, id: nat): set<int64> {
    set k | k in seen && id in Bucket(sectors, k)
  }

  lemma FiledOneMore(sectors: Sectors, seen: set<int64>, key: int64, id: nat)
    requires key !in seen
    ensures |Filed(sectors, seen + {key}, id)| == |Filed(sectors, seen, id)| + if id in Bucket(sectors, key) then 1 else 0
  {
    var before, after := Filed(sectors, seen, id), Filed(sectors, seen + {key}, id);
    assert after == if id in Bucket(sectors, key) then before + {key} else before;
  }

  /** In an exact grid an id is filed in one cell at most. */
  lemma FiledOnce(cells: Cells, sectors: Sectors, seen: set<int64>, id: nat)
    requires ExactGrid(cells, sectors)
    ensures |Filed(sectors, seen, id)| <= 1
  {
    var filed := Filed(sectors, seen, id);
    if id in cells {
      assert filed <= {cells[id]};
      assert filed == {} || filed == {cells[id]};
    } else {
      assert filed == {};
    }
  }

  /** The players a query compares with, when the grid is exact. */
  ghost function Candidates(cells: Cells, seen: set<int64>): set<nat> {
    set id | id in cells && cells[id] in seen
  }

  lemma CandidatesOneMore(cells: Cells, sectors: Sectors, seen: set<int64>, key: int64)
    requires ExactGrid(cells, sectors) && key !in seen
    ensures |Candidates(cells, seen + {key})| == |Candidates(cells, seen)| + |Bucket(sectors, key) * cells.Keys|
  {
    var more := Bucket(sectors, key) * cells.Keys;
    assert Candidates(cells, seen + {key}) == Candidates(cells, seen) + more;
    assert Candidates(cells, seen) !! more;
  }

  /** In an exact grid the comparisons made so far are one for each candidate. */
  ghost predicate ComparedOnce(cells: Cells, sectors: Sectors, compares: int, seen: set<int64>) {
    ExactGrid(cells, sectors) ==> compares == |Candidates(cells, seen)|
  }

  lemma ComparedOneMore(cells: Cells, sectors: Sectors, compares: int, seen: set<int64>, key: int64)
    requires key !in seen && ComparedOnce(cells, sectors, compares, seen)
    ensures ComparedOnce(cells, sectors, compares + |Bucket(sectors, key) * cells.Keys|, seen + {key})
  {
    if ExactGrid(cells, sectors) {
      CandidatesOneMore(cells, sectors, seen, key);
    }
  }

  lemma CandidatesBounded(cells: Cells, seen: set<int64>)
    ensures |Candidates(cells, seen)| <= |cells|
  {
    assert cells.Keys == Candidates(cells, seen) + (cells.Keys - Candidates(cells, seen));
    assert |cells| == |cells.Keys|;
  }

  class Player {
    const id: nat
    var x: real
    var y: real

    constructor (id: nat, x: real, y: real)
      ensures this.id == id && this.x == x && this.y == y
    {
      this.id, this.x, this.y := id, x, y;
    }

    ghost predicate Placed()
      reads this
    {
      InWorld(x) && InWorld(y)
    }

    /** The distance in coordinates and numbers. */
    ghost predicate Within2000(px: real, py: real)
      reads this
    {
      (x - px) * (x - px) + (y - py) * (y - py) <= 2000.0 * 2000.0
    }

    lemma NearIsWithin(px: real, py: real)
      ensures Near(x, y, px, py) <==> Within2000(px, py)
    {
      NearIsWithin2000(x, y, px, py);
    }

    ghost function Key(): int64
      reads this
    {
      if Placed() then SectorIndex(x, y) else 0
    }
  }

  datatype AoiStats = AoiStats(queryCount: nat, compareCount: nat, naiveCompareCount: nat, cellVisitCount: nat)

  predicate StatsGood(st: AoiStats) {
    st.compareCount <= st.naiveCompareCount && st.cellVisitCount == WINDOW_SIDE * WINDOW_SIDE * st.queryCount
  }

  lemma StatsStayGood(st: AoiStats, st': AoiStats, n: nat)
    requires StatsGood(st) && st'.queryCount == st.queryCount + 1 && st'.naiveCompareCount == st.naiveCompareCount + n
    requires st'.compareCount - st.compareCount <= n && st'.cellVisitCount == st.cellVisitCount + WINDOW_SIDE * WINDOW_SIDE
    ensures StatsGood(st')
  {
    assert WINDOW_SIDE * WINDOW_SIDE * (st.queryCount + 1) == WINDOW_SIDE * WINDOW_SIDE * st.queryCount + WINDOW_SIDE * WINDOW_SIDE;
  }

  class GameRoom {
    var players: map<nat, Player>
    var sectors: Sectors
    var stats: AoiStats

    ghost predicate TableOk()
      reads this`players, players.Values
    {
      forall id :: id in players ==> players[id].id == id && players[id].Placed()
    }

    ghost function CellsOf(): Cells
      reads this`players, players.Values
    {
      map id | id in players :: players[id].Key()
    }

    ghost predicate Valid()
      reads this`players, this`sectors, players.Values
    {
      TableOk() && Covers(CellsOf(), sectors)
    }

    ghost predicate Exact()
      reads this`players, this`sectors, players.Values
    {
      TableOk() && ExactGrid(CellsOf(), sectors)
    }

    /** What a scan of the whole table finds. */
    ghost function FullScan(x: real, y: real): set<Player>
      reads this`players, players.Values
    {
      set p | p in players.Values && Near(p.x, p.y, x, y)
    }

    /** The grid has saved comparisons, and every query has visited its whole window. */
    ghost predicate StatsOk()
      reads this`stats
    {
      StatsGood(stats)
    }

    /** The id of the object is in the table, but for another object. */
    ghost predicate Replaced(player: Player)
      reads this`players
    {
      player.id in players && players[player.id] != player
    }

    /** The cell of the table's object for this id. */
    ghost function TableKey(id: nat): int64
      requires id in players
      reads this`players, players.Values
    {
      players[id].Key()
    }

    constructor ()
      ensures players == map[] && sectors == map[] && Valid() && Exact() && StatsOk()
    {
      players, sectors, stats := map[], map[], AoiStats(0, 0, 0, 0);
    }

    method AddToSector(id: nat, x: real, y: real)
      requires InWorld(x) && InWorld(y)
      modifies this`sectors
      ensures Added(old(sectors), sectors, id, SectorIndex(x, y))
      ensures NoEmptyBucket(old(sectors)) ==> NoEmptyBucket(sectors)
    {
      var key := SectorIndex(x, y);
      sectors := sectors[key := Bucket(sectors, key) + {id}];
    }

    method RemoveFromSector(id: nat, x: real, y: real)
      requires InWorld(x) && InWorld(y)
      modifies this`sectors
      ensures Removed(old(sectors), sectors, id, SectorIndex(x, y))
      ensures NoEmptyBucket(old(sectors)) ==> NoEmptyBucket(sectors)
    {
      var key := SectorIndex(x, y);
      if key !in sectors {
        return;
      }
      var rest := sectors[key] - {id};
      if rest == {} {
        sectors := sectors - {key};
      } else {
        sectors := sectors[key := rest];
      }
    }

    method MoveSector(id: nat, oldX: real, oldY: real, newX: real, newY: real)
      requires InWorld(oldX) && InWorld(oldY) && InWorld(newX) && InWorld(newY)
      modifies this`sectors
      ensures Moved(old(sectors), sectors, id, SectorIndex(oldX, oldY), SectorIndex(newX, newY))
      ensures NoEmptyBucket(old(sectors)) ==> NoEmptyBucket(sectors)
    {
      var from, to := SectorIndex(oldX, oldY), SectorIndex(newX, newY);
      if from == to {
        return;
      }
      RemoveFromSector(id, oldX, oldY);
      sectors := sectors[to := Bucket(sectors, to) + {id}];
    }

    /** An id that is in the table already gets the new object; its entry under another cell is left
    behind. */
    method Enter(player: Player)
      requires TableOk() && player.Placed()
      modifies this`players, this`sectors
      ensures TableOk() && players == old(players)[player.id := player]
      ensures Added(old(sectors), sectors, player.id, player.Key())
      ensures old(Valid()) ==> Valid()
      ensures old(Exact()) ==> (Exact() <==> player.id !in old(players) || old(TableKey(player.id)) == player.Key())
    {
      players := players[player.id := player];
      AddToSector(player.id, player.x, player.y);
      assert CellsOf() == old(CellsOf())[player.id := player.Key()];
      AddKeeps(old(CellsOf()), old(sectors), sectors, player.id, player.Key());
    }

    /** Also leaves the table as it is for a player that is not, or no longer, in the room. */
    method Leave(player: Player)
      requires TableOk() && player.Placed()
      modifies this`players, this`sectors
      ensures TableOk() && players == old(players) - {player.id}
      ensures Removed(old(sectors), sectors, player.id, player.Key())
      ensures old(Valid()) ==> Valid()
      ensures old(Exact()) ==> (Exact() <==> player.id !in old(players) || old(TableKey(player.id)) == player.Key())
    {
      RemoveFromSector(player.id, player.x, player.y);
      players := players - {player.id};
      assert CellsOf() == old(CellsOf()) - {player.id};
      RemoveKeeps(old(CellsOf()), old(sectors), sectors, player.id, player.Key());
    }

    /** Moving one player object changes the cell of its id, if the table holds it, and no other. */
    twostate lemma CellsAfterMove(player: Player)
      requires old(TableOk()) && players == old(players) && player.Placed()
      requires forall i :: i in players && players[i] != player ==> unchanged(players[i])
      ensures TableOk()
      ensures CellsOf() == if player in players.Values then old(CellsOf())[player.id := player.Key()] else old(CellsOf())
    {
    }

    lemma InTable(player: Player)
      requires TableOk()
      ensures player in players.Values <==> player.id in players && !Replaced(player)
    {
    }

    /** A move that reaches the room after the player has left is harmless to the players in the room, and
    keeps the grid exact only if it stays within the cell. If another object has entered under its id, it
    can take this object out of its cell, and then the object is not covered any more. */
    method HandleMove(player: Player, newX: real, newY: real)
      requires TableOk() && player.Placed() && InWorld(newX) && InWorld(newY)
      modifies this`sectors, player
      ensures TableOk() && player.x == newX && player.y == newY
      ensures Moved(old(sectors), sectors, player.id, old(player.Key()), player.Key())
      ensures old(Valid()) ==>
        (Valid() <==> !(Replaced(player) && old(player.Key()) == TableKey(player.id) != player.Key()))
      ensures old(Exact()) ==>
        (Exact() <==>
          || old(player.Key()) == player.Key()
          || (player.id in players && (Replaced(player) ==> TableKey(player.id) == player.Key())))
    {
      var oldX, oldY := player.x, player.y;
      player.x, player.y := newX, newY;
      MoveSector(player.id, oldX, oldY, player.x, player.y);
      CellsAfterMove(player);
      InTable(player);
      ghost var cells, id := old(CellsOf()), player.id;
      if player in players.Values {
        OwnMoveKeeps(cells, old(sectors), sectors, id, SectorIndex(oldX, oldY), player.Key());
      } else {
        ForeignMoveKeeps(cells, old(sectors), sectors, id, SectorIndex(oldX, oldY), player.Key());
      }
    }

    /** `found` lists each player that is near and whose id is in `ids` once, and nobody else. */
    ghost predicate FoundIn(found: seq<Player>, ids: set<nat>, x: real, y: real)
      reads this`players, players.Values
    {
      && (forall p :: p in found ==> p in players.Values)
      && forall id :: id in players ==>
           multiset(found)[players[id]] == (if Near(players[id].x, players[id].y, x, y) && id in ids then 1 else 0)
    }

    lemma FoundOneMore(found: seq<Player>, ids: set<nat>, x: real, y: real, id: nat)
      requires TableOk() && FoundIn(found, ids, x, y) && id !in ids
      ensures id !in players ==> FoundIn(found, ids + {id}, x, y)
      ensures id in players && !Near(players[id].x, players[id].y, x, y) ==> FoundIn(found, ids + {id}, x, y)
      ensures id in players && Near(players[id].x, players[id].y, x, y) ==>
                FoundIn(found + [players[id]], ids + {id}, x, y)
    {
      if id in players {
        forall i | i in players
          ensures multiset(found + [players[id]])[players[i]] == multiset(found)[players[i]] + (if i == id then 1 else 0)
        {
          assert players[i].id == i && players[id].id == id;
        }
      }
    }

    /** One entry of a bucket: skipped if the table does not know it, otherwise compared. */
    method Compare(objectId: nat, found: seq<Player>, ghost ids: set<nat>, x: real, y: real) returns (found': seq<Player>)
      requires TableOk() && FoundIn(found, ids, x, y) && objectId !in ids
      modifies this`stats
      ensures FoundIn(found', ids + {objectId}, x, y)
      ensures stats == old(stats).(compareCount := old(stats).compareCount + if objectId in players then 1 else 0)
    {
      found' := found;
      FoundOneMore(found, ids, x, y, objectId);
      if objectId in players {
        var player := players[objectId];
        stats := stats.(compareCount := stats.compareCount + 1);
        if Near(player.x, player.y, x, y) {
          found' := found + [player];
        }
      }
    }

    /** Looks through the entries of one bucket. */
    method ScanBucket(bucket: set<nat>, x: real, y: real) returns (found: seq<Player>)
      requires TableOk()
      modifies this`stats
      ensures stats == old(stats).(compareCount := old(stats).compareCount + |bucket * players.Keys|)
      ensures FoundIn(found, bucket, x, y)
    {
      found := [];
      var rest := bucket;
      ghost var ids: set<nat>, compared: set<nat> := {}, {};
      while rest != {}
        invariant forall i :: i in bucket <==> i in ids || i in rest
        invariant forall i :: i in ids ==> i !in rest
        invariant forall i :: i in compared <==> i in ids && i in players
        invariant stats == old(stats).(compareCount := old(stats).compareCount + |compared|)
        invariant FoundIn(found, ids, x, y)
        decreases rest
      {
        var objectId :| objectId in rest;
        found := Compare(objectId, found, ids, x, y);
        rest, ids := rest - {objectId}, ids + {objectId};
        compared := if objectId in players then compared + {objectId} else compared;
      }
      assert ids == bucket && compared == bucket * players.Keys;
    }

    method VisitCell(key: int64, x: real, y: real) returns (found: seq<Player>)
      requires TableOk()
      modifies this`stats
      ensures stats.compareCount == old(stats).compareCount + |Bucket(sectors, key) * CellsOf().Keys|
      ensures stats.cellVisitCount == old(stats).cellVisitCount + 1
      ensures stats.queryCount == old(stats).queryCount && stats.naiveCompareCount == old(stats).naiveCompareCount
      ensures FoundIn(found, Bucket(sectors, key), x, y)
    {
      found := [];
      stats := stats.(cellVisitCount := stats.cellVisitCount + 1);
      if key in sectors {
        found := ScanBucket(sectors[key], x, y);
        assert CellsOf().Keys == players.Keys;
      }
    }

    /** `found` lists each near player as often as its id is filed in the cells of `seen`. */
    ghost predicate FoundPerCell(found: seq<Player>, seen: set<int64>, x: real, y: real)
      reads this`players, this`sectors, players.Values
    {
      && (forall p :: p in found ==> p in players.Values)
      && forall id :: id in players ==>
           multiset(found)[players[id]] ==
             (if Near(players[id].x, players[id].y, x, y) then |Filed(sectors, seen, id)| else 0)
    }

    lemma CellOneMore(found: seq<Player>, more: seq<Player>, seen: set<int64>, key: int64, x: real, y: real)
      requires FoundPerCell(found, seen, x, y) && FoundIn(more, Bucket(sectors, key), x, y) && key !in seen
      ensures FoundPerCell(found + more, seen + {key}, x, y)
    {
      forall id | id in players
        ensures multiset(found + more)[players[id]] ==
                  (if Near(players[id].x, players[id].y, x, y) then |Filed(sectors, seen + {key}, id)| else 0)
      {
        FiledOneMore(sectors, seen, key, id);
      }
    }

    /** The body of the two loops over cells. */
    method VisitNext(key: int64, x: real, y: real, found: seq<Player>, ghost seen: set<int64>) returns (found': seq<Player>)
      requires TableOk() && FoundPerCell(found, seen, x, y) && key !in seen
      modifies this`stats
      ensures FoundPerCell(found', seen + {key}, x, y)
      ensures stats.compareCount == old(stats).compareCount + |Bucket(sectors, key) * CellsOf().Keys|
      ensures stats.cellVisitCount == old(stats).cellVisitCount + 1
      ensures stats.queryCount == old(stats).queryCount && stats.naiveCompareCount == old(stats).naiveCompareCount
    {
      var more := VisitCell(key, x, y);
      CellOneMore(found, more, seen, key, x, y);
      found' := found + more;
    }

    /** What holds between two cells of a query whose comparisons are counted from `base`. */
    ghost predicate QueryState(found: seq<Player>, seen: set<int64>, base: int, x: real, y: real)
      reads this, players.Values
    {
      && TableOk()
      && FoundPerCell(found, seen, x, y)
      && ComparedOnce(CellsOf(), sectors, stats.compareCount - base, seen)
    }

    /** The query has visited `cells` cells since the counters were at `before`. */
    ghost predicate QueryAt(found: seq<Player>, seen: set<int64>, before: AoiStats, cells: int, x: real, y: real)
      reads this, players.Values
    {
      && QueryState(found, seen, before.compareCount, x, y)
      && stats.cellVisitCount == before.cellVisitCount + cells
      && stats.queryCount == before.queryCount && stats.naiveCompareCount == before.naiveCompareCount
    }

    twostate lemma CellsSame()
      requires players == old(players) && forall i :: i in players ==> unchanged(players[i])
      ensures CellsOf() == old(CellsOf())
    {
    }

    method VisitStep(key: int64, x: real, y: real, found: seq<Player>, ghost seen: set<int64>, ghost before: AoiStats, ghost n: int)
      returns (found': seq<Player>)
      requires QueryAt(found, seen, before, n, x, y) && key !in seen
      modifies this`stats
      ensures QueryAt(found', seen + {key}, before, n + 1, x, y)
    {
      ghost var cells, compares := CellsOf(), stats.compareCount - before.compareCount;
      ComparedOneMore(cells, sectors, compares, seen, key);
      found' := VisitNext(key, x, y, found, seen);
      CellsSame();
      assert stats.compareCount - before.compareCount == compares + |Bucket(sectors, key) * cells.Keys|;
    }

    method VisitCellAt(sx: int32, sy: int32, ghost cx: int, ghost cy: int, x: real, y: real, found: seq<Player>, ghost before: AoiStats, ghost n: int)
      returns (found': seq<Player>)
      requires AbsInt(sx - cx) <= CELL_SPAN && AbsInt(sy - cy) <= CELL_SPAN
      requires QueryAt(found, Visited(cx, cy, sx, sy), before, n, x, y)
      modifies this`stats
      ensures QueryAt(found', Visited(cx, cy, sx, sy + 1), before, n + 1, x, y)
    {
      VisitOneMore(cx, cy, sx, sy);
      found' := VisitStep(MakeSectorKey(sx, sy), x, y, found, Visited(cx, cy, sx, sy), before, n);
    }

    /** The inner loop: the cells of one column. */
    method VisitColumn(sx: int32, cx: int, cy: int, x: real, y: real, found: seq<Player>, ghost before: AoiStats, ghost n: int)
      returns (found': seq<Player>)
      requires QueryAt(found, Visited(cx, cy, sx, cy - CELL_SPAN), before, n, x, y)
      requires AbsInt(sx - cx) <= CELL_SPAN && -0x8000_0000 + CELL_SPAN <= cy < 0x7FFF_FFFF - CELL_SPAN
      modifies this`stats
      ensures QueryAt(found', Visited(cx, cy, sx + 1, cy - CELL_SPAN), before, n + WINDOW_SIDE, x, y)
    {
      found' := found;
      var sy := cy - CELL_SPAN;
      while sy <= cy + CELL_SPAN
        invariant cy - CELL_SPAN <= sy <= cy + CELL_SPAN + 1
        invariant QueryAt(found', Visited(cx, cy, sx, sy), before, n + (sy - (cy - CELL_SPAN)), x, y)
      {
        found' := VisitCellAt(sx, sy, cx, cy, x, y, found', before, n + (sy - (cy - CELL_SPAN)));
        sy := sy + 1;
      }
      NextColumn(cx, cy, sx);
    }

    /** A near player of the table is found, since its cell is in the window and it is filed there. */
    lemma NearIsFiled(x: real, y: real, id: nat)
      requires Valid() && InWorld(x) && InWorld(y) && id in players && Near(players[id].x, players[id].y, x, y)
      ensures |Filed(sectors, Window(x, y), id)| > 0
    {
      var p := players[id];
      NearIsVisited(p.x, p.y, x, y);
      InWindow(x, y, SectorCoord(p.x, CELL_SIZE), SectorCoord(p.y, CELL_SIZE));
      assert CellsOf()[id] == p.Key();
      assert p.Key() in Filed(sectors, Window(x, y), id);
    }

    /** What is found is near. It is everybody near if every player is covered. */
    lemma FoundIsFullScan(found: seq<Player>, x: real, y: real)
      requires TableOk() && InWorld(x) && InWorld(y) && FoundPerCell(found, Window(x, y), x, y)
      ensures (set p | p in found) <= FullScan(x, y)
      ensures Valid() ==> (set p | p in found) == FullScan(x, y)
    {
      forall p | p in found ensures p in FullScan(x, y) {
        var id :| id in players && players[id] == p;
        assert multiset(found)[players[id]] > 0;
      }
      if Valid() {
        forall p: Player | p in FullScan(x, y) ensures p in found {
          var id :| id in players && players[id] == p;
          NearIsFiled(x, y, id);
        }
      }
    }

    /** In an exact grid nobody is listed twice and nobody is compared with twice. */
    lemma ExactQuery(found: seq<Player>, base: int, x: real, y: real)
      requires InWorld(x) && InWorld(y) && QueryState(found, Window(x, y), base, x, y) && Exact()
      ensures forall p :: multiset(found)[p] <= 1
      ensures stats.compareCount - base <= |players|
    {
      forall p ensures multiset(found)[p] <= 1 {
        if p in found {
          var id :| id in players && players[id] == p;
          FiledOnce(CellsOf(), sectors, Window(x, y), id);
        }
      }
      CandidatesBounded(CellsOf(), Window(x, y));
      assert CellsOf().Keys == players.Keys;
    }

    /** The outer loop. */
    method VisitColumns(cx: int, cy: int, x: real, y: real, ghost before: AoiStats) returns (found: seq<Player>)
      requires -0x8000_0000 + CELL_SPAN <= cx < 0x7FFF_FFFF - CELL_SPAN
      requires -0x8000_0000 + CELL_SPAN <= cy < 0x7FFF_FFFF - CELL_SPAN
      requires QueryAt([], Visited(cx, cy, cx - CELL_SPAN, cy - CELL_SPAN), before, 0, x, y)
      modifies this`stats
      ensures QueryAt(found, Visited(cx, cy, cx + CELL_SPAN + 1, cy - CELL_SPAN), before, WINDOW_SIDE * WINDOW_SIDE, x, y)
    {
      found := [];
      var sx := cx - CELL_SPAN;
      ghost var n := 0;
      while sx <= cx + CELL_SPAN
        invariant cx - CELL_SPAN <= sx <= cx + CELL_SPAN + 1 && n == (sx - (cx - CELL_SPAN)) * WINDOW_SIDE
        invariant QueryAt(found, Visited(cx, cy, sx, cy - CELL_SPAN), before, n, x, y)
      {
        found := VisitColumn(sx, cx, cy, x, y, found, before, n);
        sx, n := sx + 1, n + WINDOW_SIDE;
      }
    }

    lemma NothingSeen(x: real, y: real, cx: int, cy: int)
      requires TableOk()
      ensures QueryAt([], Visited(cx, cy, cx - CELL_SPAN, cy - CELL_SPAN), stats, 0, x, y)
    {
      NextColumn(cx, cy, cx - CELL_SPAN);
      forall id | id in players ensures |Filed(sectors, {}, id)| == 0 {
        assert Filed(sectors, {}, id) == {};
      }
      assert Candidates(CellsOf(), {}) == {};
    }

    method VisitWindow(x: real, y: real) returns (found: seq<Player>)
      requires TableOk() && InWorld(x) && InWorld(y)
      modifies this`stats
      ensures QueryAt(found, Window(x, y), old(stats), WINDOW_SIDE * WINDOW_SIDE, x, y)
    {
      var cx, cy := SectorCoord(x, CELL_SIZE), SectorCoord(y, CELL_SIZE);
      NothingSeen(x, y, cx, cy);
      SpanIsTwo();
      found := VisitColumns(cx, cy, x, y, stats);
    }

    /** The simple form the grid stands in for: every player of the table is compared. */
    method NaiveQuery(x: real, y: real) returns (near: set<Player>, compares: nat)
      ensures near == FullScan(x, y) && compares == |players|
      ensures forall id :: id in players ==> (players[id] in near <==> players[id].Within2000(x, y))
    {
      near, compares := {}, 0;
      var rest := players.Keys;
      while rest != {}
        invariant rest <= players.Keys && compares + |rest| == |players.Keys|
        invariant forall p :: p in near <==> exists id :: id in players.Keys - rest && players[id] == p && Near(p.x, p.y, x, y)
        decreases rest
      {
        var id :| id in rest;
        var player := players[id];
        ghost var was := rest;
        rest := rest - {id};
        compares := compares + 1;
        assert players.Keys - rest == (players.Keys - was) + {id};
        if Near(player.x, player.y, x, y) {
          near := near + {player};
        }
      }
      assert players.Keys - rest == players.Keys;
    }

    /** What the counters say after a query that found `found`. */
    ghost predicate Answered(found: seq<Player>, before: AoiStats, x: real, y: real)
      requires InWorld(x) && InWorld(y)
      reads this, players.Values
    {
      && TableOk() && FoundPerCell(found, Window(x, y), x, y)
      && stats.queryCount == before.queryCount + 1
      && stats.naiveCompareCount == before.naiveCompareCount + |players|
      && stats.cellVisitCount == before.cellVisitCount + WINDOW_SIDE * WINDOW_SIDE
      && (Exact() ==>
            (forall p <- found :: multiset(found)[p] <= 1) && stats.compareCount - before.compareCount <= |players|)
    }

    method Query(x: real, y: real) returns (adjacent: seq<Player>)
      requires TableOk() && InWorld(x) && InWorld(y)
      modifies this`stats
      ensures Answered(adjacent, old(stats), x, y)
    {
      stats := stats.(queryCount := stats.queryCount + 1, naiveCompareCount := stats.naiveCompareCount + |players|);
      adjacent := VisitWindow(x, y);
      if Exact() {
        ExactQuery(adjacent, old(stats).compareCount, x, y);
      }
    }

    /** The players near a point, by way of the grid. */
    method GetAdjacentSectorPlayers(x: real, y: real) returns (adjacent: seq<Player>)
      requires TableOk() && InWorld(x) && InWorld(y)
      modifies this`stats
      ensures (set p | p in adjacent) <= FullScan(x, y)
      ensures Valid() ==> (set p | p in adjacent) == FullScan(x, y)
      ensures Valid() ==> forall id :: id in players ==> (players[id] in adjacent <==> players[id].Within2000(x, y))
      ensures FoundPerCell(adjacent, Window(x, y), x, y)
      ensures Exact() ==> forall p :: multiset(adjacent)[p] <= 1
      ensures Exact() ==> stats.compareCount - old(stats).compareCount <= |players|
      ensures Exact() && old(StatsOk()) ==> StatsOk()
      ensures stats.queryCount == old(stats).queryCount + 1
      ensures stats.naiveCompareCount == old(stats).naiveCompareCount + |players|
      ensures stats.cellVisitCount == old(stats).cellVisitCount + WINDOW_SIDE * WINDOW_SIDE
    {
      adjacent := Query(x, y);
      FoundIsFullScan(adjacent, x, y);
      if Valid() { ScanByDistance(adjacent, x, y); }
      if Exact() && old(StatsOk()) { StatsStayGood(old(stats), stats, |players|); }
    }

    lemma ScanByDistance(found: seq<Player>, x: real, y: real)
      requires (set p | p in found) == FullScan(x, y)
      ensures forall id :: id in players ==> (players[id] in found <==> players[id].Within2000(x, y))
    {
      var scan := set p | p in found;
      forall id | id in players ensures players[id] in found <==> players[id].Within2000(x, y) {
        assert players[id] in found <==> players[id] in scan;
        players[id].NearIsWithin(x, y);
      }
    }
  }

  /** A player enters and leaves. */
  method EnterAndLeave() returns (room: GameRoom, gone: Player)
    ensures fresh(room) && fresh(gone) && room.Valid() && room.players == map[]
    ensures gone.id == 7 && gone.x == gone.y == 0.0
    ensures forall k: int64 :: 7 !in Bucket(room.sectors, k)
  {
    room := new GameRoom();
    gone := new Player(7, 0.0, 0.0);
    OriginCells();
    room.Enter(gone);
    room.Leave(gone);
  }

  lemma OriginCells()
    ensures InWorld(0.0) && InWorld(1500.0) && InWorld(5500.0)
    ensures SectorIndex(0.0, 0.0) == MakeSectorKey(0, 0)
    ensures SectorIndex(1500.0, 0.0) == MakeSectorKey(1, 0)
    ensures SectorIndex(5500.0, 0.0) == MakeSectorKey(5, 0)
  {
  }

  /** A move of it comes late: its id is left behind in the next cell. */
  method LateMove() returns (room: GameRoom)
    ensures fresh(room) && room.Valid() && room.players == map[]
    ensures 7 in Bucket(room.sectors, MakeSectorKey(1, 0))
    ensures forall k: int64 :: 7 in Bucket(room.sectors, k) ==> k == MakeSectorKey(1, 0)
  {
    var gone;
    room, gone := EnterAndLeave();
    OriginCells();
    room.HandleMove(gone, 1500.0, 0.0);
  }

  /** Why the grid has to be exact for that: when the id enters again, a query lists the new player
  twice. */
  method LateMoveListsTwice() returns (room: GameRoom, player: Player, adjacent: seq<Player>)
    ensures room.Valid() && multiset(adjacent)[player] == 2
  {
    room, player := LateMoveAgain();
    OriginCells();
    adjacent := room.GetAdjacentSectorPlayers(0.0, 0.0);
    FoundAsFiled(room, player, adjacent);
  }

  method LateMoveAgain() returns (room: GameRoom, player: Player)
    ensures fresh(room) && room.Valid() && room.players == map[7 := player]
    ensures player.id == 7 && player.x == player.y == 0.0
    ensures |Filed(room.sectors, Window(0.0, 0.0), 7)| == 2
  {
    room := LateMove();
    player := new Player(7, 0.0, 0.0);
    OriginCells();
    room.Enter(player);
    TwoCells(room.sectors);
  }

  /** The only player of the table stands at the origin and is found as often as it is filed. */
  lemma FoundAsFiled(room: GameRoom, player: Player, found: seq<Player>)
    requires room.TableOk() && room.players == map[7 := player] && player.x == player.y == 0.0
    requires InWorld(0.0) && room.FoundPerCell(found, Window(0.0, 0.0), 0.0, 0.0)
    ensures multiset(found)[player] == |Filed(room.sectors, Window(0.0, 0.0), 7)|
    ensures multiset(found)[player] == |found|
  {
    assert room.players[7] == player && Near(0.0, 0.0, 0.0, 0.0);
    forall p <- found ensures p == player {
      assert p in room.players.Values;
    }
    AllOccurrences(found, player);
  }

  lemma {:induction false} AllOccurrences(found: seq<Player>, player: Player)
    requires forall p <- found :: p == player
    ensures multiset(found)[player] == |found|
  {
    if found != [] {
      var n := |found| - 1;
      assert found[n] in found;
      forall p <- found[..n] ensures p == player {
        assert p in found;
      }
      AllOccurrences(found[..n], player);
      assert found == found[..n] + [player];
    }
  }

  /** Two objects enter under one id. */
  method EnterTwice() returns (room: GameRoom, first: Player, second: Player)
    ensures fresh(room) && fresh(first) && fresh(second) && room.TableOk() && room.players == map[7 := second]
    ensures first != second && first.id == second.id == 7
    ensures first.x == first.y == second.x == second.y == 0.0
    ensures forall k: int64 :: 7 in Bucket(room.sectors, k) <==> k == MakeSectorKey(0, 0)
  {
    room := new GameRoom();
    first := new Player(7, 0.0, 0.0);
    second := new Player(7, 0.0, 0.0);
    OriginCells();
    EnterAtOrigin(room, first);
    EnterAtOrigin(room, second);
  }

  method EnterAtOrigin(room: GameRoom, player: Player)
    requires room.TableOk() && player.id == 7 && player.x == player.y == 0.0 && room.players.Keys <= {7}
    requires forall k: int64 :: 7 in Bucket(room.sectors, k) ==> k == MakeSectorKey(0, 0)
    modifies room`players, room`sectors
    ensures room.TableOk() && room.players == map[7 := player]
    ensures forall k: int64 :: 7 in Bucket(room.sectors, k) <==> k == MakeSectorKey(0, 0)
  {
    OriginCells();
    ghost var sectors := room.sectors;
    room.Enter(player);
    AddedAgain(sectors, room.sectors);
  }

  lemma AddedAgain(sectors: Sectors, sectors': Sectors)
    requires forall k: int64 :: 7 in Bucket(sectors, k) ==> k == MakeSectorKey(0, 0)
    requires Added(sectors, sectors', 7, MakeSectorKey(0, 0))
    ensures forall k: int64 :: 7 in Bucket(sectors', k) <==> k == MakeSectorKey(0, 0)
  {
  }

  method EnterOne() returns (room: GameRoom, first: Player)
    ensures fresh(room) && fresh(first) && room.TableOk() && room.players == map[7 := first]
    ensures first.id == 7 && first.x == first.y == 0.0
    ensures forall k: int64 :: 7 in Bucket(room.sectors, k) <==> k == MakeSectorKey(0, 0)
  {
    room := new GameRoom();
    first := new Player(7, 0.0, 0.0);
    OriginCells();
    room.Enter(first);
  }

  lemma MovedFar(sectors: Sectors, sectors': Sectors)
    requires forall k: int64 :: 7 in Bucket(sectors, k) <==> k == MakeSectorKey(0, 0)
    requires Moved(sectors, sectors', 7, MakeSectorKey(0, 0), MakeSectorKey(5, 0))
    ensures forall k: int64 :: 7 in Bucket(sectors', k) ==> k == MakeSectorKey(5, 0)
  {
    KeyInjective(0, 0, 5, 0);
  }

  /** The first one moves on: it takes the id out of the cell in which the second one is. */
  method ReplacedMove() returns (room: GameRoom, player: Player)
    ensures fresh(room) && room.TableOk() && room.players == map[7 := player]
    ensures player.x == player.y == 0.0
    ensures forall k: int64 :: 7 in Bucket(room.sectors, k) ==> k == MakeSectorKey(5, 0)
  {
    var first;
    room, first, player := EnterTwice();
    OriginCells();
    ghost var sectors := room.sectors;
    room.HandleMove(first, 5500.0, 0.0);
    MovedFar(sectors, room.sectors);
  }

  /** Why the table's object has to be covered: a query where it stands does not find it. */
  method ReplacedIsMissed() returns (room: GameRoom, player: Player, adjacent: seq<Player>)
    ensures room.FullScan(0.0, 0.0) == {player} && adjacent == []
  {
    room, player := ReplacedMove();
    OriginCells();
    FarCell(room.sectors);
    adjacent := room.GetAdjacentSectorPlayers(0.0, 0.0);
    FoundAsFiled(room, player, adjacent);
    OnlyInScan(room, player);
  }

  lemma OnlyInScan(room: GameRoom, player: Player)
    requires room.players == map[7 := player] && player.x == player.y == 0.0
    ensures room.FullScan(0.0, 0.0) == {player}
  {
    assert Near(0.0, 0.0, 0.0, 0.0) && room.players[7] == player;
    assert forall p :: p in room.players.Values <==> p == player;
  }

  lemma FarCell(sectors: Sectors)
    requires forall k: int64 :: 7 in Bucket(sectors, k) ==> k == MakeSectorKey(5, 0)
    ensures Filed(sectors, Window(0.0, 0.0), 7) == {}
  {
    forall a: int32, b: int32 | -2 <= a <= 2 && -2 <= b <= 2 ensures MakeSectorKey(a, b) != MakeSectorKey(5, 0) {
      KeyInjective(a, b, 5, 0);
    }
  }

  lemma TwoCells(sectors: Sectors)
    requires forall k: int64 :: 7 in Bucket(sectors, k) <==> k == MakeSectorKey(0, 0) || k == MakeSectorKey(1, 0)
    ensures |Filed(sectors, Window(0.0, 0.0), 7)| == 2
  {
    InWindow(0.0, 0.0, 0, 0);
    InWindow(0.0, 0.0, 1, 0);
    KeyInjective(0, 0, 1, 0);
    assert Filed(sectors, Window(0.0, 0.0), 7) == {MakeSectorKey(0, 0), MakeSectorKey(1, 0)};
  }
}
