/** world_init of src/world.c: the two passes that turn room names into room numbers, and the moves
    of src/server_reqs.c through the rooms they connect. */
module WorldInit {
  import opened Wrappers
  import WC = WorldCodec

  const ROOM_NONE: int := -1

  /** What the world module says of a room: its unique name and the names of its neighbours. */
  datatype RoomData = RoomData(uniqId: string, adjacent: seq<Option<string>>)

  datatype Outcome = Ready | Duplicate | Unknown

  predicate WellFormed(data: seq<RoomData>) {
    forall i :: 0 <= i < |data| ==> |data[i].adjacent| == WC.NUM_DIRECTIONS
  }

  ghost predicate NamesApart(data: seq<RoomData>) {
    forall i, j :: 0 <= i < j < |data| ==> data[i].uniqId != data[j].uniqId
  }

  ghost predicate IsNamed(data: seq<RoomData>, name: string, i: int) {
    0 <= i < |data| && data[i].uniqId == name
  }

  ghost predicate Resolvable(data: seq<RoomData>, name: string) {
    exists i :: IsNamed(data, name, i)
  }

  /** What the neighbour of room `i` in direction `d` has to be. */
  ghost predicate Right(data: seq<RoomData>, i: int, d: int, target: int)
    requires WellFormed(data) && 0 <= i < |data| && 0 <= d < WC.NUM_DIRECTIONS
  {
    match data[i].adjacent[d]
    case None => target == ROOM_NONE
    case Some(name) => IsNamed(data, name, target)
  }

  ghost predicate AllResolvable(data: seq<RoomData>)
    requires WellFormed(data)
  {
    forall i, d :: 0 <= i < |data| && 0 <= d < WC.NUM_DIRECTIONS ==>
      data[i].adjacent[d].Some? ==> Resolvable(data, data[i].adjacent[d].value)
  }

  /** The name map after the first `n` rooms. */
  ghost predicate Names(data: seq<RoomData>, n: int, names: map<string, int>) {
    && (forall i :: 0 <= i < n <= |data| ==> data[i].uniqId in names && names[data[i].uniqId] == i)
    && (forall k :: k in names ==> IsNamed(data, k, names[k]) && names[k] < n)
  }

  /** The first pass over one room; what it cannot resolve yet keeps its old value. */
  method FirstPass(adjacent: array2<int>, data: seq<RoomData>, i: nat, names: map<string, int>)
    requires WellFormed(data) && i < |data| && adjacent.Length0 == |data| && adjacent.Length1 == WC.NUM_DIRECTIONS
    modifies adjacent
    ensures forall j, d :: 0 <= j < |data| && 0 <= d < WC.NUM_DIRECTIONS ==>
              adjacent[j, d] == if j == i && data[i].adjacent[d].Some? && data[i].adjacent[d].value in names
                                then names[data[i].adjacent[d].value] else old(adjacent[j, d])
  {
    for dir := 0 to WC.NUM_DIRECTIONS
      invariant forall j, d :: 0 <= j < |data| && 0 <= d < WC.NUM_DIRECTIONS ==>
                  adjacent[j, d] == if j == i && d < dir && data[i].adjacent[d].Some? && data[i].adjacent[d].value in names
                                    then names[data[i].adjacent[d].value] else old(adjacent[j, d])
    {
      if data[i].adjacent[dir].Some? && data[i].adjacent[dir].value in names {
        adjacent[i, dir] := names[data[i].adjacent[dir].value];
      }
    }
  }

  /** The second pass over one room, with all names known. */
  method SecondPass(adjacent: array2<int>, data: seq<RoomData>, i: nat, names: map<string, int>) returns (ok: bool)
    requires WellFormed(data) && i < |data| && adjacent.Length0 == |data| && adjacent.Length1 == WC.NUM_DIRECTIONS
    requires Names(data, |data|, names)
    modifies adjacent
    ensures forall j, d :: 0 <= j < |data| && j != i && 0 <= d < WC.NUM_DIRECTIONS ==> adjacent[j, d] == old(adjacent[j, d])
    ensures ok ==> forall d :: 0 <= d < WC.NUM_DIRECTIONS ==> Right(data, i, d, adjacent[i, d])
    ensures ok <==> forall d :: 0 <= d < WC.NUM_DIRECTIONS && data[i].adjacent[d].Some? ==> Resolvable(data, data[i].adjacent[d].value)
  {
    for dir := 0 to WC.NUM_DIRECTIONS
      invariant forall j, d :: 0 <= j < |data| && j != i && 0 <= d < WC.NUM_DIRECTIONS ==> adjacent[j, d] == old(adjacent[j, d])
      invariant forall d :: 0 <= d < dir ==> Right(data, i, d, adjacent[i, d])
      invariant forall d :: 0 <= d < dir && data[i].adjacent[d].Some? ==> Resolvable(data, data[i].adjacent[d].value)
    {
      var neighbour := data[i].adjacent[dir];
      if neighbour.Some? {
        if neighbour.value !in names {
          return false;
        }
        adjacent[i, dir] := names[neighbour.value];
      } else {
        adjacent[i, dir] := ROOM_NONE;
      }
    }
    ok := true;
  }

  /** world_init: whatever the order of the rooms, every neighbour is the room of that name. */
  method Init(data: seq<RoomData>) returns (r: Outcome, adjacent: array2<int>)
    requires WellFormed(data)
    ensures fresh(adjacent) && adjacent.Length0 == |data| && adjacent.Length1 == WC.NUM_DIRECTIONS
    ensures r == Duplicate <==> exists i, j :: 0 <= i < j < |data| && data[i].uniqId == data[j].uniqId
    ensures r == Unknown <==>
              && (forall i, j :: 0 <= i < j < |data| ==> data[i].uniqId != data[j].uniqId)
              && exists i, d :: 0 <= i < |data| && 0 <= d < WC.NUM_DIRECTIONS && data[i].adjacent[d].Some?
                                && forall j :: 0 <= j < |data| ==> data[j].uniqId != data[i].adjacent[d].value
    ensures r == Ready ==> forall i, d :: 0 <= i < |data| && 0 <= d < WC.NUM_DIRECTIONS ==>
              match data[i].adjacent[d]
              case None => adjacent[i, d] == ROOM_NONE
              case Some(name) => 0 <= adjacent[i, d] < |data| && data[adjacent[i, d]].uniqId == name
  {
    adjacent := new int[|data|, WC.NUM_DIRECTIONS]((i, d) => 0);
    var names: map<string, int> := map[];
    for i := 0 to |data|
      invariant fresh(adjacent) && Names(data, i, names)
      invariant forall j, k :: 0 <= j < k < i ==> data[j].uniqId != data[k].uniqId
    {
      if data[i].uniqId in names {
        return Duplicate, adjacent;
      }
      names := names[data[i].uniqId := i];
      FirstPass(adjacent, data, i, names);
    }
    for i := 0 to |data|
      invariant forall j, d :: 0 <= j < i && 0 <= d < WC.NUM_DIRECTIONS ==> Right(data, j, d, adjacent[j, d])
      invariant forall j, d :: 0 <= j < i && 0 <= d < WC.NUM_DIRECTIONS && data[j].adjacent[d].Some? ==> Resolvable(data, data[j].adjacent[d].value)
    {
      var ok := SecondPass(adjacent, data, i, names);
      if !ok {
        return Unknown, adjacent;
      }
    }
    r := Ready;
  }

  // moving

  type Adjacency = seq<seq<int>>

  /** The result of world_init as a value. */
  ghost predicate Built(data: seq<RoomData>, a: Adjacency) {
    && WellFormed(data) && |a| == |data|
    && (forall i :: 0 <= i < |a| ==> |a[i]| == WC.NUM_DIRECTIONS)
    && (forall i, d :: 0 <= i < |a| && 0 <= d < WC.NUM_DIRECTIONS ==> Right(data, i, d, a[i][d]))
  }

  /** A move as requested, and what the hooks of the two rooms say to it. */
  datatype Move = Move(dir: int, mayEnter: bool, mayLeave: bool)

  function Go(a: Adjacency, room: int, m: Move): int
    requires 0 <= room < |a| && 0 <= m.dir < |a[room]|
  {
    var next := a[room][m.dir];
    if next == ROOM_NONE then room
    else if m.mayEnter && m.mayLeave then next
    else room
  }

  ghost predicate InRange(ms: seq<Move>) {
    forall i :: 0 <= i < |ms| ==> 0 <= ms[i].dir < WC.NUM_DIRECTIONS
  }

  /** Where a run of moves leads; ROOM_NONE if it ever leaves the world. */
  function Walk(a: Adjacency, room: int, ms: seq<Move>): int {
    if ms == [] then room
    else
      var r := Walk(a, room, ms[..|ms| - 1]);
      if 0 <= r < |a| && 0 <= ms[|ms| - 1].dir < |a[r]| then Go(a, r, ms[|ms| - 1]) else ROOM_NONE
  }

  /** Every run of moves from a room stays in the world.  Each step leads to the room that the
      current one names in that direction if it names one and both hooks agree, and nowhere else:
      without an exit, or if a hook refuses, it leads to where it started. */
  lemma {:induction false} WalkStaysInside(data: seq<RoomData>, a: Adjacency, room: int, ms: seq<Move>)
    requires Built(data, a) && 0 <= room < |data| && InRange(ms)
    ensures 0 <= Walk(a, room, ms) < |data| && Walk(a, room, []) == room
    ensures ms != [] ==>
              var before, m, after := Walk(a, room, ms[..|ms| - 1]), ms[|ms| - 1], Walk(a, room, ms);
              && 0 <= before < |data|
              && (data[before].adjacent[m.dir].Some? && m.mayEnter && m.mayLeave ==>
                    data[after].uniqId == data[before].adjacent[m.dir].value)
              && (data[before].adjacent[m.dir].None? || !m.mayEnter || !m.mayLeave ==> after == before)
  {
    if ms != [] {
      var front, m := ms[..|ms| - 1], ms[|ms| - 1];
      WalkStaysInside(data, a, room, front);
      var before := Walk(a, room, front);
      assert Right(data, before, m.dir, a[before][m.dir]);
    }
  }
}
