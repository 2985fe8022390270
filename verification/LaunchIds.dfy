/** The order in which a launch visits its work-group ids. */
module LaunchIds {
  import opened Arithmetic

  datatype Id = Id(x: nat, y: nat, z: nat)

  /** The number of groups per dimension. */
  datatype Grid = Grid(x: nat, y: nat, z: nat) {
    function Total(): nat { x * y * z }
    predicate Holds(id: Id) { id.x < x && id.y < y && id.z < z }
    predicate Proper() { x > 0 && y > 0 && z > 0 }
  }

  /** update_id: the next id, and whether there is one. */
  function UpdateId(g: Grid, id: Id): (Id, bool) {
    if id.z + 1 < g.z then (Id(id.x, id.y, id.z + 1), true)
    else if id.y + 1 < g.y then (Id(id.x, id.y + 1, 0), true)
    else (Id(id.x + 1, 0, 0), id.x + 1 < g.x)
  }

  /** How many ids come before `id`. */
  function Rank(g: Grid, id: Id): nat {
    (id.x * g.y + id.y) * g.z + id.z
  }

  lemma {:induction false} RankBound(g: Grid, id: Id)
    requires g.Holds(id)
    ensures Rank(g, id) < g.Total()
  {
    MulLess(id.x, g.x, g.y, id.y);
    MulLess(id.x * g.y + id.y, g.x * g.y, g.z, id.z);
  }

  /** Two different ids of the grid have different ranks. */
  lemma {:induction false} RankInjective(g: Grid, a: Id, b: Id)
    requires g.Holds(a) && g.Holds(b) && Rank(g, a) == Rank(g, b)
    ensures a == b
  {
    var p, q := a.x * g.y + a.y, b.x * g.y + b.y;
    assert p * g.z + a.z == q * g.z + b.z;
    UniqueSplit(p, q, g.z, a.z, b.z);
    UniqueSplit(a.x, b.x, g.y, a.y, b.y);
  }

  /** Each update moves to the id of the next rank, and the last one ends the launch. */
  lemma {:induction false} UpdateIsSuccessor(g: Grid, id: Id)
    requires g.Holds(id)
    ensures var (next, more) := UpdateId(g, id);
            && (more <==> Rank(g, id) + 1 < g.Total())
            && (more ==> g.Holds(next) && Rank(g, next) == Rank(g, id) + 1)
            && (!more ==> Rank(g, id) + 1 == g.Total())
  {
    var (next, more) := UpdateId(g, id);
    if id.z + 1 < g.z {
      RankBound(g, next);
    } else if id.y + 1 < g.y {
      assert Rank(g, next) == (id.x * g.y + id.y) * g.z + g.z;
      RankBound(g, next);
    } else {
      assert Rank(g, id) + 1 == (id.x * g.y + id.y) * g.z + g.z == (id.x * g.y + id.y + 1) * g.z;
      assert id.x * g.y + id.y + 1 == (id.x + 1) * g.y;
      if more {
        assert Rank(g, next) == (id.x + 1) * g.y * g.z;
        RankBound(g, next);
      }
    }
  }

  /** The ids visited so far are those of ranks 0, 1, 2, ... */
  ghost predicate InRankOrder(g: Grid, ids: seq<Id>) {
    forall i | 0 <= i < |ids| :: g.Holds(ids[i]) && Rank(g, ids[i]) == i
  }

  /** A full visit in rank order meets every id of the grid exactly once. */
  lemma {:induction false} EveryIdOnce(g: Grid, ids: seq<Id>, id: Id)
    requires InRankOrder(g, ids) && |ids| == g.Total() && g.Holds(id)
    ensures Rank(g, id) < |ids| && forall i | 0 <= i < |ids| :: ids[i] == id <==> i == Rank(g, id)
  {
    RankBound(g, id);
    RankInjective(g, ids[Rank(g, id)], id);
  }

  /** The launch loop's ids. */
  method Visit(g: Grid) returns (ids: seq<Id>)
    requires g.Proper()
    ensures InRankOrder(g, ids) && |ids| == g.Total()
  {
    var x, y, z := 0, 0, 0;
    ids := [];
    var more := true;
    assert Rank(g, Id(0, 0, 0)) == 0;
    RankBound(g, Id(0, 0, 0));
    while more
      invariant InRankOrder(g, ids)
      invariant more ==> g.Holds(Id(x, y, z)) && Rank(g, Id(x, y, z)) == |ids|
      invariant !more ==> |ids| == g.Total()
      decreases more, g.Total() - |ids|
    {
      ids := ids + [Id(x, y, z)];
      RankBound(g, Id(x, y, z));
      UpdateIsSuccessor(g, Id(x, y, z));
      z := z + 1;
      if z >= g.z {
        z, y := 0, y + 1;
        if y >= g.y {
          y, x := 0, x + 1;
          more := x < g.x;
        }
      }
    }
  }
}
