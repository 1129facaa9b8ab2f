/** The chart store of class AtlasBase (atlas.hpp): a dense sequence of
    charts, a forward adjacency map, and two non-owning pointers to the GP
    model and regressor. */
module Atlas {
  import opened Outcomes
  import opened Charts

  /** The object behind a shared pointer; only whether it is null matters. */
  datatype Handle = Handle(key: nat)

  datatype AtlasBase = AtlasBase(
    gpModel: Option<Handle>,
    gpReg: Option<Handle>,
    nodes: seq<Chart>,
    branches: map<nat, seq<nat>>)

  const OutOfRangeNodeId := "Out of Range node id"

  /** The storage discipline derived atlases keep: chart ids equal their
      position, and every id named by the adjacency map is a stored chart. */
  predicate DenseIds(a: AtlasBase)
  {
    forall i :: 0 <= i < |a.nodes| ==> a.nodes[i].id == i
  }

  predicate NoDanglingEdges(a: AtlasBase)
  {
    forall k :: k in a.branches ==>
      k < |a.nodes| && forall j :: 0 <= j < |a.branches[k]| ==> a.branches[k][j] < |a.nodes|
  }

  predicate WellFormed(a: AtlasBase)
  {
    DenseIds(a) && NoDanglingEdges(a)
  }

  /** The constructor: both pointers as given, no charts, no edges. */
  function NewAtlas(gp: Option<Handle>, reg: Option<Handle>): (a: AtlasBase)
    ensures a.gpModel == gp && a.gpReg == reg
    ensures CountNodes(a) == 0
    ensures WellFormed(a)
  {
    AtlasBase(gp, reg, [], map[])
  }

  /** countNodes(): the number of stored charts. */
  function CountNodes(a: AtlasBase): (count: nat)
    ensures count == |a.nodes|
    ensures count == 0 <==> a.nodes == []
  {
    |a.nodes|
  }

  /** A copy of the chart stored under `id`; an id past the end throws. */
  function GetNode(a: AtlasBase, id: nat): (r: Result<Chart>)
    ensures r.Ok? <==> id < CountNodes(a)
    ensures r.Ok? ==> r.value == a.nodes[id]
    ensures r.Err? ==> r.error == RegressionError(OutOfRangeNodeId)
  {
    if id < |a.nodes| then Ok(a.nodes[id]) else Err(RegressionError(OutOfRangeNodeId))
  }

  /** The ids `id` is connected to: an id past the end throws, a stored
      chart without an entry has no connections. */
  function GetConnections(a: AtlasBase, id: nat): (r: Result<seq<nat>>)
    ensures r.Ok? <==> id < CountNodes(a)
    ensures r.Ok? && id in a.branches ==> r.value == a.branches[id]
    ensures r.Ok? && id !in a.branches ==> r.value == []
    ensures r.Err? ==> r.error == RegressionError(OutOfRangeNodeId)
  {
    if id < |a.nodes| then
      if id in a.branches then Ok(a.branches[id]) else Ok([])
    else
      Err(RegressionError(OutOfRangeNodeId))
  }

  /** Drops every chart and both pointers, but keeps the adjacency map. */
  function Clear(a: AtlasBase): (r: AtlasBase)
    ensures CountNodes(r) == 0
    ensures r.gpModel.None? && r.gpReg.None?
    ensures r.branches == a.branches
  {
    a.(nodes := [], gpModel := None, gpReg := None)
  }

  function SetGPModel(a: AtlasBase, gpm: Option<Handle>): (r: AtlasBase)
    ensures r.gpModel == gpm
    ensures r.(gpModel := a.gpModel) == a
  {
    a.(gpModel := gpm)
  }

  function SetGPRegressor(a: AtlasBase, gpr: Option<Handle>): (r: AtlasBase)
    ensures r.gpReg == gpr
    ensures r.(gpReg := a.gpReg) == a
  {
    a.(gpReg := gpr)
  }

  /** isSolution(Chart) defers to the policy's isSolution(id), so two charts
      with the same id get the same answer whatever else differs. */
  function IsSolution(a: AtlasBase, ch: Chart, byId: (AtlasBase, nat) -> bool): (b: bool)
    ensures b == byId(a, ch.id)
  {
    byId(a, ch.id)
  }

  lemma IsSolutionOnlyById(a: AtlasBase, c1: Chart, c2: Chart, byId: (AtlasBase, nat) -> bool)
    requires c1.id == c2.id
    ensures IsSolution(a, c1, byId) == IsSolution(a, c2, byId)
    ensures IsSolution(a, c1, byId) == byId(a, c1.id)
  {
  }

  /** The storage step every derived createNode performs: the chart is
      appended and its id is the previous node count. */
  function AppendNode(a: AtlasBase, ch: Chart): (r: AtlasBase)
    ensures CountNodes(r) == CountNodes(a) + 1
    ensures GetNode(r, CountNodes(a)) == Ok(ch)
    ensures forall id: nat :: id < CountNodes(a) ==> GetNode(r, id) == GetNode(a, id)
    ensures r.branches == a.branches && r.gpModel == a.gpModel && r.gpReg == a.gpReg
  {
    a.(nodes := a.nodes + [ch])
  }

  /** Appending a chart whose id is the current count keeps the atlas well
      formed, and a freshly appended chart has no connections when no stale
      edge names its id. */
  lemma AppendKeepsWellFormed(a: AtlasBase, ch: Chart)
    requires WellFormed(a)
    requires ch.id == CountNodes(a)
    ensures WellFormed(AppendNode(a, ch))
    ensures GetConnections(AppendNode(a, ch), ch.id) == Ok([])
  {
    var r := AppendNode(a, ch);
    assert ch.id !in a.branches;
    forall k | k in r.branches
      ensures k < |r.nodes| && forall j :: 0 <= j < |r.branches[k]| ==> r.branches[k][j] < |r.nodes|
    {
      assert k in a.branches;
    }
  }

  /** In a well-formed atlas the chart returned for `id` carries `id`, and
      every connection of a stored chart can itself be looked up. */
  lemma LookupsAgree(a: AtlasBase, id: nat)
    requires WellFormed(a)
    requires id < CountNodes(a)
    ensures GetNode(a, id).value.id == id
    ensures forall j :: 0 <= j < |GetConnections(a, id).value| ==>
              GetNode(a, GetConnections(a, id).value[j]).Ok?
  {
  }

  /** clear() keeps the adjacency map, so any recorded edge becomes a
      dangling edge of the emptied atlas. */
  lemma ClearLeavesStaleEdges(a: AtlasBase, k: nat)
    requires k in a.branches
    ensures !NoDanglingEdges(Clear(a))
    ensures forall id: nat :: GetConnections(Clear(a), id).Err?
  {
  }

  /** Once charts are stored again after clear(), the old edges of an id
      come back as its connections. */
  lemma {:induction false} StaleEdgesResurface(a: AtlasBase, again: seq<Chart>, k: nat)
    requires k in a.branches
    requires k < |again|
    ensures GetConnections(AppendAll(Clear(a), again), k) == Ok(a.branches[k])
  {
    AppendAllKeepsBranches(Clear(a), again);
  }

  function AppendAll(a: AtlasBase, chs: seq<Chart>): (r: AtlasBase)
    decreases |chs|
  {
    if chs == [] then a else AppendAll(AppendNode(a, chs[0]), chs[1..])
  }

  lemma {:induction false} AppendAllKeepsBranches(a: AtlasBase, chs: seq<Chart>)
    ensures AppendAll(a, chs).branches == a.branches
    ensures CountNodes(AppendAll(a, chs)) == CountNodes(a) + |chs|
    decreases |chs|
  {
    if chs != [] {
      AppendAllKeepsBranches(AppendNode(a, chs[0]), chs[1..]);
    }
  }
}
