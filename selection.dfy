/** The `select_deployment` handler (app.py): the distinct deployment names of an
    upload, offered as links to the report. */
module Selection {
  import opened Wrappers
  import opened Frame
  import opened Normalize
  import opened Report

  /** The column the handler adds when no deployment alias is present. */
  const DefaultColumn: string := "__Default_Deployment__"
  const AllData: string := "All Data"

  datatype Choice = Choice(clusterCol: string, deployments: seq<string>)

  predicate NoDuplicates(s: seq<string>) {
    forall i, j :: 0 <= i < j < |s| ==> s[i] != s[j]
  }

  /** `k` is where `v` first occurs among `cells`. */
  predicate FirstAt(cells: seq<Cell>, v: string, k: nat) {
    k < |cells| && cells[k] == Some(v) && Some(v) !in cells[..k]
  }

  /** `dropna().unique()`: the non-NaN values, each once, in order of first appearance. */
  function Distinct(cells: seq<Cell>): (r: seq<string>)
    ensures NoDuplicates(r)
    ensures forall v :: v in r <==> Some(v) in cells
    decreases |cells|
  {
    if cells == [] then []
    else
      var n := |cells| - 1;
      assert cells == cells[..n] + [cells[n]];
      var p := Distinct(cells[..n]);
      match cells[n]
      case None => p
      case Some(v) => if v in p then p else p + [v]
  }

  lemma FirstAtPrefix(cells: seq<Cell>, v: string, k: nat, n: nat)
    requires n <= |cells| && FirstAt(cells, v, k) && Some(v) in cells[..n]
    ensures k < n && FirstAt(cells[..n], v, k)
  {
    assert cells[..n][..k] == cells[..k];
  }

  /** Values are listed in the order in which they first occur. */
  lemma {:induction false} DistinctOrder(cells: seq<Cell>, i: nat, j: nat, ki: nat, kj: nat)
    requires i < j < |Distinct(cells)|
    requires FirstAt(cells, Distinct(cells)[i], ki) && FirstAt(cells, Distinct(cells)[j], kj)
    ensures ki < kj
    decreases |cells|
  {
    var n := |cells| - 1;
    var p := cells[..n];
    assert cells == p + [cells[n]];
    var d := Distinct(p);
    var r := Distinct(cells);
    var vi, vj := r[i], r[j];
    if j < |d| {
      assert r[..|d|] == d;
      assert vi == d[i] && vj == d[j];
      FirstAtPrefix(cells, vi, ki, n);
      FirstAtPrefix(cells, vj, kj, n);
      DistinctOrder(p, i, j, ki, kj);
    } else {
      assert r == d + [vj] && cells[n] == Some(vj) && vj !in d;
      assert vi == d[i];
      FirstAtPrefix(cells, vi, ki, n);
    }
  }

  /** The cells of one named column, NaN where the record has none. */
  function ColumnCells(cols: seq<string>, recs: seq<seq<Cell>>, name: string): (cells: seq<Cell>)
    ensures |cells| == |recs| && forall k :: 0 <= k < |recs| ==> cells[k] == CellOf(cols, recs[k], name)
  {
    seq(|recs|, k requires 0 <= k < |recs| => CellOf(cols, recs[k], name))
  }

  /** The first deployment alias among the trimmed headers supplies the names; without
      one, every record is labelled "All Data" under a column of the handler's own. */
  function SelectDeployment(t: Table): (c: Choice)
    ensures NoDuplicates(c.deployments)
    ensures DeploymentColumn(Columns(t)).Some? ==>
      c.clusterCol == DeploymentColumn(Columns(t)).value
      && forall v :: v in c.deployments <==> Some(v) in ColumnCells(Columns(t), t.records, c.clusterCol)
    ensures DeploymentColumn(Columns(t)).None? ==>
      c.clusterCol == DefaultColumn && c.deployments == if t.records == [] then [] else [AllData]
  {
    var cols := Columns(t);
    match DeploymentColumn(cols)
    case Some(col) => Choice(col, Distinct(ColumnCells(cols, t.records, col)))
    case None =>
      FallbackColumn(|t.records|);
      Choice(DefaultColumn, Distinct(seq(|t.records|, k => Some(AllData))))
  }

  /** `df['__Default_Deployment__'] = 'All Data'` yields one name, or none for an empty file. */
  lemma {:induction false} FallbackColumn(n: nat)
    ensures Distinct(seq(n, k => Some(AllData))) == if n == 0 then [] else [AllData]
  {
    if n > 0 {
      var cells := seq(n, k => Some(AllData));
      assert cells[..n - 1] == seq(n - 1, k => Some(AllData));
      FallbackColumn(n - 1);
    }
  }

  /** Following any offered link gives a report over at least one record: the offered
      name occurs in the column the report filters on, or, for the handler's own column,
      the report does not filter at all. */
  lemma OfferedDeploymentsHaveRecords(t: Table, v: string)
    requires v in SelectDeployment(t).deployments
    requires DefaultColumn !in Columns(t)
    ensures DeploymentRecords(Columns(t), t.records, SelectDeployment(t).clusterCol, v) != []
  {
    var cols := Columns(t);
    var col := SelectDeployment(t).clusterCol;
    match DeploymentColumn(cols)
    case None =>
      assert t.records != [];
    case Some(_) =>
      var cells := ColumnCells(cols, t.records, col);
      var k :| 0 <= k < |cells| && cells[k] == Some(v);
      assert Matches(cols, col, v)(t.records[k]);
      DeploymentFilter(cols, t.records, col, v);
      assert k in KeptIndices(t.records, Matches(cols, col, v));
  }
}
