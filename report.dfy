/** The `report` handler (app.py): keep the records of one deployment, normalise them
    with the shared per-record derivation (no alias resolution), and total the costs. */
module Report {
  import opened Wrappers
  import opened Frame
  import opened Normalize

  /** The sums of the three cost columns over the report's rows. */
  datatype Totals = Totals(hour: real, day: real, year: real)

  /** The report's column names, its rows and its totals. */
  datatype ReportView = ReportView(columns: seq<string>, rows: seq<CostLine>, totals: Totals)

  /** The report's preferred order: that of `_get_full_parsed_df` without 'Deployment name'. */
  const ReportOrder: seq<string> := [
    "Tier", "Provider", "Edition", "SKU Code", "Region",
    "Size in GB", "Number of Nodes", "Cost per Hour", "Cost per Day", "Cost per Year"]

  /** The mask `df[cluster_col] == deployment`; a NaN cell never matches. */
  function Matches(cols: seq<string>, col: string, deployment: string): seq<Cell> -> bool {
    rec => CellOf(cols, rec, col) == Some(deployment)
  }

  const Same: seq<Cell> -> seq<Cell> := rec => rec

  /** `df = df[df[cluster_col] == deployment]` when the column exists; otherwise the
      records are left as they are. */
  function DeploymentRecords(cols: seq<string>, recs: seq<seq<Cell>>, col: string, deployment: string): (r: seq<seq<Cell>>)
    ensures |r| <= |recs|
    ensures col !in cols ==> r == recs
    ensures col in cols ==> forall j :: 0 <= j < |r| ==> r[j] in recs && CellOf(cols, r[j], col) == Some(deployment)
  {
    if col in cols then
      var keep := Matches(cols, col, deployment);
      SurvivorsAreSelection(recs, keep, Same);
      Survivors(recs, keep, Same)
    else recs
  }

  /** With the column present, exactly the records whose cell equals the requested
      deployment remain, in order; without it the filter changes nothing. */
  lemma DeploymentFilter(cols: seq<string>, recs: seq<seq<Cell>>, col: string, deployment: string)
    ensures col !in cols ==> DeploymentRecords(cols, recs, col, deployment) == recs
    ensures col in cols ==>
      var idx := KeptIndices(recs, Matches(cols, col, deployment));
      var out := DeploymentRecords(cols, recs, col, deployment);
      |out| == |idx|
      && (forall j :: 0 <= j < |idx| ==> out[j] == recs[idx[j]] && CellOf(cols, out[j], col) == Some(deployment))
      && (forall k :: 0 <= k < |recs| ==> (k in idx <==> CellOf(cols, recs[k], col) == Some(deployment)))
  {
    SurvivorsAreSelection(recs, Matches(cols, col, deployment), Same);
  }

  function LinesOf(cols: seq<string>, width: nat): seq<Cell> -> CostLine {
    rec => LineOf(cols, width, rec)
  }

  datatype Period = Hour | Day | Year

  function Cost(l: CostLine, p: Period): real {
    match p
    case Hour => l.costHour
    case Day => l.costDay
    case Year => l.costYear
  }

  /** `df[column].sum()`: 0 for no rows. */
  function Total(lines: seq<CostLine>, p: Period): (r: real)
    ensures lines == [] ==> r == 0.0
    ensures (forall j :: 0 <= j < |lines| ==> Cost(lines[j], p) >= 0.0) ==> r >= 0.0
    decreases |lines|
  {
    if lines == [] then 0.0
    else
      var n := |lines| - 1;
      assert forall j :: 0 <= j < n ==> lines[..n][j] == lines[j];
      Total(lines[..n], p) + Cost(lines[n], p)
  }

  /** Rows whose day cost is 24 hour costs and whose year cost is 365 day costs. */
  ghost predicate Consistent(lines: seq<CostLine>) {
    forall j :: 0 <= j < |lines| ==>
      lines[j].costDay == 24.0 * lines[j].costHour && lines[j].costYear == 365.0 * lines[j].costDay
  }

  /** Summing keeps the per-row ratios: the day total is 24 hour totals, the year
      total 365 day totals. */
  lemma {:induction false} TotalsScale(lines: seq<CostLine>)
    requires Consistent(lines)
    ensures Total(lines, Day) == 24.0 * Total(lines, Hour)
    ensures Total(lines, Year) == 365.0 * Total(lines, Day)
    decreases |lines|
  {
    if lines != [] {
      var n := |lines| - 1;
      assert forall j :: 0 <= j < n ==> lines[..n][j] == lines[j];
      TotalsScale(lines[..n]);
    }
  }

  /** The `report` handler on an already parsed table. */
  function ReportFor(t: Table, clusterCol: string, deployment: string): (r: Result<ReportView, Error>)
    ensures "Usage type" !in Columns(t) ==> r == Err(MissingColumn("Usage type"))
    ensures "Usage type" in Columns(t) && "Unit price" !in Columns(t) ==> r == Err(MissingColumn("Unit price"))
    ensures "Usage type" in Columns(t) && "Unit price" in Columns(t) && "Total" !in Columns(t) ==>
      r == Err(MissingColumn("Total"))
    ensures "Usage type" in Columns(t) && "Unit price" in Columns(t) && "Total" in Columns(t) ==> r.Ok?
  {
    var cols := Columns(t);
    var recs := DeploymentRecords(cols, t.records, clusterCol, deployment);
    var width := if "SKU Name" in cols then SkuWidth(cols, recs) else 0;
    if "Usage type" !in cols then Err(MissingColumn("Usage type"))
    else if "Unit price" !in cols then Err(MissingColumn("Unit price"))
    else if "Total" !in cols then Err(MissingColumn("Total"))
    else
      var lines := Survivors(recs, Keeper(cols), LinesOf(cols, width));
      var present := WorkingColumns(cols) + {"Total Cost (Period)"};
      Ok(ReportView(Project(ReportOrder, present), lines,
                    Totals(Total(lines, Hour), Total(lines, Day), Total(lines, Year))))
  }

  /** The report has exactly the report columns, in order, and never 'Deployment name'. */
  lemma ReportColumns(t: Table, clusterCol: string, deployment: string)
    requires ReportFor(t, clusterCol, deployment).Ok?
    ensures ReportFor(t, clusterCol, deployment).value.columns == ReportOrder
    ensures "Deployment name" !in ReportFor(t, clusterCol, deployment).value.columns
  {
    var cols := Columns(t);
    var recs := DeploymentRecords(cols, t.records, clusterCol, deployment);
    var width := if "SKU Name" in cols then SkuWidth(cols, recs) else 0;
    var lines := Survivors(recs, Keeper(cols), LinesOf(cols, width));
    ReportProjection(cols);
    assert ReportFor(t, clusterCol, deployment).value.columns == ReportOrder;
    ReportOrderLacksDeployment();
  }

  lemma ReportOrderLacksDeployment()
    ensures "Deployment name" !in ReportOrder
  {
    var d := "Deployment name";
    forall j | 0 <= j < |ReportOrder|
      ensures ReportOrder[j] != d
    {
      assert ReportOrder[j][0] != d[0];
    }
  }

  lemma ReportProjection(cols: seq<string>)
    ensures Project(ReportOrder, WorkingColumns(cols) + {"Total Cost (Period)"}) == ReportOrder
  {
    var present := WorkingColumns(cols) + {"Total Cost (Period)"};
    assert forall c :: c in ReportOrder ==> c in present;
  }

  /** Every derived cost line keeps the day and year ratios. */
  lemma {:induction false} LinesConsistent(recs: seq<seq<Cell>>, keep: seq<Cell> -> bool, cols: seq<string>, width: nat)
    ensures Consistent(Survivors(recs, keep, LinesOf(cols, width)))
    decreases |recs|
  {
    if recs != [] {
      LinesConsistent(recs[..|recs| - 1], keep, cols, width);
    }
  }

  /** The report's totals are sums over its rows, so day = 24 x hour and
      year = 365 x day exactly. */
  lemma ReportTotals(t: Table, clusterCol: string, deployment: string)
    requires ReportFor(t, clusterCol, deployment).Ok?
    ensures var v := ReportFor(t, clusterCol, deployment).value;
            v.totals.hour == Total(v.rows, Hour)
            && v.totals.day == 24.0 * v.totals.hour && v.totals.year == 365.0 * v.totals.day
  {
    var cols := Columns(t);
    var recs := DeploymentRecords(cols, t.records, clusterCol, deployment);
    var width := if "SKU Name" in cols then SkuWidth(cols, recs) else 0;
    LinesConsistent(recs, Keeper(cols), cols, width);
    TotalsScale(Survivors(recs, Keeper(cols), LinesOf(cols, width)));
  }

  /** Without the requested column the report rows are the dashboard rows without their
      deployment: both handlers derive each record the same way. */
  lemma ReportMatchesFullParse(t: Table, clusterCol: string, deployment: string)
    requires clusterCol !in Columns(t)
    requires ReportFor(t, clusterCol, deployment).Ok?
    ensures ParseBilling(t).Ok?
    ensures var rows := ParseBilling(t).value.rows;
            var lines := ReportFor(t, clusterCol, deployment).value.rows;
            |lines| == |rows| && forall j :: 0 <= j < |rows| ==> lines[j] == rows[j].line
  {
    var cols := Columns(t);
    var width := if "SKU Name" in cols then SkuWidth(cols, t.records) else 0;
    assert DeploymentRecords(cols, t.records, clusterCol, deployment) == t.records;
    SurvivorsCompose(t.records, Keeper(cols), FullRow(cols, DeploymentColumn(cols), width),
                     LinesOf(cols, width), (b: BillingRow) => b.line);
  }

  /** `df = df[df[cluster_col] == deployment]`, record by record. */
  method FilterDeployment(cols: seq<string>, recs: seq<seq<Cell>>, col: string, deployment: string)
    returns (out: seq<seq<Cell>>)
    ensures out == Survivors(recs, Matches(cols, col, deployment), Same)
  {
    out := [];
    var i := 0;
    while i < |recs|
      invariant 0 <= i <= |recs|
      invariant out == Survivors(recs[..i], Matches(cols, col, deployment), Same)
    {
      SurvivorsSnoc(recs, i, Matches(cols, col, deployment), Same);
      if CellOf(cols, recs[i], col) == Some(deployment) {
        out := out + [recs[i]];
      }
      i := i + 1;
    }
    assert recs[..i] == recs;
  }

  /** The usage filter and the derived columns, record by record. */
  method DeriveLines(cols: seq<string>, width: nat, recs: seq<seq<Cell>>) returns (lines: seq<CostLine>)
    ensures lines == Survivors(recs, Keeper(cols), LinesOf(cols, width))
  {
    lines := [];
    var i := 0;
    while i < |recs|
      invariant 0 <= i <= |recs|
      invariant lines == Survivors(recs[..i], Keeper(cols), LinesOf(cols, width))
    {
      SurvivorsSnoc(recs, i, Keeper(cols), LinesOf(cols, width));
      if Kept(cols, recs[i]) {
        lines := lines + [LineOf(cols, width, recs[i])];
      }
      i := i + 1;
    }
    assert recs[..i] == recs;
  }

  /** The three column sums, accumulated row by row. */
  method SumTotals(lines: seq<CostLine>) returns (totals: Totals)
    ensures totals == Totals(Total(lines, Hour), Total(lines, Day), Total(lines, Year))
  {
    var hour, day, year := 0.0, 0.0, 0.0;
    var i := 0;
    while i < |lines|
      invariant 0 <= i <= |lines|
      invariant hour == Total(lines[..i], Hour)
      invariant day == Total(lines[..i], Day)
      invariant year == Total(lines[..i], Year)
    {
      assert lines[..i + 1][..i] == lines[..i];
      hour, day, year := hour + lines[i].costHour, day + lines[i].costDay, year + lines[i].costYear;
      i := i + 1;
    }
    assert lines[..i] == lines;
    totals := Totals(hour, day, year);
  }

  /** `report`, step by step: filter on the requested column, normalise, check the
      columns the code indexes, derive, total and project. */
  method Report(t: Table, clusterCol: string, deployment: string) returns (r: Result<ReportView, Error>)
    ensures r == ReportFor(t, clusterCol, deployment)
  {
    var cols := Columns(t);
    var recs := t.records;
    if clusterCol in cols {
      recs := FilterDeployment(cols, t.records, clusterCol, deployment);
    }
    var width := 0;
    if "SKU Name" in cols {
      width := MeasureSkuWidth(cols, recs);
    }
    if "Usage type" !in cols {
      return Err(MissingColumn("Usage type"));
    }
    if "Unit price" !in cols {
      return Err(MissingColumn("Unit price"));
    }
    if "Total" !in cols {
      return Err(MissingColumn("Total"));
    }
    var lines := DeriveLines(cols, width, recs);
    var totals := SumTotals(lines);
    r := Ok(ReportView(Project(ReportOrder, WorkingColumns(cols) + {"Total Cost (Period)"}), lines, totals));
  }
}
