/** The billing-row normalisation of `_get_full_parsed_df` (app.py): deployment-column
    resolution, SKU decomposition, size and node normalisation, the "ram hours" filter,
    cost derivation and the preferred-order projection. The per-record derivation is
    shared with the report handler. */
module Normalize {
  import opened Wrappers
  import opened Text
  import opened Numbers
  import opened Frame

  /** The exception that aborts a handler: a column the code indexes is absent. */
  datatype Error = MissingColumn(name: string)

  // ---------------------------------------------------------------- deployment column

  /** The column names that may identify the deployment, in priority order. */
  const Aliases: seq<string> := ["Deployment name", "Cluster Name", "Cluster", "ClusterName"]

  /** The position of the first candidate present among `cols`. */
  function FirstPresent(candidates: seq<string>, cols: seq<string>): (r: Option<nat>)
    ensures r.Some? ==> r.value < |candidates| && candidates[r.value] in cols
    ensures forall j :: 0 <= j < |candidates| && (r.None? || j < r.value) ==> candidates[j] !in cols
  {
    if candidates == [] then None
    else if candidates[0] in cols then Some(0)
    else match FirstPresent(candidates[1..], cols)
      case None => None
      case Some(k) => Some(k + 1)
  }

  /** `next((c for c in possible_cols if c in df.columns), None)`. */
  function DeploymentColumn(cols: seq<string>): (c: Option<string>)
    ensures c.Some? ==> c.value in Aliases && c.value in cols
    ensures c.None? <==> forall j :: 0 <= j < |Aliases| ==> Aliases[j] !in cols
  {
    match FirstPresent(Aliases, cols)
    case None => None
    case Some(k) => Some(Aliases[k])
  }

  /** The alias chosen is the first one, in priority order, among the trimmed headers. */
  lemma DeploymentResolution(cols: seq<string>, k: nat)
    requires k < |Aliases| && Aliases[k] in cols
    requires forall j :: 0 <= j < k ==> Aliases[j] !in cols
    ensures DeploymentColumn(cols) == Some(Aliases[k])
  {
  }

  /** The 'Deployment name' cell of one record: a copy of the resolved column's cell,
      or the constant 'Unknown' when no alias is present. */
  function DeploymentOf(cols: seq<string>, col: Option<string>, rec: seq<Cell>): (d: Cell)
    ensures col.None? ==> d == Some("Unknown")
    ensures col.Some? ==> d == CellOf(cols, rec, col.value)
  {
    match col
    case None => Some("Unknown")
    case Some(c) => CellOf(cols, rec, c)
  }

  // ---------------------------------------------------------------- SKU decomposition

  /** The five fields `str.split('_', expand=True, n=4)` gives one 'SKU Name' cell,
      padded with `None` (columns Tier, SKU_Code_Full, Region, Size_MB, Nodes). */
  datatype SkuParts = SkuParts(tier: Cell, full: Cell, region: Cell, sizeMB: Cell, nodes: Cell)

  function Piece(parts: seq<string>, i: nat): Cell {
    if i < |parts| then Some(parts[i]) else None
  }

  function SplitSku(name: Cell): (r: SkuParts)
    ensures name.None? ==> r == SkuParts(None, None, None, None, None)
    ensures name.Some? ==> r.tier.Some?
    ensures (r.nodes.Some? ==> r.sizeMB.Some?) && (r.sizeMB.Some? ==> r.region.Some?)
            && (r.region.Some? ==> r.full.Some?) && (r.full.Some? ==> r.tier.Some?)
    ensures (r.tier.Some? ==> '_' !in r.tier.value) && (r.full.Some? ==> '_' !in r.full.value)
            && (r.region.Some? ==> '_' !in r.region.value) && (r.sizeMB.Some? ==> '_' !in r.sizeMB.value)
  {
    match name
    case None => SkuParts(None, None, None, None, None)
    case Some(s) =>
      var f := SplitN(s, '_', 4);
      SkuParts(Piece(f, 0), Piece(f, 1), Piece(f, 2), Piece(f, 3), Piece(f, 4))
  }

  /** Decomposing a name assembled from five fields gives the fields back; the last
      field keeps any further underscores. */
  lemma SkuRoundTrip(tier: string, full: string, region: string, size: string, nodes: string)
    requires '_' !in tier && '_' !in full && '_' !in region && '_' !in size
    ensures SplitSku(Some(tier + "_" + (full + "_" + (region + "_" + (size + "_" + nodes)))))
         == SkuParts(Some(tier), Some(full), Some(region), Some(size), Some(nodes))
  {
    var s4 := size + "_" + nodes;
    var s3 := region + "_" + s4;
    var s2 := full + "_" + s3;
    var s1 := tier + "_" + s2;
    SplitNStep(size, '_', nodes, 1);
    assert SplitN(nodes, '_', 0) == [nodes];
    var p4 := SplitN(s4, '_', 1);
    SplitNStep(region, '_', s4, 2);
    var p3 := SplitN(s3, '_', 2);
    SplitNStep(full, '_', s3, 3);
    var p2 := SplitN(s2, '_', 3);
    SplitNStep(tier, '_', s2, 4);
    var p1 := SplitN(s1, '_', 4);
    assert p1 == [tier] + p2 && p2 == [full] + p3 && p3 == [region] + p4 && p4 == [size, nodes];
    assert p1[0] == tier && p1[1] == full && p1[2] == region && p1[3] == size && p1[4] == nodes;
  }

  /** A name with fewer than four underscores splits as a plain `split('_')` would, and
      the fields it has no piece for are missing. */
  lemma SkuShortName(s: string)
    requires |Split(s, '_')| <= 4
    ensures var p := Split(s, '_');
            SplitSku(Some(s)) == SkuParts(Piece(p, 0), Piece(p, 1), Piece(p, 2), Piece(p, 3), None)
  {
    SplitNShort(s, '_', 4);
  }

  /** The number of columns `str.split('.', expand=True)` needs for one SKU_Code_Full
      cell; a missing cell occupies one (NaN) column. */
  function SegmentCount(full: Cell): (n: nat)
    ensures n >= 1
    ensures n >= 2 <==> full.Some? && '.' in full.value
  {
    match full
    case None => 1
    case Some(s) =>
      assert '.' in s ==> Split(s, '.') != [s];
      |Split(s, '.')|
  }

  /** The SKU fields of one record. */
  function SkuOf(cols: seq<string>, rec: seq<Cell>): SkuParts {
    SplitSku(CellOf(cols, rec, "SKU Name"))
  }

  function Max(a: nat, b: nat): nat {
    if a < b then b else a
  }

  /** The largest element, 0 for the empty sequence. */
  function MaxOf(xs: seq<nat>): nat
    decreases |xs|
  {
    if xs == [] then 0 else Max(MaxOf(xs[..|xs| - 1]), xs[|xs| - 1])
  }

  lemma {:induction false} MaxOfReaches(xs: seq<nat>, bound: nat)
    ensures MaxOf(xs) >= bound && bound > 0 <==> bound > 0 && exists k :: 0 <= k < |xs| && xs[k] >= bound
    decreases |xs|
  {
    if xs != [] {
      var n := |xs| - 1;
      MaxOfReaches(xs[..n], bound);
      if exists k :: 0 <= k < n && xs[..n][k] >= bound {
        var k :| 0 <= k < n && xs[..n][k] >= bound;
        assert xs[k] >= bound;
      }
      if exists k :: 0 <= k < |xs| && xs[k] >= bound {
        var k :| 0 <= k < |xs| && xs[k] >= bound;
        if k < n {
          assert xs[..n][k] >= bound;
        }
      }
    }
  }

  /** The segment count of every record, in order. */
  function SegmentCounts(cols: seq<string>, recs: seq<seq<Cell>>): (c: seq<nat>)
    ensures |c| == |recs|
    ensures forall k :: 0 <= k < |recs| ==> c[k] == SegmentCount(SkuOf(cols, recs[k]).full)
  {
    seq(|recs|, k requires 0 <= k < |recs| => SegmentCount(SkuOf(cols, recs[k]).full))
  }

  /** The number of columns of `df['SKU_Code_Full'].str.split('.', expand=True)`:
      the largest segment count of any record, 0 for an empty table. */
  function SkuWidth(cols: seq<string>, recs: seq<seq<Cell>>): nat {
    MaxOf(SegmentCounts(cols, recs))
  }

  /** The split has a column exactly when the table has a record, and a second column
      exactly when some record's code has a dot. */
  lemma SkuWidthMeaning(cols: seq<string>, recs: seq<seq<Cell>>)
    ensures SkuWidth(cols, recs) >= 1 <==> recs != []
    ensures SkuWidth(cols, recs) >= 2 <==>
      exists k :: 0 <= k < |recs| && SegmentCount(SkuOf(cols, recs[k]).full) >= 2
  {
    var c := SegmentCounts(cols, recs);
    MaxOfReaches(c, 1);
    MaxOfReaches(c, 2);
    if recs != [] {
      assert c[0] >= 1;
    }
  }

  /** `sku_parts.get(0, 'Unknown')`: the first '.'-segment; 'Unknown' only when the split
      has no column at all. */
  function Provider(full: Cell, width: nat): (r: Cell)
    ensures width == 0 ==> r == Some("Unknown")
    ensures width > 0 ==> (r.None? <==> full.None?)
    ensures width > 0 && full.Some? ==>
      '.' !in r.value && |r.value| <= |full.value| && full.value[..|r.value|] == r.value
  {
    if width == 0 then Some("Unknown")
    else match full
      case None => None
      case Some(s) =>
        JoinHead(Split(s, '.'), '.');
        Some(Split(s, '.')[0])
  }

  /** `sku_parts.get(1, 'Unknown')`: the second '.'-segment, missing for a record that has
      none; 'Unknown' only when no record of the table has a second segment. */
  function Edition(full: Cell, width: nat): (r: Cell)
    ensures width < 2 ==> r == Some("Unknown")
    ensures width >= 2 ==> (r.Some? <==> full.Some? && '.' in full.value)
    ensures width >= 2 && r.Some? ==> '.' !in r.value
  {
    if width < 2 then Some("Unknown")
    else match full
      case None => None
      case Some(s) =>
        var segs := Split(s, '.');
        assert SegmentCount(full) == |segs|;
        if |segs| >= 2 then Some(segs[1]) else None
  }

  /** `str.split('.', n=2).str[2].fillna('Unknown')`: everything after the second '.'. */
  function SkuCode(full: Cell): (r: Cell)
    ensures r.Some?
    ensures full.None? || |Split(full.value, '.')| < 3 ==> r == Some("Unknown")
    ensures full.Some? && r != Some("Unknown") ==>
      |r.value| < |full.value| && full.value[|full.value| - |r.value|..] == r.value
  {
    match full
    case None => Some("Unknown")
    case Some(s) =>
      var p := SplitN(s, '.', 2);
      if |Split(s, '.')| < 3 then SplitNShort(s, '.', 2); assert |p| < 3; Some("Unknown")
      else if |p| == 3 then JoinLast(p, '.'); assert |Join(p, '.')| > |p[2]|; Some(p[2])
      else Some("Unknown")
  }

  /** Provider, Edition and SKU Code take a dotted code apart: the first two segments
      and the whole remainder after the second dot. */
  lemma SkuCodeRoundTrip(provider: string, edition: string, code: string, width: nat)
    requires '.' !in provider && '.' !in edition && width >= 2
    ensures var full := Some(provider + "." + (edition + "." + code));
            Provider(full, width) == Some(provider) && Edition(full, width) == Some(edition)
            && SkuCode(full) == Some(code)
  {
    var rest := edition + "." + code;
    var s := provider + "." + rest;
    SplitStep(provider, '.', rest);
    SplitStep(edition, '.', code);
    var segs := Split(s, '.');
    assert segs == [provider] + Split(rest, '.') && Split(rest, '.') == [edition] + Split(code, '.');
    assert segs[0] == provider && segs[1] == edition;
    SplitNStep(provider, '.', rest, 2);
    SplitNStep(edition, '.', code, 1);
    assert SplitN(code, '.', 0) == [code];
    var p := SplitN(s, '.', 2);
    assert p == [provider] + SplitN(rest, '.', 1) && SplitN(rest, '.', 1) == [edition, code];
    assert |p| == 3 && p[2] == code;
  }

  /** With fewer than two dots the SKU Code is 'Unknown', and a code without a dot has no
      Edition once some other record of the table has one. */
  lemma SkuCodeShort(provider: string, edition: string, width: nat)
    requires '.' !in provider && '.' !in edition
    ensures SkuCode(Some(provider)) == Some("Unknown")
    ensures SkuCode(Some(provider + "." + edition)) == Some("Unknown")
    ensures width >= 2 ==> Edition(Some(provider), width) == None
  {
    SplitNStep(provider, '.', edition, 2);
    assert SplitN(edition, '.', 1) == [edition];
    assert SplitN(provider, '.', 2) == [provider];
    assert Split(provider, '.') == [provider];
  }

  // ---------------------------------------------------------------- size and nodes

  /** 'Number of Nodes': the numeric Nodes field (0 when missing or non-numeric),
      truncated toward zero. */
  function NodeCount(nodes: Cell): (n: int)
    ensures nodes.None? || ParseNumber(nodes.value).None? ==> n == 0
    ensures var x := NumberOr0(nodes);
            x >= 0.0 ==> 0 <= n && n as real <= x < n as real + 1.0
  {
    Trunc(NumberOr0(nodes))
  }

  /** 'Size in GB': Size_MB / 1024, divided by the node count when it exceeds 64 and the
      node count is positive, then rounded half to even. */
  function SizeGB(sizeMB: Cell, nodes: int): (r: int)
    ensures var gb := NumberOr0(sizeMB) / 1024.0;
            var target := if gb > 64.0 && nodes > 0 then gb / nodes as real else gb;
            r as real - target <= 0.5 && target - r as real <= 0.5
  {
    var gb := NumberOr0(sizeMB) / 1024.0;
    RoundHalfEven(if gb > 64.0 && nodes > 0 then gb / nodes as real else gb)
  }

  /** 131072 MB on 4 nodes is 32 GB per node. */
  lemma SizePerNodeExample()
    ensures NodeCount(Some(Digits(4))) == 4 && SizeGB(Some(Digits(131072)), 4) == 32
  {
    ParseDigits(4);
    ParseDigits(131072);
    assert 131072.0 / 1024.0 == 128.0;
  }

  /** 32768 MB on 0 nodes stays 32 GB; 65536 MB is exactly 64 GB and is not divided. */
  lemma SizeNotDividedExample()
    ensures NodeCount(Some(Digits(0))) == 0 && SizeGB(Some(Digits(32768)), 0) == 32
    ensures SizeGB(Some(Digits(65536)), 2) == 64
  {
    ParseDigits(0);
    ParseDigits(32768);
    ParseDigits(65536);
    assert 32768.0 / 1024.0 == 32.0;
    assert 65536.0 / 1024.0 == 64.0;
  }

  // ---------------------------------------------------------------- usage filter

  /** `df.get('Usage type').astype(str).str.strip()` at one record: a NaN reads "nan". */
  function Component(usage: Cell): (c: string)
    ensures usage.None? ==> |c| <= 3
    ensures usage.Some? ==> |c| <= |usage.value|
    ensures c != [] ==> !IsSpace(c[0]) && !IsSpace(c[|c| - 1])
  {
    Strip(match usage case None => "nan" case Some(s) => s)
  }

  /** `component.lower() == 'ram hours'`. */
  predicate IsRamHours(component: string) {
    Lower(component) == "ram hours"
  }

  lemma StripUnpadded(s: string)
    requires s != [] && !IsSpace(s[0]) && !IsSpace(s[|s| - 1])
    ensures Strip(s) == s
  {
    assert LeadingSpaces(s) == 0 && TrailingSpaces(s) == 0;
  }

  /** The filter ignores letter case: "RAM Hours", "Ram Hours", "ram hours", ... all pass. */
  lemma RamHoursSpellings(s: string)
    requires Lower(s) == "ram hours"
    ensures IsRamHours(Component(Some(s)))
  {
    var r := Lower(s);
    assert |s| == 9;
    assert LowerChar(s[0]) == r[0] == 'r';
    assert LowerChar(s[8]) == r[8] == 's';
    StripUnpadded(s);
  }

  /** The filter ignores surrounding white space as well as letter case: any spelling of
      "ram hours" with white space of any kind and amount around it passes. */
  lemma RamHoursPadded(pre: string, s: string, post: string)
    requires forall i :: 0 <= i < |pre| ==> IsSpace(pre[i])
    requires forall i :: 0 <= i < |post| ==> IsSpace(post[i])
    requires Lower(s) == "ram hours"
    ensures IsRamHours(Component(Some(pre + s + post)))
  {
    var r := Lower(s);
    assert |s| == 9;
    assert LowerChar(s[0]) == r[0] == 'r';
    assert LowerChar(s[8]) == r[8] == 's';
    StripAround(pre, s, post);
  }

  /** A NaN usage type and other usage types are dropped. */
  lemma OtherUsageDropped()
    ensures !IsRamHours(Component(Some("CPU Hours")))
    ensures !IsRamHours(Component(None))
  {
    StripUnpadded("CPU Hours");
    assert Lower("CPU Hours")[0] == 'c';
    StripUnpadded("nan");
    assert Lower("nan")[0] == 'n';
  }

  /** A record survives the usage filter. */
  predicate Kept(cols: seq<string>, rec: seq<Cell>)
    ensures Kept(cols, rec) ==> "Usage type" in cols && CellOf(cols, rec, "Usage type").Some?
  {
    var c := Component(CellOf(cols, rec, "Usage type"));
    assert |Lower(c)| == |c|;
    IsRamHours(c)
  }

  function Keeper(cols: seq<string>): seq<Cell> -> bool {
    rec => Kept(cols, rec)
  }

  // ---------------------------------------------------------------- derived row

  /** The derived columns both handlers emit: Tier, Provider, Edition, SKU Code, Region,
      Size in GB, Number of Nodes, Cost per Hour, Cost per Day, Cost per Year. */
  datatype CostLine = CostLine(
    tier: Cell, provider: Cell, edition: Cell, skuCode: Cell, region: Cell,
    sizeGB: int, nodes: int,
    costHour: real, costDay: real, costYear: real)

  /** The derived columns of one record; `width` is the table's SkuWidth. */
  function LineOf(cols: seq<string>, width: nat, rec: seq<Cell>): (l: CostLine)
    ensures l.costHour == NumberOr0(CellOf(cols, rec, "Unit price"))
    ensures l.costDay == 24.0 * l.costHour && l.costYear == 365.0 * l.costDay
    ensures "SKU Name" !in cols ==>
      l.tier == l.provider == l.edition == l.skuCode == l.region == Some("Unknown")
      && l.sizeGB == 0 && l.nodes == 0
    ensures "SKU Name" in cols ==>
      var p := SkuOf(cols, rec);
      l.tier == p.tier && l.region == p.region && l.provider == Provider(p.full, width)
      && l.edition == Edition(p.full, width) && l.skuCode == SkuCode(p.full)
      && l.nodes == NodeCount(p.nodes) && l.sizeGB == SizeGB(p.sizeMB, l.nodes)
  {
    var hour := NumberOr0(CellOf(cols, rec, "Unit price"));
    if "SKU Name" in cols then
      var p := SkuOf(cols, rec);
      var n := NodeCount(p.nodes);
      CostLine(p.tier, Provider(p.full, width), Edition(p.full, width), SkuCode(p.full), p.region,
               SizeGB(p.sizeMB, n), n, hour, 24.0 * hour, 365.0 * (24.0 * hour))
    else
      var u := Some("Unknown");
      CostLine(u, u, u, u, u, 0, 0, hour, 24.0 * hour, 365.0 * (24.0 * hour))
  }

  /** Unit price 2.5 costs 2.5 per hour, 60 per day and 21900 per year. */
  lemma CostExample(cols: seq<string>, width: nat, rec: seq<Cell>)
    requires CellOf(cols, rec, "Unit price") == Some("2.5")
    ensures LineOf(cols, width, rec).costHour == 2.5
    ensures LineOf(cols, width, rec).costDay == 60.0
    ensures LineOf(cols, width, rec).costYear == 21900.0
  {
    assert "2.5" == "2" + "." + "5";
    ParseDecimal("2", "5");
    assert DigitsValue("2") == 2 && DigitsValue("5") == 5 && Pow10(1) == 10;
  }

  /** Provider never falls back to 'Unknown' for a record of a table that has records:
      it is the record's first '.'-segment, or missing when the record has no code. */
  lemma ProviderDefault(cols: seq<string>, recs: seq<seq<Cell>>, k: nat)
    requires k < |recs|
    ensures var full := SkuOf(cols, recs[k]).full;
            Provider(full, SkuWidth(cols, recs)) == (if full.None? then None else Some(Split(full.value, '.')[0]))
  {
    SkuWidthMeaning(cols, recs);
  }

  /** Edition is 'Unknown' for every record when no record's SKU_Code_Full holds a dot. */
  lemma EditionUnknown(cols: seq<string>, recs: seq<seq<Cell>>, k: nat)
    requires k < |recs|
    requires forall m :: 0 <= m < |recs| ==> SegmentCount(SkuOf(cols, recs[m]).full) < 2
    ensures Edition(SkuOf(cols, recs[k]).full, SkuWidth(cols, recs)) == Some("Unknown")
  {
    SkuWidthMeaning(cols, recs);
  }

  /** Once some record's SKU_Code_Full holds a dot, Edition is each record's second
      segment, missing for the records without one. */
  lemma EditionSegment(cols: seq<string>, recs: seq<seq<Cell>>, k: nat)
    requires k < |recs|
    requires exists m :: 0 <= m < |recs| && SegmentCount(SkuOf(cols, recs[m]).full) >= 2
    ensures var full := SkuOf(cols, recs[k]).full;
            Edition(full, SkuWidth(cols, recs)) ==
              (if full.Some? && '.' in full.value then Some(Split(full.value, '.')[1]) else None)
  {
    var full := SkuOf(cols, recs[k]).full;
    SkuWidthMeaning(cols, recs);
    assert SkuWidth(cols, recs) >= 2;
    if full.Some? {
      assert SegmentCount(full) == |Split(full.value, '.')|;
    }
  }

  // ---------------------------------------------------------------- the whole table

  /** One output row of `_get_full_parsed_df`. */
  datatype BillingRow = BillingRow(deployment: Cell, line: CostLine)

  /** The projected frame: its column names and its rows. */
  datatype Parsed = Parsed(columns: seq<string>, rows: seq<BillingRow>)

  const FullOrder: seq<string> := [
    "Deployment name", "Tier", "Provider", "Edition", "SKU Code", "Region",
    "Size in GB", "Number of Nodes", "Cost per Hour", "Cost per Day", "Cost per Year"]

  /** The columns the SKU branch adds (the split parts, then the derived ones). */
  const SkuColumns: seq<string> := [
    "Tier", "SKU_Code_Full", "Region", "Size_MB", "Nodes", "Provider", "Edition",
    "SKU Code", "Size in GB", "Number of Nodes"]

  /** The columns the branch without 'SKU Name' adds. */
  const DefaultColumns: seq<string> := [
    "Tier", "Provider", "Edition", "SKU Code", "Region", "Size in GB", "Number of Nodes"]

  const CostColumns: seq<string> := ["Component", "Cost per Hour", "Cost per Day", "Cost per Year"]

  /** The columns of the working frame after the SKU and cost steps. */
  function WorkingColumns(cols: seq<string>): set<string> {
    var all := cols + (if "SKU Name" in cols then SkuColumns else DefaultColumns) + CostColumns;
    set c | c in all
  }

  /** `[c for c in preferred if c in df.columns]`. */
  function Project(preferred: seq<string>, present: set<string>): (r: seq<string>)
    ensures |r| <= |preferred|
    ensures forall c :: c in r <==> c in preferred && c in present
    ensures (forall c :: c in preferred ==> c in present) ==> r == preferred
    decreases |preferred|
  {
    if preferred == [] then []
    else
      var n := |preferred| - 1;
      assert preferred == preferred[..n] + [preferred[n]];
      Project(preferred[..n], present) + (if preferred[n] in present then [preferred[n]] else [])
  }

  function Present(present: set<string>): string -> bool {
    c => c in present
  }

  /** The projection keeps the present names at increasing positions of `preferred`:
      in the preferred order, none dropped, added or repeated. */
  lemma {:induction false} ProjectSelection(preferred: seq<string>, present: set<string>)
    ensures var idx := KeptIndices(preferred, Present(present));
            var r := Project(preferred, present);
            |r| == |idx| && forall j :: 0 <= j < |idx| ==> r[j] == preferred[idx[j]]
    decreases |preferred|
  {
    if preferred != [] {
      var n := |preferred| - 1;
      var init := preferred[..n];
      var keep := Present(present);
      ProjectSelection(init, present);
      var prev, p := KeptIndices(init, keep), Project(init, present);
      var last := if preferred[n] in present then [n] else [];
      assert keep(preferred[n]) == (preferred[n] in present);
      assert KeptIndices(preferred, keep) == prev + last;
      assert Project(preferred, present) == p + (if preferred[n] in present then [preferred[n]] else []);
      forall j | 0 <= j < |prev|
        ensures init[prev[j]] == preferred[prev[j]]
      {
      }
    }
  }

  function FullRow(cols: seq<string>, dep: Option<string>, width: nat): seq<Cell> -> BillingRow {
    rec => BillingRow(DeploymentOf(cols, dep, rec), LineOf(cols, width, rec))
  }

  /** `_get_full_parsed_df` on an already parsed table. */
  function ParseBilling(t: Table): (r: Result<Parsed, Error>)
    ensures "Usage type" !in Columns(t) ==> r == Err(MissingColumn("Usage type"))
    ensures "Usage type" in Columns(t) && "Unit price" !in Columns(t) ==> r == Err(MissingColumn("Unit price"))
    ensures "Usage type" in Columns(t) && "Unit price" in Columns(t) ==> r.Ok?
  {
    var cols := Columns(t);
    var width := if "SKU Name" in cols then SkuWidth(cols, t.records) else 0;
    if "Usage type" !in cols then Err(MissingColumn("Usage type"))
    else if "Unit price" !in cols then Err(MissingColumn("Unit price"))
    else
      var present := WorkingColumns(cols) + {"Deployment name"};
      Ok(Parsed(Project(FullOrder, present),
                Survivors(t.records, Keeper(cols), FullRow(cols, DeploymentColumn(cols), width))))
  }

  /** The output always has exactly the preferred columns, in the preferred order. */
  lemma ParsedColumns(t: Table)
    requires ParseBilling(t).Ok?
    ensures ParseBilling(t).value.columns == FullOrder
  {
    var cols := Columns(t);
    var present := WorkingColumns(cols) + {"Deployment name"};
    assert forall c :: c in FullOrder ==> c in present;
  }

  /** The output rows are the records whose usage type is RAM hours, in their original
      order, none added or repeated; each carries the resolved deployment cell and the
      derived columns of its record. */
  lemma ParsedRows(t: Table)
    requires ParseBilling(t).Ok?
    ensures var cols := Columns(t);
            var idx := KeptIndices(t.records, Keeper(cols));
            var rows := ParseBilling(t).value.rows;
            var width := if "SKU Name" in cols then SkuWidth(cols, t.records) else 0;
            |rows| == |idx|
            && (forall j :: 0 <= j < |idx| ==>
                  rows[j].deployment == DeploymentOf(cols, DeploymentColumn(cols), t.records[idx[j]])
                  && rows[j].line == LineOf(cols, width, t.records[idx[j]]))
            && (forall k :: 0 <= k < |t.records| ==> (k in idx <==> Kept(cols, t.records[k])))
  {
    var cols := Columns(t);
    var width := if "SKU Name" in cols then SkuWidth(cols, t.records) else 0;
    SurvivorsAreSelection(t.records, Keeper(cols), FullRow(cols, DeploymentColumn(cols), width));
  }

  /** The column count of the SKU code split, record by record. */
  method MeasureSkuWidth(cols: seq<string>, recs: seq<seq<Cell>>) returns (width: nat)
    ensures width == SkuWidth(cols, recs)
  {
    ghost var counts := SegmentCounts(cols, recs);
    width := 0;
    var i := 0;
    while i < |recs|
      invariant 0 <= i <= |recs|
      invariant width == MaxOf(counts[..i])
    {
      assert counts[..i + 1][..i] == counts[..i];
      width := Max(width, SegmentCount(SkuOf(cols, recs[i]).full));
      i := i + 1;
    }
    assert counts[..i] == counts;
  }

  /** The usage filter and the per-record derivation, record by record. */
  method DeriveRows(cols: seq<string>, dep: Option<string>, width: nat, recs: seq<seq<Cell>>)
    returns (rows: seq<BillingRow>)
    ensures rows == Survivors(recs, Keeper(cols), FullRow(cols, dep, width))
  {
    var keep, derive := Keeper(cols), FullRow(cols, dep, width);
    rows := [];
    var i := 0;
    while i < |recs|
      invariant 0 <= i <= |recs|
      invariant rows == Survivors(recs[..i], keep, derive)
    {
      SurvivorsSnoc(recs, i, keep, derive);
      if keep(recs[i]) {
        rows := rows + [derive(recs[i])];
      }
      i := i + 1;
    }
    assert recs[..i] == recs;
  }

  /** `_get_full_parsed_df`, step by step: resolve the deployment column, measure the
      SKU code split, check the columns the code indexes, then filter and derive. */
  method GetFullParsedDf(t: Table) returns (r: Result<Parsed, Error>)
    ensures r == ParseBilling(t)
  {
    var cols := Columns(t);
    var dep := DeploymentColumn(cols);
    var width := 0;
    if "SKU Name" in cols {
      width := MeasureSkuWidth(cols, t.records);
    }
    if "Usage type" !in cols {
      return Err(MissingColumn("Usage type"));
    }
    if "Unit price" !in cols {
      return Err(MissingColumn("Unit price"));
    }
    var rows := DeriveRows(cols, dep, width, t.records);
    r := Ok(Parsed(Project(FullOrder, WorkingColumns(cols) + {"Deployment name"}), rows));
  }
}
