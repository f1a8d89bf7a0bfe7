/** The aggregation in the `dashboard` handler (app.py): the yearly total and, per
    deployment and per provider, `groupby(...)['Cost per Year'].sum().round(2)` keeping
    the groups above zero. */
module Dashboard {
  import opened Wrappers
  import opened Text
  import opened Numbers
  import opened Frame
  import opened Normalize

  /** A column of group keys beside the yearly cost of each row. */
  type Keyed = seq<(Cell, real)>

  /** Labels in strictly ascending string order (hence distinct). */
  predicate Ascending(ls: seq<string>) {
    forall i, j :: 0 <= i < j < |ls| ==> Less(ls[i], ls[j])
  }

  /** The first components of a column of pairs: the keys of a keyed column, the labels
      of a series. */
  function Firsts<K>(pairs: seq<(K, real)>): (ks: seq<K>)
    ensures |ks| == |pairs| && forall i :: 0 <= i < |pairs| ==> ks[i] == pairs[i].0
  {
    seq(|pairs|, i requires 0 <= i < |pairs| => pairs[i].0)
  }

  lemma LessThanAll(l: string, ls: seq<string>)
    requires Ascending(ls) && ls != [] && Less(l, ls[0])
    ensures forall j :: 0 <= j < |ls| ==> Less(l, ls[j])
  {
    forall j | 0 < j < |ls| ensures Less(l, ls[j]) {
      LessTransitive(l, ls[0], ls[j]);
    }
  }

  /** Adds a label to an ascending list unless it is already there. */
  function InsertLabel(ls: seq<string>, l: string): (r: seq<string>)
    requires Ascending(ls)
    ensures Ascending(r)
    ensures forall x :: x in r <==> x in ls || x == l
    decreases |ls|
  {
    if ls == [] then [l]
    else if l == ls[0] then ls
    else if Less(l, ls[0]) then
      LessThanAll(l, ls);
      [l] + ls
    else
      LessTotal(l, ls[0]);
      var rest := InsertLabel(ls[1..], l);
      assert forall j :: 0 <= j < |rest| ==> rest[j] in rest;
      [ls[0]] + rest
  }

  /** The group labels: the distinct non-NaN keys in ascending order (`groupby` sorts
      its keys and drops NaN). */
  function Labels(kv: Keyed): (ls: seq<string>)
    ensures Ascending(ls)
    ensures forall l :: l in ls <==> Some(l) in Firsts(kv)
    decreases |kv|
  {
    if kv == [] then []
    else
      var n := |kv| - 1;
      assert Firsts(kv) == Firsts(kv[..n]) + [kv[n].0];
      match kv[n].0
      case None => Labels(kv[..n])
      case Some(l) => InsertLabel(Labels(kv[..n]), l)
  }

  /** The unrounded cost of the rows keyed `l`. */
  function GroupSum(kv: Keyed, l: string): real
    decreases |kv|
  {
    if kv == [] then 0.0
    else GroupSum(kv[..|kv| - 1], l) + (if kv[|kv| - 1].0 == Some(l) then kv[|kv| - 1].1 else 0.0)
  }

  /** The total of all rows' costs. */
  function Sum(kv: Keyed): real
    decreases |kv|
  {
    if kv == [] then 0.0 else Sum(kv[..|kv| - 1]) + kv[|kv| - 1].1
  }

  /** The cost of the rows whose key is NaN, which `groupby` leaves out. */
  function UnkeyedSum(kv: Keyed): real
    decreases |kv|
  {
    if kv == [] then 0.0
    else UnkeyedSum(kv[..|kv| - 1]) + (if kv[|kv| - 1].0 == None then kv[|kv| - 1].1 else 0.0)
  }

  /** The labels whose value is above zero, each with its value. */
  function Positive(value: string -> real, ls: seq<string>): (r: seq<(string, real)>)
    ensures forall i :: 0 <= i < |r| ==> r[i].0 in ls && r[i].1 == value(r[i].0) && r[i].1 > 0.0
    decreases |ls|
  {
    if ls == [] then []
    else if value(ls[0]) > 0.0 then [(ls[0], value(ls[0]))] + Positive(value, ls[1..])
    else Positive(value, ls[1..])
  }

  lemma {:induction false} PositiveComplete(value: string -> real, ls: seq<string>, l: string)
    requires l in ls && value(l) > 0.0
    ensures l in Firsts(Positive(value, ls))
    decreases |ls|
  {
    var r := Positive(value, ls);
    if l == ls[0] {
      assert r[0].0 == l;
      assert Firsts(r)[0] == l;
    } else {
      assert l in ls[1..];
      PositiveComplete(value, ls[1..], l);
      var rest := Positive(value, ls[1..]);
      var k :| 0 <= k < |rest| && Firsts(rest)[k] == l;
      if value(ls[0]) > 0.0 {
        assert r[k + 1] == rest[k];
        assert Firsts(r)[k + 1] == l;
      } else {
        assert r == rest;
      }
    }
  }

  lemma {:induction false} PositiveAscending(value: string -> real, ls: seq<string>)
    requires Ascending(ls)
    ensures Ascending(Firsts(Positive(value, ls)))
    decreases |ls|
  {
    if ls != [] {
      PositiveAscending(value, ls[1..]);
      var rest := Positive(value, ls[1..]);
      var r := Positive(value, ls);
      if value(ls[0]) > 0.0 {
        assert r == [(ls[0], value(ls[0]))] + rest;
        forall i, j | 0 <= i < j < |r| ensures Less(Firsts(r)[i], Firsts(r)[j]) {
          assert r[j] == rest[j - 1];
          if i == 0 {
            assert rest[j - 1].0 in ls[1..];
          } else {
            assert r[i] == rest[i - 1];
            assert Firsts(rest)[i - 1] == r[i].0;
            assert Firsts(rest)[j - 1] == r[j].0;
          }
        }
      } else {
        assert r == rest;
      }
    }
  }

  /** A group's yearly cost as the chart shows it, rounded to two decimals. */
  function Rounded(kv: Keyed): string -> real {
    l => Round2(GroupSum(kv, l))
  }

  /** One chart series: a label per distinct non-NaN key, ascending, with the group's
      yearly cost rounded to two decimals; groups at or below zero are dropped. */
  function Series(kv: Keyed): (r: seq<(string, real)>)
    ensures Ascending(Firsts(r))
    ensures forall i :: 0 <= i < |r| ==>
      Some(r[i].0) in Firsts(kv) && r[i].1 == Round2(GroupSum(kv, r[i].0)) && r[i].1 > 0.0
    ensures forall l :: Some(l) in Firsts(kv) && Round2(GroupSum(kv, l)) > 0.0 ==> l in Firsts(r)
  {
    var ls := Labels(kv);
    PositiveAscending(Rounded(kv), ls);
    forall l | Some(l) in Firsts(kv) && Round2(GroupSum(kv, l)) > 0.0
      ensures l in Firsts(Positive(Rounded(kv), ls))
    {
      PositiveComplete(Rounded(kv), ls, l);
    }
    Positive(Rounded(kv), ls)
  }

  /** The figures the dashboard shows. */
  datatype DashboardView = DashboardView(totalYearlyCost: real, byDeployment: seq<(string, real)>, byProvider: seq<(string, real)>)

  function ByDeployment(rows: seq<BillingRow>): Keyed {
    seq(|rows|, i requires 0 <= i < |rows| => (rows[i].deployment, rows[i].line.costYear))
  }

  function ByProvider(rows: seq<BillingRow>): Keyed {
    seq(|rows|, i requires 0 <= i < |rows| => (rows[i].line.provider, rows[i].line.costYear))
  }

  /** The KPIs of `dashboard` over the rows of `_get_full_parsed_df`. */
  function DashboardFor(rows: seq<BillingRow>): (v: DashboardView)
    ensures Ascending(Firsts(v.byDeployment)) && Ascending(Firsts(v.byProvider))
    ensures forall i :: 0 <= i < |v.byDeployment| ==>
      v.byDeployment[i].1 > 0.0 && exists k :: 0 <= k < |rows| && rows[k].deployment == Some(v.byDeployment[i].0)
    ensures forall i :: 0 <= i < |v.byProvider| ==>
      v.byProvider[i].1 > 0.0 && exists k :: 0 <= k < |rows| && rows[k].line.provider == Some(v.byProvider[i].0)
  {
    var d, p := ByDeployment(rows), ByProvider(rows);
    assert forall k :: 0 <= k < |rows| ==> Firsts(d)[k] == rows[k].deployment;
    assert forall k :: 0 <= k < |rows| ==> Firsts(p)[k] == rows[k].line.provider;
    DashboardView(Sum(d), Series(d), Series(p))
  }

  // ---------------------------------------------------------------- groups partition the total

  /** The unrounded sums of the given labels' groups, added up. */
  function SumGroups(ls: seq<string>, kv: Keyed): real
    decreases |ls|
  {
    if ls == [] then 0.0 else GroupSum(kv, ls[0]) + SumGroups(ls[1..], kv)
  }

  lemma {:induction false} InsertPresent(ls: seq<string>, l: string)
    requires Ascending(ls) && l in ls
    ensures InsertLabel(ls, l) == ls
    decreases |ls|
  {
    if l != ls[0] {
      var k :| 0 < k < |ls| && ls[k] == l;
      assert Less(ls[0], l);
      LessAsymmetric(ls[0], l);
      assert ls[1..][k - 1] == l;
      InsertPresent(ls[1..], l);
      assert InsertLabel(ls, l) == [ls[0]] + InsertLabel(ls[1..], l);
      assert ls == [ls[0]] + ls[1..];
    }
  }

  lemma {:induction false} SumGroupsInsert(ls: seq<string>, l: string, kv: Keyed)
    requires Ascending(ls) && l !in ls
    ensures SumGroups(InsertLabel(ls, l), kv) == SumGroups(ls, kv) + GroupSum(kv, l)
    decreases |ls|
  {
    if ls != [] && !Less(l, ls[0]) {
      SumGroupsInsert(ls[1..], l, kv);
      assert InsertLabel(ls, l)[1..] == InsertLabel(ls[1..], l);
    }
  }

  lemma {:induction false} SumGroupsExtend(ls: seq<string>, kv: Keyed, key: Cell, v: real)
    requires Ascending(ls)
    ensures SumGroups(ls, kv + [(key, v)]) ==
      SumGroups(ls, kv) + (if key.Some? && key.value in ls then v else 0.0)
    decreases |ls|
  {
    if ls != [] {
      assert (kv + [(key, v)])[..|kv|] == kv;
      SumGroupsExtend(ls[1..], kv, key, v);
      if key == Some(ls[0]) {
        assert key.value !in ls[1..] by {
          forall j | 0 <= j < |ls[1..]| ensures ls[1..][j] != ls[0] {
            assert Less(ls[0], ls[j + 1]);
            LessIrreflexive(ls[0]);
          }
        }
      }
    }
  }

  lemma {:induction false} GroupSumAbsent(kv: Keyed, l: string)
    requires Some(l) !in Firsts(kv)
    ensures GroupSum(kv, l) == 0.0
    decreases |kv|
  {
    if kv != [] {
      var n := |kv| - 1;
      assert Firsts(kv) == Firsts(kv[..n]) + [kv[n].0];
      GroupSumAbsent(kv[..n], l);
    }
  }

  /** How each sum changes when one keyed cost is appended. */
  lemma SumsStep(p: Keyed, key: Cell, v: real)
    ensures Sum(p + [(key, v)]) == Sum(p) + v
    ensures UnkeyedSum(p + [(key, v)]) == UnkeyedSum(p) + (if key == None then v else 0.0)
    ensures forall l :: GroupSum(p + [(key, v)], l) == GroupSum(p, l) + (if key == Some(l) then v else 0.0)
  {
    assert (p + [(key, v)])[..|p|] == p;
  }

  lemma LabelsStep(p: Keyed, key: Cell, v: real)
    ensures Firsts(p + [(key, v)]) == Firsts(p) + [key]
    ensures Labels(p + [(key, v)]) == if key.Some? then InsertLabel(Labels(p), key.value) else Labels(p)
  {
    assert (p + [(key, v)])[..|p|] == p;
  }

  lemma PartitionStep(p: Keyed, key: Cell, v: real)
    requires SumGroups(Labels(p), p) + UnkeyedSum(p) == Sum(p)
    ensures SumGroups(Labels(p + [(key, v)]), p + [(key, v)]) + UnkeyedSum(p + [(key, v)]) == Sum(p + [(key, v)])
  {
    var kv := p + [(key, v)];
    SumsStep(p, key, v);
    LabelsStep(p, key, v);
    var ls := Labels(p);
    SumGroupsExtend(ls, p, key, v);
    match key
    case None =>
      assert SumGroups(Labels(kv), kv) == SumGroups(ls, p);
    case Some(l) =>
      if l in ls {
        InsertPresent(ls, l);
        assert SumGroups(Labels(kv), kv) == SumGroups(ls, p) + v;
      } else {
        SumGroupsInsert(ls, l, kv);
        GroupSumAbsent(p, l);
        assert GroupSum(kv, l) == v;
        assert SumGroups(Labels(kv), kv) == SumGroups(ls, kv) + v;
      }
  }

  /** Every row lands in exactly one group or has a NaN key: the unrounded group sums
      plus the NaN-keyed costs make up the total. */
  lemma {:induction false} GroupsPartitionTotal(kv: Keyed)
    ensures SumGroups(Labels(kv), kv) + UnkeyedSum(kv) == Sum(kv)
    decreases |kv|
  {
    if kv != [] {
      var n := |kv| - 1;
      assert kv == kv[..n] + [(kv[n].0, kv[n].1)];
      GroupsPartitionTotal(kv[..n]);
      PartitionStep(kv[..n], kv[n].0, kv[n].1);
    }
  }

  /** On the dashboard: deployments with a NaN name are left out of the chart but not
      of the total. */
  lemma DashboardTotal(rows: seq<BillingRow>)
    ensures SumGroups(Labels(ByDeployment(rows)), ByDeployment(rows)) + UnkeyedSum(ByDeployment(rows))
         == DashboardFor(rows).totalYearlyCost
  {
    GroupsPartitionTotal(ByDeployment(rows));
  }
}
