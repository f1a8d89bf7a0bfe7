/** The parsed CSV table the handlers work on, column lookup after header trimming,
    and row selection with a boolean mask (`df[mask]`). */
module Frame {
  import opened Wrappers
  import Text

  /** One cell: its text, or `None` for a NaN (an empty field). */
  type Cell = Option<string>

  /** A CSV file as `pd.read_csv` hands it over: the header names and the records,
      each a sequence of cells aligned with the header. A record shorter than the
      header reads as NaN in the columns it lacks. */
  datatype Table = Table(header: seq<string>, records: seq<seq<Cell>>)

  /** `df.columns.str.strip()`: the header names with surrounding white space removed. */
  function Columns(t: Table): (cols: seq<string>)
    ensures |cols| == |t.header|
    ensures forall i :: 0 <= i < |cols| ==> cols[i] == Text.Strip(t.header[i])
  {
    seq(|t.header|, i requires 0 <= i < |t.header| => Text.Strip(t.header[i]))
  }

  /** The position of the first column called `name`. */
  function IndexOf(cols: seq<string>, name: string): (r: Option<nat>)
    ensures r.None? <==> name !in cols
    ensures r.Some? ==> r.value < |cols| && cols[r.value] == name && name !in cols[..r.value]
  {
    if cols == [] then None
    else if cols[0] == name then Some(0)
    else match IndexOf(cols[1..], name)
      case None => None
      case Some(k) =>
        assert cols[..k + 1] == [cols[0]] + cols[1..][..k];
        Some(k + 1)
  }

  /** `df[name]` at one record: the cell of the first column called `name`
      (NaN when the record is short or the column is absent). */
  function CellOf(cols: seq<string>, rec: seq<Cell>, name: string): (c: Cell)
    ensures name !in cols ==> c == None
    ensures forall i :: 0 <= i < |cols| && i < |rec| && cols[i] == name && name !in cols[..i] ==> c == rec[i]
  {
    match IndexOf(cols, name)
    case None => None
    case Some(i) => if i < |rec| then rec[i] else None
  }

  /** `df[mask]` followed by a per-row derivation: the records `keep` accepts, in their
      original order, each passed through `derive`. */
  function Survivors<R>(recs: seq<seq<Cell>>, keep: seq<Cell> -> bool, derive: seq<Cell> -> R): (out: seq<R>)
    ensures |out| <= |recs|
    decreases |recs|
  {
    if recs == [] then []
    else
      var last := recs[|recs| - 1];
      Survivors(recs[..|recs| - 1], keep, derive) + (if keep(last) then [derive(last)] else [])
  }

  /** The positions of the elements `keep` accepts, in increasing order. */
  function KeptIndices<T>(recs: seq<T>, keep: T -> bool): (idx: seq<nat>)
    ensures forall j :: 0 <= j < |idx| ==> idx[j] < |recs| && keep(recs[idx[j]])
    ensures forall i, j :: 0 <= i < j < |idx| ==> idx[i] < idx[j]
    ensures forall k :: 0 <= k < |recs| && keep(recs[k]) ==> k in idx
    decreases |recs|
  {
    if recs == [] then []
    else
      var n := |recs| - 1;
      var prev := KeptIndices(recs[..n], keep);
      assert forall k :: 0 <= k < n ==> recs[..n][k] == recs[k];
      prev + (if keep(recs[n]) then [n] else [])
  }

  /** A mask selection neither adds, drops, duplicates nor reorders: the `j`-th survivor is
      derived from the `j`-th accepted record, and every accepted record yields one. */
  lemma {:induction false} SurvivorsAreSelection<R>(recs: seq<seq<Cell>>, keep: seq<Cell> -> bool, derive: seq<Cell> -> R)
    ensures |Survivors(recs, keep, derive)| == |KeptIndices(recs, keep)|
    ensures forall j :: 0 <= j < |KeptIndices(recs, keep)| ==>
      Survivors(recs, keep, derive)[j] == derive(recs[KeptIndices(recs, keep)[j]])
    decreases |recs|
  {
    if recs != [] {
      var n := |recs| - 1;
      var init := recs[..n];
      SurvivorsAreSelection(init, keep, derive);
      var idx, out := KeptIndices(init, keep), Survivors(init, keep, derive);
      var tail := if keep(recs[n]) then [n] else [];
      assert KeptIndices(recs, keep) == idx + tail;
      assert Survivors(recs, keep, derive) == out + (if keep(recs[n]) then [derive(recs[n])] else []);
      forall j | 0 <= j < |idx|
        ensures init[idx[j]] == recs[idx[j]]
      {
      }
    }
  }

  /** Deriving through `g` is deriving through `f` and then `h`, when `g` is their
      composition: two derivations of the same selection line up row by row. */
  lemma {:induction false} SurvivorsCompose<R, S>(recs: seq<seq<Cell>>, keep: seq<Cell> -> bool,
                                                  f: seq<Cell> -> R, g: seq<Cell> -> S, h: R -> S)
    requires forall rec :: g(rec) == h(f(rec))
    ensures |Survivors(recs, keep, g)| == |Survivors(recs, keep, f)|
    ensures forall j :: 0 <= j < |Survivors(recs, keep, g)| ==>
      Survivors(recs, keep, g)[j] == h(Survivors(recs, keep, f)[j])
    decreases |recs|
  {
    if recs != [] {
      var n := |recs| - 1;
      SurvivorsCompose(recs[..n], keep, f, g, h);
    }
  }

  /** One more record: the survivors of a longer prefix extend those of the shorter. */
  lemma SurvivorsSnoc<R>(recs: seq<seq<Cell>>, i: nat, keep: seq<Cell> -> bool, derive: seq<Cell> -> R)
    requires i < |recs|
    ensures Survivors(recs[..i + 1], keep, derive)
         == Survivors(recs[..i], keep, derive) + (if keep(recs[i]) then [derive(recs[i])] else [])
  {
    assert recs[..i + 1][..i] == recs[..i];
  }
}
