/**
 * The slice of a pandas `DataFrame` the pre-processing uses: named
 * columns of equal height whose cells are missing (NaN/None) or hold a
 * value, kept as its text.
 */
module Frames {
  import opened Categories

  datatype Value = Missing | Present(text: string)

  /** Column order, the cells of each column, and the number of rows. */
  datatype Frame = Frame(columns: seq<string>, data: map<string, seq<Value>>, height: nat)

  ghost predicate WellFormed(df: Frame) {
    && Unique(df.columns)
    && (forall c :: c in df.data <==> c in df.columns)
    && (forall c :: c in df.data ==> |df.data[c]| == df.height)
  }

  /** The present values of a column, in row order. */
  function Texts(col: seq<Value>): (ts: seq<string>)
    ensures forall t :: t in ts <==> Present(t) in col
  {
    if col == [] then []
    else
      var prev := Texts(col[..|col| - 1]);
      var v := col[|col| - 1];
      assert col == col[..|col| - 1] + [v];
      if v.Present? then prev + [v.text] else prev
  }

  /** `col.fillna(v)`: every missing cell becomes `v`. */
  function FillNa(col: seq<Value>, v: string): (r: seq<Value>)
    ensures |r| == |col|
    ensures forall i :: 0 <= i < |col| ==> r[i] == if col[i].Missing? then Present(v) else col[i]
  {
    seq(|col|, i requires 0 <= i < |col| => if col[i].Missing? then Present(v) else col[i])
  }

  /** A filled column has no missing cell, and filling it again changes
      nothing. */
  lemma FillNaComplete(col: seq<Value>, v: string)
    ensures Missing !in FillNa(col, v)
    ensures FillNa(FillNa(col, v), v) == FillNa(col, v)
  {
    var r := FillNa(col, v);
    assert forall i :: 0 <= i < |r| ==> r[i].Present?;
  }

  /** Row `i` has a value in one of the columns `subset`. */
  predicate HasValue(df: Frame, i: nat, subset: seq<string>)
    requires WellFormed(df) && i < df.height
    requires forall c :: c in subset ==> c in df.data
  {
    exists c :: c in subset && df.data[c][i].Present?
  }

  /** The rows below `n` that `dropna(subset=…, how="all")` keeps, in order. */
  function KeptRows(df: Frame, subset: seq<string>, n: nat): (ks: seq<nat>)
    requires WellFormed(df) && n <= df.height
    requires forall c :: c in subset ==> c in df.data
    ensures forall j :: 0 <= j < |ks| ==> ks[j] < n
    ensures forall j, k :: 0 <= j < k < |ks| ==> ks[j] < ks[k]
    ensures forall i :: i in ks <==> 0 <= i < n && HasValue(df, i, subset)
  {
    if n == 0 then []
    else
      var prev := KeptRows(df, subset, n - 1);
      if HasValue(df, n - 1, subset) then prev + [n - 1] else prev
  }

  /** The frame made of the rows `ks`, in that order. */
  function SelectRows(df: Frame, ks: seq<nat>): (r: Frame)
    requires WellFormed(df)
    requires forall j :: 0 <= j < |ks| ==> ks[j] < df.height
    ensures WellFormed(r) && r.columns == df.columns && r.height == |ks|
    ensures forall c, j :: c in r.data && 0 <= j < |ks| ==> r.data[c][j] == df.data[c][ks[j]]
  {
    Frame(df.columns, map c | c in df.data :: seq(|ks|, j requires 0 <= j < |ks| => df.data[c][ks[j]]), |ks|)
  }

  /** `df.dropna(subset=subset, how="all")`: drop the rows whose cells in
      `subset` are all missing. */
  function DropNa(df: Frame, subset: seq<string>): (r: Frame)
    requires WellFormed(df)
    requires forall c :: c in subset ==> c in df.data
    ensures WellFormed(r) && r.columns == df.columns
  {
    SelectRows(df, KeptRows(df, subset, df.height))
  }

  /** `dropna` keeps exactly the rows with a value in `subset`, in order:
      row `j` of the result is row `i` of the input for one increasing
      choice of `i`. */
  lemma DropNaRows(df: Frame, subset: seq<string>, i: nat)
    requires WellFormed(df) && i < df.height
    requires forall c :: c in subset ==> c in df.data
    ensures HasValue(df, i, subset) <==> i in KeptRows(df, subset, df.height)
    ensures var ks := KeptRows(df, subset, df.height);
            forall j :: 0 <= j < |ks| && ks[j] == i ==> forall c :: c in df.data ==> DropNa(df, subset).data[c][j] == df.data[c][i]
  {
  }

  /** Every row of a `dropna` result has a value in `subset`. */
  lemma DropNaKeepsOnlyFilledRows(df: Frame, subset: seq<string>, j: nat)
    requires WellFormed(df)
    requires forall c :: c in subset ==> c in df.data
    requires j < DropNa(df, subset).height
    ensures HasValue(DropNa(df, subset), j, subset)
  {
    var ks := KeptRows(df, subset, df.height);
    assert ks[j] in ks;
    var c :| c in subset && df.data[c][ks[j]].Present?;
    assert DropNa(df, subset).data[c][j] == df.data[c][ks[j]];
  }

  /** `df[col] = v` for a column that is not there yet: appended last,
      every cell `v`. */
  function AddColumn(df: Frame, col: string, v: Value): (r: Frame)
    requires col !in df.data
    ensures r.columns == df.columns + [col] && r.height == df.height
    ensures r.data == df.data[col := seq(df.height, _ => v)]
  {
    Frame(df.columns + [col], df.data[col := seq(df.height, _ => v)], df.height)
  }

  lemma AddColumnWellFormed(df: Frame, col: string, v: Value)
    requires WellFormed(df) && col !in df.data
    ensures WellFormed(AddColumn(df, col, v))
  {
    var r := AddColumn(df, col, v);
    assert col !in df.columns;
    forall i, j | 0 <= i < j < |r.columns| ensures r.columns[i] != r.columns[j] {
      if j == |df.columns| {
        assert r.columns[i] == df.columns[i];
      } else {
        assert r.columns[i] == df.columns[i] && r.columns[j] == df.columns[j];
      }
    }
  }
}
