/**
 * The table pre-processing in front of the scoring model
 * (impute_preprocess.py): dropping empty rows, filling missing cells from
 * a table of defaults, collapsing rare categorical values to `"other"`,
 * deriving the kept levels from the model's feature names, and adding the
 * model features the table lacks as all-zero columns.  pandas'
 * `get_dummies` one-hot encoding is a parameter.
 */
module ImputePreprocess {
  import opened Wrappers
  import opened Text
  import opened OrderedDicts
  import opened Categories
  import opened Frames

  /** The CADD feature columns (`cadd_vars`). */
  const CaddVars: seq<string> := [
    "Ref", "Alt", "Type", "Length", "GC", "CpG", "motifECount", "motifEScoreChng", "motifEHIPos",
    "oAA", "nAA", "cDNApos", "relcDNApos", "CDSpos", "relCDSpos", "protPos", "relProtPos",
    "Domain", "Dst2Splice", "Dst2SplType", "minDistTSS", "minDistTSE", "SIFTcat", "SIFTval",
    "PolyPhenCat", "PolyPhenVal", "priPhCons", "mamPhCons", "verPhCons", "priPhyloP", "mamPhyloP",
    "verPhyloP", "bStatistic", "targetScan", "mirSVR-Score", "mirSVR-E", "mirSVR-Aln", "cHmmTssA",
    "cHmmTssAFlnk", "cHmmTxFlnk", "cHmmTx", "cHmmTxWk", "cHmmEnhG", "cHmmEnh", "cHmmZnfRpts",
    "cHmmHet", "cHmmTssBiv", "cHmmBivFlnk", "cHmmEnhBiv", "cHmmReprPC", "cHmmReprPCWk",
    "cHmmQuies", "GerpRS", "GerpRSpval", "GerpN", "GerpS", "TFBS", "TFBSPeaks", "TFBSPeaksMax",
    "tOverlapMotifs", "motifDist", "Segway", "EncH3K27Ac", "EncH3K4Me1", "EncH3K4Me3", "EncExp",
    "EncNucleo", "EncOCC", "EncOCCombPVal", "EncOCDNasePVal", "EncOCFairePVal", "EncOCpolIIPVal",
    "EncOCctcfPVal", "EncOCmycPVal", "EncOCDNaseSig", "EncOCFaireSig", "EncOCpolIISig",
    "EncOCctcfSig", "EncOCmycSig", "Grantham", "Dist2Mutation", "Freq100bp", "Rare100bp",
    "Sngl100bp", "Freq1000bp", "Rare1000bp", "Sngl1000bp", "Freq10000bp", "Rare10000bp",
    "Sngl10000bp", "dbscSNV-ada_score", "dbscSNV-rf_score"
  ]

  /** `cadd_vars_withConsequence`: the same with three more columns. */
  const CaddVarsWithConsequence: seq<string> := CaddVars + ["RawScore", "PHRED", "Consequence"]

  /** The default of every column that is filled (`impute_values`), with
      numbers written as Python prints them. */
  const ImputeValues: map<string, string> := map[
    "Ref" := "N", "Alt" := "N", "Consequence" := "UNKNOWN", "GC" := "0.42", "CpG" := "0.02",
    "motifECount" := "0", "motifEScoreChng" := "0", "motifEHIPos" := "0", "oAA" := "unknown",
    "nAA" := "unknown", "cDNApos" := "0", "relcDNApos" := "0", "CDSpos" := "0", "relCDSpos" := "0",
    "protPos" := "0", "relProtPos" := "0", "Domain" := "UD", "Dst2Splice" := "0",
    "Dst2SplType" := "unknown", "minDistTSS" := "5.5", "minDistTSE" := "5.5", "SIFTcat" := "UD",
    "SIFTval" := "0", "PolyPhenCat" := "unknown", "PolyPhenVal" := "0", "priPhCons" := "0.115",
    "mamPhCons" := "0.079", "verPhCons" := "0.094", "priPhyloP" := "-0.033",
    "mamPhyloP" := "-0.038", "verPhyloP" := "0.017", "bStatistic" := "800", "targetScan" := "0",
    "mirSVR-Score" := "0", "mirSVR-E" := "0", "mirSVR-Aln" := "0", "cHmmTssA" := "0.0667",
    "cHmmTssAFlnk" := "0.0667", "cHmmTxFlnk" := "0.0667", "cHmmTx" := "0.0667",
    "cHmmTxWk" := "0.0667", "cHmmEnhG" := "0.0667", "cHmmEnh" := "0.0667",
    "cHmmZnfRpts" := "0.0667", "cHmmHet" := "0.667", "cHmmTssBiv" := "0.667",
    "cHmmBivFlnk" := "0.0667", "cHmmEnhBiv" := "0.0667", "cHmmReprPC" := "0.0667",
    "cHmmReprPCWk" := "0.0667", "cHmmQuies" := "0.0667", "GerpRS" := "0", "GerpRSpval" := "0",
    "GerpN" := "1.91", "GerpS" := "-0.2", "TFBS" := "0", "TFBSPeaks" := "0", "TFBSPeaksMax" := "0",
    "tOverlapMotifs" := "0", "motifDist" := "0", "Segway" := "unknown", "EncH3K27Ac" := "0",
    "EncH3K4Me1" := "0", "EncH3K4Me3" := "0", "EncExp" := "0", "EncNucleo" := "0", "EncOCC" := "5",
    "EncOCCombPVal" := "0", "EncOCDNasePVal" := "0", "EncOCFairePVal" := "0",
    "EncOCpolIIPVal" := "0", "EncOCctcfPVal" := "0", "EncOCmycPVal" := "0", "EncOCDNaseSig" := "0",
    "EncOCFaireSig" := "0", "EncOCpolIISig" := "0", "EncOCctcfSig" := "0", "EncOCmycSig" := "0",
    "Grantham" := "0", "Dist2Mutation" := "0", "Freq100bp" := "0", "Rare100bp" := "0",
    "Sngl100bp" := "0", "Freq1000bp" := "0", "Rare1000bp" := "0", "Sngl1000bp" := "0",
    "Freq10000bp" := "0", "Rare10000bp" := "0", "Sngl10000bp" := "0", "dbscSNV-ada_score" := "0",
    "dbscSNV-rf_score" := "0"
  ]

  const RfScore: string := "dbscSNV-rf_score"

  /** The set of the entries of a sequence. */
  ghost function Elems(s: seq<string>): (r: set<string>)
    ensures forall c :: c in r <==> c in s
  {
    set c | c in s
  }

  /* ---------------- replace_nas ----------------
     `replace_nas` reads its fill values from the module table
     `impute_values`; here that table is the parameter `defaults`, and
     `impute` passes `ImputeValues`. */

  /** Every column `replace_nas` fills has a default (otherwise the lookup
      `impute_values[value]` raises). */
  predicate Fillable(df: Frame, defaults: map<string, string>, dict: set<string>) {
    forall c :: c in df.data && c in dict && Missing in df.data[c] ==> c in defaults
  }

  /** The cells after the columns in `done` were visited: a visited column
      of `dict` with a missing cell is filled from its default, every
      other column is as it was. */
  function ReplacedUpTo(df: Frame, defaults: map<string, string>, dict: set<string>, done: set<string>): map<string, seq<Value>>
    requires Fillable(df, defaults, dict)
  {
    map c | c in df.data ::
      if c in done && c in dict && Missing in df.data[c] then FillNa(df.data[c], defaults[c]) else df.data[c]
  }

  /** The frame `replace_nas(df, dict)` leaves. */
  function NasReplaced(df: Frame, defaults: map<string, string>, dict: set<string>): (r: Frame)
    requires Fillable(df, defaults, dict)
    ensures r.columns == df.columns && r.height == df.height && r.data.Keys == df.data.Keys
  {
    Frame(df.columns, ReplacedUpTo(df, defaults, dict, df.data.Keys), df.height)
  }

  /** `for value in df.columns: if df[value].isna().any() and value in
      Dict: df[value].fillna(impute_values[value], inplace=True)`. */
  method ReplaceNas(df: Frame, defaults: map<string, string>, dict: set<string>) returns (out: Frame)
    requires WellFormed(df) && Fillable(df, defaults, dict)
    ensures out == NasReplaced(df, defaults, dict)
  {
    out := df;
    var i := 0;
    while i < |df.columns|
      invariant 0 <= i <= |df.columns|
      invariant out.columns == df.columns && out.height == df.height
      invariant ReplacedCells(df, defaults, dict, i, out.data)
    {
      var value := df.columns[i];
      ReplaceStep(df, defaults, dict, i, out.data);
      if Missing in out.data[value] && value in dict {
        out := out.(data := out.data[value := FillNa(out.data[value], defaults[value])]);
      }
      i := i + 1;
    }
    ReplacedFromCells(df, defaults, dict, out);
  }

  /** The cells after the first `i` columns were visited: a visited column
      of `dict` with a missing cell is filled from its default, every other
      column is as it was. */
  ghost predicate ReplacedCells(df: Frame, defaults: map<string, string>, dict: set<string>, i: nat, cells: map<string, seq<Value>>)
    requires Fillable(df, defaults, dict) && i <= |df.columns|
  {
    && cells.Keys == df.data.Keys
    && forall c :: c in cells ==>
         cells[c] == if c in df.columns[..i] && c in dict && Missing in df.data[c]
                     then FillNa(df.data[c], defaults[c]) else df.data[c]
  }

  /** One turn of the column loop: column `i` is untouched so far, and
      filling it (when it has a missing cell and is in `dict`) or leaving
      it gives the cells after `i + 1` columns. */
  lemma ReplaceStep(df: Frame, defaults: map<string, string>, dict: set<string>, i: nat, cells: map<string, seq<Value>>)
    requires WellFormed(df) && Fillable(df, defaults, dict) && i < |df.columns|
    requires ReplacedCells(df, defaults, dict, i, cells)
    ensures var v := df.columns[i];
            && v in cells && cells[v] == df.data[v]
            && (Missing in cells[v] && v in dict ==>
                  ReplacedCells(df, defaults, dict, i + 1, cells[v := FillNa(cells[v], defaults[v])]))
            && (!(Missing in cells[v] && v in dict) ==> ReplacedCells(df, defaults, dict, i + 1, cells))
  {
    var v := df.columns[i];
    KeysPrefixStep(df.columns, i);
    assert v in df.data;
    if Missing in cells[v] && v in dict {
      var next := cells[v := FillNa(cells[v], defaults[v])];
      forall c | c in next
        ensures next[c] == if c in df.columns[..i + 1] && c in dict && Missing in df.data[c]
                           then FillNa(df.data[c], defaults[c]) else df.data[c]
      {
        if c != v {
          assert next[c] == cells[c];
        }
      }
    }
  }

  /** After the loop the cells are those of `NasReplaced`. */
  lemma ReplacedFromCells(df: Frame, defaults: map<string, string>, dict: set<string>, out: Frame)
    requires WellFormed(df) && Fillable(df, defaults, dict)
    requires out.columns == df.columns && out.height == df.height
    requires ReplacedCells(df, defaults, dict, |df.columns|, out.data)
    ensures out == NasReplaced(df, defaults, dict)
  {
    assert df.columns[..|df.columns|] == df.columns;
  }

  /** What `replace_nas` does to one cell: a present cell is kept, a
      missing cell of a column in `dict` gets the column's default, and a
      missing cell of any other column stays missing. */
  lemma ReplaceNasCells(df: Frame, defaults: map<string, string>, dict: set<string>, c: string, i: nat)
    requires WellFormed(df) && Fillable(df, defaults, dict)
    requires c in df.data && i < df.height
    ensures var out := NasReplaced(df, defaults, dict);
            && out.columns == df.columns && out.height == df.height && c in out.data
            && (df.data[c][i].Present? ==> out.data[c][i] == df.data[c][i])
            && (df.data[c][i].Missing? && c in dict ==> out.data[c][i] == Present(defaults[c]))
            && (df.data[c][i].Missing? && c !in dict ==> out.data[c][i] == Missing)
  {
    assert df.data[c][i].Missing? ==> Missing in df.data[c];
  }

  /** After `replace_nas` no column of `dict` has a missing cell, the frame
      is still well formed, and a second pass changes nothing. */
  lemma ReplaceNasComplete(df: Frame, defaults: map<string, string>, dict: set<string>)
    requires WellFormed(df) && Fillable(df, defaults, dict)
    ensures var out := NasReplaced(df, defaults, dict);
            && WellFormed(out)
            && (forall c :: c in dict && c in out.data ==> Missing !in out.data[c])
            && Fillable(out, defaults, dict)
            && NasReplaced(out, defaults, dict) == out
  {
    var out := NasReplaced(df, defaults, dict);
    forall c | c in dict && c in out.data ensures Missing !in out.data[c] {
      if Missing in df.data[c] {
        FillNaComplete(df.data[c], defaults[c]);
      }
    }
    assert NasReplaced(out, defaults, dict).data == out.data;
  }

  /* ---------------- impute ---------------- */

  /** `np.nan if pd.isnull(x) or x == "." or x == 'NA' else float(x)`
      (the float parse is not modelled: the text is kept). */
  function RfToken(v: Value): (r: Value)
    ensures r.Missing? <==> v.Missing? || v == Present(".") || v == Present("NA")
    ensures r.Present? ==> r == v
  {
    if v.Missing? || v == Present(".") || v == Present("NA") then Missing else v
  }

  /** The frame with the `dbscSNV-rf_score` column re-tokenised. */
  function MapRf(df: Frame): (r: Frame)
    requires WellFormed(df) && RfScore in df.data
    ensures WellFormed(r) && r.columns == df.columns && r.height == df.height
    ensures forall c :: c in df.data && c != RfScore ==> r.data[c] == df.data[c]
  {
    var col := df.data[RfScore];
    df.(data := df.data[RfScore := seq(|col|, i requires 0 <= i < |col| => RfToken(col[i]))])
  }

  /** `impute(df)`: drop the rows with no CADD feature, re-tokenise
      `dbscSNV-rf_score`, drop the rows with nothing at all, then fill.
      The module tables are parameters: `impute(df)` is
      `Impute(df, CaddVars, ImputeValues)`, and `ImputeTablesFit` shows
      those tables meet what the lemmas below ask of them. */
  function Impute(df: Frame, vars: seq<string>, defaults: map<string, string>): (r: Frame)
    requires WellFormed(df) && RfScore in df.data
    requires forall c :: c in vars ==> c in df.data
    ensures WellFormed(r) && r.columns == df.columns && r.data.Keys == df.data.Keys
  {
    var d1 := DropNa(df, vars);
    var d2 := MapRf(d1);
    var d3 := DropNa(d2, d2.columns);
    ReplaceNasComplete(d3, defaults, defaults.Keys);
    NasReplaced(d3, defaults, defaults.Keys)
  }

  /** The rf score is a CADD feature, and its default is the number 0. */
  lemma ImputeTablesFit()
    ensures RfScore in CaddVars && RfScore in ImputeValues && ImputeValues[RfScore] == "0"
  {
  }

  /** After `impute` the frame keeps its columns and no column with a
      default has a missing cell. */
  lemma ImputeFillsEveryDefault(df: Frame, vars: seq<string>, defaults: map<string, string>)
    requires WellFormed(df) && RfScore in df.data
    requires forall c :: c in vars ==> c in df.data
    ensures var out := Impute(df, vars, defaults);
            && WellFormed(out) && out.columns == df.columns
            && (forall c :: c in defaults && c in out.data ==> Missing !in out.data[c])
  {
    var d1 := DropNa(df, vars);
    var d2 := MapRf(d1);
    var d3 := DropNa(d2, d2.columns);
    ReplaceNasComplete(d3, defaults, defaults.Keys);
  }

  /** After `impute` the `dbscSNV-rf_score` column holds neither `"."` nor
      `"NA"`: those became missing and then the column's default, which is
      neither. */
  lemma ImputeCleansRfScore(df: Frame, vars: seq<string>, defaults: map<string, string>, j: nat)
    requires WellFormed(df) && RfScore in df.data
    requires forall c :: c in vars ==> c in df.data
    requires RfScore in defaults && defaults[RfScore] != "." && defaults[RfScore] != "NA"
    requires j < Impute(df, vars, defaults).height
    ensures RfScore in Impute(df, vars, defaults).data
    ensures var v := Impute(df, vars, defaults).data[RfScore][j];
            v.Present? && v != Present(".") && v != Present("NA")
  {
    var d1 := DropNa(df, vars);
    var d2 := MapRf(d1);
    var d3 := DropNa(d2, d2.columns);
    ReplaceNasCells(d3, defaults, defaults.Keys, RfScore, j);
    var ks := KeptRows(d2, d2.columns, d2.height);
    assert d3.data[RfScore][j] == d2.data[RfScore][ks[j]];
  }

  /** What `impute` makes of one cell of column `c`: the rf score is
      re-tokenised, then a missing cell of a column with a default gets
      that default. */
  function ImputedCell(defaults: map<string, string>, c: string, v: Value): (r: Value)
    requires RfScore in defaults
    ensures v.Present? && c != RfScore ==> r == v
    ensures r.Missing? <==> c !in defaults && v.Missing?
  {
    var t := if c == RfScore then RfToken(v) else v;
    if t.Missing? && c in defaults then Present(defaults[c]) else t
  }

  /** The row of the input that row `j` of the `impute` result comes
      from: `ks1[ks3[j]]`, where `ks1` are the rows the first `dropna`
      keeps and `ks3` those the second keeps. */
  ghost function Origin(df: Frame, vars: seq<string>, defaults: map<string, string>, j: nat): (i: nat)
    requires WellFormed(df) && RfScore in df.data
    requires forall c :: c in vars ==> c in df.data
    requires j < Impute(df, vars, defaults).height
    ensures i < df.height && HasValue(df, i, vars)
  {
    var ks1 := KeptRows(df, vars, df.height);
    var d2 := MapRf(DropNa(df, vars));
    var ks3 := KeptRows(d2, d2.columns, d2.height);
    assert ks1[ks3[j]] in ks1;
    ks1[ks3[j]]
  }

  /** Every row of the `impute` result is its origin row, cell by cell
      imputed as `ImputedCell` says; the origin has a CADD feature. */
  lemma ImputeRowOrigin(df: Frame, vars: seq<string>, defaults: map<string, string>, j: nat)
    requires WellFormed(df) && RfScore in df.data && RfScore in defaults
    requires forall c :: c in vars ==> c in df.data
    requires j < Impute(df, vars, defaults).height
    ensures forall c :: c in df.data ==> c in Impute(df, vars, defaults).data
    ensures forall c :: c in df.data ==>
              Impute(df, vars, defaults).data[c][j] == ImputedCell(defaults, c, df.data[c][Origin(df, vars, defaults, j)])
  {
    var d1 := DropNa(df, vars);
    var d2 := MapRf(d1);
    var d3 := DropNa(d2, d2.columns);
    var ks1 := KeptRows(df, vars, df.height);
    var ks3 := KeptRows(d2, d2.columns, d2.height);
    var j1 := ks3[j];
    var i := ks1[j1];
    var out := Impute(df, vars, defaults);
    assert i == Origin(df, vars, defaults, j);
    forall c | c in df.data ensures c in out.data && out.data[c][j] == ImputedCell(defaults, c, df.data[c][i]) {
      CellThroughImpute(d1, d2, d3, defaults, c, i, j1, j);
    }
  }

  /** One cell on its way through `impute`: kept by the first `dropna` at
      `j1`, re-tokenised, kept by the second at `j`, then filled. */
  lemma CellThroughImpute(d1: Frame, d2: Frame, d3: Frame, defaults: map<string, string>,
                          c: string, i: nat, j1: nat, j: nat)
    requires WellFormed(d1) && RfScore in d1.data && RfScore in defaults && c in d1.data && j1 < d1.height
    requires d2 == MapRf(d1) && d3 == DropNa(d2, d2.columns) && j < d3.height
    requires KeptRows(d2, d2.columns, d2.height)[j] == j1
    ensures c in NasReplaced(d3, defaults, defaults.Keys).data
    ensures NasReplaced(d3, defaults, defaults.Keys).data[c][j] == ImputedCell(defaults, c, d1.data[c][j1])
  {
    assert d3.data[c][j] == d2.data[c][j1];
    ReplaceNasCells(d3, defaults, defaults.Keys, c, j);
  }

  /** A row of the input with a value in a CADD feature other than the rf
      score survives `impute`. */
  lemma ImputeKeepsFeatureRows(df: Frame, vars: seq<string>, defaults: map<string, string>, i: nat, c: string)
    returns (j: nat)
    requires WellFormed(df) && RfScore in df.data
    requires forall c :: c in vars ==> c in df.data
    requires i < df.height && c in vars && c != RfScore && df.data[c][i].Present?
    ensures j < Impute(df, vars, defaults).height && Origin(df, vars, defaults, j) == i
  {
    var d1 := DropNa(df, vars);
    var d2 := MapRf(d1);
    var ks1 := KeptRows(df, vars, df.height);
    DropNaRows(df, vars, i);
    var j1 :| 0 <= j1 < |ks1| && ks1[j1] == i;
    assert d2.data[c][j1] == d1.data[c][j1] == df.data[c][i];
    assert c in d2.columns;
    assert HasValue(d2, j1, d2.columns);
    var ks3 := KeptRows(d2, d2.columns, d2.height);
    DropNaRows(d2, d2.columns, j1);
    j :| 0 <= j < |ks3| && ks3[j] == j1;
  }

  /* ---------------- levelling (process_categoricalvars) ---------------- */

  const Other: string := "other"

  /** `np.where(col.isin(featNames), col, "other")` on one cell: a kept
      level stays, anything else (a missing cell too) becomes `"other"`. */
  function Level(v: Value, kept: seq<string>): (r: Value)
    ensures r.Present? && (r.text in kept || r.text == Other)
    ensures v.Present? && v.text in kept ==> r == v
    ensures !(v.Present? && v.text in kept) ==> r == Present(Other)
  {
    if v.Present? && v.text in kept then v else Present(Other)
  }

  function LevelColumn(col: seq<Value>, kept: seq<string>): (r: seq<Value>)
    ensures |r| == |col|
    ensures forall i {:trigger r[i]} :: 0 <= i < |col| ==> r[i] == Level(col[i], kept)
  {
    seq(|col|, i requires 0 <= i < |col| => Level(col[i], kept))
  }

  /** The frame with every column of `kept` levelled against its list. */
  function Levelled(df: Frame, kept: map<string, seq<string>>): (r: Frame)
    ensures r.columns == df.columns && r.height == df.height && r.data.Keys == df.data.Keys
  {
    Frame(df.columns, map c | c in df.data :: if c in kept then LevelColumn(df.data[c], kept[c]) else df.data[c], df.height)
  }

  /** The levels training keeps: for every feature with a limit, its
      `limit` most frequent values. */
  function TrainingLevels(df: Frame, limits: ODict<nat>): (kept: map<string, seq<string>>)
    ensures kept.Keys == limits.entries.Keys * df.data.Keys
  {
    map c | c in limits.entries && c in df.data :: TopCategories(Texts(df.data[c]), limits.entries[c])
  }

  /** The level lists a run uses: computed from the data in training,
      taken from the model's feature names in inference. */
  function KeptLevels(df: Frame, isTrain: bool, limits: ODict<nat>, names: ODict<seq<string>>): map<string, seq<string>> {
    if isTrain then TrainingLevels(df, limits) else names.entries
  }

  /** The first `i + 1` keys are the first `i` and key `i`, which is
      not among them. */
  lemma KeysPrefixStep(keys: seq<string>, i: nat)
    requires i < |keys|
    requires forall a, b :: 0 <= a < b < |keys| ==> keys[a] != keys[b]
    ensures keys[i] !in keys[..i]
    ensures forall c :: c in keys[..i + 1] <==> c in keys[..i] || c == keys[i]
  {
    assert keys[..i + 1] == keys[..i] + [keys[i]];
    forall j | 0 <= j < i ensures keys[..i][j] != keys[i] {
      assert keys[..i][j] == keys[j];
    }
  }

  /** The keys the loop visits are the level dictionary's, in insertion
      order, each once, and all of them columns of the frame; the names
      the loop picks for a key are that key's kept levels. */
  lemma KeptLevelsOrder(df: Frame, isTrain: bool, limits: ODict<nat>, names: ODict<seq<string>>)
    requires isTrain ==> limits.Valid() && forall c :: c in limits.entries ==> c in df.data
    requires !isTrain ==> names.Valid() && forall c :: c in names.entries ==> c in df.data
    ensures var keys := if isTrain then limits.order else names.order;
            var kept := KeptLevels(df, isTrain, limits, names);
            && (forall c :: c in keys <==> c in kept)
            && (forall c :: c in keys ==> c in df.data)
            && (forall a, b :: 0 <= a < b < |keys| ==> keys[a] != keys[b])
            && (isTrain ==> forall c :: c in keys ==>
                  c in limits.entries && kept[c] == TopCategories(Texts(df.data[c]), limits.entries[c]))
            && (!isTrain ==> forall c :: c in keys ==> c in names.entries && kept[c] == names.entries[c])
  {
  }

  /** A frame whose cells are those of `df`, with exactly the columns
      of `kept` levelled, is `Levelled(df, kept)`. */
  lemma LevelledFromCells(df: Frame, kept: map<string, seq<string>>, keys: seq<string>, out: Frame)
    requires forall c :: c in keys <==> c in kept
    requires out.columns == df.columns && out.height == df.height && out.data.Keys == df.data.Keys
    requires forall c :: c in out.data ==>
               out.data[c] == if c in keys then LevelColumn(df.data[c], kept[c]) else df.data[c]
    ensures out == Levelled(df, kept)
  {
  }

  /** The levelling loop of `process_categoricalvars`: for every key of
      the level dictionary in order, in training `featNames` are the
      column's most frequent values, in inference the stored level names,
      and the column is collapsed onto them. The loop itself is
      `LevelColumns`. */
  method LevelCategoricals(df: Frame, isTrain: bool, limits: ODict<nat>, names: ODict<seq<string>>)
    returns (out: Frame)
    requires WellFormed(df)
    requires isTrain ==> limits.Valid() && forall c :: c in limits.entries ==> c in df.data
    requires !isTrain ==> names.Valid() && forall c :: c in names.entries ==> c in df.data
    ensures out == Levelled(df, KeptLevels(df, isTrain, limits, names))
  {
    var keys := if isTrain then limits.order else names.order;
    ghost var kept := KeptLevels(df, isTrain, limits, names);
    KeptLevelsOrder(df, isTrain, limits, names);
    out := LevelColumns(df, isTrain, limits, names, keys, kept);
    LevelledFromCells(df, kept, keys, out);
  }

  /** `for catFeat in dictionary.keys()`: each key in turn has its
      column collapsed onto the names picked for it, which are its kept
      levels `kept`; after the loop exactly the visited columns are
      levelled. */
  method LevelColumns(df: Frame, isTrain: bool, limits: ODict<nat>, names: ODict<seq<string>>,
                      keys: seq<string>, ghost kept: map<string, seq<string>>)
    returns (out: Frame)
    requires WellFormed(df)
    requires forall a, b :: 0 <= a < b < |keys| ==> keys[a] != keys[b]
    requires forall k :: k in keys ==> k in kept && k in df.data
    requires isTrain ==> forall k :: k in keys ==>
               k in limits.entries && kept[k] == TopCategories(Texts(df.data[k]), limits.entries[k])
    requires !isTrain ==> forall k :: k in keys ==> k in names.entries && kept[k] == names.entries[k]
    ensures out.columns == df.columns && out.height == df.height && out.data.Keys == df.data.Keys
    ensures forall c :: c in out.data ==>
              out.data[c] == if c in keys then LevelColumn(df.data[c], kept[c]) else df.data[c]
  {
    out := df;
    var i := 0;
    while i < |keys|
      invariant 0 <= i <= |keys|
      invariant out.columns == df.columns && out.height == df.height && out.data.Keys == df.data.Keys
      invariant forall c :: c in out.data ==>
                  out.data[c] == if c in keys[..i] then LevelColumn(df.data[c], kept[c]) else df.data[c]
    {
      var catFeat := keys[i];
      KeysPrefixStep(keys, i);
      assert catFeat in keys;
      var featNames := if isTrain then TopCategories(Texts(out.data[catFeat]), limits.entries[catFeat])
                       else names.entries[catFeat];
      out := out.(data := out.data[catFeat := LevelColumn(out.data[catFeat], featNames)]);
      i := i + 1;
    }
    assert keys[..i] == keys;
  }

  /** After levelling, a levelled column holds only its kept levels and
      `"other"`, a kept level is left where it was, every other column is
      untouched, and the shape is the same. */
  lemma LevelledCells(df: Frame, kept: map<string, seq<string>>, c: string, i: nat)
    requires WellFormed(df) && c in df.data && i < df.height
    ensures var out := Levelled(df, kept);
            && WellFormed(out) && out.columns == df.columns && out.height == df.height && c in out.data
            && (c in kept ==> out.data[c][i].Present? && (out.data[c][i].text in kept[c] || out.data[c][i].text == Other))
            && (c in kept && df.data[c][i].Present? && df.data[c][i].text in kept[c] ==> out.data[c][i] == df.data[c][i])
            && (c in kept && !(df.data[c][i].Present? && df.data[c][i].text in kept[c]) ==> out.data[c][i] == Present(Other))
            && (c !in kept ==> out.data[c] == df.data[c])
  {
  }

  /** Levelling twice against the same levels is levelling once. */
  lemma LevelledIdempotent(df: Frame, kept: map<string, seq<string>>)
    ensures Levelled(Levelled(df, kept), kept) == Levelled(df, kept)
  {
    var once := Levelled(df, kept);
    forall c | c in once.data && c in kept
      ensures LevelColumn(once.data[c], kept[c]) == once.data[c]
    {
      var col := once.data[c];
      forall i | 0 <= i < |col| ensures Level(col[i], kept[c]) == col[i] {
        assert col[i] == Level(df.data[c][i], kept[c]);
      }
    }
  }

  /** In training a levelled column keeps at most `limit` values besides
      `"other"`, and none it drops is more frequent than one it keeps. */
  lemma TrainingLevelsAreTopCategories(df: Frame, limits: ODict<nat>, c: string, u: string, v: string)
    requires c in limits.entries && c in df.data
    requires u in TrainingLevels(df, limits)[c]
    requires Present(v) in df.data[c] && v !in TrainingLevels(df, limits)[c]
    ensures |TrainingLevels(df, limits)[c]| <= limits.entries[c]
    ensures Count(Texts(df.data[c]), u) >= Count(Texts(df.data[c]), v)
  {
    var xs := Texts(df.data[c]);
    TopCategoriesShape(xs, limits.entries[c]);
    TopCategoriesAreMostFrequent(xs, limits.entries[c], u, v);
  }

  /** `process_categoricalvars` up to its encoding step: level the
      categorical columns, then hand the frame and the categorical
      features to the one-hot encoder `oneHot` (`pd.get_dummies`). */
  method ProcessCategoricalvars(data: Frame, featCaddObject: seq<string>, isTrain: bool,
                                limits: ODict<nat>, names: ODict<seq<string>>,
                                oneHot: (Frame, seq<string>) -> Frame)
    returns (out: Frame)
    requires WellFormed(data)
    requires isTrain ==> limits.Valid() && forall c :: c in limits.entries ==> c in data.data
    requires !isTrain ==> names.Valid() && forall c :: c in names.entries ==> c in data.data
    ensures out == oneHot(Levelled(data, KeptLevels(data, isTrain, limits, names)), featCaddObject)
  {
    var levelled := LevelCategoricals(data, isTrain, limits, names);
    out := oneHot(levelled, featCaddObject);
  }

  /* ---------------- level limits (training) ---------------- */

  /** Levels kept for a categorical feature that has no preset limit. */
  const DefaultLevels: nat := 5

  /** `{"Ref": 5, "Alt": 5, "Domain": 5}` of `preprocess`. */
  const PresetLimits: ODict<nat> := ODict(["Ref", "Alt", "Domain"], map["Ref" := 5, "Alt" := 5, "Domain" := 5])

  /** `{"Ref": 5, "Alt": 5, "Domain": 5, "Consequence": 5}` of
      `preprocess_withConsequence`. */
  const PresetLimitsWithConsequence: ODict<nat> :=
    ODict(["Ref", "Alt", "Domain", "Consequence"], map["Ref" := 5, "Alt" := 5, "Domain" := 5, "Consequence" := 5])

  /** The preset dictionary after `for feat in feat_cadd_object: if feat
      not in d: d[feat] = 5`. */
  function LimitsFor(feats: seq<string>, preset: ODict<nat>): (d: ODict<nat>)
    requires preset.Valid()
    ensures d.Valid()
  {
    if feats == [] then preset
    else
      var prev := LimitsFor(feats[..|feats| - 1], preset);
      var f := feats[|feats| - 1];
      if f in prev.entries then prev else Put(prev, f, DefaultLevels)
  }

  method LevelLimits(feats: seq<string>, preset: ODict<nat>) returns (d: ODict<nat>)
    requires preset.Valid()
    ensures d == LimitsFor(feats, preset)
  {
    d := preset;
    var i := 0;
    while i < |feats|
      invariant 0 <= i <= |feats|
      invariant d == LimitsFor(feats[..i], preset)
    {
      var feat := feats[i];
      assert feats[..i + 1][..i] == feats[..i];
      if feat !in d.entries {
        d := Put(d, feat, DefaultLevels);
      }
      i := i + 1;
    }
    assert feats[..i] == feats;
  }

  /** Every categorical feature gets a limit: a preset one keeps its own,
      any other gets the default; the preset keys stay first. */
  lemma {:induction false} LimitsForSpec(feats: seq<string>, preset: ODict<nat>)
    requires preset.Valid()
    ensures var d := LimitsFor(feats, preset);
            && (forall k :: k in d.entries <==> k in preset.entries || k in feats)
            && (forall k :: k in preset.entries ==> d.entries[k] == preset.entries[k])
            && (forall k :: k in d.entries && k !in preset.entries ==> d.entries[k] == DefaultLevels)
            && |preset.order| <= |d.order| && d.order[..|preset.order|] == preset.order
  {
    if feats != [] {
      var init, f := feats[..|feats| - 1], feats[|feats| - 1];
      LimitsForSpec(init, preset);
      var prev := LimitsFor(init, preset);
      assert feats == init + [f];
      assert forall k :: k in feats <==> k in init || k == f;
      if f !in prev.entries {
        assert (prev.order + [f])[..|preset.order|] == prev.order[..|preset.order|];
      }
    }
  }

  /** With either preset every categorical feature of the table keeps at
      most five levels in training. */
  lemma LimitsAreFive(feats: seq<string>, withConsequence: bool)
    ensures var d := LimitsFor(feats, if withConsequence then PresetLimitsWithConsequence else PresetLimits);
            forall k :: k in feats ==> k in d.entries && d.entries[k] == 5
  {
    var preset := if withConsequence then PresetLimitsWithConsequence else PresetLimits;
    LimitsForSpec(feats, preset);
  }

  /* ---------------- level names (inference) ---------------- */

  /** `'_'.join(name.split('_')[1:])`: a feature name without its first
      `_`-separated component. */
  function LevelName(name: string): string {
    Join(Split(name, '_')[1..], '_')
  }

  /** The column `f_level` that `get_dummies` makes for level `level` of a
      feature `f` without `_` gives the level back. */
  lemma LevelNameOfDummy(f: string, level: string)
    requires '_' !in f
    ensures LevelName(f + "_" + level) == level
  {
    SplitAfterField(f, level, '_');
    assert f + "_" + level == f + ['_'] + level;
    JoinSplit(level, '_');
  }

  /** The level names of the model features whose name contains `f`, in
      model order. */
  function Matches(f: string, names: seq<string>): (ms: seq<string>)
    ensures |ms| <= |names|
  {
    if names == [] then []
    else
      var prev := Matches(f, names[..|names| - 1]);
      var n := names[|names| - 1];
      if Contains(n, f) then prev + [LevelName(n)] else prev
  }

  /** A level name is collected exactly when some model feature containing
      `f` yields it. */
  lemma {:induction false} MatchesMembers(f: string, names: seq<string>, x: string)
    ensures x in Matches(f, names) <==> exists k :: 0 <= k < |names| && Contains(names[k], f) && LevelName(names[k]) == x
  {
    if names != [] {
      var init := names[..|names| - 1];
      MatchesMembers(f, init, x);
      if x in Matches(f, init) {
        var k :| 0 <= k < |init| && Contains(init[k], f) && LevelName(init[k]) == x;
        assert names[k] == init[k];
      }
      if exists k :: 0 <= k < |names| && Contains(names[k], f) && LevelName(names[k]) == x {
        var k :| 0 <= k < |names| && Contains(names[k], f) && LevelName(names[k]) == x;
        if k < |init| {
          assert init[k] == names[k];
        }
      }
    }
  }

  /** The dummy columns `f_l1, …, f_ln` of a feature without `_` give back
      its levels `l1, …, ln`, in order. */
  lemma {:induction false} MatchesOfDummies(f: string, levels: seq<string>)
    requires '_' !in f
    ensures Matches(f, seq(|levels|, i requires 0 <= i < |levels| => f + "_" + levels[i])) == levels
  {
    var names := seq(|levels|, i requires 0 <= i < |levels| => f + "_" + levels[i]);
    if levels != [] {
      var init := levels[..|levels| - 1];
      var last := levels[|levels| - 1];
      MatchesOfDummies(f, init);
      assert names[..|names| - 1] == seq(|init|, i requires 0 <= i < |init| => f + "_" + init[i]);
      assert StartsWith(names[|names| - 1], f);
      LevelNameOfDummy(f, last);
      assert levels == init + [last];
    }
  }

  /** `d[f].append(l)` when `f` is a key, `d[f] = [l]` otherwise, for
      every `l` of `ls` in turn. */
  function Extend(d: ODict<seq<string>>, f: string, ls: seq<string>): (r: ODict<seq<string>>)
    requires d.Valid()
    ensures r.Valid()
  {
    if ls == [] then d else Put(d, f, (if f in d.entries then d.entries[f] else []) + ls)
  }

  lemma ExtendSnoc(d: ODict<seq<string>>, f: string, ls: seq<string>, x: string)
    requires d.Valid()
    ensures var e := Extend(d, f, ls);
            Extend(d, f, ls + [x]) == Put(e, f, (if f in e.entries then e.entries[f] else []) + [x])
  {
    if ls == [] {
      assert [] + [x] == [x];
    } else {
      var base := if f in d.entries then d.entries[f] else [];
      assert base + (ls + [x]) == base + ls + [x];
      PutTwice(d, f, base + ls, base + ls + [x]);
    }
  }

  /** The dictionary the nested loops of `preprocess` build: for every
      categorical feature in order, the level names of the model features
      that contain it. */
  function NamesFor(feats: seq<string>, modelFeatures: seq<string>): (d: ODict<seq<string>>)
    ensures d.Valid()
  {
    if feats == [] then Empty()
    else
      var f := feats[|feats| - 1];
      Extend(NamesFor(feats[..|feats| - 1], modelFeatures), f, Matches(f, modelFeatures))
  }

  lemma NamesForSnoc(feats: seq<string>, modelFeatures: seq<string>, i: nat)
    requires i < |feats|
    ensures NamesFor(feats[..i + 1], modelFeatures)
            == Extend(NamesFor(feats[..i], modelFeatures), feats[i], Matches(feats[i], modelFeatures))
  {
    assert feats[..i + 1][..i] == feats[..i];
  }

  /** One model feature more in the inner loop. */
  lemma MatchStep(d0: ODict<seq<string>>, f: string, names: seq<string>, j: nat)
    requires d0.Valid() && j < |names|
    ensures var d := Extend(d0, f, Matches(f, names[..j]));
            var x := LevelName(names[j]);
            && (Contains(names[j], f) && f in d.entries ==> Extend(d0, f, Matches(f, names[..j + 1])) == Put(d, f, d.entries[f] + [x]))
            && (Contains(names[j], f) && f !in d.entries ==> Extend(d0, f, Matches(f, names[..j + 1])) == Put(d, f, [x]))
            && (!Contains(names[j], f) ==> Extend(d0, f, Matches(f, names[..j + 1])) == d)
  {
    assert names[..j + 1][..j] == names[..j];
    ExtendSnoc(d0, f, Matches(f, names[..j]), LevelName(names[j]));
    assert [] + [LevelName(names[j])] == [LevelName(names[j])];
  }

  /** `for feature in feat_cadd_object: for name in model_features: if
      feature in name: …append('_'.join(name.split('_')[1:]))`. */
  method CategoricalLevelNames(feats: seq<string>, modelFeatures: seq<string>) returns (d: ODict<seq<string>>)
    ensures d == NamesFor(feats, modelFeatures)
  {
    d := Empty();
    var i := 0;
    assert feats[..0] == [];
    while i < |feats|
      invariant 0 <= i <= |feats|
      invariant d == NamesFor(feats[..i], modelFeatures)
    {
      var feature := feats[i];
      ghost var d0 := d;
      var j := 0;
      assert modelFeatures[..0] == [];
      while j < |modelFeatures|
        invariant 0 <= j <= |modelFeatures|
        invariant d0.Valid()
        invariant d == Extend(d0, feature, Matches(feature, modelFeatures[..j]))
      {
        var name := modelFeatures[j];
        MatchStep(d0, feature, modelFeatures, j);
        if Contains(name, feature) {
          var expanded := LevelName(name);
          if feature in d.entries {
            d := Put(d, feature, d.entries[feature] + [expanded]);
          } else {
            d := Put(d, feature, [expanded]);
          }
        }
        j := j + 1;
      }
      assert modelFeatures[..j] == modelFeatures;
      NamesForSnoc(feats, modelFeatures, i);
      i := i + 1;
    }
    assert feats[..i] == feats;
  }

  /** For distinct categorical features, a feature is a key exactly when
      some model feature contains it, and its levels are the level names
      of those model features, in model order. */
  lemma {:induction false} NamesForSpec(feats: seq<string>, modelFeatures: seq<string>)
    requires Unique(feats)
    ensures var d := NamesFor(feats, modelFeatures);
            && (forall f :: f in d.entries <==> f in feats && Matches(f, modelFeatures) != [])
            && (forall f :: f in d.entries ==> d.entries[f] == Matches(f, modelFeatures))
  {
    if feats != [] {
      var init := feats[..|feats| - 1];
      var f := feats[|feats| - 1];
      assert Unique(init);
      assert f !in init by {
        forall k | 0 <= k < |init| ensures init[k] != f {
          assert init[k] == feats[k];
        }
      }
      NamesForSpec(init, modelFeatures);
      assert feats == init + [f];
    }
  }

  /** Every key of the level-name dictionary is a categorical feature. */
  lemma {:induction false} NamesForKeys(feats: seq<string>, modelFeatures: seq<string>)
    ensures forall f :: f in NamesFor(feats, modelFeatures).entries ==> f in feats
  {
    if feats != [] {
      var init := feats[..|feats| - 1];
      NamesForKeys(init, modelFeatures);
      assert feats == init + [feats[|feats| - 1]];
    }
  }

  /** The containment test is a substring test: a feature whose name
      occurs inside another feature `g` collects the levels of `g`'s dummy
      columns too (`Type` those of `Dst2SplType`, for instance). */
  lemma SubstringCollectsForeignLevels(f: string, g: string, level: string)
    requires Contains(g, f) && '_' !in g
    ensures var d := NamesFor([f], [g + "_" + level]);
            f in d.entries && d.entries[f] == [level]
  {
    var n := g + "_" + level;
    assert n == g + ("_" + level);
    ContainsExtended(g, "_" + level, f);
    LevelNameOfDummy(g, level);
    assert [n][..0] == [];
    var m := Matches(f, [n]);
    assert m == [level];
    NamesForSnoc([f], [n], 0);
    assert [f][..1] == [f] && [f][..0] == [];
    assert [] + m == m;
  }

  /* ---------------- zero fill (inference) ---------------- */

  /** The frame after `for col in model_features: if col not in df:
      df[col] = 0`. */
  function ZeroFilled(df: Frame, features: seq<string>): (r: Frame) {
    if features == [] then df
    else
      var prev := ZeroFilled(df, features[..|features| - 1]);
      var col := features[|features| - 1];
      if col in prev.data then prev else AddColumn(prev, col, Present("0"))
  }

  method ZeroFill(df: Frame, features: seq<string>) returns (out: Frame)
    ensures out == ZeroFilled(df, features)
  {
    out := df;
    var i := 0;
    while i < |features|
      invariant 0 <= i <= |features|
      invariant out == ZeroFilled(df, features[..i])
    {
      var col := features[i];
      assert features[..i + 1][..i] == features[..i];
      if col !in out.data {
        out := AddColumn(out, col, Present("0"));
      }
      i := i + 1;
    }
    assert features[..i] == features;
  }

  /** After the zero fill every model feature is a column; the columns
      that were there keep their cells and their place in front; every
      added column is a model feature filled with `0`; the frame keeps its
      height and stays well formed. */
  lemma {:induction false} ZeroFilledSpec(df: Frame, features: seq<string>)
    ensures var r := ZeroFilled(df, features);
            && r.height == df.height
            && (forall c :: c in r.data <==> c in df.data || c in features)
            && (forall c :: c in df.data ==> r.data[c] == df.data[c])
            && (forall c :: c in r.data && c !in df.data ==>
                  |r.data[c]| == df.height && forall i :: 0 <= i < |r.data[c]| ==> r.data[c][i] == Present("0"))
            && |df.columns| <= |r.columns| && r.columns[..|df.columns|] == df.columns
            && (WellFormed(df) ==> WellFormed(r))
  {
    if features != [] {
      var init := features[..|features| - 1];
      var col := features[|features| - 1];
      ZeroFilledSpec(df, init);
      assert features == init + [col];
      var prev := ZeroFilled(df, init);
      if col !in prev.data {
        if WellFormed(df) {
          AddColumnWellFormed(prev, col, Present("0"));
        }
        assert (prev.columns + [col])[..|df.columns|] == prev.columns[..|df.columns|];
      }
    }
  }

  /* ---------------- preprocess / preprocess_withConsequence ---------------- */

  /** The object-typed columns of the table that are CADD features, in
      column order. */
  function FeatCaddObject(columns: seq<string>, objectColumns: set<string>, vars: seq<string>): (fs: seq<string>)
    ensures forall f :: f in fs <==> f in columns && f in objectColumns && f in vars
  {
    if columns == [] then []
    else
      var prev := FeatCaddObject(columns[..|columns| - 1], objectColumns, vars);
      var c := columns[|columns| - 1];
      assert forall f :: f in columns <==> f in columns[..|columns| - 1] || f == c by {
        assert columns == columns[..|columns| - 1] + [c];
      }
      if c in objectColumns && c in vars then prev + [c] else prev
  }

  /** Distinct columns give distinct categorical features. */
  lemma {:induction false} FeatCaddObjectUnique(columns: seq<string>, objectColumns: set<string>, vars: seq<string>)
    requires Unique(columns)
    ensures Unique(FeatCaddObject(columns, objectColumns, vars))
  {
    if columns != [] {
      var init := columns[..|columns| - 1];
      var c := columns[|columns| - 1];
      assert Unique(init);
      FeatCaddObjectUnique(init, objectColumns, vars);
      assert c !in init by {
        forall k | 0 <= k < |init| ensures init[k] != c {
          assert init[k] == columns[k];
        }
      }
      var prev := FeatCaddObject(init, objectColumns, vars);
      if c in objectColumns && c in vars {
        var r := prev + [c];
        forall a, b | 0 <= a < b < |r| ensures r[a] != r[b] {
          if b == |prev| {
            assert r[a] == prev[a];
            assert prev[a] in prev;
          }
        }
      }
    }
  }

  /** The shared body of `preprocess` and `preprocess_withConsequence`:
      the categorical CADD features are the object-typed columns among
      `vars`; training levels them against their limits (a preset feature
      the table lacks is a `KeyError`), inference against the level names
      of the model features (none given is a `TypeError`) and then
      zero-fills the model features the encoding did not produce. */
  method PreprocessWith(imputed: Frame, vars: seq<string>, preset: ODict<nat>, isTrain: bool,
                        modelFeatures: Option<seq<string>>, objectColumns: set<string>,
                        oneHot: (Frame, seq<string>) -> Frame)
    returns (r: Result<Frame, string>)
    requires WellFormed(imputed) && preset.Valid()
    ensures var feats := FeatCaddObject(imputed.columns, objectColumns, vars);
            && (isTrain && (forall c :: c in preset.entries ==> c in imputed.data) ==>
                  r == Ok(oneHot(Levelled(imputed, TrainingLevels(imputed, LimitsFor(feats, preset))), feats)))
            && (isTrain && !(forall c :: c in preset.entries ==> c in imputed.data) ==> r.Err?)
            && (!isTrain && modelFeatures.None? ==> r.Err?)
            && (!isTrain && modelFeatures.Some? ==>
                  r == Ok(ZeroFilled(oneHot(Levelled(imputed, NamesFor(feats, modelFeatures.value).entries), feats),
                                     modelFeatures.value)))
  {
    var feats := FeatCaddObject(imputed.columns, objectColumns, vars);
    if isTrain {
      var limits := LevelLimits(feats, preset);
      LimitsForSpec(feats, preset);
      if forall c :: c in limits.entries ==> c in imputed.data {
        var processed := ProcessCategoricalvars(imputed, feats, true, limits, Empty(), oneHot);
        return Ok(processed);
      }
      return Err("KeyError");
    }
    if modelFeatures.None? {
      return Err("TypeError: 'NoneType' object is not iterable");
    }
    var names := CategoricalLevelNames(feats, modelFeatures.value);
    NamesForKeys(feats, modelFeatures.value);
    var processed := ProcessCategoricalvars(imputed, feats, false, Empty(), names, oneHot);
    var filled := ZeroFill(processed, modelFeatures.value);
    return Ok(filled);
  }

  /** Both preset dictionaries are well-formed ordered dictionaries. */
  lemma PresetsValid()
    ensures PresetLimits.Valid() && PresetLimitsWithConsequence.Valid()
  {
    assert PresetLimits.order == ["Ref", "Alt", "Domain"];
    assert PresetLimitsWithConsequence.order == ["Ref", "Alt", "Domain", "Consequence"];
  }

  lemma PresetPresent(imputed: Frame)
    ensures (forall c :: c in PresetLimits.entries ==> c in imputed.data)
            <==> "Ref" in imputed.data && "Alt" in imputed.data && "Domain" in imputed.data
    ensures (forall c :: c in PresetLimitsWithConsequence.entries ==> c in imputed.data)
            <==> "Ref" in imputed.data && "Alt" in imputed.data && "Domain" in imputed.data && "Consequence" in imputed.data
  {
    assert PresetLimits.entries.Keys == {"Ref", "Alt", "Domain"};
    assert PresetLimitsWithConsequence.entries.Keys == {"Ref", "Alt", "Domain", "Consequence"};
  }

  /** The model features are columns after the zero fill of an inference
      run. */
  lemma InferenceHasModelFeatures(imputed: Frame, vars: seq<string>, modelFeatures: seq<string>,
                                  objectColumns: set<string>, oneHot: (Frame, seq<string>) -> Frame)
    ensures var feats := FeatCaddObject(imputed.columns, objectColumns, vars);
            var out := ZeroFilled(oneHot(Levelled(imputed, NamesFor(feats, modelFeatures).entries), feats), modelFeatures);
            forall c :: c in modelFeatures ==> c in out.data
  {
    var feats := FeatCaddObject(imputed.columns, objectColumns, vars);
    ZeroFilledSpec(oneHot(Levelled(imputed, NamesFor(feats, modelFeatures).entries), feats), modelFeatures);
  }

  /** `preprocess(imputed_data, isTrain, model_features)`: training
      succeeds exactly when `Ref`, `Alt` and `Domain` are columns and
      returns the levelled, encoded frame; inference with model features
      succeeds, levels against the model's level names, encodes and
      zero-fills, so every model feature is a column. */
  method Preprocess(imputed: Frame, isTrain: bool, modelFeatures: Option<seq<string>>,
                    objectColumns: set<string>, oneHot: (Frame, seq<string>) -> Frame)
    returns (r: Result<Frame, string>)
    requires WellFormed(imputed)
    ensures isTrain ==> (r.Ok? <==> "Ref" in imputed.data && "Alt" in imputed.data && "Domain" in imputed.data)
    ensures !isTrain ==> (r.Ok? <==> modelFeatures.Some?)
    ensures !isTrain && r.Ok? ==> forall c :: c in modelFeatures.value ==> c in r.value.data
    ensures (PresetsValid();
            var feats := FeatCaddObject(imputed.columns, objectColumns, CaddVars);
            && (isTrain && r.Ok? ==>
                  r.value == oneHot(Levelled(imputed, TrainingLevels(imputed, LimitsFor(feats, PresetLimits))), feats))
            && (!isTrain && r.Ok? ==>
                  r.value == ZeroFilled(oneHot(Levelled(imputed, NamesFor(feats, modelFeatures.value).entries), feats),
                                        modelFeatures.value)))
  {
    var vars := CaddVars;
    r := PreprocessWith(imputed, vars, PresetLimits, isTrain, modelFeatures, objectColumns, oneHot);
    PresetPresent(imputed);
    if !isTrain && modelFeatures.Some? {
      InferenceHasModelFeatures(imputed, vars, modelFeatures.value, objectColumns, oneHot);
    }
  }

  /** `preprocess_withConsequence`: the same over the CADD features with
      `Consequence`, whose limit is preset too; in inference the model
      features always come from the model. */
  method PreprocessWithConsequence(imputed: Frame, isTrain: bool, modelFeatures: seq<string>,
                                   objectColumns: set<string>, oneHot: (Frame, seq<string>) -> Frame)
    returns (r: Result<Frame, string>)
    requires WellFormed(imputed)
    ensures isTrain ==> (r.Ok? <==> "Ref" in imputed.data && "Alt" in imputed.data && "Domain" in imputed.data
                                     && "Consequence" in imputed.data)
    ensures !isTrain ==> r.Ok? && forall c :: c in modelFeatures ==> c in r.value.data
    ensures (PresetsValid();
            var feats := FeatCaddObject(imputed.columns, objectColumns, CaddVarsWithConsequence);
            && (isTrain && r.Ok? ==>
                  r.value == oneHot(Levelled(imputed, TrainingLevels(imputed, LimitsFor(feats, PresetLimitsWithConsequence))), feats))
            && (!isTrain ==>
                  r.value == ZeroFilled(oneHot(Levelled(imputed, NamesFor(feats, modelFeatures).entries), feats), modelFeatures)))
  {
    var vars := CaddVarsWithConsequence;
    r := PreprocessWith(imputed, vars, PresetLimitsWithConsequence, isTrain, Some(modelFeatures), objectColumns, oneHot);
    PresetPresent(imputed);
    if !isTrain {
      InferenceHasModelFeatures(imputed, vars, modelFeatures, objectColumns, oneHot);
    }
  }
}
