/**
 * The variant table as the scoring engine reads it: a tab-separated text
 * (decompressed) whose leading `#` lines are comments, one of which is the
 * `#Chr ...` header.  Windows of rows are read the way `pandas.read_csv`
 * does with `skiprows=<int>`, `nrows=<n>`, `comment='#'` and explicit
 * column names: the first `skip` physical lines are dropped, comment and
 * blank lines are ignored, and the next `n` data lines become rows.
 */
module VariantTable {
  import opened Wrappers
  import opened Text

  /** The fields of one data line, in header order. */
  type Row = seq<string>

  /** A line that becomes a row: not blank and not starting with `#`. */
  predicate IsDataLine(line: string) {
    line != [] && line[0] != '#'
  }

  function DataLines(lines: seq<string>): (d: seq<string>)
    ensures |d| <= |lines|
    ensures forall l :: l in d ==> IsDataLine(l)
  {
    if lines == [] then []
    else (if IsDataLine(lines[0]) then [lines[0]] else []) + DataLines(lines[1..])
  }

  lemma {:induction false} DataLinesAppend(a: seq<string>, b: seq<string>)
    ensures DataLines(a + b) == DataLines(a) + DataLines(b)
  {
    if a != [] {
      assert (a + b)[1..] == a[1..] + b;
      DataLinesAppend(a[1..], b);
    } else {
      assert a + b == b;
    }
  }

  lemma {:induction false} DataLinesOfData(lines: seq<string>)
    requires forall i :: 0 <= i < |lines| ==> IsDataLine(lines[i])
    ensures DataLines(lines) == lines
  {
    if lines != [] {
      DataLinesOfData(lines[1..]);
    }
  }

  function Fields(line: string): Row {
    Split(line, '\t')
  }

  /** One `read_csv` window: the lines of at most `nrows` rows, the first
      data lines after the first `skip` physical lines.  Each becomes a row
      through `Fields`. */
  function ReadWindow(lines: seq<string>, skip: nat, nrows: nat): (w: seq<string>)
    ensures |w| <= nrows
    ensures |w| == nrows && nrows > 0 ==> skip + nrows <= |lines|
    ensures forall l :: l in w ==> IsDataLine(l)
  {
    var d := DataLines(if skip <= |lines| then lines[skip..] else []);
    if nrows <= |d| then d[..nrows] else d
  }

  /** The windows read at `skip`, `skip + b`, `skip + 2b`, ... up to and
      including the first one with fewer than `b` rows. */
  function WindowsFrom(lines: seq<string>, skip: nat, b: nat): (ws: seq<seq<string>>)
    requires b > 0
    ensures |ws| >= 1 && ws[0] == ReadWindow(lines, skip, b)
    ensures forall i :: 0 <= i < |ws| - 1 ==> |ws[i]| == b
    ensures |ws[|ws| - 1]| < b
    decreases |lines| - skip
  {
    var w := ReadWindow(lines, skip, b);
    if |w| < b then [w] else [w] + WindowsFrom(lines, skip + b, b)
  }

  lemma FlattenCons(w: seq<string>, rest: seq<seq<string>>)
    ensures Flatten([w] + rest) == w + Flatten(rest)
  {
    assert ([w] + rest)[1..] == rest;
  }

  lemma WindowsFromStep(lines: seq<string>, skip: nat, b: nat)
    requires b > 0
    ensures var w := ReadWindow(lines, skip, b);
            Flatten(WindowsFrom(lines, skip, b)) == if |w| < b then w else w + Flatten(WindowsFrom(lines, skip + b, b))
  {
    var w := ReadWindow(lines, skip, b);
    if |w| < b {
      FlattenCons(w, []);
      assert WindowsFrom(lines, skip, b) == [w] + [];
    } else {
      FlattenCons(w, WindowsFrom(lines, skip + b, b));
    }
  }

  /** Lines reserved in front of the data by the windows after the first:
      the file's two leading comment lines. */
  const LeadingCommentLines: nat := 2

  /** The windows of a whole run: the first at `first`, the next ones at
      `2 + b`, `2 + 2b`, ... whatever `first` was. */
  function RunWindows(lines: seq<string>, first: nat, b: nat): (ws: seq<seq<string>>)
    requires b > 0
    ensures |ws| >= 1 && ws[0] == ReadWindow(lines, first, b)
    ensures forall i :: 0 <= i < |ws| - 1 ==> |ws[i]| == b
    ensures |ws[|ws| - 1]| < b
  {
    var w := ReadWindow(lines, first, b);
    if |w| < b then [w] else [w] + WindowsFrom(lines, LeadingCommentLines + b, b)
  }

  function Flatten(ws: seq<seq<string>>): seq<string> {
    if ws == [] then [] else ws[0] + Flatten(ws[1..])
  }

  /** A file laid out as the offsets expect: two comment lines, then one
      data line per row. */
  ghost predicate Conventional(lines: seq<string>) {
    && |lines| >= LeadingCommentLines
    && !IsDataLine(lines[0]) && !IsDataLine(lines[1])
    && forall i :: LeadingCommentLines <= i < |lines| ==> IsDataLine(lines[i])
  }

  /** Every line from `skip` on is a data line. */
  ghost predicate DataFrom(lines: seq<string>, skip: nat) {
    forall i :: skip <= i < |lines| ==> IsDataLine(lines[i])
  }

  lemma WindowOfDataLines(lines: seq<string>, skip: nat, b: nat)
    requires skip <= |lines| && DataFrom(lines, skip)
    ensures skip + b <= |lines| ==> ReadWindow(lines, skip, b) == lines[skip..skip + b]
    ensures skip + b > |lines| ==> ReadWindow(lines, skip, b) == lines[skip..]
  {
    DataLinesOfData(lines[skip..]);
    assert lines[skip..][..|lines| - skip] == lines[skip..];
  }

  lemma {:induction false} WindowsFromDataLines(lines: seq<string>, skip: nat, b: nat)
    requires b > 0 && skip <= |lines| && DataFrom(lines, skip)
    ensures Flatten(WindowsFrom(lines, skip, b)) == lines[skip..]
    decreases |lines| - skip
  {
    if skip + b <= |lines| {
      WindowsFromDataFull(lines, skip, b);
      WindowsFromDataLines(lines, skip + b, b);
      SlicesJoin(lines, skip, skip + b);
    } else {
      WindowsFromDataShort(lines, skip, b);
    }
  }

  /** A window with `b` lines left after it is full, and the run goes on. */
  lemma WindowsFromDataFull(lines: seq<string>, skip: nat, b: nat)
    requires b > 0 && skip + b <= |lines| && DataFrom(lines, skip)
    ensures Flatten(WindowsFrom(lines, skip, b)) == lines[skip..skip + b] + Flatten(WindowsFrom(lines, skip + b, b))
    ensures DataFrom(lines, skip + b)
  {
    WindowOfDataLines(lines, skip, b);
    WindowsFromStep(lines, skip, b);
  }

  /** A window with fewer than `b` lines left after it is the last. */
  lemma WindowsFromDataShort(lines: seq<string>, skip: nat, b: nat)
    requires b > 0 && skip <= |lines| < skip + b && DataFrom(lines, skip)
    ensures Flatten(WindowsFrom(lines, skip, b)) == lines[skip..]
  {
    WindowOfDataLines(lines, skip, b);
    WindowsFromStep(lines, skip, b);
  }

  lemma SlicesJoin(lines: seq<string>, lo: nat, mid: nat)
    requires lo <= mid <= |lines|
    ensures lines[lo..mid] + lines[mid..] == lines[lo..]
  {
  }

  lemma DataFromLater(lines: seq<string>, skip: nat, later: nat)
    requires skip <= later && DataFrom(lines, skip)
    ensures DataFrom(lines, later)
  {
  }

  lemma RunWindowsStep(lines: seq<string>, first: nat, b: nat)
    requires b > 0
    ensures var w := ReadWindow(lines, first, b);
            Flatten(RunWindows(lines, first, b))
            == if |w| < b then w else w + Flatten(WindowsFrom(lines, LeadingCommentLines + b, b))
  {
    var w := ReadWindow(lines, first, b);
    if |w| < b {
      FlattenCons(w, []);
      assert RunWindows(lines, first, b) == [w] + [];
    } else {
      FlattenCons(w, WindowsFrom(lines, LeadingCommentLines + b, b));
    }
  }

  /** The data lines of a conventional file are all its lines after the
      two comment lines. */
  lemma DataLinesOfConventional(lines: seq<string>)
    requires Conventional(lines)
    ensures DataLines(lines) == lines[2..]
  {
    assert lines == [lines[0]] + ([lines[1]] + lines[2..]);
    DataLinesAppend([lines[0]], [lines[1]] + lines[2..]);
    DataLinesAppend([lines[1]], lines[2..]);
    assert DataFrom(lines, 2);
    DataLinesOfData(lines[2..]);
  }

  lemma FirstWindowOfConventional(lines: seq<string>, b: nat)
    requires Conventional(lines)
    ensures b <= |lines| - 2 ==> ReadWindow(lines, 0, b) == lines[2..2 + b]
    ensures b > |lines| - 2 ==> ReadWindow(lines, 0, b) == lines[2..]
  {
    DataLinesOfConventional(lines);
    assert lines[0..] == lines;
    assert lines[2..][..|lines| - 2] == lines[2..];
  }

  /** Starting from no skip, consecutive windows of a conventional file are
      contiguous and do not overlap: together they are every data line,
      once, in file order. */
  lemma RunCoversEveryRowOnce(lines: seq<string>, b: nat)
    requires b > 0 && Conventional(lines)
    ensures Flatten(RunWindows(lines, 0, b)) == lines[2..]
  {
    FirstWindowOfConventional(lines, b);
    RunWindowsStep(lines, 0, b);
    if b <= |lines| - 2 {
      assert lines[2..] == lines[2..2 + b] + lines[2 + b..];
      assert DataFrom(lines, 2 + b);
      WindowsFromDataLines(lines, 2 + b, b);
    }
  }

  /** Header scanning. */
  const HeaderMark: string := "#Chr"

  /** Index of the first line starting with `#Chr`. */
  function FirstHeaderLine(lines: seq<string>): (r: Option<nat>)
    ensures r.Some? ==> r.value < |lines| && StartsWith(lines[r.value], HeaderMark)
    ensures r.Some? ==> forall j :: 0 <= j < r.value ==> !StartsWith(lines[j], HeaderMark)
    ensures r.None? ==> forall j :: 0 <= j < |lines| ==> !StartsWith(lines[j], HeaderMark)
  {
    if lines == [] then None
    else if StartsWith(lines[0], HeaderMark) then Some(0)
    else
      var r := FirstHeaderLine(lines[1..]);
      if r.Some? then Some(r.value + 1) else None
  }

  /** A header line with none before it is the first one. */
  lemma FirstHeaderLineAt(lines: seq<string>, i: nat)
    requires i < |lines| && StartsWith(lines[i], HeaderMark)
    requires forall j :: 0 <= j < i ==> !StartsWith(lines[j], HeaderMark)
    ensures FirstHeaderLine(lines) == Some(i)
  {
  }

  /** The column titles: the first `#Chr` line, stripped and split on tabs. */
  function Header(lines: seq<string>): (h: Option<Row>)
    ensures h.Some? <==> exists i :: 0 <= i < |lines| && StartsWith(lines[i], HeaderMark)
    ensures h.Some? ==> |h.value| >= 1
  {
    var i := FirstHeaderLine(lines);
    if i.Some? then Some(Split(Strip(lines[i.value]), '\t')) else None
  }

  /** pandas' default missing-value tokens: a cell holding one of these
      is NaN. */
  const NaTokens: set<string> := {
    "", "#N/A", "#N/A N/A", "#NA", "-1.#IND", "-1.#QNAN", "-NaN", "-nan",
    "1.#IND", "1.#QNAN", "<NA>", "N/A", "NA", "NULL", "NaN", "None", "n/a",
    "nan", "null"
  }

  predicate IsNA(cell: string) {
    cell in NaTokens
  }

  /** Position of `col` among the titles (`|titles|` when absent). */
  function IndexOf(titles: Row, col: string): (i: nat)
    ensures i <= |titles|
    ensures i < |titles| ==> titles[i] == col
    ensures forall j :: 0 <= j < i ==> titles[j] != col
    ensures i == |titles| <==> col !in titles
  {
    if titles == [] then 0
    else if titles[0] == col then 0
    else 1 + IndexOf(titles[1..], col)
  }

  /** The text of column `col` in a row; a row shorter than the header
      leaves its last columns missing. */
  function Cell(titles: Row, row: Row, col: string): string
    requires col in titles
  {
    var i := IndexOf(titles, col);
    if i < |row| then row[i] else ""
  }

  /** `to_csv` writes a missing cell as the empty string. */
  function Render(cell: string): (r: string)
    ensures r == "" <==> IsNA(cell)
    ensures !IsNA(cell) ==> r == cell
  {
    if IsNA(cell) then "" else cell
  }

  const ChrColumn: string := "#Chr"
  const OutputColumns: seq<string> := ["#Chr", "Pos", "Ref", "Alt", "GeneID", "CCDS", "FeatureID"]

  /** Titles a window can be projected with: distinct (pandas rejects
      duplicate names) and holding every output column. */
  predicate Projectable(titles: Row) {
    && (forall i, j :: 0 <= i < j < |titles| ==> titles[i] != titles[j])
    && (forall c :: c in OutputColumns ==> c in titles)
  }

  /** The chromosome a row is routed by: its `#Chr` text, or NaN. */
  datatype ChrKey = Chr(name: string) | NanChr

  function KeyOf(titles: Row, row: Row): (k: ChrKey)
    requires ChrColumn in titles
    ensures k.Chr? ==> !IsNA(k.name) && k.name == Cell(titles, row, ChrColumn)
    ensures k.NanChr? <==> IsNA(Cell(titles, row, ChrColumn))
  {
    var c := Cell(titles, row, ChrColumn);
    if IsNA(c) then NanChr else Chr(c)
  }

  /** What `'{}'.format(key)` gives: the text, or `nan`. */
  function KeyText(k: ChrKey): string {
    match k
    case Chr(c) => c
    case NanChr => "nan"
  }

  /** A key as `KeyOf` can produce it. */
  predicate ProperKey(k: ChrKey) {
    k.Chr? ==> !IsNA(k.name)
  }

  lemma KeyTextInjective(k1: ChrKey, k2: ChrKey)
    requires ProperKey(k1) && ProperKey(k2)
    ensures KeyText(k1) == KeyText(k2) <==> k1 == k2
  {
    if k1.NanChr? && k2.Chr? {
      assert IsNA("nan");
    } else if k1.Chr? && k2.NanChr? {
      assert IsNA("nan");
    }
  }

  /** The chromosome of a data line. */
  function LineKey(titles: Row, line: string): ChrKey
    requires ChrColumn in titles
  {
    KeyOf(titles, Fields(line))
  }

  /** The distinct keys of a window in order of first appearance
      (`variants_df['#Chr'].unique()`). */
  function UniqueKeys(titles: Row, w: seq<string>): (ks: seq<ChrKey>)
    requires ChrColumn in titles
    ensures forall k :: k in ks <==> exists i :: 0 <= i < |w| && LineKey(titles, w[i]) == k
    ensures forall i, j :: 0 <= i < j < |ks| ==> ks[i] != ks[j]
    ensures forall k :: k in ks ==> ProperKey(k)
  {
    if w == [] then []
    else
      var prev := UniqueKeys(titles, w[..|w| - 1]);
      var k := LineKey(titles, w[|w| - 1]);
      assert forall i :: 0 <= i < |w| - 1 ==> w[..|w| - 1][i] == w[i];
      if k in prev then prev else prev + [k]
  }
}
