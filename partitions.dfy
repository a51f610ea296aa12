/**
 * Writing a scored window to the per-chromosome partition files: every row
 * is appended, as the 8-column projection `#Chr, Pos, Ref, Alt, GeneID,
 * CCDS, FeatureID, prediction` without a header, to
 * `<output>/chr<c>/whole_genome_SNVs_chr_<c><suffix>` for its own `#Chr`
 * value `c`.  The output tree is a map from path to the lines of that file
 * (after decompression for the gzip variant); files are only ever appended to.
 */
module Partitions {
  import opened Wrappers
  import opened Text
  import opened VariantTable

  /** Where and how rows are written: the header titles, the output root,
      the file suffix, and the model's rendered prediction for a row. */
  datatype Sink = Sink(titles: Row, outputLoc: string, suffix: string, score: Row -> string)

  const ChunkPrefix: string := "whole_genome_SNVs_chr_"

  /** `os.path.join(os.path.join(o, 'chr' + t), 'whole_genome_SNVs_chr_' + t + suffix)`. */
  function ChrPath(outputLoc: string, t: string, suffix: string): string {
    PathJoin(PathJoin(outputLoc, "chr" + t), ChunkPrefix + t + suffix)
  }

  function PartitionPath(outputLoc: string, k: ChrKey, suffix: string): string {
    ChrPath(outputLoc, KeyText(k), suffix)
  }

  /** The output root as `os.path.join` extends it. */
  function RootDir(o: string): string {
    if o == [] || EndsWith(o, "/") then o else o + "/"
  }

  function SepAfter(t: string): string {
    if EndsWith(t, "/") then "" else "/"
  }

  /** Joining a relative part puts at most one slash in between. */
  lemma PathJoinRelative(a: string, b: string)
    requires b != [] && b[0] != '/'
    ensures PathJoin(a, b) == RootDir(a) + b
  {
    assert b[..1] != "/";
  }

  lemma EndsWithSlashLast(x: string, t: string)
    requires x != [] && x[|x| - 1] != '/'
    ensures EndsWith(x + t, "/") <==> EndsWith(t, "/")
  {
    var s := x + t;
    if t == [] {
      assert s == x;
      assert s[|s| - 1..] == [x[|x| - 1]];
    } else {
      assert s[|s| - 1..] == t[|t| - 1..];
    }
  }

  lemma ConcatAssoc(a: string, b: string, c: string)
    ensures (a + b) + c == a + (b + c)
  {
  }

  lemma ChrPathShape(o: string, t: string, suffix: string)
    ensures ChrPath(o, t, suffix) == (RootDir(o) + "chr") + t + (SepAfter(t) + (ChunkPrefix + t + suffix))
  {
    var dir := RootDir(o) + "chr" + t;
    PathJoinRelative(o, "chr" + t);
    ConcatAssoc(RootDir(o), "chr", t);
    assert PathJoin(o, "chr" + t) == dir;
    EndsWithSlashLast(RootDir(o) + "chr", t);
    assert RootDir(dir) == dir + SepAfter(t);
    var name := ChunkPrefix + t + suffix;
    PathJoinRelative(dir, name);
    ConcatAssoc(dir, SepAfter(t), name);
  }

  lemma SliceOfConcat(x: string, t: string, rest: string)
    ensures (x + t + rest)[|x|..|x| + |t|] == t
  {
  }

  /** Distinct chromosome texts give distinct partition paths: equal paths
      have equal lengths, which (one separator at most) forces equal text
      lengths, and the text sits at the same place in both. */
  lemma ChrPathInjective(o: string, t1: string, t2: string, suffix: string)
    requires ChrPath(o, t1, suffix) == ChrPath(o, t2, suffix)
    ensures t1 == t2
  {
    var x := RootDir(o) + "chr";
    var r1 := SepAfter(t1) + (ChunkPrefix + t1 + suffix);
    var r2 := SepAfter(t2) + (ChunkPrefix + t2 + suffix);
    ChrPathShape(o, t1, suffix);
    ChrPathShape(o, t2, suffix);
    assert |x + t1 + r1| == |x| + 2 * |t1| + |SepAfter(t1)| + |ChunkPrefix| + |suffix|;
    assert |x + t2 + r2| == |x| + 2 * |t2| + |SepAfter(t2)| + |ChunkPrefix| + |suffix|;
    assert |t1| == |t2|;
    SliceOfConcat(x, t1, r1);
    SliceOfConcat(x, t2, r2);
  }

  lemma PartitionPathInjective(o: string, k1: ChrKey, k2: ChrKey, suffix: string)
    requires ProperKey(k1) && ProperKey(k2)
    ensures PartitionPath(o, k1, suffix) == PartitionPath(o, k2, suffix) <==> k1 == k2
  {
    if PartitionPath(o, k1, suffix) == PartitionPath(o, k2, suffix) {
      ChrPathInjective(o, KeyText(k1), KeyText(k2), suffix);
      KeyTextInjective(k1, k2);
    }
  }

  /** The projected cells of a row: the seven named columns (missing ones
      empty) followed by the prediction. */
  function Projection(sink: Sink, line: string): (cells: seq<string>)
    requires Projectable(sink.titles)
    ensures |cells| == |OutputColumns| + 1
    ensures forall i :: 0 <= i < |OutputColumns| ==> cells[i] == Render(Cell(sink.titles, Fields(line), OutputColumns[i]))
    ensures cells[|OutputColumns|] == sink.score(Fields(line))
  {
    var row := Fields(line);
    seq(|OutputColumns|, i requires 0 <= i < |OutputColumns| => Render(Cell(sink.titles, row, OutputColumns[i])))
      + [sink.score(row)]
  }

  /** The line `to_csv(sep='\t', index=False, header=None)` writes for a row. */
  function OutputLine(sink: Sink, line: string): string
    requires Projectable(sink.titles)
  {
    Join(Projection(sink, line), '\t')
  }

  lemma CellHasNoTab(titles: Row, line: string, col: string)
    requires col in titles
    ensures '\t' !in Cell(titles, Fields(line), col)
  {
  }

  /** An output line splits back into its eight projected cells when the
      rendered prediction holds no tab. */
  lemma OutputLineReadsBack(sink: Sink, line: string)
    requires Projectable(sink.titles)
    requires '\t' !in sink.score(Fields(line))
    ensures Split(OutputLine(sink, line), '\t') == Projection(sink, line)
  {
    var cells := Projection(sink, line);
    forall i | 0 <= i < |cells| ensures '\t' !in cells[i] {
      if i < |OutputColumns| {
        CellHasNoTab(sink.titles, line, OutputColumns[i]);
      }
    }
    SplitJoin(cells, '\t');
  }

  /** The first field of an output line is the row's chromosome. */
  lemma OutputLineStartsWithChr(sink: Sink, line: string)
    requires Projectable(sink.titles)
    requires LineKey(sink.titles, line).Chr?
    ensures Split(OutputLine(sink, line), '\t')[0] == LineKey(sink.titles, line).name
  {
    var cells := Projection(sink, line);
    assert cells[0] == Render(Cell(sink.titles, Fields(line), ChrColumn));
    CellHasNoTab(sink.titles, line, ChrColumn);
    assert Join(cells, '\t') == cells[0] + ['\t'] + Join(cells[1..], '\t');
    SplitAfterField(cells[0], Join(cells[1..], '\t'), '\t');
  }

  /** The partition a line goes to; a NaN chromosome compares unequal to
      itself and so selects no rows. */
  function Destination(sink: Sink, line: string): Option<string>
    requires ChrColumn in sink.titles
  {
    var k := LineKey(sink.titles, line);
    if k.Chr? then Some(PartitionPath(sink.outputLoc, k, sink.suffix)) else None
  }

  /** The lines a window appends to the file at `p`, in window order. */
  function RoutedTo(sink: Sink, w: seq<string>, p: string): seq<string>
    requires Projectable(sink.titles)
  {
    if w == [] then []
    else
      var l := w[|w| - 1];
      RoutedTo(sink, w[..|w| - 1], p) + (if Destination(sink, l) == Some(p) then [OutputLine(sink, l)] else [])
  }

  /** `variants_df[variants_df['#Chr'] == k]` projected: the lines of the
      rows whose chromosome is `k`, in window order. */
  function Routed(sink: Sink, w: seq<string>, k: ChrKey): seq<string>
    requires Projectable(sink.titles)
  {
    if w == [] then []
    else
      var l := w[|w| - 1];
      var kl := LineKey(sink.titles, l);
      Routed(sink, w[..|w| - 1], k) + (if k.Chr? && kl == k then [OutputLine(sink, l)] else [])
  }

  /** The files a window opens for appending, one per distinct chromosome
      (the NaN one included: its file is created, though nothing is
      written to it). */
  function Touched(sink: Sink, w: seq<string>): set<string>
    requires ChrColumn in sink.titles
  {
    set i | 0 <= i < |w| :: PartitionPath(sink.outputLoc, LineKey(sink.titles, w[i]), sink.suffix)
  }

  function Get(files: map<string, seq<string>>, p: string): seq<string> {
    if p in files then files[p] else []
  }

  /** The output tree after a window was written. */
  function Appended(files: map<string, seq<string>>, sink: Sink, w: seq<string>): map<string, seq<string>>
    requires Projectable(sink.titles)
  {
    map p | p in files.Keys + Touched(sink, w) :: Get(files, p) + RoutedTo(sink, w, p)
  }

  /** The output tree after a sequence of windows was written. */
  function AppendedAll(files: map<string, seq<string>>, sink: Sink, ws: seq<seq<string>>): map<string, seq<string>>
    requires Projectable(sink.titles)
    decreases |ws|
  {
    if ws == [] then files else AppendedAll(Appended(files, sink, ws[0]), sink, ws[1..])
  }

  lemma {:induction false} RoutedIsRoutedTo(sink: Sink, w: seq<string>, k: ChrKey)
    requires Projectable(sink.titles) && ProperKey(k)
    ensures Routed(sink, w, k) == RoutedTo(sink, w, PartitionPath(sink.outputLoc, k, sink.suffix))
  {
    if w != [] {
      RoutedIsRoutedTo(sink, w[..|w| - 1], k);
      var l := w[|w| - 1];
      var kl := LineKey(sink.titles, l);
      PartitionPathInjective(sink.outputLoc, k, kl, sink.suffix);
    }
  }

  lemma {:induction false} RoutedToUntouched(sink: Sink, w: seq<string>, p: string)
    requires Projectable(sink.titles)
    requires p !in Touched(sink, w)
    ensures RoutedTo(sink, w, p) == []
  {
    if w != [] {
      var v := w[..|w| - 1];
      assert Touched(sink, v) <= Touched(sink, w) by {
        forall q | q in Touched(sink, v) ensures q in Touched(sink, w) {
          var i :| 0 <= i < |v| && q == PartitionPath(sink.outputLoc, LineKey(sink.titles, v[i]), sink.suffix);
          assert v[i] == w[i];
        }
      }
      RoutedToUntouched(sink, v, p);
      assert PartitionPath(sink.outputLoc, LineKey(sink.titles, w[|w| - 1]), sink.suffix) in Touched(sink, w);
    }
  }

  /** The path set of a list of keys. */
  function PathsOf(sink: Sink, ks: seq<ChrKey>): set<string> {
    set k | k in ks :: PartitionPath(sink.outputLoc, k, sink.suffix)
  }

  /** The set of the entries of a sequence. */
  ghost function Elements(s: seq<string>): (r: set<string>)
    ensures forall p :: p in r <==> p in s
  {
    set p | p in s
  }

  /** The loop's state after the first `i` distinct keys, whose partitions
      are `paths` and whose rows are `contents`: those partitions hold the
      old content followed by their rows, every other file is as it was. */
  ghost predicate WrittenUpTo(files: map<string, seq<string>>, paths: seq<string>,
                              contents: seq<seq<string>>, i: nat, out: map<string, seq<string>>)
    requires |paths| == |contents|
  {
    && i <= |paths|
    && out.Keys == files.Keys + Elements(paths[..i])
    && (forall j :: 0 <= j < i ==> out[paths[j]] == Get(files, paths[j]) + contents[j])
    && (forall p :: p in out && p !in paths[..i] ==> out[p] == files[p])
  }

  /** `for unique_chr in variants_df['#Chr'].unique(): ... append` over the
      output tree: the window's rows appended to their partitions. */
  method AppendPartitions(files: map<string, seq<string>>, sink: Sink, w: seq<string>)
    returns (out: map<string, seq<string>>)
    requires Projectable(sink.titles)
    ensures out == Appended(files, sink, w)
  {
    var keys := UniqueKeys(sink.titles, w);
    ghost var paths := seq(|keys|, j requires 0 <= j < |keys| => PartitionPath(sink.outputLoc, keys[j], sink.suffix));
    ghost var contents := seq(|keys|, j requires 0 <= j < |keys| => Routed(sink, w, keys[j]));
    KeyPathsDistinct(sink, keys);
    out := files;
    var i := 0;
    assert paths[..0] == [];
    while i < |keys|
      invariant WrittenUpTo(files, paths, contents, i, out)
    {
      var k := keys[i];
      var subset := Routed(sink, w, k);
      var destination := PartitionPath(sink.outputLoc, k, sink.suffix);
      AppendStep(files, paths, contents, i, out);
      out := out[destination := Get(out, destination) + subset];
      i := i + 1;
    }
    KeyPathsTouched(sink, w, paths);
    AppendedByKeys(files, sink, w, keys, paths, contents, out);
  }

  lemma AppendStep(files: map<string, seq<string>>, paths: seq<string>,
                   contents: seq<seq<string>>, i: nat, out: map<string, seq<string>>)
    requires |paths| == |contents|
    requires forall a, b :: 0 <= a < b < |paths| ==> paths[a] != paths[b]
    requires i < |paths| && WrittenUpTo(files, paths, contents, i, out)
    ensures WrittenUpTo(files, paths, contents, i + 1, out[paths[i] := Get(out, paths[i]) + contents[i]])
  {
    var d := paths[i];
    var out' := out[d := Get(out, d) + contents[i]];
    assert paths[..i + 1] == paths[..i] + [d];
    assert d !in paths[..i] by {
      forall j | 0 <= j < i ensures paths[..i][j] != d { }
    }
    assert Get(out, d) == Get(files, d);
    assert Elements(paths[..i + 1]) == Elements(paths[..i]) + {d};
    assert out'.Keys == files.Keys + Elements(paths[..i + 1]);
    forall j | 0 <= j < i + 1 ensures out'[paths[j]] == Get(files, paths[j]) + contents[j] {
      if j < i {
        assert paths[j] != d;
      }
    }
    forall p | p in out' && p !in paths[..i + 1] ensures out'[p] == files[p] {
      assert p != d && p !in paths[..i];
    }
  }

  lemma KeyPathsDistinct(sink: Sink, keys: seq<ChrKey>)
    requires forall k :: k in keys ==> ProperKey(k)
    requires forall a, b :: 0 <= a < b < |keys| ==> keys[a] != keys[b]
    ensures forall a, b :: 0 <= a < b < |keys| ==>
              PartitionPath(sink.outputLoc, keys[a], sink.suffix) != PartitionPath(sink.outputLoc, keys[b], sink.suffix)
  {
    forall a, b | 0 <= a < b < |keys|
      ensures PartitionPath(sink.outputLoc, keys[a], sink.suffix) != PartitionPath(sink.outputLoc, keys[b], sink.suffix)
    {
      PartitionPathInjective(sink.outputLoc, keys[a], keys[b], sink.suffix);
    }
  }

  lemma TouchedByKeys(sink: Sink, w: seq<string>)
    requires Projectable(sink.titles)
    ensures Touched(sink, w) == PathsOf(sink, UniqueKeys(sink.titles, w))
  {
    var keys := UniqueKeys(sink.titles, w);
    forall p | p in Touched(sink, w) ensures p in PathsOf(sink, keys) {
      var i :| 0 <= i < |w| && p == PartitionPath(sink.outputLoc, LineKey(sink.titles, w[i]), sink.suffix);
      assert LineKey(sink.titles, w[i]) in keys;
    }
    forall p | p in PathsOf(sink, keys) ensures p in Touched(sink, w) {
      var k :| k in keys && p == PartitionPath(sink.outputLoc, k, sink.suffix);
      var i :| 0 <= i < |w| && LineKey(sink.titles, w[i]) == k;
    }
  }

  lemma KeyPathsTouched(sink: Sink, w: seq<string>, paths: seq<string>)
    requires Projectable(sink.titles)
    requires var keys := UniqueKeys(sink.titles, w);
             && |paths| == |keys|
             && (forall j :: 0 <= j < |keys| ==> paths[j] == PartitionPath(sink.outputLoc, keys[j], sink.suffix))
    ensures Elements(paths) == Touched(sink, w)
  {
    var keys := UniqueKeys(sink.titles, w);
    TouchedByKeys(sink, w);
    forall p | p in PathsOf(sink, keys) ensures p in paths {
      var k :| k in keys && p == PartitionPath(sink.outputLoc, k, sink.suffix);
      var j :| 0 <= j < |keys| && keys[j] == k;
      assert paths[j] == p;
    }
  }

  lemma AppendedByKeys(files: map<string, seq<string>>, sink: Sink, w: seq<string>, keys: seq<ChrKey>,
                       paths: seq<string>, contents: seq<seq<string>>, out: map<string, seq<string>>)
    requires Projectable(sink.titles)
    requires forall k :: k in keys ==> ProperKey(k)
    requires |paths| == |contents| == |keys|
    requires forall j :: 0 <= j < |keys| ==> paths[j] == PartitionPath(sink.outputLoc, keys[j], sink.suffix)
    requires forall j :: 0 <= j < |keys| ==> contents[j] == Routed(sink, w, keys[j])
    requires Elements(paths) == Touched(sink, w)
    requires WrittenUpTo(files, paths, contents, |keys|, out)
    ensures out == Appended(files, sink, w)
  {
    AppendedAgree(files, sink, w, keys, paths, contents, out);
    assert paths[..|keys|] == paths;
    var a := Appended(files, sink, w);
    AppendedKeys(files, sink, w);
    forall p | p in out ensures out[p] == a[p] {
      AppendedAtPath(files, sink, w, p);
    }
    SameMap(out, a);
  }

  lemma AppendedAgree(files: map<string, seq<string>>, sink: Sink, w: seq<string>, keys: seq<ChrKey>,
                      paths: seq<string>, contents: seq<seq<string>>, out: map<string, seq<string>>)
    requires Projectable(sink.titles)
    requires forall k :: k in keys ==> ProperKey(k)
    requires |paths| == |contents| == |keys|
    requires forall j :: 0 <= j < |keys| ==> paths[j] == PartitionPath(sink.outputLoc, keys[j], sink.suffix)
    requires forall j :: 0 <= j < |keys| ==> contents[j] == Routed(sink, w, keys[j])
    requires Elements(paths) == Touched(sink, w)
    requires WrittenUpTo(files, paths, contents, |keys|, out)
    ensures forall p :: p in out ==> out[p] == Get(files, p) + RoutedTo(sink, w, p)
  {
    forall p | p in out ensures out[p] == Get(files, p) + RoutedTo(sink, w, p) {
      AppendedAt(files, sink, w, keys, paths, contents, out, p);
    }
  }

  lemma AppendedAt(files: map<string, seq<string>>, sink: Sink, w: seq<string>, keys: seq<ChrKey>,
                   paths: seq<string>, contents: seq<seq<string>>, out: map<string, seq<string>>, p: string)
    requires Projectable(sink.titles)
    requires forall k :: k in keys ==> ProperKey(k)
    requires |paths| == |contents| == |keys|
    requires forall j :: 0 <= j < |keys| ==> paths[j] == PartitionPath(sink.outputLoc, keys[j], sink.suffix)
    requires forall j :: 0 <= j < |keys| ==> contents[j] == Routed(sink, w, keys[j])
    requires Elements(paths) == Touched(sink, w)
    requires WrittenUpTo(files, paths, contents, |keys|, out)
    requires p in out
    ensures out[p] == Get(files, p) + RoutedTo(sink, w, p)
  {
    assert paths[..|keys|] == paths;
    if p in paths {
      var j :| 0 <= j < |paths| && paths[j] == p;
      RoutedIsRoutedTo(sink, w, keys[j]);
    } else {
      RoutedToUntouched(sink, w, p);
    }
  }

  /** Writing two windows one after the other routes each window's lines
      on its own. */
  lemma {:induction false} RoutedToConcat(sink: Sink, w1: seq<string>, w2: seq<string>, p: string)
    requires Projectable(sink.titles)
    ensures RoutedTo(sink, w1 + w2, p) == RoutedTo(sink, w1, p) + RoutedTo(sink, w2, p)
  {
    if w2 == [] {
      assert w1 + w2 == w1;
    } else {
      var v := w2[..|w2| - 1];
      var l := w2[|w2| - 1];
      assert (w1 + w2)[..|w1 + w2| - 1] == w1 + v;
      assert (w1 + w2)[|w1 + w2| - 1] == l;
      RoutedToConcat(sink, w1, v, p);
    }
  }

  /** A single line goes to its own partition and nowhere else. */
  lemma RoutedToSingle(sink: Sink, l: string, p: string)
    requires Projectable(sink.titles)
    ensures RoutedTo(sink, [l], p) == if Destination(sink, l) == Some(p) then [OutputLine(sink, l)] else []
  {
    assert [l][..0] == [];
  }

  /** Every row lands, once and in place, in exactly its own partition:
      around row `i` the file at its path reads the earlier rows, then
      row `i`'s line, then the later rows, and every other file reads as
      though row `i` were absent.  Rows with equal contents are therefore
      each written (nothing is deduplicated). */
  lemma RowLandsInItsPartition(sink: Sink, w: seq<string>, i: nat, p: string)
    requires Projectable(sink.titles) && i < |w|
    ensures Destination(sink, w[i]) == Some(p) ==>
              RoutedTo(sink, w, p) == RoutedTo(sink, w[..i], p) + [OutputLine(sink, w[i])] + RoutedTo(sink, w[i + 1..], p)
    ensures Destination(sink, w[i]) != Some(p) ==>
              RoutedTo(sink, w, p) == RoutedTo(sink, w[..i], p) + RoutedTo(sink, w[i + 1..], p)
  {
    var before, row, after := w[..i], [w[i]], w[i + 1..];
    assert w == before + (row + after);
    RoutedToConcat(sink, before, row + after, p);
    RoutedToConcat(sink, row, after, p);
    RoutedToSingle(sink, w[i], p);
    var x, y, z := RoutedTo(sink, before, p), RoutedTo(sink, row, p), RoutedTo(sink, after, p);
    assert RoutedTo(sink, w, p) == x + (y + z);
    ConcatLines(x, y, z);
  }

  lemma ConcatLines(x: seq<string>, y: seq<string>, z: seq<string>)
    ensures x + (y + z) == x + y + z
    ensures y == [] ==> x + (y + z) == x + z
  {
  }

  /** Every line of a partition came from a row routed there. */
  lemma {:induction false} RoutedToFrom(sink: Sink, w: seq<string>, p: string, x: string)
    requires Projectable(sink.titles)
    requires x in RoutedTo(sink, w, p)
    ensures exists i :: 0 <= i < |w| && Destination(sink, w[i]) == Some(p) && x == OutputLine(sink, w[i])
  {
    var v := w[..|w| - 1];
    var l := w[|w| - 1];
    if x in RoutedTo(sink, v, p) {
      RoutedToFrom(sink, v, p, x);
      var i :| 0 <= i < |v| && Destination(sink, v[i]) == Some(p) && x == OutputLine(sink, v[i]);
      assert w[i] == v[i];
    } else {
      assert Destination(sink, w[|w| - 1]) == Some(p) && x == OutputLine(sink, w[|w| - 1]);
    }
  }

  /** The file of chromosome `c` holds only lines whose first field is `c`. */
  lemma PartitionHoldsOnlyItsChromosome(sink: Sink, w: seq<string>, c: string, x: string)
    requires Projectable(sink.titles)
    requires !IsNA(c)
    requires x in RoutedTo(sink, w, PartitionPath(sink.outputLoc, Chr(c), sink.suffix))
    ensures Split(x, '\t')[0] == c
  {
    var p := PartitionPath(sink.outputLoc, Chr(c), sink.suffix);
    RoutedToFrom(sink, w, p, x);
    var i :| 0 <= i < |w| && Destination(sink, w[i]) == Some(p) && x == OutputLine(sink, w[i]);
    var k := LineKey(sink.titles, w[i]);
    assert k.Chr? && ProperKey(k);
    PartitionPathInjective(sink.outputLoc, k, Chr(c), sink.suffix);
    OutputLineStartsWithChr(sink, w[i]);
  }

  lemma TouchedConcat(sink: Sink, w1: seq<string>, w2: seq<string>)
    requires ChrColumn in sink.titles
    ensures Touched(sink, w1 + w2) == Touched(sink, w1) + Touched(sink, w2)
  {
    var w := w1 + w2;
    forall q | q in Touched(sink, w) ensures q in Touched(sink, w1) + Touched(sink, w2) {
      var i :| 0 <= i < |w| && q == PartitionPath(sink.outputLoc, LineKey(sink.titles, w[i]), sink.suffix);
      if i < |w1| {
        assert w[i] == w1[i];
      } else {
        assert w[i] == w2[i - |w1|];
      }
    }
    forall q | q in Touched(sink, w1) ensures q in Touched(sink, w) {
      var i :| 0 <= i < |w1| && q == PartitionPath(sink.outputLoc, LineKey(sink.titles, w1[i]), sink.suffix);
      assert w[i] == w1[i];
    }
    forall q | q in Touched(sink, w2) ensures q in Touched(sink, w) {
      var i :| 0 <= i < |w2| && q == PartitionPath(sink.outputLoc, LineKey(sink.titles, w2[i]), sink.suffix);
      assert w[|w1| + i] == w2[i];
    }
  }

  /** Files are only appended to: an existing file keeps its content as a
      prefix, and a file no row of the window goes to is unchanged. */
  lemma AppendedKeepsPrefix(files: map<string, seq<string>>, sink: Sink, w: seq<string>, p: string)
    requires Projectable(sink.titles) && p in files
    ensures p in Appended(files, sink, w)
    ensures Appended(files, sink, w)[p] == files[p] + RoutedTo(sink, w, p)
    ensures p !in Touched(sink, w) ==> Appended(files, sink, w)[p] == files[p]
  {
    if p !in Touched(sink, w) {
      RoutedToUntouched(sink, w, p);
    }
  }

  /** The file a window opens exists afterwards; the rest of the tree
      is what it was. */
  lemma AppendedKeys(files: map<string, seq<string>>, sink: Sink, w: seq<string>)
    requires Projectable(sink.titles)
    ensures Appended(files, sink, w).Keys == files.Keys + Touched(sink, w)
  {
  }

  lemma AppendedAtPath(files: map<string, seq<string>>, sink: Sink, w: seq<string>, p: string)
    requires Projectable(sink.titles) && p in Appended(files, sink, w)
    ensures Appended(files, sink, w)[p] == Get(files, p) + RoutedTo(sink, w, p)
  {
  }

  /** Writing two windows in turn is writing their concatenation. */
  lemma AppendedCompose(files: map<string, seq<string>>, sink: Sink, w1: seq<string>, w2: seq<string>)
    requires Projectable(sink.titles)
    ensures Appended(Appended(files, sink, w1), sink, w2) == Appended(files, sink, w1 + w2)
  {
    var f1 := Appended(files, sink, w1);
    var lhs := Appended(f1, sink, w2);
    var rhs := Appended(files, sink, w1 + w2);
    TouchedConcat(sink, w1, w2);
    AppendedKeys(files, sink, w1);
    AppendedKeys(f1, sink, w2);
    AppendedKeys(files, sink, w1 + w2);
    UnionAssoc(files.Keys, Touched(sink, w1), Touched(sink, w2));
    forall p | p in lhs ensures lhs[p] == rhs[p] {
      ComposeAt(files, sink, w1, w2, p);
    }
    SameMap(lhs, rhs);
  }

  lemma ComposeAt(files: map<string, seq<string>>, sink: Sink, w1: seq<string>, w2: seq<string>, p: string)
    requires Projectable(sink.titles)
    requires p in Appended(Appended(files, sink, w1), sink, w2) && p in Appended(files, sink, w1 + w2)
    ensures Appended(Appended(files, sink, w1), sink, w2)[p] == Appended(files, sink, w1 + w2)[p]
  {
    var f1 := Appended(files, sink, w1);
    AppendedAtPath(f1, sink, w2, p);
    AppendedAtPath(files, sink, w1 + w2, p);
    RoutedToConcat(sink, w1, w2, p);
    GetAppended(files, sink, w1, p);
    AppendAssoc(Get(files, p), RoutedTo(sink, w1, p), RoutedTo(sink, w2, p));
  }

  lemma UnionAssoc(a: set<string>, b: set<string>, c: set<string>)
    ensures (a + b) + c == a + (b + c)
  {
  }

  lemma AppendAssoc(a: seq<string>, b: seq<string>, c: seq<string>)
    ensures (a + b) + c == a + (b + c)
  {
  }

  /** Reading a path after a window was written: what was there, then
      the window's lines routed to it. */
  lemma GetAppended(files: map<string, seq<string>>, sink: Sink, w: seq<string>, p: string)
    requires Projectable(sink.titles)
    ensures Get(Appended(files, sink, w), p) == Get(files, p) + RoutedTo(sink, w, p)
  {
    if p !in Appended(files, sink, w) {
      AppendedKeys(files, sink, w);
      RoutedToUntouched(sink, w, p);
    }
  }


  /** Writing an empty window changes nothing. */
  lemma AppendedNothing(files: map<string, seq<string>>, sink: Sink)
    requires Projectable(sink.titles)
    ensures Appended(files, sink, []) == files
  {
    AppendedKeys(files, sink, []);
    assert Touched(sink, []) == {};
    var a := Appended(files, sink, []);
    forall p | p in files ensures a[p] == files[p] {
      AppendedAtPath(files, sink, [], p);
    }
    SameMap(a, files);
  }

  /** Two maps with the same keys and the same value at every key are equal. */
  lemma SameMap(m1: map<string, seq<string>>, m2: map<string, seq<string>>)
    requires m1.Keys == m2.Keys
    requires forall p :: p in m1 ==> m1[p] == m2[p]
    ensures m1 == m2
  {
  }

  /** Writing a run of windows is writing their rows in one go. */
  lemma {:induction false} AppendedAllFlatten(files: map<string, seq<string>>, sink: Sink, ws: seq<seq<string>>)
    requires Projectable(sink.titles)
    ensures AppendedAll(files, sink, ws) == Appended(files, sink, Flatten(ws))
    decreases |ws|
  {
    if ws == [] {
      AppendedNothing(files, sink);
    } else {
      AppendedAllFlatten(Appended(files, sink, ws[0]), sink, ws[1..]);
      AppendedCompose(files, sink, ws[0], Flatten(ws[1..]));
    }
  }

  /** A whole run from the start over a conventional file (two leading
      comment lines, then data) appends every data row once, in order, to
      its partition. */
  lemma WholeRun(files: map<string, seq<string>>, sink: Sink, lines: seq<string>, b: nat)
    requires Projectable(sink.titles) && b > 0 && Conventional(lines)
    ensures AppendedAll(files, sink, RunWindows(lines, 0, b)) == Appended(files, sink, lines[2..])
  {
    AppendedAllFlatten(files, sink, RunWindows(lines, 0, b));
    RunCoversEveryRowOnce(lines, b);
  }
}
