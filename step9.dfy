/**
 * The earlier scoring engine (`CalculateCapiceScores` of
 * step9_pre_computed_scores_snv.py): the same header scan and window loop
 * as the resumable one, but always starting from the top of the file with
 * the configured batch size and writing plain-text partitions
 * `<output>/chr<c>/whole_genome_SNVs_chr_<c>.txt`.
 */
module Step9 {
  import opened Wrappers
  import opened Text
  import opened VariantTable
  import opened Partitions
  import opened ProgressTracking
  import opened Runs

  const Suffix: string := ".txt"

  class CalculateCapiceScores {
    /** The decompressed lines of the input file. */
    const lines: seq<string>
    const outputLoc: string
    const batchSize: int
    /** The model's prediction for a row. */
    const score: Row -> string
    var titles: Option<Row>
    var notDone: bool
    /** The partition files under `outputLoc`. */
    var files: map<string, seq<string>>

    function Target(): Sink
      reads this
      requires titles.Some?
    {
      Sink(titles.value, outputLoc, Suffix, score)
    }

    constructor (lines: seq<string>, outputLoc: string, batchSize: int, score: Row -> string,
                 files: map<string, seq<string>>)
      ensures this.lines == lines && this.outputLoc == outputLoc && this.batchSize == batchSize
      ensures this.score == score && this.files == files
      ensures titles == Header(lines) && notDone
    {
      this.lines := lines;
      this.outputLoc := outputLoc;
      this.batchSize := batchSize;
      this.score := score;
      this.files := files;
      titles := None;
      notDone := true;
      new;
      GetHeader();
    }

    /** While the titles are unset (or empty), take the stripped tab-split
        fields of the first line starting with `#Chr`; without such a line
        they stay unset. */
    method GetHeader()
      modifies this`titles
      ensures old(titles) == None || old(titles) == Some([]) ==>
                titles == if Header(lines).Some? then Header(lines) else old(titles)
      ensures !(old(titles) == None || old(titles) == Some([])) ==> titles == old(titles)
    {
      if titles == None || titles == Some([]) {
        var i := 0;
        while i < |lines|
          invariant 0 <= i <= |lines|
          invariant forall j :: 0 <= j < i ==> !StartsWith(lines[j], HeaderMark)
        {
          var line := lines[i];
          if StartsWith(line, HeaderMark) {
            FirstHeaderLineAt(lines, i);
            titles := Some(Split(Strip(line), '\t'));
            return;
          }
          i := i + 1;
        }
      }
    }

    /** Read the window of at most `batchSize` rows after `skipRows`
        lines, clear `notDone` when it is short, and append every row to
        its partition. */
    method CalculateSaveCapiceScore(skipRows: JVal)
      requires titles.Some? && Projectable(titles.value) && batchSize >= 0
      modifies this`notDone, this`files
      ensures var w := ReadWindow(lines, SkipCount(skipRows), batchSize);
              && notDone == (old(notDone) && |w| >= batchSize)
              && files == Appended(old(files), Target(), w)
    {
      var w := ReadWindow(lines, SkipCount(skipRows), batchSize);
      if |w| < batchSize {
        notDone := false;
      }
      files := AppendPartitions(files, Target(), w);
    }

    /** The window loop from the top of the file: the first window with no
        rows skipped, every later one at `2 + i * batchSize`.  Over a file
        with the two leading comment lines the offsets assume, every data
        row is written once, in file order. */
    method CalcCapice()
      requires titles.Some? && Projectable(titles.value) && batchSize > 0
      modifies this`notDone, this`files
      ensures !notDone
      ensures old(notDone) ==> files == AppendedAll(old(files), Target(), RunWindows(lines, 0, batchSize))
      ensures old(notDone) && Conventional(lines) ==> files == Appended(old(files), Target(), lines[2..])
      ensures !old(notDone) ==> files == old(files)
    {
      var start := Null;
      var b := batchSize;
      var firstIter := true;
      ghost var sink := Target();
      ghost var final := if notDone then AppendedAll(files, sink, RunWindows(lines, 0, b)) else files;
      assert Pending(lines, true, start, b) == RunWindows(lines, 0, b);
      while notDone
        invariant titles == old(titles) && sink == Target()
        invariant firstIter ==> start == Null && files == old(files) && notDone == old(notDone)
        invariant !firstIter ==> start.Int? && start.n >= LeadingCommentLines + b
        invariant notDone ==> AppendedAll(files, sink, Pending(lines, firstIter, start, b)) == final
        invariant !notDone ==> files == final
        decreases notDone, firstIter, LinesLeft(lines, SkipCount(start))
      {
        ghost var w := ReadWindow(lines, SkipCount(start), b);
        ghost var before := files;
        ghost var next := if firstIter then LeadingCommentLines + b else start.n + b;
        LoopStep(files, sink, lines, firstIter, start, b, final);
        CalculateSaveCapiceScore(start);
        assert files == Appended(before, sink, w);
        if firstIter {
          start := Int(2);
          firstIter := false;
        }
        start := Int(start.n + b);
        assert start == Int(next);
        assert notDone ==> |w| >= b;
        assert notDone ==> AppendedAll(files, sink, Pending(lines, false, start, b)) == final;
      }
      if old(notDone) && Conventional(lines) {
        WholeRun(old(files), sink, lines, b);
      }
    }
  }
}
