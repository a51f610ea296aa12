/**
 * The resumable scoring engine (`CalculateCapiceScores` of
 * src/pre_compute_capice.py): it reads the header of a gzip-compressed
 * variant table once, then reads fixed-size windows of rows, scores them
 * and appends each row to the gzip partition file of its chromosome,
 * until a window comes back short.  The first window starts where the
 * progress record says; the batch size is the persisted one when set.
 *
 * The input file is its decompressed lines, the output tree a map from
 * path to lines, and the model's prediction an uninterpreted function of
 * a row (already rendered as the text `to_csv` writes).
 */
module PreComputeCapice {
  import opened Wrappers
  import opened Text
  import opened VariantTable
  import opened Partitions
  import opened ProgressTracking
  import opened Runs

  const Suffix: string := ".tsv.gz"

  class CalculateCapiceScores {
    /** The decompressed lines of the input file. */
    const lines: seq<string>
    const outputLoc: string
    const batchSize: int
    /** The model's prediction for a row. */
    const score: Row -> string
    /** The progress record the run resumes from. */
    const reinstance: ProgressTracker
    var titles: Option<Row>
    var notDone: bool
    /** The partition files under `outputLoc`. */
    var files: map<string, seq<string>>

    /** Where the rows of a window go. */
    function Target(): Sink
      reads this
      requires titles.Some?
    {
      Sink(titles.value, outputLoc, Suffix, score)
    }

    constructor (lines: seq<string>, outputLoc: string, batchSize: int, score: Row -> string,
                 reinstance: ProgressTracker, files: map<string, seq<string>>)
      ensures this.lines == lines && this.outputLoc == outputLoc && this.batchSize == batchSize
      ensures this.score == score && this.reinstance == reinstance && this.files == files
      ensures titles == Header(lines) && notDone
    {
      this.lines := lines;
      this.outputLoc := outputLoc;
      this.batchSize := batchSize;
      this.score := score;
      this.reinstance := reinstance;
      this.files := files;
      titles := None;
      notDone := true;
      new;
      GetHeader();
    }

    /** While the titles are unset (or empty), scan for the first line
        starting with `#Chr` and take its stripped tab-split fields.
        When there is no such line the titles stay unset. */
    method GetHeader()
      modifies this`titles
      ensures old(titles) == None || old(titles) == Some([]) ==>
                titles == if Header(lines).Some? then Header(lines) else old(titles)
      ensures !(old(titles) == None || old(titles) == Some([])) ==> titles == old(titles)
    {
      if titles == None || titles == Some([]) {
        var i := 0;
        while i < |lines|
          invariant 0 <= i <= |lines|
          invariant forall j :: 0 <= j < i ==> !StartsWith(lines[j], HeaderMark)
        {
          var line := lines[i];
          if StartsWith(line, HeaderMark) {
            FirstHeaderLineAt(lines, i);
            titles := Some(Split(Strip(line), '\t'));
            return;
          }
          i := i + 1;
        }
      }
    }

    /** Read the window of at most `b` rows after `skipRows` lines, clear
        `notDone` when it is short, and append every row to its partition. */
    method CalculateSaveCapiceScore(skipRows: JVal, b: int)
      requires titles.Some? && Projectable(titles.value) && b >= 0
      modifies this`notDone, this`files
      ensures var w := ReadWindow(lines, SkipCount(skipRows), b);
              && notDone == (old(notDone) && |w| >= b)
              && files == Appended(old(files), Target(), w)
    {
      var w := ReadWindow(lines, SkipCount(skipRows), b);
      if |w| < b {
        notDone := false;
      }
      files := AppendPartitions(files, Target(), w);
    }

    /** Resume from the progress record: its `start`, and its batch size
        unless that is unset or zero. */
    method CalcCapice()
      requires titles.Some? && Projectable(titles.value)
      requires EffectiveBatchSize(reinstance.batchSize, batchSize) > 0
      modifies this`notDone, this`files
      ensures !notDone
      ensures var b := EffectiveBatchSize(reinstance.batchSize, batchSize);
              old(notDone) ==> files == AppendedAll(old(files), Target(), RunWindows(lines, SkipCount(reinstance.start), b))
      ensures !old(notDone) ==> files == old(files)
    {
      var start, b := reinstance.GetStartAndBatchsize();
      if !Truthy(b) {
        b := Int(batchSize);
      }
      CalcCapiceFrom(start, b.n);
    }

    /** The window loop: the first window at `start`, every later one at
        `2 + i * b`, until a short window clears `notDone`. */
    method CalcCapiceFrom(start: JVal, b: int)
      requires titles.Some? && Projectable(titles.value) && b > 0
      modifies this`notDone, this`files
      ensures !notDone
      ensures old(notDone) ==> files == AppendedAll(old(files), Target(), RunWindows(lines, SkipCount(start), b))
      ensures !old(notDone) ==> files == old(files)
    {
      var firstIter := true;
      var st := start;
      ghost var sink := Target();
      ghost var final := if notDone then AppendedAll(files, sink, RunWindows(lines, SkipCount(start), b)) else files;
      assert Pending(lines, true, start, b) == RunWindows(lines, SkipCount(start), b);
      assert notDone ==> AppendedAll(files, sink, Pending(lines, true, start, b)) == final;
      while notDone
        invariant titles == old(titles) && sink == Target()
        invariant firstIter ==> st == start && files == old(files) && notDone == old(notDone)
        invariant !firstIter ==> st.Int? && st.n >= LeadingCommentLines + b
        invariant notDone ==> AppendedAll(files, sink, Pending(lines, firstIter, st, b)) == final
        invariant !notDone ==> files == final
        decreases notDone, firstIter, LinesLeft(lines, SkipCount(st))
      {
        ghost var w := ReadWindow(lines, SkipCount(st), b);
        ghost var before := files;
        ghost var next := if firstIter then LeadingCommentLines + b else st.n + b;
        LoopStep(files, sink, lines, firstIter, st, b, final);
        CalculateSaveCapiceScore(st, b);
        assert files == Appended(before, sink, w);
        if firstIter {
          st := Int(2);
          firstIter := false;
        }
        st := Int(st.n + b);
        assert st == Int(next);
        assert notDone ==> |w| >= b;
        assert notDone ==> AppendedAll(files, sink, Pending(lines, false, st, b)) == final;
      }
    }
  }
}
