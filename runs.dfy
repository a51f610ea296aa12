/**
 * The offset sequence of a scoring run and what a run of windows does to
 * the output tree.  The loop reads a window at `start`, then sets the
 * offset to `2` and adds the batch size before every further window, so
 * the windows are read at `start`, `2 + b`, `2 + 2b`, ... until one comes
 * back with fewer than `b` rows.
 */
module Runs {
  import opened VariantTable
  import opened Partitions
  import opened ProgressTracking

  /** pandas' `skiprows` given an integer or `None`: `None`, zero and a
      negative number skip nothing (an integer `n` skips `range(n)`). */
  function SkipCount(skipRows: JVal): (n: nat)
    ensures skipRows.Int? && skipRows.n > 0 ==> n == skipRows.n
    ensures !(skipRows.Int? && skipRows.n > 0) ==> n == 0
  {
    if skipRows.Int? && skipRows.n > 0 then skipRows.n else 0
  }

  /** The batch size a run uses: the persisted one when it is set and
      non-zero, else the configured one. */
  function EffectiveBatchSize(persisted: JVal, configured: int): (b: int)
    ensures Truthy(persisted) ==> b == persisted.n
    ensures !Truthy(persisted) ==> b == configured
  {
    if Truthy(persisted) then persisted.n else configured
  }

  /** A positive batch size read from a stored record is used as is; a
      missing or zero one never shadows the configured one. */
  lemma EffectiveBatchSizeChoice(persisted: JVal, configured: int)
    ensures EffectiveBatchSize(persisted, configured) == configured <==>
              (!Truthy(persisted) || persisted.n == configured)
    ensures persisted == Null ==> EffectiveBatchSize(persisted, configured) == configured
  {
  }

  /** The windows still to be read: the whole run while the first window
      is pending, afterwards the ones from the current offset on. */
  function Pending(lines: seq<string>, firstIter: bool, start: JVal, b: nat): seq<seq<string>>
    requires b > 0
  {
    if firstIter then RunWindows(lines, SkipCount(start), b) else WindowsFrom(lines, SkipCount(start), b)
  }

  /** Lines left after an offset, plus one; zero past the end, where a
      window is empty and the loop stops. */
  function LinesLeft(lines: seq<string>, skip: nat): nat {
    if skip <= |lines| then |lines| - skip + 1 else 0
  }

  lemma AppendedAllCons(files: map<string, seq<string>>, sink: Sink, w: seq<string>, rest: seq<seq<string>>)
    requires Projectable(sink.titles)
    ensures AppendedAll(files, sink, [w] + rest) == AppendedAll(Appended(files, sink, w), sink, rest)
  {
    assert ([w] + rest)[0] == w;
    assert ([w] + rest)[1..] == rest;
  }

  /** The windows of a run are its first window followed, when that one
      is full, by the windows from the next offset (`2 + b` after the
      first window, `skip + b` after a later one). */
  lemma PendingShape(lines: seq<string>, firstIter: bool, start: JVal, b: nat)
    requires b > 0
    requires !firstIter ==> start.Int? && start.n > 0
    ensures var w := ReadWindow(lines, SkipCount(start), b);
            var next := if firstIter then LeadingCommentLines + b else start.n + b;
            Pending(lines, firstIter, start, b) == [w] + (if |w| < b then [] else Pending(lines, false, Int(next), b))
  {
    var skip := SkipCount(start);
    var w := ReadWindow(lines, skip, b);
    var next := if firstIter then LeadingCommentLines + b else start.n + b;
    assert SkipCount(Int(next)) == next;
    if firstIter {
      assert Pending(lines, firstIter, start, b) == RunWindows(lines, skip, b);
    } else {
      assert Pending(lines, firstIter, start, b) == WindowsFrom(lines, skip, b);
      assert next == skip + b;
    }
    if |w| < b {
      assert [w] + [] == [w];
    } else {
      assert Pending(lines, false, Int(next), b) == WindowsFrom(lines, next, b);
    }
  }

  /** Reading one window of a run leaves the rest of it. */
  lemma PendingStep(files: map<string, seq<string>>, sink: Sink, lines: seq<string>,
                    firstIter: bool, start: JVal, b: nat)
    requires Projectable(sink.titles) && b > 0
    requires !firstIter ==> start.Int? && start.n > 0
    ensures var w := ReadWindow(lines, SkipCount(start), b);
            var next := if firstIter then LeadingCommentLines + b else start.n + b;
            var rest := if |w| < b then [] else Pending(lines, false, Int(next), b);
            AppendedAll(files, sink, Pending(lines, firstIter, start, b)) == AppendedAll(Appended(files, sink, w), sink, rest)
  {
    var w := ReadWindow(lines, SkipCount(start), b);
    var next := if firstIter then LeadingCommentLines + b else start.n + b;
    var rest := if |w| < b then [] else Pending(lines, false, Int(next), b);
    PendingShape(lines, firstIter, start, b);
    AppendedAllCons(files, sink, w, rest);
  }

  /** One turn of the window loop, for the loop invariant: after a short
      window the tree is final, after a full one the rest of the run is
      what is left, from an offset with fewer lines after it. */
  lemma LoopStep(files: map<string, seq<string>>, sink: Sink, lines: seq<string>,
                 firstIter: bool, start: JVal, b: nat, final: map<string, seq<string>>)
    requires Projectable(sink.titles) && b > 0
    requires !firstIter ==> start.Int? && start.n > 0
    requires AppendedAll(files, sink, Pending(lines, firstIter, start, b)) == final
    ensures var w := ReadWindow(lines, SkipCount(start), b);
            var next := if firstIter then LeadingCommentLines + b else start.n + b;
            && (|w| < b ==> Appended(files, sink, w) == final)
            && (|w| >= b ==> AppendedAll(Appended(files, sink, w), sink, Pending(lines, false, Int(next), b)) == final)
            && (|w| >= b && !firstIter ==> LinesLeft(lines, next) < LinesLeft(lines, SkipCount(start)))
  {
    PendingStep(files, sink, lines, firstIter, start, b);
  }
}
