/**
 * The source as written where it departs from what it evidently intends.
 * Each member here follows the Python statement by statement, and each
 * lemma shows an input on which that code raises, hangs or computes
 * something other than what the surrounding code expects.  The classes
 * in the other modules model the intended behaviour.
 */
module Findings {
  import opened Wrappers
  import opened Text
  import opened OrderedDicts
  import opened ProgressTracking
  import opened VariantTable
  import opened Runs

  /** The Python exceptions the code as written raises. */
  datatype PyError = TypeError(message: string) | AttributeError(message: string)

  /* ---------- the recovery total sums every value of the record ---------- */

  /** `total_lines = -10; for nline in d.values(): total_lines += nline`
      over all keys, `start` and `batch_size` included; adding `None`
      raises. */
  function TotalAsWritten(keys: seq<string>, entries: map<string, JVal>): (r: Result<int, PyError>)
    requires forall k :: k in keys ==> k in entries
    ensures r.Err? ==> r.error.TypeError?
  {
    if keys == [] then Ok(-SafetyMargin)
    else
      var prev := TotalAsWritten(keys[..|keys| - 1], entries);
      var v := entries[keys[|keys| - 1]];
      if prev.Err? then prev
      else if v.Null? then Err(TypeError("unsupported operand type(s) for +=: 'int' and 'NoneType'"))
      else Ok(prev.value + v.n)
  }

  /** A `null` anywhere in the record makes the sum raise. */
  lemma {:induction false} TotalAsWrittenFailsOnNull(keys: seq<string>, entries: map<string, JVal>, i: nat)
    requires forall k :: k in keys ==> k in entries
    requires i < |keys| && entries[keys[i]] == Null
    ensures TotalAsWritten(keys, entries).Err?
  {
    if i < |keys| - 1 {
      TotalAsWrittenFailsOnNull(keys[..|keys| - 1], entries, i);
    }
  }

  /** The record a recovery starts from when no record was stored has
      `"start": null` first, so the recovery raises on it, whatever
      partition files were found. */
  lemma FreshRecoveryRaises(news: seq<string>, disk: map<string, seq<string>>)
    requires forall p :: p in news ==> p !in FreshRecord().entries
    requires forall i, j :: 0 <= i < j < |news| ==> news[i] != news[j]
    ensures var t := Tracked(FreshRecord(), news, disk);
            TotalAsWritten(t.order, t.entries).Err?
  {
    var t := Tracked(FreshRecord(), news, disk);
    assert t.order[0] == StartKey;
    TotalAsWrittenFailsOnNull(t.order, t.entries, 0);
  }

  /** Without `null`s the sum is the intended total plus whatever `start`
      and `batch_size` hold. */
  lemma {:induction false} TotalAsWrittenCountsHeader(keys: seq<string>, entries: map<string, JVal>)
    requires forall k :: k in keys ==> k in entries && entries[k].Int?
    ensures TotalAsWritten(keys, entries)
            == Ok(SumCounters(keys, entries) - SafetyMargin + HeaderSum(keys, entries))
  {
    if keys != [] {
      TotalAsWrittenCountsHeader(keys[..|keys| - 1], entries);
    }
  }

  /** The values of `start` and `batch_size` among `keys`. */
  function HeaderSum(keys: seq<string>, entries: map<string, JVal>): int
    requires forall k :: k in keys ==> k in entries && entries[k].Int?
  {
    if keys == [] then 0
    else
      var k := keys[|keys| - 1];
      HeaderSum(keys[..|keys| - 1], entries) + (if IsCounterKey(k) then 0 else entries[k].n)
  }

  /* ---------- `update` puts the old header back over the new start ---------- */

  /** `d.update(src)` for the keys of `src` in order. */
  function UpdateWith(d: Record, keys: seq<string>, entries: map<string, JVal>): (r: Record)
    requires d.Valid()
    requires forall k :: k in keys ==> k in entries
    ensures r.Valid()
    ensures forall k :: k in keys ==> k in r.entries && r.entries[k] == entries[k]
  {
    if keys == [] then d
    else
      var k := keys[|keys| - 1];
      Put(UpdateWith(d, keys[..|keys| - 1], entries), k, entries[k])
  }

  /** `{'start': total, 'batch_size': None}` updated with the counted record,
      which holds `start` and `batch_size` itself. */
  function SavedAsWritten(counted: Record, total: int): (r: Record)
    requires counted.Valid()
    ensures r.Valid()
  {
    UpdateWith(ODict([StartKey, BatchSizeKey], map[StartKey := Int(total), BatchSizeKey := Null]),
               counted.order, counted.entries)
  }

  /** The saved `start` is the counted record's own `start` (`null` for a
      fresh record), not the recovered total. */
  lemma SavedAsWrittenDropsTotal(counted: Record, total: int)
    requires WellFormed(counted)
    ensures SavedAsWritten(counted, total).entries[StartKey] == counted.entries[StartKey]
    ensures counted.entries[StartKey] == Null ==> SavedAsWritten(counted, total).entries[StartKey] != Int(total)
  {
  }

  /* ---------- the tracker's constructor ---------- */

  /** `ProgressTracker.__init__` as written: with a stored record
      `progress_json` stays `None` (`None.keys()` raises when a partition file
      is found, `open(None)` raises otherwise); without one the sum over the
      record raises when files are found, and `open` of the dict raises
      when none are. */
  function InitAsWritten(stored: Option<Record>, found: seq<string>, disk: map<string, seq<string>>): Result<Record, PyError>
  {
    if stored.Some? then
      if found != [] then Err(AttributeError("'NoneType' object has no attribute 'keys'"))
      else Err(TypeError("expected str, bytes or os.PathLike object, not NoneType"))
    else
      var news := NewPaths(found, FreshRecord().entries.Keys);
      if news == [] then Err(TypeError("expected str, bytes or os.PathLike object, not dict"))
      else
        var t := Tracked(FreshRecord(), news, disk);
        var total := TotalAsWritten(t.order, t.entries);
        if total.Err? then Err(total.error)
        else Err(TypeError("expected str, bytes or os.PathLike object, not dict"))
  }

  /** The constructor as written never returns. */
  lemma InitAsWrittenAlwaysRaises(stored: Option<Record>, found: seq<string>, disk: map<string, seq<string>>)
    ensures InitAsWritten(stored, found, disk).Err?
    ensures stored.None? && NewPaths(found, FreshRecord().entries.Keys) != [] ==>
              InitAsWritten(stored, found, disk).error.TypeError?
  {
    if stored.None? {
      var news := NewPaths(found, FreshRecord().entries.Keys);
      if news != [] {
        FreshRecoveryRaises(news, disk);
      }
    }
  }

  /* ---------- the header scan ---------- */

  /** `while True: line = f.readline(); if line.startswith("#Chr"): break`
      for at most `fuel` reads; past the end `readline` returns the empty
      line forever.  `None` means the loop is still running. */
  function ScanAsWritten(lines: seq<string>, i: nat, fuel: nat): Option<nat>
    decreases fuel
  {
    if fuel == 0 then None
    else
      var line := if i < |lines| then lines[i] else "";
      if StartsWith(line, HeaderMark) then Some(i) else ScanAsWritten(lines, i + 1, fuel - 1)
  }

  /** Without a header line the scan never stops, however long it runs. */
  lemma {:induction false} ScanAsWrittenHangs(lines: seq<string>, i: nat, fuel: nat)
    requires forall j :: 0 <= j < |lines| ==> !StartsWith(lines[j], HeaderMark)
    ensures ScanAsWritten(lines, i, fuel) == None
    decreases fuel
  {
    if fuel > 0 {
      ScanAsWrittenHangs(lines, i + 1, fuel - 1);
    }
  }

  /** With a header line the scan stops on the first one. */
  lemma {:induction false} ScanAsWrittenFindsHeader(lines: seq<string>, i: nat, k: nat)
    requires i <= k < |lines| && StartsWith(lines[k], HeaderMark)
    requires forall j :: i <= j < k ==> !StartsWith(lines[j], HeaderMark)
    ensures ScanAsWritten(lines, i, k - i + 1) == Some(k)
    decreases k - i
  {
    if i < k {
      ScanAsWrittenFindsHeader(lines, i + 1, k);
    }
  }

  /* ---------- logging with a `None` offset ---------- */

  /** The log line of the last window: `skip_rows + variants_df.shape[0]`,
      less `minus` (1 in src/pre_compute_capice.py:55, 0 in
      step9_pre_computed_scores_snv.py:55); adding to `None` raises. */
  function LastWindowLogAsWritten(skipRows: JVal, rows: nat, minus: nat): Result<int, PyError> {
    if skipRows.Null? then Err(TypeError("unsupported operand type(s) for +: 'NoneType' and 'int'"))
    else Ok(skipRows.n + rows - minus)
  }

  /** The window loop of src/pre_compute_capice.py:103-134 as written,
      reduced to what it evaluates: `calculate_save_capice_score(start, b)`
      reads the window at `start`, a short one evaluates the last-window
      log with that same `start` as `skip_rows`, and the offset then becomes
      `2 + b`, `2 + 2b`, ...  The result is the number that log prints.
      The progress log of :125-127 is guarded by `if start:` and never
      adds to `None`, so it is left out. */
  function RunLogAsWritten(lines: seq<string>, firstIter: bool, start: JVal, b: nat): Result<int, PyError>
    requires b > 0
    requires !firstIter ==> start.Int? && start.n > 0
    decreases if firstIter then 1 else 0, LinesLeft(lines, SkipCount(start))
  {
    var w := ReadWindow(lines, SkipCount(start), b);
    if |w| < b then LastWindowLogAsWritten(start, |w|, 1)
    else RunLogAsWritten(lines, false, Int(if firstIter then LeadingCommentLines + b else start.n + b), b)
  }

  /** A full window at a set offset leaves fewer lines after the next one. */
  lemma FullWindowAdvances(lines: seq<string>, start: JVal, b: nat)
    requires b > 0 && start.Int? && start.n > 0
    requires |ReadWindow(lines, SkipCount(start), b)| >= b
    ensures LinesLeft(lines, SkipCount(Int(start.n + b))) < LinesLeft(lines, SkipCount(start))
  {
    assert start.n + b <= |lines|;
  }

  /** Once the offset is set, no later window of the run raises. */
  lemma {:induction false} LaterWindowsLog(lines: seq<string>, start: JVal, b: nat)
    requires b > 0 && start.Int? && start.n > 0
    ensures RunLogAsWritten(lines, false, start, b).Ok?
    decreases LinesLeft(lines, SkipCount(start))
  {
    LaterWindowLog(lines, start, b);
    if |ReadWindow(lines, SkipCount(start), b)| >= b {
      FullWindowAdvances(lines, start, b);
      LaterWindowsLog(lines, Int(start.n + b), b);
    }
  }

  /** A later turn: a short window logs with the set offset, a full one
      hands the rest of the run the offset `b` lines on. */
  lemma LaterWindowLog(lines: seq<string>, start: JVal, b: nat)
    requires b > 0 && start.Int? && start.n > 0
    ensures var w := ReadWindow(lines, SkipCount(start), b);
            RunLogAsWritten(lines, false, start, b) ==
              if |w| < b then LastWindowLogAsWritten(start, |w|, 1)
              else RunLogAsWritten(lines, false, Int(start.n + b), b)
  {
  }

  /** A run resumed from the record's `start` (what `CalcCapice` hands
      its first `calculate_save_capice_score`) raises exactly when that
      `start` is unset and the run it reads, `RunWindows`, is a single
      short window: the table fits in one batch. */
  lemma ShortFirstWindowRaises(lines: seq<string>, start: JVal, b: nat)
    requires b > 0
    ensures RunLogAsWritten(lines, true, start, b).Err? <==>
              start.Null? && |RunWindows(lines, SkipCount(start), b)| == 1
  {
    RunWindowsCount(lines, SkipCount(start), b);
    FirstWindowLog(lines, start, b);
    if |ReadWindow(lines, SkipCount(start), b)| >= b {
      LaterWindowsLog(lines, Int(LeadingCommentLines + b), b);
    }
  }

  /** The first turn of the run: a short window logs with `start`, a full
      one hands the rest of the run the offset `2 + b`. */
  lemma FirstWindowLog(lines: seq<string>, start: JVal, b: nat)
    requires b > 0
    ensures var w := ReadWindow(lines, SkipCount(start), b);
            RunLogAsWritten(lines, true, start, b) ==
              if |w| < b then LastWindowLogAsWritten(start, |w|, 1)
              else RunLogAsWritten(lines, false, Int(LeadingCommentLines + b), b)
  {
  }

  /** A run is a single window exactly when its first window is short. */
  lemma RunWindowsCount(lines: seq<string>, first: nat, b: nat)
    requires b > 0
    ensures |RunWindows(lines, first, b)| == 1 <==> |ReadWindow(lines, first, b)| < b
  {
    if |ReadWindow(lines, first, b)| >= b {
      assert |RunWindows(lines, first, b)| == 1 + |WindowsFrom(lines, LeadingCommentLines + b, b)|;
    }
  }

  /** The progress log of step9_pre_computed_scores_snv.py:112-114: `if
      not start: log(start + batch_size)`, which adds to `None` exactly
      when `start` is unset. */
  function ProgressLogAsWritten(start: JVal, b: int): Result<Option<int>, PyError> {
    if Truthy(start) then Ok(None)
    else if start.Null? then Err(TypeError("unsupported operand type(s) for +: 'NoneType' and 'int'"))
    else Ok(Some(start.n + b))
  }

  /** The window loop of step9_pre_computed_scores_snv.py:89-121 as
      written: every turn that logs its progress evaluates
      `ProgressLogAsWritten` before reading its window, then the window at
      `start` is read and a short one evaluates the last-window log.  The
      first turn always logs; a later one logs when an hour has passed, and
      the model lets it log every time, which changes nothing, because the
      progress log of a set, positive `start` never raises. */
  function Step9RunAsWritten(lines: seq<string>, firstIter: bool, start: JVal, b: nat): Result<int, PyError>
    requires b > 0
    requires !firstIter ==> start.Int? && start.n > 0
    decreases if firstIter then 1 else 0, LinesLeft(lines, SkipCount(start))
  {
    var progress := ProgressLogAsWritten(start, b);
    if progress.Err? then Err(progress.error)
    else
      var w := ReadWindow(lines, SkipCount(start), b);
      if |w| < b then LastWindowLogAsWritten(start, |w|, 0)
      else Step9RunAsWritten(lines, false, Int(if firstIter then LeadingCommentLines + b else start.n + b), b)
  }

  /** Once `start` is set, no later turn of that loop raises. */
  lemma {:induction false} Step9LaterTurnsLog(lines: seq<string>, start: JVal, b: nat)
    requires b > 0 && start.Int? && start.n > 0
    ensures Step9RunAsWritten(lines, false, start, b).Ok?
    decreases LinesLeft(lines, SkipCount(start))
  {
    Step9LaterTurn(lines, start, b);
    if |ReadWindow(lines, SkipCount(start), b)| >= b {
      FullWindowAdvances(lines, start, b);
      Step9LaterTurnsLog(lines, Int(start.n + b), b);
    }
  }

  /** A later turn of that loop: its progress log is skipped, a short
      window logs the total read, a full one hands the rest of the run the
      offset `b` lines on. */
  lemma Step9LaterTurn(lines: seq<string>, start: JVal, b: nat)
    requires b > 0 && start.Int? && start.n > 0
    ensures var w := ReadWindow(lines, SkipCount(start), b);
            Step9RunAsWritten(lines, false, start, b) ==
              if |w| < b then LastWindowLogAsWritten(start, |w|, 0)
              else Step9RunAsWritten(lines, false, Int(start.n + b), b)
  {
  }

  /** Every run of step9_pre_computed_scores_snv.py starts with `start =
      None` (:90) and raises in its first turn, before any window is
      read; the same loop entered with the offset the first turn sets
      would run to its end, so that one guard is the whole failure. */
  lemma Step9FirstIterationRaises(lines: seq<string>, b: nat)
    requires b > 0
    ensures Step9RunAsWritten(lines, true, Null, b).Err?
    ensures Step9RunAsWritten(lines, true, Null, b).error.TypeError?
    ensures Step9RunAsWritten(lines, false, Int(LeadingCommentLines + b), b).Ok?
  {
    Step9LaterTurnsLog(lines, Int(LeadingCommentLines + b), b);
  }
}
