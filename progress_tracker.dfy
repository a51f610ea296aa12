/**
 * The progress record of a scoring run (`ProgressTracker`): a JSON document
 * `progression.json` under `<output>/log_output/` holding `start` (the row
 * offset to resume from), `batch_size`, and one committed-line count per
 * partition file.  When no record exists, a recovery pass counts the lines
 * of every partition file found in the output tree and derives a resume
 * offset from their total.
 *
 * The file system is a parameter: `stored` is the record found on disk (if
 * any), `found` the partition paths the output tree's recursive glob yields,
 * in its order, and `disk` the lines of every regular file.
 */
module ProgressTracking {
  import opened Wrappers
  import opened Text
  import opened OrderedDicts

  /** The JSON values the record holds: `null` or an integer. */
  datatype JVal = Null | Int(n: int)

  /** Python truthiness of such a value: `None` and `0` are false. */
  predicate Truthy(v: JVal) {
    v.Int? && v.n != 0
  }

  type Record = ODict<JVal>

  const StartKey: string := "start"
  const BatchSizeKey: string := "batch_size"

  /** Lines subtracted from the recovered line total, so that a few rows
      before the counted end are read again. */
  const SafetyMargin: int := 10

  predicate IsCounterKey(k: string) {
    k != StartKey && k != BatchSizeKey
  }

  /** A record as the tracker reads and writes it: both header fields, and
      an integer for every per-file counter. */
  ghost predicate WellFormed(r: Record) {
    && r.Valid()
    && StartKey in r.entries && BatchSizeKey in r.entries
    && forall k :: k in r.entries && IsCounterKey(k) ==> r.entries[k].Int?
  }

  /** The record written when none exists: `{"start": null, "batch_size": null}`. */
  function FreshRecord(): (r: Record)
    ensures WellFormed(r)
    ensures r.entries == map[StartKey := Null, BatchSizeKey := Null]
  {
    ODict([StartKey, BatchSizeKey], map[StartKey := Null, BatchSizeKey := Null])
  }

  function ProgressJsonLocation(output: string): string {
    PathJoin(PathJoin(output, "log_output"), "progression.json")
  }

  /** The record the run starts from: the stored one, or a fresh one. */
  function BaseRecord(stored: Option<Record>): Record {
    if stored.Some? then stored.value else FreshRecord()
  }

  /** Number of lines of a partition file; 0 when the path is not a regular file. */
  function LineCount(disk: map<string, seq<string>>, path: string): nat {
    if path in disk then |disk[path]| else 0
  }

  /** The paths of `found` that are not yet keys of the record, each once,
      in the order they are found. */
  function NewPaths(found: seq<string>, known: set<string>): (ps: seq<string>)
    ensures forall p :: p in ps <==> p in found && p !in known
    ensures forall i, j :: 0 <= i < j < |ps| ==> ps[i] != ps[j]
  {
    if found == [] then []
    else
      var prev := NewPaths(found[..|found| - 1], known);
      var p := found[|found| - 1];
      assert forall q :: q in found <==> q in found[..|found| - 1] || q == p;
      if p in known || p in prev then prev else prev + [p]
  }

  /** A counter for every new path, holding its file's line count. */
  function NewCounters(news: seq<string>, disk: map<string, seq<string>>): (m: map<string, JVal>)
    ensures m.Keys == set p | p in news
    ensures forall p :: p in m ==> m[p] == Int(LineCount(disk, p))
  {
    map p | p in news :: Int(LineCount(disk, p))
  }

  /** The record after every new path got a counter holding its file's line
      count (`disk == map[]` gives the counters their initial 0). */
  function Tracked(base: Record, news: seq<string>, disk: map<string, seq<string>>): (r: Record)
    requires base.Valid()
    requires forall p :: p in news ==> p !in base.entries
    requires forall i, j :: 0 <= i < j < |news| ==> news[i] != news[j]
    ensures r.Valid()
    ensures r.order == base.order + news
    ensures r.entries == base.entries + NewCounters(news, disk)
  {
    var r := ODict(base.order + news, base.entries + NewCounters(news, disk));
    assert forall k :: k in r.order <==> k in base.order || k in news;
    forall i, j | 0 <= i < j < |r.order| ensures r.order[i] != r.order[j] {
      if j < |base.order| {
      } else if i >= |base.order| {
        assert r.order[i] == news[i - |base.order|] && r.order[j] == news[j - |base.order|];
      } else {
        assert r.order[i] in base.entries && r.order[j] in news;
      }
    }
    r
  }

  lemma NewCountersSnoc(news: seq<string>, disk: map<string, seq<string>>, p: string)
    ensures NewCounters(news + [p], disk) == NewCounters(news, disk)[p := Int(LineCount(disk, p))]
  {
    assert forall q :: q in news + [p] <==> q in news || q == p;
  }

  lemma TrackedSnoc(base: Record, news: seq<string>, disk: map<string, seq<string>>, p: string)
    requires base.Valid()
    requires forall q :: q in news ==> q !in base.entries
    requires forall i, j :: 0 <= i < j < |news| ==> news[i] != news[j]
    requires p !in news && p !in base.entries
    ensures forall q :: q in news + [p] ==> q !in base.entries
    ensures forall i, j :: 0 <= i < j < |news + [p]| ==> (news + [p])[i] != (news + [p])[j]
    ensures p !in Tracked(base, news, disk).entries
    ensures Put(Tracked(base, news, disk), p, Int(LineCount(disk, p))) == Tracked(base, news + [p], disk)
  {
    NewCountersSnoc(news, disk, p);
    var m := NewCounters(news, disk);
    var v := Int(LineCount(disk, p));
    assert base.entries + m[p := v] == (base.entries + m)[p := v];
    assert (base.order + news) + [p] == base.order + (news + [p]);
  }

  /** The part of the disk holding the given files only. */
  function Restricted(disk: map<string, seq<string>>, paths: seq<string>): map<string, seq<string>> {
    map p | p in disk && p in paths :: disk[p]
  }

  lemma TrackedRecount(base: Record, news: seq<string>, disk: map<string, seq<string>>, j: nat)
    requires base.Valid()
    requires forall p :: p in news ==> p !in base.entries
    requires forall i, k :: 0 <= i < k < |news| ==> news[i] != news[k]
    requires j < |news|
    ensures news[j] in Tracked(base, news, Restricted(disk, news[..j])).entries
    ensures Tracked(base, news, Restricted(disk, news[..j])).entries[news[j]] == Int(0)
    ensures Put(Tracked(base, news, Restricted(disk, news[..j])), news[j], Int(LineCount(disk, news[j])))
            == Tracked(base, news, Restricted(disk, news[..j + 1]))
  {
    var x, v := news[j], Int(LineCount(disk, news[j]));
    var m := NewCounters(news, Restricted(disk, news[..j]));
    CountersRecount(news, disk, j);
    assert base.entries + m[x := v] == (base.entries + m)[x := v];
  }

  /** Counting file `j` changes its counter from 0 to its line count and
      no other counter. */
  lemma CountersRecount(news: seq<string>, disk: map<string, seq<string>>, j: nat)
    requires forall i, k :: 0 <= i < k < |news| ==> news[i] != news[k]
    requires j < |news|
    ensures var m := NewCounters(news, Restricted(disk, news[..j]));
            && news[j] in m && m[news[j]] == Int(0)
            && NewCounters(news, Restricted(disk, news[..j + 1])) == m[news[j] := Int(LineCount(disk, news[j]))]
  {
    var before := Restricted(disk, news[..j]);
    var after := Restricted(disk, news[..j + 1]);
    var x := news[j];
    assert news[..j + 1] == news[..j] + [x];
    assert x !in news[..j] by {
      forall i | 0 <= i < j ensures news[..j][i] != x { }
    }
    assert x !in before;
    var v := Int(LineCount(disk, x));
    var m := NewCounters(news, before);
    var m' := NewCounters(news, after);
    forall k | k in news ensures m'[k] == m[x := v][k] {
      if k != x {
        assert k in news[..j + 1] <==> k in news[..j];
      }
    }
    assert m' == m[x := v];
  }

  lemma TrackedRestrictedAll(base: Record, news: seq<string>, disk: map<string, seq<string>>)
    requires base.Valid()
    requires forall p :: p in news ==> p !in base.entries
    requires forall i, k :: 0 <= i < k < |news| ==> news[i] != news[k]
    ensures Tracked(base, news, Restricted(disk, news)) == Tracked(base, news, disk)
  {
    assert forall k :: k in news ==> LineCount(Restricted(disk, news), k) == LineCount(disk, k);
    assert NewCounters(news, Restricted(disk, news)) == NewCounters(news, disk);
  }

  /** One step of the registration loop: the path at `i` is new exactly when
      it is not yet a key, and registering it extends both the list of new
      paths and the record by it. */
  lemma RegisterStep(base: Record, found: seq<string>, i: nat)
    requires base.Valid() && i < |found|
    ensures var need := NewPaths(found[..i], base.entries.Keys);
            var t := Tracked(base, need, map[]);
            var p := found[i];
            && (p in t.entries ==> NewPaths(found[..i + 1], base.entries.Keys) == need)
            && (p !in t.entries ==>
                  && NewPaths(found[..i + 1], base.entries.Keys) == need + [p]
                  && Put(t, p, Int(0)) == Tracked(base, need + [p], map[]))
  {
    var need := NewPaths(found[..i], base.entries.Keys);
    var p := found[i];
    assert found[..i + 1][..i] == found[..i];
    assert found[..i + 1][i] == p;
    var t := Tracked(base, need, map[]);
    assert p in t.entries <==> p in base.entries || p in need;
    if p !in t.entries {
      TrackedSnoc(base, need, map[], p);
      assert LineCount(map[], p) == 0;
    }
  }

  /** Sum of the per-file counters among `keys`, in record order. */
  function SumCounters(keys: seq<string>, entries: map<string, JVal>): int
    requires forall k :: k in keys ==> k in entries
  {
    if keys == [] then 0
    else
      var k := keys[|keys| - 1];
      SumCounters(keys[..|keys| - 1], entries) + (if IsCounterKey(k) && entries[k].Int? then entries[k].n else 0)
  }

  function SumLines(paths: seq<string>, disk: map<string, seq<string>>): int {
    if paths == [] then 0 else SumLines(paths[..|paths| - 1], disk) + LineCount(disk, paths[|paths| - 1])
  }

  /** The record the recovery pass writes: the counters, with `start` set
      to their total minus the safety margin. */
  function Recovered(counted: Record): (r: Record)
    requires WellFormed(counted)
    ensures WellFormed(r) && r.order == counted.order
    ensures r.entries == counted.entries[StartKey := Int(SumCounters(counted.order, counted.entries) - SafetyMargin)]
  {
    Put(counted, StartKey, Int(SumCounters(counted.order, counted.entries) - SafetyMargin))
  }

  lemma {:induction false} SumCountersAgree(keys: seq<string>, e1: map<string, JVal>, e2: map<string, JVal>)
    requires forall k :: k in keys ==> k in e1 && k in e2 && e1[k] == e2[k]
    ensures SumCounters(keys, e1) == SumCounters(keys, e2)
  {
    if keys != [] {
      SumCountersAgree(keys[..|keys| - 1], e1, e2);
    }
  }

  function Contribution(k: string, entries: map<string, JVal>): int
    requires k in entries
  {
    if IsCounterKey(k) && entries[k].Int? then entries[k].n else 0
  }

  lemma SumCountersSnoc(keys: seq<string>, k: string, entries: map<string, JVal>)
    requires forall q :: q in keys ==> q in entries
    requires k in entries
    ensures SumCounters(keys + [k], entries) == SumCounters(keys, entries) + Contribution(k, entries)
  {
    assert (keys + [k])[..|keys|] == keys;
  }

  lemma {:induction false} SumCountersOfNews(base: Record, news: seq<string>, disk: map<string, seq<string>>)
    requires WellFormed(base)
    requires forall p :: p in news ==> p !in base.entries
    ensures SumCounters(base.order + news, base.entries + NewCounters(news, disk))
            == SumCounters(base.order, base.entries) + SumLines(news, disk)
  {
    var e := base.entries + NewCounters(news, disk);
    if news == [] {
      assert base.order + news == base.order;
      SumCountersAgree(base.order, e, base.entries);
    } else {
      var prev := news[..|news| - 1];
      var p := news[|news| - 1];
      var ep := base.entries + NewCounters(prev, disk);
      assert base.order + news == (base.order + prev) + [p];
      assert forall k :: k in base.order + prev ==> k in e && k in ep && e[k] == ep[k] by {
        forall k | k in base.order + prev ensures k in e && k in ep && e[k] == ep[k] {
          if k in prev { assert k in news; }
        }
      }
      SumCountersSnoc(base.order + prev, p, e);
      SumCountersAgree(base.order + prev, e, ep);
      SumCountersOfNews(base, prev, disk);
      assert p !in base.entries && IsCounterKey(p);
      assert e[p] == Int(LineCount(disk, p));
    }
  }

  /** The recovered offset is the total of all recorded line counts minus
      the safety margin; there is no lower bound on it. */
  lemma RecoveredStart(base: Record, news: seq<string>, disk: map<string, seq<string>>)
    requires WellFormed(base)
    requires forall p :: p in news ==> p !in base.entries
    requires forall i, j :: 0 <= i < j < |news| ==> news[i] != news[j]
    ensures WellFormed(Tracked(base, news, disk))
    ensures Recovered(Tracked(base, news, disk)).entries[StartKey]
            == Int(SumCounters(base.order, base.entries) + SumLines(news, disk) - SafetyMargin)
  {
    var t := Tracked(base, news, disk);
    TrackedWellFormed(base, news, disk);
    SumCountersOfNews(base, news, disk);
    RecoveredStartIs(t, SumCounters(base.order, base.entries) + SumLines(news, disk));
  }

  lemma RecoveredIsPut(counted: Record, total: int)
    requires WellFormed(counted) && total == SumCounters(counted.order, counted.entries) - SafetyMargin
    ensures Recovered(counted) == Put(counted, StartKey, Int(total))
    ensures Put(counted, StartKey, Int(total)).entries[StartKey] == Int(total)
  {
  }

  lemma RecoveredStartIs(counted: Record, total: int)
    requires WellFormed(counted) && SumCounters(counted.order, counted.entries) == total
    ensures Recovered(counted).entries[StartKey] == Int(total - SafetyMargin)
  {
  }

  /** Counting the lines of new files keeps the record well formed. */
  lemma TrackedWellFormed(base: Record, news: seq<string>, disk: map<string, seq<string>>)
    requires WellFormed(base)
    requires forall p :: p in news ==> p !in base.entries
    requires forall i, j :: 0 <= i < j < |news| ==> news[i] != news[j]
    ensures WellFormed(Tracked(base, news, disk))
  {
    var t := Tracked(base, news, disk);
    var added := NewCounters(news, disk);
    assert t.entries == base.entries + added;
    forall k | k in t.entries && IsCounterKey(k) ensures t.entries[k].Int? {
      if k in added {
        assert t.entries[k] == added[k];
      } else {
        assert t.entries[k] == base.entries[k];
      }
    }
  }

  /** With no earlier record and only empty partition files the recovered
      offset is -10. */
  lemma {:induction false} EmptyOutputsRecoverMinusTen(news: seq<string>, disk: map<string, seq<string>>)
    requires forall p :: p in news ==> IsCounterKey(p) && LineCount(disk, p) == 0
    requires forall i, j :: 0 <= i < j < |news| ==> news[i] != news[j]
    ensures Recovered(Tracked(FreshRecord(), news, disk)).entries[StartKey] == Int(-10)
  {
    RecoveredStart(FreshRecord(), news, disk);
    NoLines(news, disk);
    var f := FreshRecord();
    NoCounters(f.order, f.entries);
  }

  lemma {:induction false} NoLines(news: seq<string>, disk: map<string, seq<string>>)
    requires forall p :: p in news ==> LineCount(disk, p) == 0
    ensures SumLines(news, disk) == 0
  {
    if news != [] {
      NoLines(news[..|news| - 1], disk);
    }
  }

  lemma {:induction false} NoCounters(keys: seq<string>, entries: map<string, JVal>)
    requires forall k :: k in keys ==> k in entries && !IsCounterKey(k)
    ensures SumCounters(keys, entries) == 0
  {
    if keys != [] {
      NoCounters(keys[..|keys| - 1], entries);
    }
  }

  /** The recovery total: -10 plus every per-file counter of the record,
      accumulated in record order. */
  method TotalLines(r: Record) returns (total: int)
    requires WellFormed(r)
    ensures total == SumCounters(r.order, r.entries) - SafetyMargin
  {
    total := -SafetyMargin;
    var k := 0;
    while k < |r.order|
      invariant 0 <= k <= |r.order|
      invariant total == SumCounters(r.order[..k], r.entries) - SafetyMargin
    {
      var key := r.order[k];
      assert r.order[..k + 1][..k] == r.order[..k];
      if IsCounterKey(key) {
        total := total + r.entries[key].n;
      }
      k := k + 1;
    }
    assert r.order[..k] == r.order;
  }

  class ProgressTracker {
    const output: string
    const progressJsonLoc: string
    /** The in-memory record (`progress_json`). */
    var progressJson: Record
    var start: JVal
    var batchSize: JVal
    /** The content of `progression.json` on disk. */
    var persisted: Record
    /** How many times the whole record has been written to disk. */
    var rewrites: nat

    ghost predicate Valid()
      reads this
    {
      && progressJson.Valid()
      && StartKey in progressJson.entries && BatchSizeKey in progressJson.entries
      && persisted == progressJson
    }

    constructor (output: string, stored: Option<Record>, found: seq<string>, disk: map<string, seq<string>>)
      requires stored.Some? ==> WellFormed(stored.value)
      ensures Valid()
      ensures this.output == output && progressJsonLoc == ProgressJsonLocation(output)
      ensures var base := BaseRecord(stored);
              var news := NewPaths(found, base.entries.Keys);
              && batchSize == base.entries[BatchSizeKey]
              && (news == [] ==> progressJson == base && start == base.entries[StartKey])
              && (news != [] ==> progressJson == Recovered(Tracked(base, news, disk))
                                 && start == progressJson.entries[StartKey])
    {
      this.output := output;
      progressJsonLoc := ProgressJsonLocation(output);
      progressJson := FreshRecord();
      start, batchSize := Null, Null;
      persisted := FreshRecord();
      rewrites := 0;
      new;
      CheckForProgressJson(stored);
      CheckForProcessedFiles(found, disk);
    }

    /** Load the stored record, or write a fresh one when there is none. */
    method CheckForProgressJson(stored: Option<Record>)
      requires stored.Some? ==> WellFormed(stored.value)
      requires start == Null && batchSize == Null
      modifies this`progressJson, this`persisted, this`start, this`batchSize, this`rewrites
      ensures WellFormed(progressJson) && persisted == progressJson
      ensures progressJson == BaseRecord(stored)
      ensures start == progressJson.entries[StartKey] && batchSize == progressJson.entries[BatchSizeKey]
    {
      if stored.Some? {
        progressJson := stored.value;
        start := stored.value.entries[StartKey];
        batchSize := stored.value.entries[BatchSizeKey];
        persisted := stored.value;
      } else {
        progressJson := FreshRecord();
        persisted := progressJson;
        rewrites := rewrites + 1;
      }
    }

    /** Give every new partition file a counter equal to its line count and,
        if there were any, persist the recovered offset; then reload. */
    method CheckForProcessedFiles(found: seq<string>, disk: map<string, seq<string>>)
      requires WellFormed(progressJson) && persisted == progressJson
      requires start == progressJson.entries[StartKey]
      modifies this`progressJson, this`persisted, this`start, this`rewrites
      ensures Valid()
      ensures var news := NewPaths(found, old(progressJson).entries.Keys);
              && (news == [] ==> progressJson == old(progressJson) && start == old(start))
              && (news != [] ==> progressJson == Recovered(Tracked(old(progressJson), news, disk))
                                 && start == progressJson.entries[StartKey])
    {
      ghost var base := progressJson;
      var need := RegisterNewPaths(found);
      if |need| > 0 {
        CountLines(base, need, disk);
        TrackedWellFormed(base, need, disk);
        SaveRecoveredStart();
      }
      progressJson := persisted;
    }

    /** Set `start` to the recovered offset and write the record with it. */
    method SaveRecoveredStart()
      requires WellFormed(progressJson)
      modifies this`persisted, this`start, this`rewrites
      ensures persisted == Recovered(progressJson) && start == persisted.entries[StartKey]
      ensures rewrites == old(rewrites) + 1
    {
      var counted := progressJson;
      var total := TotalLines(counted);
      RecoveredIsPut(counted, total);
      persisted := Put(counted, StartKey, Int(total));
      start := Int(total);
      rewrites := rewrites + 1;
    }

    /** Add a zero counter for every found path that is not yet a key. */
    method RegisterNewPaths(found: seq<string>) returns (need: seq<string>)
      requires progressJson.Valid()
      modifies this`progressJson
      ensures need == NewPaths(found, old(progressJson).entries.Keys)
      ensures progressJson == Tracked(old(progressJson), need, map[])
    {
      ghost var base := progressJson;
      need := [];
      var i := 0;
      while i < |found|
        invariant 0 <= i <= |found|
        invariant need == NewPaths(found[..i], base.entries.Keys)
        invariant progressJson == Tracked(base, need, map[])
      {
        var path := found[i];
        RegisterStep(base, found, i);
        if path !in progressJson.entries {
          progressJson := Put(progressJson, path, Int(0));
          need := need + [path];
        }
        i := i + 1;
      }
      assert found[..i] == found;
    }

    /** Count the lines of every newly registered file into its counter. */
    method CountLines(ghost base: Record, need: seq<string>, disk: map<string, seq<string>>)
      requires base.Valid()
      requires forall p :: p in need ==> p !in base.entries
      requires forall i, j :: 0 <= i < j < |need| ==> need[i] != need[j]
      requires progressJson == Tracked(base, need, map[])
      modifies this`progressJson
      ensures progressJson == Tracked(base, need, disk)
    {
      assert Restricted(disk, need[..0]) == map[];
      var j := 0;
      while j < |need|
        invariant 0 <= j <= |need|
        invariant progressJson == Tracked(base, need, Restricted(disk, need[..j]))
      {
        var file := need[j];
        TrackedRecount(base, need, disk, j);
        if file in disk {
          CountFileLines(file, disk[file]);
        } else {
          PutSameValue(progressJson, file);
        }
        j := j + 1;
      }
      assert need[..j] == need;
      TrackedRestrictedAll(base, need, disk);
    }

    /** `for line in gzip.open(file): counter[file] += 1`, from a zero counter. */
    method CountFileLines(file: string, lines: seq<string>)
      requires progressJson.Valid() && file in progressJson.entries
      requires progressJson.entries[file] == Int(0)
      modifies this`progressJson
      ensures progressJson == Put(old(progressJson), file, Int(|lines|))
    {
      var n := 0;
      while n < |lines|
        invariant 0 <= n <= |lines|
        invariant progressJson == Put(old(progressJson), file, Int(n))
      {
        progressJson := Put(progressJson, file, Int(progressJson.entries[file].n + 1));
        n := n + 1;
      }
    }

    /** Whether `key` is a key of the record. */
    method IsInProgressionJson(key: string) returns (b: bool)
      ensures b <==> key in progressJson.entries
    {
      b := key in progressJson.entries;
    }

    method GetStartAndBatchsize() returns (s: JVal, b: JVal)
      ensures s == start && b == batchSize
    {
      s, b := start, batchSize;
    }

    method GetProgressionLoc() returns (loc: string)
      ensures loc == progressJsonLoc
    {
      loc := progressJsonLoc;
    }

    /** `self.progress_json[key]`: the stored value, or a `KeyError` when
        the key is absent. */
    method GetProgressionJsonValue(key: string) returns (r: Result<JVal, string>)
      ensures r.Ok? <==> key in progressJson.entries
      ensures r.Ok? ==> r.value == progressJson.entries[key]
      ensures r.Err? ==> r.error == "KeyError"
    {
      if key in progressJson.entries {
        r := Ok(progressJson.entries[key]);
      } else {
        r := Err("KeyError");
      }
    }

    /** Put or overwrite one key, then rewrite the whole record on disk
        (also when the value did not change). */
    method UpdateProgression(key: string, value: JVal)
      requires Valid()
      modifies this`progressJson, this`persisted, this`rewrites
      ensures Valid()
      ensures progressJson.entries == old(progressJson.entries)[key := value]
      ensures progressJson.order == if key in old(progressJson.entries) then old(progressJson.order)
                                    else old(progressJson.order) + [key]
      ensures key in old(progressJson.entries) && old(progressJson.entries[key]) == value
              ==> progressJson == old(progressJson)
      ensures persisted == progressJson && rewrites == old(rewrites) + 1
    {
      if key in progressJson.entries {
        var toBeUpdated := progressJson.entries[key];
        if toBeUpdated != value {
          progressJson := Put(progressJson, key, value);
        }
      } else {
        progressJson := Put(progressJson, key, value);
      }
      persisted := progressJson;
      rewrites := rewrites + 1;
    }
  }
}
