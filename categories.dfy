/**
 * `return_top10_or_less_categories`: the `return_num` most frequent values
 * of a column, as `value_counts()` orders them (descending count, missing
 * cells not counted), or all of them when there are fewer.
 */
module Categories {

  /** The distinct values of a column, in order of first appearance. */
  function Distinct(xs: seq<string>): (d: seq<string>)
    ensures forall v :: v in d <==> v in xs
    ensures Unique(d)
  {
    if xs == [] then []
    else
      var prev := Distinct(xs[..|xs| - 1]);
      var v := xs[|xs| - 1];
      assert forall u :: u in xs <==> u in xs[..|xs| - 1] || u == v by {
        assert xs == xs[..|xs| - 1] + [v];
      }
      if v in prev then prev else prev + [v]
  }

  /** No value occurs twice. */
  predicate Unique(s: seq<string>) {
    forall i, j :: 0 <= i < j < |s| ==> s[i] != s[j]
  }

  lemma UniqueCons(x: string, t: seq<string>)
    requires Unique(t) && x !in t
    ensures Unique([x] + t)
  {
    var r := [x] + t;
    forall i, j | 0 <= i < j < |r| ensures r[i] != r[j] {
      assert r[j] == t[j - 1];
      if i > 0 {
        assert r[i] == t[i - 1];
      }
    }
  }

  /** How often a value occurs in a column. */
  function Count(xs: seq<string>, v: string): nat {
    multiset(xs)[v]
  }

  /** The values of `s` have non-increasing counts. */
  predicate ByDescendingCount(xs: seq<string>, s: seq<string>) {
    forall i, j :: 0 <= i < j < |s| ==> Count(xs, s[i]) >= Count(xs, s[j])
  }

  /** Insert `v` after every value counted at least as often (so that, among
      equal counts, earlier insertions come first). */
  function Insert(xs: seq<string>, s: seq<string>, v: string): (r: seq<string>)
    ensures |r| == |s| + 1
    ensures forall u :: u in r <==> u in s || u == v
  {
    if s == [] then [v]
    else if Count(xs, v) > Count(xs, s[0]) then [v] + s
    else [s[0]] + Insert(xs, s[1..], v)
  }

  /** The values of `d` ordered by descending count, ties in `d`'s order. */
  function SortByCount(xs: seq<string>, d: seq<string>): (s: seq<string>)
    ensures |s| == |d|
    ensures forall u :: u in s <==> u in d
  {
    if d == [] then [] else Insert(xs, SortByCount(xs, d[..|d| - 1]), d[|d| - 1])
  }

  /** `value_counts().index[:k]`, or the whole index when it is shorter. */
  function TopCategories(xs: seq<string>, k: nat): (r: seq<string>)
  {
    var s := SortByCount(xs, Distinct(xs));
    if |s| > k then s[..k] else s
  }

  lemma {:induction false} InsertSorted(xs: seq<string>, s: seq<string>, v: string)
    requires ByDescendingCount(xs, s)
    ensures ByDescendingCount(xs, Insert(xs, s, v))
  {
    if s != [] && Count(xs, v) <= Count(xs, s[0]) {
      InsertSorted(xs, s[1..], v);
      var r := Insert(xs, s[1..], v);
      forall u | u in r ensures Count(xs, s[0]) >= Count(xs, u) {
        if u != v {
          var j :| 0 <= j < |s[1..]| && s[1..][j] == u;
          assert s[j + 1] == u;
        }
      }
    }
  }

  lemma {:induction false} InsertDistinct(xs: seq<string>, s: seq<string>, v: string)
    requires Unique(s) && v !in s
    ensures Unique(Insert(xs, s, v))
  {
    if s == [] {
    } else if Count(xs, v) > Count(xs, s[0]) {
      UniqueCons(v, s);
    } else {
      var t := s[1..];
      assert Unique(t);
      assert s[0] !in t by {
        forall j | 0 <= j < |t| ensures t[j] != s[0] {
          assert t[j] == s[j + 1];
        }
      }
      InsertDistinct(xs, t, v);
      UniqueCons(s[0], Insert(xs, t, v));
    }
  }

  lemma {:induction false} SortByCountSorted(xs: seq<string>, d: seq<string>)
    requires Unique(d)
    ensures ByDescendingCount(xs, SortByCount(xs, d))
    ensures Unique(SortByCount(xs, d))
  {
    if d != [] {
      var p := d[..|d| - 1];
      var v := d[|d| - 1];
      assert v !in p by {
        forall j | 0 <= j < |p| ensures p[j] != v {
          assert p[j] == d[j];
        }
      }
      SortByCountSorted(xs, p);
      InsertSorted(xs, SortByCount(xs, p), v);
      InsertDistinct(xs, SortByCount(xs, p), v);
    }
  }

  /** The categories kept are `min(k, #distinct)` distinct values of the
      column, in descending order of frequency. */
  lemma TopCategoriesShape(xs: seq<string>, k: nat)
    ensures var r := TopCategories(xs, k);
            var n := |Distinct(xs)|;
            && |r| == (if n > k then k else n)
            && (forall v :: v in r ==> v in xs)
            && Unique(r)
            && ByDescendingCount(xs, r)
  {
    var d := Distinct(xs);
    var s := SortByCount(xs, d);
    SortByCountSorted(xs, d);
    var r := TopCategories(xs, k);
    assert r == s[..|r|];
    forall v | v in r ensures v in xs {
      var i :| 0 <= i < |r| && r[i] == v;
      assert s[i] == v;
    }
  }

  /** No value left out is more frequent than any value kept. */
  lemma TopCategoriesAreMostFrequent(xs: seq<string>, k: nat, u: string, v: string)
    requires u in TopCategories(xs, k) && v in xs && v !in TopCategories(xs, k)
    ensures Count(xs, u) >= Count(xs, v)
  {
    var d := Distinct(xs);
    var s := SortByCount(xs, d);
    SortByCountSorted(xs, d);
    var r := TopCategories(xs, k);
    assert r == s[..|r|];
    var i :| 0 <= i < |r| && r[i] == u;
    assert v in s;
    var j :| 0 <= j < |s| && s[j] == v;
    assert j >= |r|;
    assert s[i] == u;
  }

  /** A column with at most `k` distinct values keeps all of them. */
  lemma TopCategoriesAll(xs: seq<string>, k: nat)
    requires |Distinct(xs)| <= k
    ensures forall v :: v in TopCategories(xs, k) <==> v in xs
  {
  }
}
