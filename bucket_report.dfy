/**
 The reporting half of bucket_calc.py: `analyze_log` asks the table for its
 distinct buckets and, for each, the number of rows (`count(*)`) and their
 total size (`sum(size)`), and prints the total in GiB by dividing by 1024
 three times and truncating. These are read-only queries over the table, so
 they are functions of it.
 */
module BucketReport {
  import opened Text
  import opened BucketCalc

  /** `bucket_list`: the distinct buckets of the stored rows. */
  function Buckets(t: Table): set<string>
  {
    set p | p in t :: t[p].bucket
  }

  /** The paths the clause `WHERE bucket = b` selects. */
  function BucketPaths(t: Table, b: string): (ps: set<string>)
    ensures ps <= t.Keys
  {
    set p | p in t && t[p].bucket == b
  }

  /** `bucket_object`: `count(*)` of the rows of bucket `b`. */
  function ObjectCount(t: Table, b: string): nat
  {
    |BucketPaths(t, b)|
  }

  /** The sum of the sizes of the rows at paths `ps`. */
  ghost function SumSizes(t: Table, ps: set<string>): nat
    requires ps <= t.Keys
    decreases ps
  {
    if ps == {} then 0 else var p :| p in ps; t[p].size + SumSizes(t, ps - {p})
  }

  /** `bucket_size`: `sum(size)` of the rows of bucket `b`. */
  ghost function SizeSum(t: Table, b: string): nat
  {
    SumSizes(t, BucketPaths(t, b))
  }

  /** The printed size: `bytes / 1024 / 1024 / 1024`, each division truncating. */
  function ToGiB(bytes: nat): nat
  {
    bytes / 1024 / 1024 / 1024
  }

  /** One line of the report: the object count and the size in GiB of a bucket. */
  datatype BucketLine = BucketLine(objects: nat, gib: nat)

  /** What `analyze_log` prints, bucket by bucket. */
  ghost function Report(t: Table): map<string, BucketLine>
  {
    map b | b in Buckets(t) :: BucketLine(ObjectCount(t, b), ToGiB(SizeSum(t, b)))
  }

  // ---------------------------------------------------------------------------
  // Sums over rows
  // ---------------------------------------------------------------------------

  /** The sum does not depend on which row is taken out first. */
  lemma {:induction false} SumSizesRemove(t: Table, ps: set<string>, p: string)
    requires ps <= t.Keys && p in ps
    ensures SumSizes(t, ps) == t[p].size + SumSizes(t, ps - {p})
    decreases |ps|
  {
    var q :| q in ps && SumSizes(t, ps) == t[q].size + SumSizes(t, ps - {q});
    if q != p {
      SumSizesRemove(t, ps - {q}, p);
      SumSizesRemove(t, ps - {p}, q);
      assert ps - {q} - {p} == ps - {p} - {q};
    }
  }

  /** Two tables whose rows at `ps` have the same sizes have the same sum over `ps`. */
  lemma {:induction false} SumSizesAgree(t: Table, u: Table, ps: set<string>)
    requires ps <= t.Keys && ps <= u.Keys
    requires forall p :: p in ps ==> t[p].size == u[p].size
    ensures SumSizes(t, ps) == SumSizes(u, ps)
    decreases |ps|
  {
    if ps != {} {
      var p :| p in ps;
      SumSizesRemove(t, ps, p);
      SumSizesRemove(u, ps, p);
      SumSizesAgree(t, u, ps - {p});
    }
  }

  /** No row is bigger than its bucket's total. */
  lemma SizeSumCoversEachRow(t: Table, p: string)
    requires p in t
    ensures t[p].size <= SizeSum(t, t[p].bucket)
  {
    SumSizesRemove(t, BucketPaths(t, t[p].bucket), p);
  }

  // ---------------------------------------------------------------------------
  // The report
  // ---------------------------------------------------------------------------

  /** Dividing by 1024 three times, truncating each time, is dividing by 1024^3 once. */
  lemma ToGiBIsOneDivision(bytes: nat)
    ensures ToGiB(bytes) == bytes / 1073741824
    ensures ToGiB(bytes) * 1073741824 <= bytes < (ToGiB(bytes) + 1) * 1073741824
  {
    var k := bytes / 1024;
    var m := k / 1024;
    var g := m / 1024;
    assert bytes == 1024 * k + bytes % 1024;
    assert k == 1024 * m + k % 1024;
    assert m == 1024 * g + m % 1024;
    var rest := 1048576 * (m % 1024) + 1024 * (k % 1024) + bytes % 1024;
    assert bytes == 1073741824 * g + rest;
    assert 0 <= rest < 1073741824;
  }

  /**
   The report lists exactly the buckets that some row has; each line counts
   the rows of its bucket (so at least one) and shows their total size in
   whole GiB, rounded down.
   */
  lemma ReportLines(t: Table, b: string)
    ensures b in Report(t) <==> exists p :: p in t && t[p].bucket == b
    ensures b in Report(t) ==> Report(t)[b].objects >= 1
    ensures b in Report(t) ==> Report(t)[b].objects == |set p | p in t && t[p].bucket == b|
    ensures b in Report(t) ==> Report(t)[b].gib == SizeSum(t, b) / 1073741824
  {
    if b in Report(t) {
      var p :| p in t && t[p].bucket == b;
      assert p in BucketPaths(t, b);
      ToGiBIsOneDivision(SizeSum(t, b));
    }
  }

  /** A new row adds one object and its size to its bucket, and nothing to any other. */
  lemma {:induction false} AddRowCounts(t: Table, p: string, r: Record, c: string)
    requires p !in t
    ensures c == r.bucket ==> ObjectCount(t[p := r], c) == ObjectCount(t, c) + 1
    ensures c == r.bucket ==> SizeSum(t[p := r], c) == SizeSum(t, c) + r.size
    ensures c != r.bucket ==> ObjectCount(t[p := r], c) == ObjectCount(t, c)
    ensures c != r.bucket ==> SizeSum(t[p := r], c) == SizeSum(t, c)
  {
    var u := t[p := r];
    var before := BucketPaths(t, c);
    if c == r.bucket {
      assert BucketPaths(u, c) == before + {p};
      SumSizesRemove(u, BucketPaths(u, c), p);
      assert BucketPaths(u, c) - {p} == before;
    } else {
      assert BucketPaths(u, c) == before;
    }
    SumSizesAgree(t, u, before);
  }

  /** Removing a row takes one object and its size off its bucket, and nothing off any other. */
  lemma {:induction false} RemoveRowCounts(t: Table, p: string, c: string)
    requires p in t
    ensures c == t[p].bucket ==> ObjectCount(t - {p}, c) + 1 == ObjectCount(t, c)
    ensures c == t[p].bucket ==> SizeSum(t - {p}, c) + t[p].size == SizeSum(t, c)
    ensures c != t[p].bucket ==> ObjectCount(t - {p}, c) == ObjectCount(t, c)
    ensures c != t[p].bucket ==> SizeSum(t - {p}, c) == SizeSum(t, c)
  {
    var u := t - {p};
    assert t == u[p := t[p]];
    AddRowCounts(u, p, t[p], c);
  }

  /**
   A line registered for a path with no row adds one object and the line's
   size to the line's bucket.
   */
  lemma RegisterNewPath(t: Table, b: seq<string>)
    requires WellFormed(b) && b[2] !in t
    ensures ObjectCount(Apply(t, b), b[1]) == ObjectCount(t, b[1]) + 1
    ensures SizeSum(Apply(t, b), b[1]) == SizeSum(t, b[1]) + Value(b[4])
  {
    AddRowCounts(t, b[2], Record(b[1], Value(b[4]), Value(b[6])), b[1]);
  }

  /** A DELETE that removes a row takes it out of its bucket's count and total. */
  lemma RegisterDelete(t: Table, b: seq<string>)
    requires WellFormed(b) && b[2] in t && b[2] !in Apply(t, b)
    ensures ObjectCount(Apply(t, b), t[b[2]].bucket) + 1 == ObjectCount(t, t[b[2]].bucket)
    ensures SizeSum(Apply(t, b), t[b[2]].bucket) + t[b[2]].size == SizeSum(t, t[b[2]].bucket)
  {
    assert Apply(t, b) == t - {b[2]};
    RemoveRowCounts(t, b[2], t[b[2]].bucket);
  }
}
