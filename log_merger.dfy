/**
 log_merger.py: pool the lines of several gateway access logs, keep the PUT
 and DELETE lines, pair each with its timestamp field, sort the pairs as
 Python sorts tuples (by timestamp string, then by the whole line), and
 write the lines out in that order.
 */
module LogMerger {
  import opened Text

  /** A line with at least seven tab-separated fields, so that field 6 exists. */
  predicate HasTimestamp(line: string)
  {
    |Split(line, Tab)| >= 7
  }

  /** `extract_timestamp`: field 6 of the line split on tabs. */
  function ExtractTimestamp(line: string): (ts: string)
    requires HasTimestamp(line)
    ensures Tab !in ts
  {
    Split(line, Tab)[6]
  }

  /** The timestamp of a line built from tab-free fields is its seventh field. */
  lemma ExtractTimestampOfFields(fields: seq<string>)
    requires |fields| >= 7
    requires forall i :: 0 <= i < |fields| ==> Tab !in fields[i]
    ensures HasTimestamp(Join(fields, Tab))
    ensures ExtractTimestamp(Join(fields, Tab)) == fields[6]
  {
    SplitJoin(fields, Tab);
  }

  /** `"[PUT]" in l or "[DELETE]" in l`. */
  predicate IsUpdate(line: string)
  {
    Contains(line, "[PUT]") || Contains(line, "[DELETE]")
  }

  /** The lines the comprehension keeps, in input order. */
  function Updates(lines: seq<string>): (kept: seq<string>)
    ensures forall l :: l in kept ==> l in lines && IsUpdate(l)
    decreases |lines|
  {
    if lines == [] then []
    else (if IsUpdate(lines[0]) then [lines[0]] else []) + Updates(lines[1..])
  }

  /** What the merger needs of its input not to raise: every PUT or DELETE line has field 6. */
  predicate Mergeable(lines: seq<string>)
  {
    forall i :: 0 <= i < |lines| && IsUpdate(lines[i]) ==> HasTimestamp(lines[i])
  }

  /** The kept lines are exactly the PUT and DELETE lines, each as often as in the input. */
  lemma {:induction false} UpdatesExact(lines: seq<string>, l: string)
    ensures multiset(Updates(lines))[l] == if IsUpdate(l) then multiset(lines)[l] else 0
    decreases |lines|
  {
    if lines != [] {
      UpdatesExact(lines[1..], l);
      assert lines == [lines[0]] + lines[1..];
    }
  }

  /** With no PUT or DELETE line in the input, nothing is kept. */
  lemma {:induction false} NoUpdatesKeepsNothing(lines: seq<string>)
    requires forall i :: 0 <= i < |lines| ==> !IsUpdate(lines[i])
    ensures Updates(lines) == []
    decreases |lines|
  {
    if lines != [] {
      NoUpdatesKeepsNothing(lines[1..]);
    }
  }

  // ---------------------------------------------------------------------------
  // The (timestamp, line) pairs and their order
  // ---------------------------------------------------------------------------

  /** One element of `tupledlist`. */
  datatype Entry = Entry(ts: string, line: string)

  function Keyed(line: string): Entry
    requires HasTimestamp(line)
  {
    Entry(ExtractTimestamp(line), line)
  }

  /** `tupledlist`, before sorting. */
  function Tupled(lines: seq<string>): (pairs: seq<Entry>)
    requires Mergeable(lines)
    ensures |pairs| == |Updates(lines)|
    ensures forall i :: 0 <= i < |pairs| ==> pairs[i].line == Updates(lines)[i]
    ensures forall e :: e in pairs ==> HasTimestamp(e.line) && e == Keyed(e.line)
  {
    var kept := Updates(lines);
    assert forall l :: l in kept ==> HasTimestamp(l) by {
      forall l | l in kept ensures HasTimestamp(l) {
        var i :| 0 <= i < |lines| && lines[i] == l;
      }
    }
    seq(|kept|, i requires 0 <= i < |kept| => Keyed(kept[i]))
  }

  /** Python's `<=` on `(timestamp, line)` tuples. */
  predicate EntryLe(x: Entry, y: Entry)
  {
    LexLt(x.ts, y.ts) || (x.ts == y.ts && LexLe(x.line, y.line))
  }

  /** Any two tuples are ordered one way or the other. */
  lemma EntryLeTotal(x: Entry, y: Entry)
    ensures EntryLe(x, y) || EntryLe(y, x)
  {
    if x.ts != y.ts {
      LexLtTotal(x.ts, y.ts);
    } else if x.line != y.line {
      LexLtTotal(x.line, y.line);
    }
  }

  /** Lines sorted as their `(timestamp, line)` tuples are. */
  predicate MergeOrdered(out: seq<string>)
    requires forall l :: l in out ==> HasTimestamp(l)
  {
    forall k :: 0 < k < |out| ==>
      LexLe(ExtractTimestamp(out[k - 1]), ExtractTimestamp(out[k])) &&
      (ExtractTimestamp(out[k - 1]) == ExtractTimestamp(out[k]) ==> LexLe(out[k - 1], out[k]))
  }

  /** Exchange two neighbouring pairs. */
  method SwapDown(a: array<Entry>, j: int)
    requires 0 < j < a.Length
    modifies a
    ensures a[j - 1] == old(a[j]) && a[j] == old(a[j - 1])
    ensures forall k :: 0 <= k < a.Length && k != j - 1 && k != j ==> a[k] == old(a[k])
    ensures multiset(a[..]) == multiset(old(a[..]))
  {
    a[j - 1], a[j] := a[j], a[j - 1];
  }

  /** Move `a[i]` down past the larger pairs before it, so that `a[..i + 1]` is sorted. */
  method InsertDown(a: array<Entry>, i: int)
    requires 0 <= i < a.Length
    requires forall k :: 0 < k < i ==> EntryLe(a[k - 1], a[k])
    modifies a
    ensures forall k :: 0 < k <= i ==> EntryLe(a[k - 1], a[k])
    ensures forall k :: i < k < a.Length ==> a[k] == old(a[k])
    ensures multiset(a[..]) == multiset(old(a[..]))
  {
    var j := i;
    while j > 0 && !EntryLe(a[j - 1], a[j])
      invariant 0 <= j <= i
      invariant forall k :: 0 < k <= i && k != j ==> EntryLe(a[k - 1], a[k])
      invariant 0 < j < i ==> EntryLe(a[j - 1], a[j + 1])
      invariant forall k :: i < k < a.Length ==> a[k] == old(a[k])
      invariant multiset(a[..]) == multiset(old(a[..]))
    {
      EntryLeTotal(a[j - 1], a[j]);
      SwapDown(a, j);
      j := j - 1;
    }
  }

  /** `tupledlist.sort()`: an insertion sort of the array of pairs, in place. */
  method SortEntries(a: array<Entry>)
    modifies a
    ensures forall k :: 0 < k < a.Length ==> EntryLe(a[k - 1], a[k])
    ensures multiset(a[..]) == multiset(old(a[..]))
  {
    var i := 0;
    while i < a.Length
      invariant 0 <= i <= a.Length
      invariant forall k :: 0 < k < i ==> EntryLe(a[k - 1], a[k])
      invariant multiset(a[..]) == multiset(old(a[..]))
    {
      InsertDown(a, i);
      i := i + 1;
    }
  }

  /** The second components of the pairs, in order. */
  function Lines(es: seq<Entry>): seq<string>
  {
    seq(|es|, i requires 0 <= i < |es| => es[i].line)
  }

  lemma MultisetRemoveAt<T>(s: seq<T>, j: nat)
    requires j < |s|
    ensures multiset(s[..j] + s[j + 1..]) == multiset(s) - multiset{s[j]}
  {
    assert s == s[..j] + [s[j]] + s[j + 1..];
  }

  lemma FindIndex<T>(s: seq<T>, x: T) returns (j: nat)
    requires x in multiset(s)
    ensures j < |s| && s[j] == x
  {
    j :| 0 <= j < |s| && s[j] == x;
  }

  /** The lines around position `j`, and with position `j` taken out. */
  lemma LinesAround(ys: seq<Entry>, j: nat)
    requires j < |ys|
    ensures Lines(ys) == Lines(ys[..j]) + [ys[j].line] + Lines(ys[j + 1..])
    ensures Lines(ys[..j] + ys[j + 1..]) == Lines(ys[..j]) + Lines(ys[j + 1..])
  {
  }

  lemma LinesCons(xs: seq<Entry>)
    requires |xs| > 0
    ensures Lines(xs) == [xs[0].line] + Lines(xs[1..])
  {
  }

  /** Taking out the pair at `j` takes its line out of the lines. */
  lemma LinesRemoveAt(ys: seq<Entry>, j: nat)
    requires j < |ys|
    ensures multiset(Lines(ys)) == multiset(Lines(ys[..j] + ys[j + 1..])) + multiset{ys[j].line}
  {
    LinesAround(ys, j);
    var a, b := Lines(ys[..j]), Lines(ys[j + 1..]);
    assert multiset(a + [ys[j].line] + b) == multiset(a) + multiset{ys[j].line} + multiset(b);
  }

  /** Matching the first of `xs` with `ys[j]` leaves two rearrangements of each other. */
  lemma PermutationRest<T>(xs: seq<T>, ys: seq<T>, j: nat)
    requires multiset(xs) == multiset(ys)
    requires |xs| > 0 && j < |ys| && ys[j] == xs[0]
    ensures multiset(xs[1..]) == multiset(ys[..j] + ys[j + 1..])
  {
    MultisetRemoveAt(ys, j);
    MultisetRemoveAt(xs, 0);
    assert xs[..0] + xs[1..] == xs[1..];
  }

  /** Putting the matched pair back in front of both rearranged rests. */
  lemma LinesPermutationStep(xs: seq<Entry>, ys: seq<Entry>, j: nat)
    requires |xs| > 0 && j < |ys| && ys[j] == xs[0]
    requires multiset(Lines(xs[1..])) == multiset(Lines(ys[..j] + ys[j + 1..]))
    ensures multiset(Lines(xs)) == multiset(Lines(ys))
  {
    LinesCons(xs);
    LinesRemoveAt(ys, j);
  }

  /** Rearranging pairs rearranges their lines the same way. */
  lemma {:induction false} LinesOfPermutation(xs: seq<Entry>, ys: seq<Entry>)
    requires multiset(xs) == multiset(ys)
    ensures multiset(Lines(xs)) == multiset(Lines(ys))
    decreases |xs|
  {
    if xs == [] {
      assert |multiset(ys)| == 0;
    } else {
      var j := FindIndex(ys, xs[0]);
      PermutationRest(xs, ys, j);
      LinesOfPermutation(xs[1..], ys[..j] + ys[j + 1..]);
      LinesPermutationStep(xs, ys, j);
    }
  }

  /**
   The body of `main` between reading and writing: keep the PUT and DELETE
   lines, sort the `(timestamp, line)` pairs, and emit the lines in order.
   */
  method Merge(lines: seq<string>) returns (out: seq<string>)
    requires Mergeable(lines)
    ensures multiset(out) == multiset(Updates(lines))
    ensures forall l :: l in out ==> l in lines && IsUpdate(l) && HasTimestamp(l)
    ensures MergeOrdered(out)
    ensures (forall i :: 0 <= i < |lines| ==> !IsUpdate(lines[i])) ==> out == []
  {
    var pairs := Tupled(lines);
    var a := new Entry[|pairs|](i requires 0 <= i < |pairs| => pairs[i]);
    assert a[..] == pairs;
    SortEntries(a);
    out := [];
    var k := 0;
    while k < a.Length
      invariant 0 <= k <= a.Length
      invariant out == Lines(a[..k])
    {
      out := out + [a[k].line];
      k := k + 1;
    }
    assert a[..k] == a[..];
    SortedPairsGiveMergedLines(lines, a[..]);
  }

  /** Writing out the lines of the sorted pairs gives the merged output. */
  lemma SortedPairsGiveMergedLines(lines: seq<string>, sorted: seq<Entry>)
    requires Mergeable(lines)
    requires multiset(sorted) == multiset(Tupled(lines))
    requires forall k :: 0 < k < |sorted| ==> EntryLe(sorted[k - 1], sorted[k])
    ensures multiset(Lines(sorted)) == multiset(Updates(lines))
    ensures forall l :: l in Lines(sorted) ==> l in lines && IsUpdate(l) && HasTimestamp(l)
    ensures MergeOrdered(Lines(sorted))
    ensures (forall i :: 0 <= i < |lines| ==> !IsUpdate(lines[i])) ==> sorted == []
  {
    TupledLines(lines);
    LinesOfPermutation(sorted, Tupled(lines));
    PermutedPairsFromLines(lines, sorted);
    SortedPairsOrderLines(sorted);
    if forall i :: 0 <= i < |lines| ==> !IsUpdate(lines[i]) {
      NoUpdatesKeepsNothing(lines);
      assert |multiset(sorted)| == 0;
    }
  }

  lemma TupledLines(lines: seq<string>)
    requires Mergeable(lines)
    ensures Lines(Tupled(lines)) == Updates(lines)
  {
  }

  /** Every pair of a rearrangement of `Tupled(lines)` is an update line of `lines` with its timestamp. */
  lemma PermutedPairsFromLines(lines: seq<string>, sorted: seq<Entry>)
    requires Mergeable(lines)
    requires multiset(sorted) == multiset(Tupled(lines))
    ensures forall e :: e in sorted ==> e.line in lines && IsUpdate(e.line) && HasTimestamp(e.line) && e == Keyed(e.line)
    ensures forall l :: l in Lines(sorted) ==> l in lines && IsUpdate(l) && HasTimestamp(l)
  {
    var pairs := Tupled(lines);
    forall e | e in sorted ensures e.line in lines && IsUpdate(e.line) && HasTimestamp(e.line) && e == Keyed(e.line) {
      assert e in multiset(pairs);
      var i :| 0 <= i < |pairs| && pairs[i] == e;
      assert e.line == Updates(lines)[i];
    }
  }

  /** Sorted pairs, each made from its own line, give merge-ordered lines. */
  lemma SortedPairsOrderLines(sorted: seq<Entry>)
    requires forall e :: e in sorted ==> HasTimestamp(e.line) && e == Keyed(e.line)
    requires forall k :: 0 < k < |sorted| ==> EntryLe(sorted[k - 1], sorted[k])
    ensures forall l :: l in Lines(sorted) ==> HasTimestamp(l)
    ensures MergeOrdered(Lines(sorted))
  {
    var out := Lines(sorted);
    forall k | 0 < k < |out|
      ensures LexLe(ExtractTimestamp(out[k - 1]), ExtractTimestamp(out[k]))
      ensures ExtractTimestamp(out[k - 1]) == ExtractTimestamp(out[k]) ==> LexLe(out[k - 1], out[k])
    {
      var x, y := sorted[k - 1], sorted[k];
      assert out[k - 1] == x.line && out[k] == y.line;
      PairOrderIsLineOrder(x, y);
    }
  }

  /** Ordered pairs give lines ordered by timestamp, ties broken by the line text. */
  lemma PairOrderIsLineOrder(x: Entry, y: Entry)
    requires HasTimestamp(x.line) && x == Keyed(x.line)
    requires HasTimestamp(y.line) && y == Keyed(y.line)
    requires EntryLe(x, y)
    ensures LexLe(ExtractTimestamp(x.line), ExtractTimestamp(y.line))
    ensures ExtractTimestamp(x.line) == ExtractTimestamp(y.line) ==> LexLe(x.line, y.line)
  {
    LexLtIrreflexive(x.ts);
  }

  // ---------------------------------------------------------------------------
  // The merged order is determined by the input
  // ---------------------------------------------------------------------------

  predicate LineLe(x: string, y: string)
    requires HasTimestamp(x) && HasTimestamp(y)
  {
    EntryLe(Keyed(x), Keyed(y))
  }

  lemma LineLeTransitive(x: string, y: string, z: string)
    requires HasTimestamp(x) && HasTimestamp(y) && HasTimestamp(z)
    requires LineLe(x, y) && LineLe(y, z)
    ensures LineLe(x, z)
  {
    var tx, ty, tz := ExtractTimestamp(x), ExtractTimestamp(y), ExtractTimestamp(z);
    if LexLt(tx, ty) && LexLt(ty, tz) {
      LexLtTransitive(tx, ty, tz);
    } else if tx == ty && ty == tz && x != y && y != z {
      LexLtTransitive(x, y, z);
    }
  }

  lemma LineLeAntisymmetric(x: string, y: string)
    requires HasTimestamp(x) && HasTimestamp(y)
    requires LineLe(x, y) && LineLe(y, x)
    ensures x == y
  {
    var tx, ty := ExtractTimestamp(x), ExtractTimestamp(y);
    if LexLt(tx, ty) {
      LexLtAsymmetric(tx, ty);
      LexLtIrreflexive(tx);
    } else if LexLt(ty, tx) {
      LexLtIrreflexive(tx);
    } else if x != y {
      LexLtAsymmetric(x, y);
    }
  }

  /** The first line of a merge-ordered sequence comes no later than any of its lines. */
  lemma {:induction false} FirstIsLeast(xs: seq<string>, k: nat)
    requires forall l :: l in xs ==> HasTimestamp(l)
    requires MergeOrdered(xs) && k < |xs|
    ensures LineLe(xs[0], xs[k])
    decreases k
  {
    if k == 0 {
      assert LexLe(xs[0], xs[0]);
    } else {
      FirstIsLeast(xs, k - 1);
      assert LineLe(xs[k - 1], xs[k]);
      LineLeTransitive(xs[0], xs[k - 1], xs[k]);
    }
  }

  lemma MergeOrderedTail(xs: seq<string>)
    requires forall l :: l in xs ==> HasTimestamp(l)
    requires MergeOrdered(xs) && |xs| > 0
    ensures forall l :: l in xs[1..] ==> HasTimestamp(l)
    ensures MergeOrdered(xs[1..])
  {
    forall k | 0 < k < |xs[1..]| ensures xs[1..][k - 1] == xs[k] && xs[1..][k] == xs[k + 1] { }
  }

  /** Two merge-ordered arrangements of the same lines start with the same line. */
  lemma SameFirstLine(xs: seq<string>, ys: seq<string>)
    requires forall l :: l in xs ==> HasTimestamp(l)
    requires forall l :: l in ys ==> HasTimestamp(l)
    requires multiset(xs) == multiset(ys) && |xs| > 0
    requires MergeOrdered(xs) && MergeOrdered(ys)
    ensures |ys| > 0 && xs[0] == ys[0]
  {
    assert |ys| == |multiset(ys)| == |xs|;
    assert ys[0] in multiset(xs) && xs[0] in multiset(ys);
    var i :| 0 <= i < |xs| && xs[i] == ys[0];
    var j :| 0 <= j < |ys| && ys[j] == xs[0];
    FirstIsLeast(xs, i);
    FirstIsLeast(ys, j);
    LineLeAntisymmetric(xs[0], ys[0]);
  }

  lemma SameHeadAndTail<T>(xs: seq<T>, ys: seq<T>)
    requires |xs| > 0 && |ys| > 0 && xs[0] == ys[0] && xs[1..] == ys[1..]
    ensures xs == ys
  {
    assert xs == [xs[0]] + xs[1..] && ys == [ys[0]] + ys[1..];
  }

  /**
   Two merge-ordered arrangements of the same lines are the same sequence:
   ties in the timestamp are broken by the line text, so the output does not
   depend on the order the lines were read in.
   */
  lemma {:induction false} MergeOrderUnique(xs: seq<string>, ys: seq<string>)
    requires forall l :: l in xs ==> HasTimestamp(l)
    requires multiset(xs) == multiset(ys)
    requires forall l :: l in ys ==> HasTimestamp(l)
    requires MergeOrdered(xs) && MergeOrdered(ys)
    ensures xs == ys
    decreases |xs|
  {
    if xs == [] {
      assert |multiset(ys)| == 0;
    } else {
      SameFirstLine(xs, ys);
      MergeOrderedTail(xs);
      MergeOrderedTail(ys);
      PermutationRest(xs, ys, 0);
      assert ys[..0] + ys[1..] == ys[1..];
      MergeOrderUnique(xs[1..], ys[1..]);
      SameHeadAndTail(xs, ys);
    }
  }
}
