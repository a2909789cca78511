/**
 The registration half of bucket_calc.py: the `leofs_keys` table, the SQL
 statements the tool sends to it (each a point operation on a map keyed by
 path), and `regist_log`, which folds a batch of tab-split access-log lines
 into that table with last-writer-wins rules per path.

 A split line `b` is read positionally: `b[0]` the operation tag, `b[1]` the
 bucket, `b[2]` the path, `b[3]` the size-accounting flag, `b[4]` the size and
 `b[6]` the unix timestamp. Timestamps and the flag are compared as strings,
 exactly as the tool compares them; the stored timestamp is a `bigint` that
 the tool turns back into a string with `str` before comparing.
 */
module BucketCalc {
  import opened Text

  /** A row of `leofs_keys` without its key: `bucket`, `size` and `unix_t` (both `bigint`). */
  datatype Record = Record(bucket: string, size: nat, unixT: nat)

  /** The `leofs_keys` table, keyed by its primary key `path`. */
  type Table = map<string, Record>

  datatype Option<T> = None | Some(value: T)

  // ---------------------------------------------------------------------------
  // Reading a split line
  // ---------------------------------------------------------------------------

  /**
   The lines the model accepts: at least seven fields, and a size and a
   timestamp that the `bigint` columns accept. This is enough for the loop
   body not to raise whatever the table holds; a line that is neither PUT nor
   DELETE, for a path that has a row, would need only three fields.
   */
  predicate WellFormed(b: seq<string>)
  {
    |b| >= 7 && IsNumeral(b[4]) && IsNumeral(b[6])
  }

  predicate AllWellFormed(buff: seq<seq<string>>)
  {
    forall i :: 0 <= i < |buff| ==> WellFormed(buff[i])
  }

  /** `"PUT" in b[0]`: the operation field mentions PUT somewhere. */
  predicate IsPut(b: seq<string>)
    requires |b| >= 1
    ensures IsPut(b) <==> exists i :: OccursAt(b[0], "PUT", i)
  {
    ContainsIffOccurs(b[0], "PUT");
    Contains(b[0], "PUT")
  }

  /** `"DELETE" in b[0]`: the operation field mentions DELETE somewhere. */
  predicate IsDelete(b: seq<string>)
    requires |b| >= 1
    ensures IsDelete(b) <==> exists i :: OccursAt(b[0], "DELETE", i)
  {
    ContainsIffOccurs(b[0], "DELETE");
    Contains(b[0], "DELETE")
  }

  /**
   `b[3] <= "1"`: the PUT replaces the stored size instead of adding to it.
   As strings, that is the flag `1`, the empty flag, or a flag whose first
   character comes before `1` (such as `0`).
   */
  predicate IsReplace(b: seq<string>)
    requires |b| >= 4
    ensures IsReplace(b) <==> b[3] == "1" || |b[3]| == 0 || b[3][0] < '1'
  {
    var flag := b[3];
    assert "1"[1..] == "" && "1"[0] == '1';
    assert |flag| > 0 && flag[0] == '1' ==> !LexLt(flag[1..], "1"[1..]);
    assert |flag| > 0 && flag[0] == '1' && flag != "1" ==> |flag| > 1;
    LexLe(flag, "1")
  }

  /** `[i.split('\t') for i in lines]`. */
  function SplitLines(log: seq<string>): (buff: seq<seq<string>>)
    ensures |buff| == |log|
    ensures forall i :: 0 <= i < |log| ==> buff[i] == Split(log[i], Tab)
    ensures forall i :: 0 <= i < |log| ==> |buff[i]| >= 1 && Join(buff[i], Tab) == log[i]
    ensures forall i, j :: 0 <= i < |log| && 0 <= j < |buff[i]| ==> Tab !in buff[i][j]
  {
    forall i | 0 <= i < |log| {
      JoinSplit(log[i], Tab);
    }
    seq(|log|, i requires 0 <= i < |log| => Split(log[i], Tab))
  }

  // ---------------------------------------------------------------------------
  // The effect of one line, and of a batch
  // ---------------------------------------------------------------------------

  /** The table after one pass of the loop body of `regist_log` for line `b`. */
  function Apply(t: Table, b: seq<string>): Table
    requires WellFormed(b)
  {
    var path := b[2];
    if path !in t then
      t[path := Record(b[1], Value(b[4]), Value(b[6]))]
    else
      var stored := ToDecimal(t[path].unixT);
      if IsPut(b) then
        if LexLt(stored, b[6]) then
          if IsReplace(b) then t[path := t[path].(size := Value(b[4]), unixT := Value(b[6]))]
          else t[path := t[path].(size := t[path].size + Value(b[4]), unixT := Value(b[6]))]
        else t
      else if IsDelete(b) then
        if LexLe(stored, b[6]) then t - {path} else t
      else t
  }

  /** The table after `regist_log` has processed every line of `buff`, in order. */
  function ApplyAll(t: Table, buff: seq<seq<string>>): Table
    requires AllWellFormed(buff)
    decreases |buff|
  {
    if buff == [] then t else Apply(ApplyAll(t, buff[..|buff| - 1]), buff[|buff| - 1])
  }

  // ---------------------------------------------------------------------------
  // The table and the statements sent to it
  // ---------------------------------------------------------------------------

  /** The `leofs_keys` table behind the tool's database connection. */
  class KeyStore {
    var rows: Table

    /** `create_talbe_if_not_exists` against an empty database. */
    constructor ()
      ensures rows == map[]
    {
      rows := map[];
    }

    /** `select_log`: the stored `unix_t` of `path`, or nothing when there is no row. */
    method SelectUnixT(path: string) returns (r: Option<nat>)
      ensures r.Some? <==> path in rows
      ensures r.Some? ==> r.value == rows[path].unixT
    {
      if path in rows {
        r := Some(rows[path].unixT);
      } else {
        r := None;
      }
    }

    /** `insert_log`; the primary key rejects a second row for the same path. */
    method Insert(path: string, bucket: string, size: nat, unixT: nat)
      requires path !in rows
      modifies this
      ensures rows == old(rows)[path := Record(bucket, size, unixT)]
    {
      rows := rows[path := Record(bucket, size, unixT)];
    }

    /** `update_log`: overwrite size and `unix_t`; no row matches an absent path. */
    method Update(path: string, size: nat, unixT: nat)
      modifies this
      ensures path in old(rows) ==> rows == old(rows)[path := Record(old(rows)[path].bucket, size, unixT)]
      ensures path !in old(rows) ==> rows == old(rows)
    {
      if path in rows {
        rows := rows[path := rows[path].(size := size, unixT := unixT)];
      }
    }

    /** `update_add_log`: add to size and overwrite `unix_t`; no row matches an absent path. */
    method UpdateAdd(path: string, size: nat, unixT: nat)
      modifies this
      ensures path in old(rows) ==>
        rows == old(rows)[path := Record(old(rows)[path].bucket, old(rows)[path].size + size, unixT)]
      ensures path !in old(rows) ==> rows == old(rows)
    {
      if path in rows {
        rows := rows[path := rows[path].(size := rows[path].size + size, unixT := unixT)];
      }
    }

    /** `delete_log`: remove the row of `path`, if any. */
    method Delete(path: string)
      modifies this
      ensures rows == old(rows) - {path}
    {
      rows := rows - {path};
    }

    /** One pass of the loop body of `regist_log`, for the split line `b`. */
    method RegistLine(b: seq<string>)
      requires WellFormed(b)
      modifies this
      ensures rows == Apply(old(rows), b)
    {
      var stored := SelectUnixT(b[2]);
      if stored.Some? {
        if IsPut(b) {
          if LexLt(ToDecimal(stored.value), b[6]) {
            if IsReplace(b) {
              Update(b[2], Value(b[4]), Value(b[6]));
            } else {
              UpdateAdd(b[2], Value(b[4]), Value(b[6]));
            }
          }
        } else if IsDelete(b) {
          if LexLe(ToDecimal(stored.value), b[6]) {
            Delete(b[2]);
          }
        }
      } else {
        Insert(b[2], b[1], Value(b[4]), Value(b[6]));
      }
    }

    /** `regist_log` over the lines read from the log files. */
    method Regist(log: seq<string>)
      requires forall i :: 0 <= i < |log| ==> WellFormed(Split(log[i], Tab))
      modifies this
      ensures rows == ApplyAll(old(rows), SplitLines(log))
    {
      var buff := SplitLines(log);
      var i := 0;
      while i < |buff|
        invariant 0 <= i <= |buff|
        invariant rows == ApplyAll(old(rows), buff[..i])
      {
        RegistLine(buff[i]);
        assert buff[..i + 1][..i] == buff[..i];
        i := i + 1;
      }
      assert buff[..i] == buff;
    }
  }

  // ---------------------------------------------------------------------------
  // One line
  // ---------------------------------------------------------------------------

  /** A line for a path with no row inserts one, whatever its operation (GET and DELETE included). */
  lemma ApplyToAbsentPath(t: Table, b: seq<string>)
    requires WellFormed(b) && b[2] !in t
    ensures b[2] in Apply(t, b)
    ensures Apply(t, b)[b[2]] == Record(b[1], Value(b[4]), Value(b[6]))
    ensures Apply(t, b).Keys == t.Keys + {b[2]}
  {
  }

  /**
   A PUT newer than the stored timestamp keeps the bucket, stamps the row
   with the line's timestamp and, by the flag, replaces or adds to the size.
   */
  lemma ApplyNewerPut(t: Table, b: seq<string>)
    requires WellFormed(b) && b[2] in t && IsPut(b)
    requires LexLt(ToDecimal(t[b[2]].unixT), b[6])
    ensures Apply(t, b).Keys == t.Keys
    ensures Apply(t, b)[b[2]].bucket == t[b[2]].bucket
    ensures Apply(t, b)[b[2]].unixT == Value(b[6])
    ensures IsReplace(b) ==> Apply(t, b)[b[2]].size == Value(b[4])
    ensures !IsReplace(b) ==> Apply(t, b)[b[2]].size == t[b[2]].size + Value(b[4])
  {
  }

  /** A PUT that is not newer than the stored timestamp changes nothing. */
  lemma ApplyStalePut(t: Table, b: seq<string>)
    requires WellFormed(b) && b[2] in t && IsPut(b)
    requires !LexLt(ToDecimal(t[b[2]].unixT), b[6])
    ensures Apply(t, b) == t
  {
  }

  /**
   A DELETE (that is not also a PUT) removes the row exactly when its
   timestamp is at least the stored one, and otherwise changes nothing.
   */
  lemma ApplyDelete(t: Table, b: seq<string>)
    requires WellFormed(b) && b[2] in t && !IsPut(b) && IsDelete(b)
    ensures b[2] !in Apply(t, b) <==> LexLe(ToDecimal(t[b[2]].unixT), b[6])
    ensures b[2] !in Apply(t, b) ==> Apply(t, b) == t - {b[2]}
    ensures b[2] in Apply(t, b) ==> Apply(t, b) == t
  {
  }

  /** Any other operation on a path that has a row changes nothing. */
  lemma ApplyOtherOperation(t: Table, b: seq<string>)
    requires WellFormed(b) && b[2] in t && !IsPut(b) && !IsDelete(b)
    ensures Apply(t, b) == t
  {
  }

  /** A line touches the row of its own path and no other. */
  lemma ApplyFrame(t: Table, b: seq<string>, q: string)
    requires WellFormed(b) && q != b[2]
    ensures q in Apply(t, b) <==> q in t
    ensures q in t ==> Apply(t, b)[q] == t[q]
  {
  }

  /**
   When the line's timestamp has as many digits as the stored one, "newer"
   in string order is "numerically greater", so an applied line never lowers
   a row's timestamp.
   */
  lemma {:induction false} ApplyNeverLowersStamp(t: Table, b: seq<string>)
    requires WellFormed(b) && b[2] in t && b[2] in Apply(t, b)
    requires |b[6]| == |ToDecimal(t[b[2]].unixT)|
    ensures t[b[2]].unixT <= Apply(t, b)[b[2]].unixT
    ensures IsPut(b) ==> (Apply(t, b) != t <==> t[b[2]].unixT < Value(b[6]))
  {
    var stored := t[b[2]].unixT;
    LexLtIsNumericLt(ToDecimal(stored), b[6]);
    ValueOfToDecimal(stored);
    if IsPut(b) && stored < Value(b[6]) {
      assert Apply(t, b)[b[2]].unixT != stored;
    }
  }

  /**
   Across a change in the number of digits the string comparison is not the
   numeric one: a PUT stamped 99 counts as newer than a row stamped 100, and
   the row's timestamp goes down.
   */
  lemma StampRegressesAcrossWidths()
    ensures var t := map["p" := Record("b", 1, 100)];
            var b := ["[PUT]", "b", "p", "0", "5", "", "99"];
            WellFormed(b) && Apply(t, b)["p"] == Record("b", 5, 99)
  {
    var t := map["p" := Record("b", 1, 100)];
    var b := ["[PUT]", "b", "p", "0", "5", "", "99"];
    assert StartsWith("[PUT]"[1..], "PUT");
    assert IsPut(b);
    assert ToDecimal(100) == "100" by {
      assert ToDecimal(10) == ToDecimal(1) + "0";
    }
    assert LexLt("100", "99");
    assert LexLt("0", "1");
    assert Value("99") == 99 by {
      assert "99"[..1] == "9";
    }
    assert Value("5") == 5;
  }

  lemma ApplyAllSingle(t: Table, b: seq<string>)
    requires WellFormed(b)
    ensures AllWellFormed([b]) && ApplyAll(t, [b]) == Apply(t, b)
  {
    assert [b][..0] == [];
  }

  /**
   A stamp written with a leading zero defeats the replay guard: `00` is
   stored as 0, read back as `0`, and `"00" > "0"` holds, so a size-adding
   PUT counts its size again when its line is registered a second time.
   */
  lemma ReplayWithLeadingZeroCountsTwice()
    ensures var b := ["[PUT]", "bk", "p", "2", "5", "", "00"];
            AllWellFormed([b]) &&
            ApplyAll(map[], [b]) == map["p" := Record("bk", 5, 0)] &&
            ApplyAll(ApplyAll(map[], [b]), [b]) == map["p" := Record("bk", 10, 0)]
  {
    var b := ["[PUT]", "bk", "p", "2", "5", "", "00"];
    assert WellFormed(b);
    assert [b][..0] == [];
    var once := ApplyAll(map[], [b]);
    assert Value("00") == 0 by {
      assert "00"[..1] == "0";
      assert Value("0") == 0;
    }
    assert Value("5") == 5;
    ApplyAllSingle(map[], b);
    ApplyAllSingle(once, b);
    assert once == map["p" := Record("bk", 5, 0)];
    assert StartsWith("[PUT]"[1..], "PUT");
    assert IsPut(b);
    assert ToDecimal(0) == "0";
    assert LexLt("0", "00");
    assert !IsReplace(b);
  }

  /**
   Replay is not a no-op once DELETE lines are involved: a DELETE for a path
   with no row inserts one, and replaying the same line removes it again.
   */
  lemma ReplayDeleteOfAbsentPathRemovesRow()
    ensures var b := ["[DELETE]", "bk", "p", "0", "5", "", "20"];
            AllWellFormed([b]) &&
            ApplyAll(map[], [b]) == map["p" := Record("bk", 5, 20)] &&
            ApplyAll(ApplyAll(map[], [b]), [b]) == map[]
  {
    var b := ["[DELETE]", "bk", "p", "0", "5", "", "20"];
    assert WellFormed(b);
    var once := ApplyAll(map[], [b]);
    assert Value("20") == 20 by {
      assert "20"[..1] == "2";
      assert Value("2") == 2;
    }
    assert Value("5") == 5;
    ApplyAllSingle(map[], b);
    ApplyAllSingle(once, b);
    assert once == map["p" := Record("bk", 5, 20)];
    assert !IsPut(b) by {
      assert ['['] + "DELETE]" == b[0];
      NotContainsPastHead('[', "DELETE]", "PUT");
    }
    assert StartsWith("[DELETE]"[1..], "DELETE");
    assert IsDelete(b);
    assert ToDecimal(20) == "20" by {
      ToDecimalOfValue("20");
    }
    assert once - {"p"} == map[];
  }

  // ---------------------------------------------------------------------------
  // A batch of lines
  // ---------------------------------------------------------------------------

  /** The rows of paths that no line of the batch mentions are untouched. */
  lemma {:induction false} ApplyAllFrame(t: Table, buff: seq<seq<string>>, q: string)
    requires AllWellFormed(buff)
    requires forall i :: 0 <= i < |buff| ==> buff[i][2] != q
    ensures q in ApplyAll(t, buff) <==> q in t
    ensures q in t ==> ApplyAll(t, buff)[q] == t[q]
    decreases |buff|
  {
    if buff != [] {
      var init := buff[..|buff| - 1];
      ApplyAllFrame(t, init, q);
      ApplyFrame(ApplyAll(t, init), buff[|buff| - 1], q);
    }
  }

  predicate AllPuts(buff: seq<seq<string>>)
    requires AllWellFormed(buff)
  {
    forall i :: 0 <= i < |buff| ==> IsPut(buff[i])
  }

  /** The paths the lines of `buff` mention. */
  function Paths(buff: seq<seq<string>>): set<string>
    requires AllWellFormed(buff)
  {
    set i | 0 <= i < |buff| :: buff[i][2]
  }

  lemma PathsSnoc(buff: seq<seq<string>>)
    requires AllWellFormed(buff) && buff != []
    ensures Paths(buff) == Paths(buff[..|buff| - 1]) + {buff[|buff| - 1][2]}
  {
    var init := buff[..|buff| - 1];
    forall p | p in Paths(buff) ensures p in Paths(init) + {buff[|buff| - 1][2]} {
      var i :| 0 <= i < |buff| && buff[i][2] == p;
      if i < |init| {
        assert init[i][2] == p;
      }
    }
    forall p | p in Paths(init) ensures p in Paths(buff) {
      var i :| 0 <= i < |init| && init[i][2] == p;
      assert buff[i][2] == p;
    }
  }

  /** A batch of PUT lines never removes a row: afterwards every path it mentions has one. */
  lemma {:induction false} PutBatchKeys(t: Table, buff: seq<seq<string>>)
    requires AllWellFormed(buff) && AllPuts(buff)
    ensures ApplyAll(t, buff).Keys == t.Keys + Paths(buff)
    decreases |buff|
  {
    if buff != [] {
      var init := buff[..|buff| - 1];
      PutBatchKeys(t, init);
      var last := buff[|buff| - 1];
      assert Apply(ApplyAll(t, init), last).Keys == ApplyAll(t, init).Keys + {last[2]};
      PathsSnoc(buff);
    }
  }

  /** Every line of `buff` is at a path with a row whose timestamp is not older than the line's. */
  predicate Dominates(u: Table, buff: seq<seq<string>>)
    requires AllWellFormed(buff)
  {
    forall i :: 0 <= i < |buff| ==>
      buff[i][2] in u && !LexLt(ToDecimal(u[buff[i][2]].unixT), buff[i][6])
  }

  predicate CanonicalStamps(buff: seq<seq<string>>)
    requires AllWellFormed(buff)
  {
    forall i :: 0 <= i < |buff| ==> IsCanonical(buff[i][6])
  }

  /** After a batch of PUTs, every row they touched is at least as new as each of them. */
  lemma {:induction false} PutBatchDominates(t: Table, buff: seq<seq<string>>)
    requires AllWellFormed(buff) && AllPuts(buff) && CanonicalStamps(buff)
    ensures Dominates(ApplyAll(t, buff), buff)
    decreases |buff|
  {
    if buff != [] {
      var n := |buff| - 1;
      var init, last := buff[..n], buff[n];
      PutBatchDominates(t, init);
      var u := ApplyAll(t, init);
      var v := Apply(u, last);
      var p := last[2];
      ToDecimalOfValue(last[6]);
      LexLtIrreflexive(last[6]);
      forall i | 0 <= i < |buff|
        ensures buff[i][2] in v && !LexLt(ToDecimal(v[buff[i][2]].unixT), buff[i][6])
      {
        if i < n {
          assert buff[i] == init[i];
          var q := buff[i][2];
          if q == p && v[p] != u[p] {
            // the row moved forward to `last[6]`, past the stamp that already dominated
            assert LexLt(ToDecimal(u[p].unixT), last[6]);
            if LexLt(last[6], buff[i][6]) {
              LexLtTransitive(ToDecimal(u[p].unixT), last[6], buff[i][6]);
            }
          } else if q != p {
            ApplyFrame(u, last, q);
          }
        }
      }
    }
  }

  /** A batch of PUTs replayed onto a table that dominates it changes nothing. */
  lemma {:induction false} DominatedBatchIsNoOp(u: Table, buff: seq<seq<string>>)
    requires AllWellFormed(buff) && AllPuts(buff) && Dominates(u, buff)
    ensures ApplyAll(u, buff) == u
    decreases |buff|
  {
    if buff != [] {
      var n := |buff| - 1;
      assert Dominates(u, buff[..n]) by {
        forall i | 0 <= i < n ensures buff[..n][i] == buff[i] { }
      }
      DominatedBatchIsNoOp(u, buff[..n]);
      ApplyStalePut(u, buff[n]);
    }
  }

  /**
   Re-registering a batch of PUT lines (with timestamps written as `str`
   writes them) onto the table it produced leaves the table unchanged: no
   size is counted twice.
   */
  lemma ReplayPutBatchIsNoOp(t: Table, buff: seq<seq<string>>)
    requires AllWellFormed(buff) && AllPuts(buff) && CanonicalStamps(buff)
    ensures ApplyAll(ApplyAll(t, buff), buff) == ApplyAll(t, buff)
  {
    PutBatchDominates(t, buff);
    DominatedBatchIsNoOp(ApplyAll(t, buff), buff);
  }
}
