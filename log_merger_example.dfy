/**
 The example in the help text of log_merger.py: two gateway logs, one GET
 line among them, merged into three lines in time order.
 */
module LogMergerExample {
  import opened Text
  import opened LogMerger

  /** The clock fields of the help-text lines, split where they first differ. */
  const Stamp768K: string := "1427813" + "883825366"
  const Stamp32K: string := "1427813" + ("944" + "087985")
  const Stamp16K: string := "1427813" + ("944" + "131908")

  const Put768K: seq<string> := ["[PUT]", "bucket001", "bucket001/file_768K", "0", "786432",
    "2015-03-31 23:58:03.825296 +0900", Stamp768K, "200\n"]
  const Delete32K: seq<string> := ["[DELETE]", "bucket001", "bucket001/file_32K", "0", "32768",
    "2015-03-31 23:59:04.87913 +0900", Stamp32K, "200\n"]
  const Put16K: seq<string> := ["[PUT]", "bucket001", "bucket001/file_16K", "0", "16384",
    "2015-03-31 23:59:04.131844 +0900", Stamp16K, "200\n"]
  const Get192K: seq<string> := ["[GET]", "bucket001", "bucket001/file_192K", "0", "196608",
    "2015-03-31 23:59:04.167192 +0900", "1427813944167258", "200\n"]

  predicate TabFree(fields: seq<string>)
  {
    forall i :: 0 <= i < |fields| ==> Tab !in fields[i]
  }

  /** The fields of a gateway log line recording a PUT or a DELETE. */
  predicate UpdateFields(fields: seq<string>)
  {
    |fields| == 8 && TabFree(fields) && (fields[0] == "[PUT]" || fields[0] == "[DELETE]")
  }

  /** The fields of a gateway log line recording a GET, with no `[` after the tag. */
  predicate GetFields(fields: seq<string>)
  {
    |fields| >= 2 && fields[0] == "[GET]" && forall i :: 1 <= i < |fields| ==> '[' !in fields[i]
  }

  /** A PUT or DELETE line is kept and its timestamp is its seventh field. */
  lemma UpdateLine(fields: seq<string>)
    requires UpdateFields(fields)
    ensures HasTimestamp(Join(fields, Tab))
    ensures ExtractTimestamp(Join(fields, Tab)) == fields[6]
    ensures IsUpdate(Join(fields, Tab))
  {
    ExtractTimestampOfFields(fields);
    var line := Join(fields, Tab);
    assert line == fields[0] + ([Tab] + Join(fields[1..], Tab));
    assert StartsWith(line, fields[0]);
  }

  /** A GET line is dropped. */
  lemma GetLine(fields: seq<string>)
    requires GetFields(fields)
    ensures !IsUpdate(Join(fields, Tab))
  {
    var rest := Join(fields[1..], Tab);
    if '[' in rest {
      CharInJoin(fields[1..], Tab, '[');
      assert false;
    }
    var tail := "GET]" + [Tab] + rest;
    assert Join(fields, Tab) == ['['] + tail;
    assert '[' !in tail;
    assert (['['] + tail)[1] == 'G';
    NotContainsPastHead('[', tail, "[PUT]");
    NotContainsPastHead('[', tail, "[DELETE]");
  }

  /** Two update lines with increasing timestamps are in merge order. */
  lemma UpdateLinesInOrder(a: seq<string>, b: seq<string>)
    requires UpdateFields(a) && UpdateFields(b) && LexLt(a[6], b[6])
    ensures HasTimestamp(Join(a, Tab)) && HasTimestamp(Join(b, Tab))
    ensures LexLe(ExtractTimestamp(Join(a, Tab)), ExtractTimestamp(Join(b, Tab)))
    ensures ExtractTimestamp(Join(a, Tab)) != ExtractTimestamp(Join(b, Tab))
  {
    UpdateLine(a);
    UpdateLine(b);
    LexLtIrreflexive(a[6]);
  }

  /** Of three update lines and a non-update line, the first three are kept. */
  lemma {:induction false} KeepFirstThree(la: string, lb: string, lc: string, lg: string)
    requires IsUpdate(la) && IsUpdate(lb) && IsUpdate(lc) && !IsUpdate(lg)
    ensures Updates([la, lb, lc, lg]) == [la, lb, lc]
  {
    assert [lg][1..] == [];
    assert Updates([lg]) == [];
    assert [lc, lg][1..] == [lg];
    assert Updates([lc, lg]) == [lc];
    assert [lb, lc, lg][1..] == [lc, lg];
    assert Updates([lb, lc, lg]) == [lb, lc];
    assert [la, lb, lc, lg][1..] == [lb, lc, lg];
  }

  /** Three update lines with timestamps and a non-update line can be merged. */
  lemma MergeableFour(la: string, lb: string, lc: string, lg: string)
    requires HasTimestamp(la) && HasTimestamp(lb) && HasTimestamp(lc) && !IsUpdate(lg)
    ensures Mergeable([la, lb, lc, lg])
  {
  }

  /** Three update lines followed by a GET line: the GET line is dropped. */
  lemma ThreeUpdatesThenGet(a: seq<string>, b: seq<string>, c: seq<string>, g: seq<string>)
    requires UpdateFields(a) && UpdateFields(b) && UpdateFields(c) && GetFields(g)
    ensures Mergeable([Join(a, Tab), Join(b, Tab), Join(c, Tab), Join(g, Tab)])
    ensures Updates([Join(a, Tab), Join(b, Tab), Join(c, Tab), Join(g, Tab)]) == [Join(a, Tab), Join(b, Tab), Join(c, Tab)]
  {
    var la, lb, lc, lg := Join(a, Tab), Join(b, Tab), Join(c, Tab), Join(g, Tab);
    UpdateLine(a);
    UpdateLine(b);
    UpdateLine(c);
    GetLine(g);
    MergeableFour(la, lb, lc, lg);
    KeepFirstThree(la, lb, lc, lg);
  }

  /** Three update lines in increasing timestamp order are in merge order. */
  lemma ThreeUpdatesOrdered(a: seq<string>, b: seq<string>, c: seq<string>)
    requires UpdateFields(a) && UpdateFields(b) && UpdateFields(c)
    requires LexLt(a[6], b[6]) && LexLt(b[6], c[6])
    ensures forall l :: l in [Join(a, Tab), Join(b, Tab), Join(c, Tab)] ==> HasTimestamp(l)
    ensures MergeOrdered([Join(a, Tab), Join(b, Tab), Join(c, Tab)])
  {
    UpdateLinesInOrder(a, b);
    UpdateLinesInOrder(b, c);
  }

  /** The two help-text logs, access.1.log followed by access.2.log. */
  function HelpExampleInput(): seq<string>
  {
    [Join(Put768K, Tab), Join(Delete32K, Tab), Join(Put16K, Tab), Join(Get192K, Tab)]
  }

  /** The merged output the help text shows. */
  function HelpExampleOutput(): seq<string>
  {
    [Join(Put768K, Tab), Join(Delete32K, Tab), Join(Put16K, Tab)]
  }

  lemma Put768KShape()
    ensures UpdateFields(Put768K)
  {
  }

  lemma Delete32KShape()
    ensures UpdateFields(Delete32K)
  {
  }

  lemma Put16KShape()
    ensures UpdateFields(Put16K)
  {
  }

  lemma Get192KShape()
    ensures GetFields(Get192K)
  {
  }

  /** The help-text timestamps increase from line to line. */
  lemma HelpExampleStamps()
    ensures LexLt(Put768K[6], Delete32K[6]) && LexLt(Delete32K[6], Put16K[6])
  {
    LexLtAfterPrefix("1427813", "883825366", "944" + "087985");
    LexLtAfterPrefix("944", "087985", "131908");
    LexLtAfterPrefix("1427813", "944" + "087985", "944" + "131908");
  }

  /** Merging access.1.log with access.2.log gives the three update lines in time order. */
  method MergeHelpExample() returns (out: seq<string>)
    ensures out == HelpExampleOutput()
  {
    Put768KShape();
    Delete32KShape();
    Put16KShape();
    Get192KShape();
    HelpExampleStamps();
    ThreeUpdatesThenGet(Put768K, Delete32K, Put16K, Get192K);
    ThreeUpdatesOrdered(Put768K, Delete32K, Put16K);
    out := Merge(HelpExampleInput());
    MergeOrderUnique(out, HelpExampleOutput());
  }
}
