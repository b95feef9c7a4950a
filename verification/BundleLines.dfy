/** The lines of a bundle, and what their order does and does not decide. */
module BundleLines {
  import opened Sequences
  import opened ValidationRules
  import opened ValidationResults

  /**
    `Unusable`: not an object, or one whose identity cannot be computed; `writable` says whether its
    quarantine line can be written.
   */
  datatype Line = Unusable(dataset: Dataset, writable: bool) | Usable(record: Record) {
    function Of(): Dataset {
      if Usable? then record.Dataset() else dataset
    }
  }

  function AllOf(lines: seq<Line>): set<Record> {
    set line | line in lines && line.Usable? :: line.record
  }

  /** The position of a line within its own dataset's file, from 1. */
  function LineNumber(lines: seq<Line>, i: nat): nat
    requires i < |lines|
  {
    1 + Earlier(lines[..i], lines[i].Of())
  }

  function Earlier(lines: seq<Line>, ds: Dataset): nat {
    if lines == [] then 0 else Earlier(Front(lines), ds) + if Last(lines).Of() == ds then 1 else 0
  }

  /** A line's number is one more than the number of earlier lines of its dataset. */
  lemma {:induction false} LineNumberCounts(lines: seq<Line>, i: nat)
    requires i < |lines|
    ensures LineNumber(lines, i) == 1 + |set k | 0 <= k < i && lines[k].Of() == lines[i].Of()|
  {
    var ds := lines[i].Of();
    EarlierCounts(lines[..i], ds);
    assert Counted(lines[..i], (line: Line) => line.Of() == ds) == set k | 0 <= k < i && lines[k].Of() == ds;
  }

  lemma {:induction false} EarlierCounts(lines: seq<Line>, ds: Dataset)
    ensures Earlier(lines, ds) == |Counted(lines, (line: Line) => line.Of() == ds)|
  {
    if lines != [] {
      hide Line.Of;
      EarlierCounts(Front(lines), ds);
      OneMoreCounted(lines, (line: Line) => line.Of() == ds);
    }
  }

  function Counted(lines: seq<Line>, wanted: Line -> bool): set<int> {
    set k | 0 <= k < |lines| && wanted(lines[k])
  }

  lemma OneMoreCounted(lines: seq<Line>, wanted: Line -> bool)
    requires lines != []
    ensures |Counted(lines, wanted)| == |Counted(Front(lines), wanted)| + if wanted(Last(lines)) then 1 else 0
  {
    assert Counted(lines, wanted) == Counted(Front(lines), wanted) +
      if wanted(Last(lines)) then {|lines| - 1} else {};
  }

  /** How many lines carry a record of the set. */
  ghost function CountIn(lines: seq<Line>, records: set<Record>): nat {
    if lines == [] then 0
    else CountIn(Front(lines), records) + if Last(lines).Usable? && Last(lines).record in records then 1 else 0
  }

  lemma {:induction false} CountInCounts(lines: seq<Line>, records: set<Record>)
    ensures CountIn(lines, records) == |Counted(lines, (line: Line) => line.Usable? && line.record in records)|
  {
    if lines != [] {
      CountInCounts(Front(lines), records);
      OneMoreCounted(lines, (line: Line) => line.Usable? && line.record in records);
    }
  }

  ghost function Clean(lines: seq<Line>, conforms: Record -> bool): set<Record> {
    AfterRevisions(Conforming(AllOf(lines), conforms))
  }

  lemma {:induction false} CountInConcat(a: seq<Line>, b: seq<Line>, records: set<Record>)
    ensures CountIn(a + b, records) == CountIn(a, records) + CountIn(b, records)
  {
    if b == [] {
      assert a + b == a;
    } else {
      assert Front(a + b) == a + Front(b) && Last(a + b) == Last(b);
      CountInConcat(a, Front(b), records);
    }
  }

  lemma WithoutOne(a: seq<Line>, left: seq<Line>, x: Line, right: seq<Line>)
    requires multiset(a + [x]) == multiset(left + [x] + right)
    ensures multiset(a) == multiset(left + right)
  {
    assert multiset(a + [x]) == multiset(a) + multiset{x};
    assert multiset(left + [x] + right) == multiset(left) + multiset{x} + multiset(right);
    assert multiset(left + right) == multiset(left) + multiset(right);
    assert multiset(a) == multiset(a + [x]) - multiset{x};
  }

  lemma {:induction false} CountWithoutOne(left: seq<Line>, x: Line, right: seq<Line>, records: set<Record>)
    ensures CountIn(left + [x] + right, records) == CountIn(left + right, records) + CountIn([x], records)
  {
    CountInConcat(left, right, records);
    CountInConcat(left, [x], records);
    CountInConcat(left + [x], right, records);
  }

  lemma {:induction false} CountIgnoresOrder(a: seq<Line>, b: seq<Line>, records: set<Record>)
    requires multiset(a) == multiset(b)
    ensures CountIn(a, records) == CountIn(b, records)
    decreases |a|
  {
    hide CountIn;
    if a == [] {
      assert |multiset(b)| == |b|;
    } else {
      var front, x := Front(a), Last(a);
      assert a == front + [x];
      assert x in multiset(a);
      var i :| 0 <= i < |b| && b[i] == x;
      var left, right := b[..i], b[i + 1..];
      assert b == left + [x] + right;
      WithoutOne(front, left, x, right);
      CountIgnoresOrder(front, left + right, records);
      CountWithoutOne(left, x, right, records);
      CountWithoutOne(front, x, [], records);
      assert front + [x] + [] == a && front + [] == front;
    }
  }

  lemma AllIgnoresOrder(a: seq<Line>, b: seq<Line>)
    requires multiset(a) == multiset(b)
    ensures AllOf(a) == AllOf(b)
  {
    forall line ensures line in a <==> line in b {
      assert line in multiset(a) <==> line in a;
      assert line in multiset(b) <==> line in b;
    }
  }

  // What a validation reports

  datatype Replay = Replay(line: nat, acceptedLine: nat)

  datatype Report = Report(accepted: seq<nat>, quarantined: seq<nat>, replays: seq<Replay>)

  ghost predicate IsReplay(lines: seq<Line>, conforms: Record -> bool, i: nat)
    requires i < |lines|
  {
    lines[i].Usable? && lines[i].record in Clean(lines, conforms) && lines[i] in lines[..i]
  }

  /** A replay names the accepted line it repeats, by its number in the dataset's file, or zero when there is none. */
  ghost predicate PointsToAccepted(lines: seq<Line>, accepted: seq<nat>, r: Replay, isAccepted: bool)
    requires r.line < |lines|
  {
    if isAccepted then
      exists k: nat ::
        k in accepted && k < r.line && lines[k] == lines[r.line] && r.acceptedLine == LineNumber(lines, k)
    else r.acceptedLine == 0
  }

  /** Every line is reported once: accepted, a replay of an earlier line, or quarantined. */
  ghost predicate Reports(lines: seq<Line>, conforms: Record -> bool, report: Report) {
    var accepted := Accepted(AllOf(lines), conforms);
    && (forall i: nat :: i in report.accepted <==>
          i < |lines| && lines[i].Usable? && lines[i].record in accepted && !IsReplay(lines, conforms, i))
    && (forall i: nat :: i in report.quarantined <==>
          i < |lines| && (lines[i].Usable? ==> lines[i].record !in accepted && !IsReplay(lines, conforms, i)))
    && (forall r :: r in report.replays ==>
          && r.line < |lines| && IsReplay(lines, conforms, r.line)
          && PointsToAccepted(lines, report.accepted, r, lines[r.line].record in accepted))
    && |report.accepted| == |accepted|
    && |report.replays| == CountIn(lines, Clean(lines, conforms)) - |Clean(lines, conforms)|
    && |report.accepted| + |report.quarantined| + |report.replays| == |lines|
  }

  ghost function AcceptedRecords(lines: seq<Line>, report: Report): set<Record>
    requires forall i :: i in report.accepted ==> i < |lines| && lines[i].Usable?
  {
    set i | i in report.accepted :: lines[i].record
  }

  lemma {:induction false} FirstCopy(lines: seq<Line>, line: Line) returns (i: nat)
    requires line in lines
    ensures i < |lines| && lines[i] == line && line !in lines[..i]
  {
    var j :| 0 <= j < |lines| && lines[j] == line;
    if line in lines[..j] {
      i := FirstCopy(lines[..j], line);
      assert lines[..j][..i] == lines[..i];
    } else {
      i := j;
    }
  }

  lemma ReportsExactlyTheAccepted(lines: seq<Line>, conforms: Record -> bool, report: Report)
    requires Reports(lines, conforms, report)
    ensures AcceptedRecords(lines, report) == Accepted(AllOf(lines), conforms)
  {
    hide Accepted, Clean;
    PassesOnlyReject(AllOf(lines), conforms);
    forall r | r in Accepted(AllOf(lines), conforms) ensures r in AcceptedRecords(lines, report) {
      assert r in AllOf(lines) by { hide Conforming, AfterRevisions; }
      var i := FirstCopy(lines, Usable(r));
      assert i in report.accepted;
    }
  }

  /**
    Permuting the lines of a bundle changes neither the accepted identities and contents nor the
    accepted, quarantined and replay counts.
   */
  lemma OrderOfLinesDoesNotMatter(a: seq<Line>, b: seq<Line>, conforms: Record -> bool, x: Report, y: Report)
    requires multiset(a) == multiset(b) && Reports(a, conforms, x) && Reports(b, conforms, y)
    ensures AcceptedRecords(a, x) == AcceptedRecords(b, y)
    ensures |x.accepted| == |y.accepted| && |x.quarantined| == |y.quarantined| && |x.replays| == |y.replays|
  {
    hide Accepted, AfterRevisions;
    AllIgnoresOrder(a, b);
    CountIgnoresOrder(a, b, Clean(a, conforms));
    ReportsExactlyTheAccepted(a, conforms, x);
    ReportsExactlyTheAccepted(b, conforms, y);
    assert |multiset(a)| == |a| && |multiset(b)| == |b|;
  }
}
