/** The state of a validation, what one pass does to it, and the duplicate-revision decision. */
module ValidationState {
  import opened Sequences
  import opened ValidationRules
  import opened ValidationResults
  import opened BundleLines

  predicate Eligible(lines: seq<Line>, issues: seq<set<Code>>, replay: seq<bool>, i: nat)
    requires i < |lines| == |issues| == |replay|
  {
    lines[i].Usable? && issues[i] == {} && !replay[i]
  }

  function ValidIn(lines: seq<Line>, issues: seq<set<Code>>, replay: seq<bool>): set<Record>
    requires |lines| == |issues| == |replay|
  {
    set i: nat | i < |lines| && Eligible(lines, issues, replay, i) :: lines[i].record
  }

  /** One pass gave every line still valid the codes its record earned, and no other line any. */
  ghost predicate Passed(
      lines: seq<Line>, replay: seq<bool>, before: seq<set<Code>>, after: seq<set<Code>>, codes: Record -> set<Code>)
    requires |lines| == |replay| == |before|
  {
    |after| == |before| && PassedTo(lines, replay, before, after, codes, |lines|)
  }

  ghost predicate PassedTo(
      lines: seq<Line>, replay: seq<bool>, before: seq<set<Code>>, after: seq<set<Code>>, codes: Record -> set<Code>,
      n: nat)
    requires |lines| == |replay| == |before| == |after| && n <= |lines|
  {
    && (forall i: nat :: i < n ==>
          after[i] == before[i] + if Eligible(lines, before, replay, i) then codes(lines[i].record) else {})
    && forall i: nat :: n <= i < |lines| ==> after[i] == before[i]
  }

  lemma PassedLeaves(
      lines: seq<Line>, replay: seq<bool>, before: seq<set<Code>>, after: seq<set<Code>>, codes: Record -> set<Code>)
    requires |lines| == |replay| == |before| && Passed(lines, replay, before, after, codes)
    ensures ValidIn(lines, after, replay) == set r | r in ValidIn(lines, before, replay) && codes(r) == {}
  {
    forall i: nat | i < |lines| ensures Eligible(lines, after, replay, i) <==>
        Eligible(lines, before, replay, i) && codes(lines[i].record) == {}
    {
    }
  }

  /** Replays are marked and never quarantined, and lines still valid carry clean records. */
  ghost predicate Sound(lines: seq<Line>, conforms: Record -> bool, issues: seq<set<Code>>, replay: seq<bool>) {
    && |lines| == |issues| == |replay|
    && forall i: nat :: i < |lines| ==> SoundAt(lines, conforms, issues, replay, i)
  }

  ghost predicate SoundAt(lines: seq<Line>, conforms: Record -> bool, issues: seq<set<Code>>, replay: seq<bool>, i: nat)
    requires i < |lines| == |issues| == |replay|
  {
    && (replay[i] <==> IsReplay(lines, conforms, i))
    && (replay[i] ==> issues[i] == {})
    && (issues[i] == {} ==> lines[i].Usable? && lines[i].record in Clean(lines, conforms))
  }

  lemma PassKeepsSound(
      lines: seq<Line>, conforms: Record -> bool, replay: seq<bool>, before: seq<set<Code>>, after: seq<set<Code>>,
      codes: Record -> set<Code>)
    requires Sound(lines, conforms, before, replay) && Passed(lines, replay, before, after, codes)
    ensures Sound(lines, conforms, after, replay)
  {
    hide IsReplay, Clean;
    forall i: nat | i < |lines| ensures SoundAt(lines, conforms, after, replay, i) {
      assert SoundAt(lines, conforms, before, replay, i);
    }
  }

  lemma ValidLinesDiffer(
      lines: seq<Line>, conforms: Record -> bool, issues: seq<set<Code>>, replay: seq<bool>, i: nat, j: nat)
    requires Sound(lines, conforms, issues, replay) && i < j < |lines|
    requires Eligible(lines, issues, replay, i) && Eligible(lines, issues, replay, j)
    ensures lines[i].record != lines[j].record
  {
    hide Clean;
    assert SoundAt(lines, conforms, issues, replay, j);
    assert lines[..j][i] == lines[i];
    assert lines[j] !in lines[..j];
  }

  // The first two passes

  function SchemaCodes(line: Line, conforms: Record -> bool): set<Code> {
    if line.Unusable? then {Unreadable} else if conforms(line.record) then {} else {SchemaValidationFailed}
  }

  ghost function RevisionCodes(lines: seq<Line>, conforms: Record -> bool, line: Line): set<Code> {
    SchemaCodes(line, conforms)
    + if line.Usable? && conforms(line.record) && Conflicts(Conforming(AllOf(lines), conforms), line.record)
      then {SourceRevisionConflict} else {}
  }

  ghost predicate RevisionsChecked(
      lines: seq<Line>, conforms: Record -> bool, issues: seq<set<Code>>, replay: seq<bool>) {
    && |lines| == |issues| == |replay|
    && forall i: nat :: i < |lines| ==> Decided(lines, conforms, issues, replay, i)
  }

  ghost predicate Decided(lines: seq<Line>, conforms: Record -> bool, issues: seq<set<Code>>, replay: seq<bool>, i: nat)
    requires i < |lines| == |issues| == |replay|
  {
    issues[i] == RevisionCodes(lines, conforms, lines[i]) && (replay[i] <==> IsReplay(lines, conforms, i))
  }

  lemma RevisionsCheckedIsSound(lines: seq<Line>, conforms: Record -> bool, issues: seq<set<Code>>, replay: seq<bool>)
    requires RevisionsChecked(lines, conforms, issues, replay)
    ensures Sound(lines, conforms, issues, replay)
    ensures ValidIn(lines, issues, replay) == Clean(lines, conforms)
  {
    forall i: nat | i < |lines| ensures SoundAt(lines, conforms, issues, replay, i) {
      assert Decided(lines, conforms, issues, replay, i);
      assert lines[i].Usable? ==> lines[i].record in AllOf(lines);
    }
    forall r | r in ValidIn(lines, issues, replay) ensures r in Clean(lines, conforms) {
      var i: nat :| i < |lines| && Eligible(lines, issues, replay, i) && lines[i].record == r;
      assert SoundAt(lines, conforms, issues, replay, i);
    }
    forall r | r in Clean(lines, conforms) ensures r in ValidIn(lines, issues, replay) {
      var i := FirstCopy(lines, Usable(r));
      assert Decided(lines, conforms, issues, replay, i);
      assert Eligible(lines, issues, replay, i);
    }
  }

  /** The lines that reached the revision check with this identity. */
  predicate Carries(lines: seq<Line>, conforms: Record -> bool, i: nat, id: RevisionKey)
    requires i < |lines|
  {
    lines[i].Usable? && conforms(lines[i].record) && lines[i].record.Identity() == id
  }

  ghost predicate IsGroup(lines: seq<Line>, conforms: Record -> bool, id: RevisionKey, rows: seq<nat>, n: nat)
    requires n <= |lines|
  {
    Increasing(rows) && forall i: nat :: i in rows <==> i < n && Carries(lines, conforms, i, id)
  }

  function GroupOf(groups: map<RevisionKey, seq<nat>>, id: RevisionKey): seq<nat> {
    if id in groups then groups[id] else []
  }

  ghost predicate AreGroups(
      lines: seq<Line>, conforms: Record -> bool, order: seq<RevisionKey>, groups: map<RevisionKey, seq<nat>>, n: nat)
    requires n <= |lines|
  {
    && Distinct(order)
    && (forall id :: id in order <==> GroupOf(groups, id) != [])
    && forall id :: IsGroup(lines, conforms, id, GroupOf(groups, id), n)
  }

  lemma GroupExtends(lines: seq<Line>, conforms: Record -> bool, id: RevisionKey, rows: seq<nat>, n: nat)
    requires n < |lines| && IsGroup(lines, conforms, id, rows, n)
    ensures IsGroup(lines, conforms, id, if Carries(lines, conforms, n, id) then rows + [n] else rows, n + 1)
  {
    hide Carries;
    if Carries(lines, conforms, n, id) {
      forall k | 0 <= k < |rows| ensures rows[k] < n {
        assert rows[k] in rows;
      }
    }
  }

  method GroupRevisions(lines: seq<Line>, conforms: Record -> bool, issues: seq<set<Code>>)
      returns (order: seq<RevisionKey>, groups: map<RevisionKey, seq<nat>>)
    requires |issues| == |lines| && forall i: nat :: i < |lines| ==> issues[i] == SchemaCodes(lines[i], conforms)
    ensures AreGroups(lines, conforms, order, groups, |lines|)
  {
    hide IsGroup;
    order, groups := [], map[];
    NoGroups(lines, conforms);
    for i := 0 to |lines|
      invariant AreGroups(lines, conforms, order, groups, i)
    {
      ghost var before := groups;
      if issues[i] == {} {
        var id := lines[i].record.Identity();
        if GroupOf(groups, id) == [] {
          order := order + [id];
        }
        groups := groups[id := GroupOf(groups, id) + [i]];
      }
      forall id ensures IsGroup(lines, conforms, id, GroupOf(groups, id), i + 1) {
        GroupExtends(lines, conforms, id, GroupOf(before, id), i);
      }
    }
  }

  lemma NoGroups(lines: seq<Line>, conforms: Record -> bool)
    ensures forall id :: IsGroup(lines, conforms, id, [], 0)
  {
  }

  ghost predicate GroupConflicts(lines: seq<Line>, rows: seq<nat>)
    requires forall i :: i in rows ==> i < |lines| && lines[i].Usable?
  {
    exists i, j :: i in rows && j in rows && lines[i].record != lines[j].record
  }

  /** What the revision check decides about a line is what its group shows. */
  lemma GroupDecides(lines: seq<Line>, conforms: Record -> bool, id: RevisionKey, rows: seq<nat>, i: nat)
    requires IsGroup(lines, conforms, id, rows, |lines|) && i in rows
    ensures GroupConflicts(lines, rows) <==> Conflicts(Conforming(AllOf(lines), conforms), lines[i].record)
    ensures !GroupConflicts(lines, rows) ==> (IsReplay(lines, conforms, i) <==> i != rows[0])
    ensures GroupConflicts(lines, rows) ==> !IsReplay(lines, conforms, i)
  {
    var r := lines[i].record;
    assert r in Conforming(AllOf(lines), conforms) by { assert lines[i] in lines; }
    if j, k :| j in rows && k in rows && lines[j].record != lines[k].record {
      var other := if lines[j].record == r then k else j;
      assert lines[other] in lines;
      assert lines[other].record in Conforming(AllOf(lines), conforms);
    } else {
      forall s | s in Conforming(AllOf(lines), conforms) && s.Identity() == r.Identity() ensures s == r {
        var k := FirstCopy(lines, Usable(s));
        assert Carries(lines, conforms, k, id);
      }
      assert r in Clean(lines, conforms);
      assert lines[rows[0]] == lines[i] by { assert rows[0] in rows; }
      if lines[i] in lines[..i] {
        var j :| 0 <= j < i && lines[j] == lines[i];
        assert Carries(lines, conforms, j, id);
      }
    }
  }

  ghost predicate Untouched(
      lines: seq<Line>, conforms: Record -> bool, issues: seq<set<Code>>, replay: seq<bool>, i: nat)
    requires i < |lines| == |issues| == |replay|
  {
    issues[i] == SchemaCodes(lines[i], conforms) && !replay[i]
  }

  lemma NothingToDecide(lines: seq<Line>, conforms: Record -> bool, issues: seq<set<Code>>, replay: seq<bool>, i: nat)
    requires i < |lines| == |issues| == |replay| && Untouched(lines, conforms, issues, replay, i)
    requires SchemaCodes(lines[i], conforms) != {}
    ensures Decided(lines, conforms, issues, replay, i)
  {
  }

  predicate Handled(lines: seq<Line>, conforms: Record -> bool, i: nat, done: seq<RevisionKey>)
    requires i < |lines|
  {
    lines[i].Usable? && conforms(lines[i].record) && lines[i].record.Identity() in done
  }

  /** Lines of the groups already handled are decided, all others untouched. */
  ghost predicate DecidedFor(
      lines: seq<Line>, conforms: Record -> bool, issues: seq<set<Code>>, replay: seq<bool>, done: seq<RevisionKey>)
  {
    && |lines| == |issues| == |replay|
    && forall i: nat :: i < |lines| ==>
      if Handled(lines, conforms, i, done) then Decided(lines, conforms, issues, replay, i)
      else Untouched(lines, conforms, issues, replay, i)
  }

  lemma GroupIsDecided(
      lines: seq<Line>, conforms: Record -> bool, id: RevisionKey, rows: seq<nat>,
      before: seq<set<Code>>, replayBefore: seq<bool>, after: seq<set<Code>>, replayAfter: seq<bool>, i: nat)
    requires |lines| == |before| == |replayBefore| == |after| == |replayAfter| && i in rows
    requires IsGroup(lines, conforms, id, rows, |lines|) && Untouched(lines, conforms, before, replayBefore, i)
    requires after[i] == before[i] + if GroupConflicts(lines, rows) then {SourceRevisionConflict} else {}
    requires replayAfter[i] == (replayBefore[i] || (!GroupConflicts(lines, rows) && i != rows[0]))
    ensures Decided(lines, conforms, after, replayAfter, i)
  {
    GroupDecides(lines, conforms, id, rows, i);
  }

  lemma PayloadsTellConflict(lines: seq<Line>, rows: seq<nat>)
    requires rows != [] && forall i :: i in rows ==> i < |lines| && lines[i].Usable?
    ensures GroupConflicts(lines, rows) <==> |set i | i in rows :: lines[i].record| > 1
  {
    var payloads := set i | i in rows :: lines[i].record;
    assert rows[0] in rows;
    assert lines[rows[0]].record in payloads;
    if GroupConflicts(lines, rows) {
      var i, j :| i in rows && j in rows && lines[i].record != lines[j].record;
      SubsetCardinality({lines[i].record, lines[j].record}, payloads);
    } else {
      forall p | p in payloads ensures p == lines[rows[0]].record {
        var i :| i in rows && lines[i].record == p;
      }
      assert payloads == {lines[rows[0]].record};
    }
  }

  lemma OneMoreGroup(
      lines: seq<Line>, conforms: Record -> bool, order: seq<RevisionKey>, groups: map<RevisionKey, seq<nat>>, n: nat,
      before: seq<set<Code>>, replayBefore: seq<bool>, after: seq<set<Code>>, replayAfter: seq<bool>)
    requires n < |order| && AreGroups(lines, conforms, order, groups, |lines|)
    requires DecidedFor(lines, conforms, before, replayBefore, order[..n])
    requires |after| == |replayAfter| == |lines|
    requires var rows := GroupOf(groups, order[n]);
      && (forall i :: i in rows ==> i < |lines| && lines[i].Usable?)
      && (forall i :: 0 <= i < |lines| ==>
            after[i] == before[i] + if i in rows && GroupConflicts(lines, rows) then {SourceRevisionConflict} else {})
      && (forall i :: 0 <= i < |lines| ==>
            replayAfter[i] == (replayBefore[i] || (i in rows && !GroupConflicts(lines, rows) && i != rows[0])))
    ensures DecidedFor(lines, conforms, after, replayAfter, order[..n + 1])
  {
    hide GroupConflicts, RevisionCodes, IsReplay;
    var id := order[n];
    var rows := GroupOf(groups, id);
    assert IsGroup(lines, conforms, id, rows, |lines|);
    assert order[..n + 1] == order[..n] + [id];
    forall i: nat | i < |lines|
      ensures if Handled(lines, conforms, i, order[..n + 1]) then Decided(lines, conforms, after, replayAfter, i)
        else Untouched(lines, conforms, after, replayAfter, i)
    {
      var earlier := Handled(lines, conforms, i, order[..n]);
      if i in rows {
        assert Carries(lines, conforms, i, id) && id !in order[..n];
        GroupIsDecided(lines, conforms, id, rows, before, replayBefore, after, replayAfter, i);
      } else {
        assert after[i] == before[i] && replayAfter[i] == replayBefore[i];
        assert !Carries(lines, conforms, i, id);
      }
    }
  }

  lemma AllGroupsDecided(
      lines: seq<Line>, conforms: Record -> bool, order: seq<RevisionKey>, groups: map<RevisionKey, seq<nat>>,
      issues: seq<set<Code>>, replay: seq<bool>)
    requires AreGroups(lines, conforms, order, groups, |lines|) && DecidedFor(lines, conforms, issues, replay, order)
    ensures RevisionsChecked(lines, conforms, issues, replay)
  {
    hide RevisionCodes, IsReplay;
    forall i: nat | i < |lines| ensures Decided(lines, conforms, issues, replay, i) {
      if SchemaCodes(lines[i], conforms) == {} {
        var id := lines[i].record.Identity();
        assert IsGroup(lines, conforms, id, GroupOf(groups, id), |lines|);
        assert Carries(lines, conforms, i, id);
        assert i in GroupOf(groups, id);
        assert id in order;
      } else {
        NothingToDecide(lines, conforms, issues, replay, i);
      }
    }
  }

  // One pass, line by line

  lemma PassStarts(lines: seq<Line>, replay: seq<bool>, before: seq<set<Code>>, codes: Record -> set<Code>)
    requires |lines| == |replay| == |before|
    ensures PassedTo(lines, replay, before, before, codes, 0)
  {
  }

  lemma PassedOne(
      lines: seq<Line>, replay: seq<bool>, before: seq<set<Code>>, now: seq<set<Code>>, codes: Record -> set<Code>,
      n: nat)
    requires |lines| == |replay| == |before| == |now| && n < |lines| && PassedTo(lines, replay, before, now, codes, n)
    ensures Eligible(lines, now, replay, n) <==> Eligible(lines, before, replay, n)
    ensures Eligible(lines, now, replay, n) ==>
      PassedTo(lines, replay, before, now[n := now[n] + codes(lines[n].record)], codes, n + 1)
    ensures !Eligible(lines, now, replay, n) || codes(lines[n].record) == {} ==>
      PassedTo(lines, replay, before, now, codes, n + 1)
  {
    assert now[n] == before[n];
  }

  /** Two passes of which no record can fail both add up to one. */
  lemma TwoPasses(
      lines: seq<Line>, replay: seq<bool>, before: seq<set<Code>>, middle: seq<set<Code>>, after: seq<set<Code>>,
      first: Record -> set<Code>, second: Record -> set<Code>, both: Record -> set<Code>)
    requires |lines| == |replay| == |before| && Passed(lines, replay, before, middle, first)
    requires Passed(lines, replay, middle, after, second)
    requires forall r :: both(r) == first(r) + second(r) && (first(r) != {} ==> second(r) == {})
    ensures Passed(lines, replay, before, after, both)
  {
    forall i: nat | i < |lines|
      ensures after[i] == before[i] + if Eligible(lines, before, replay, i) then both(lines[i].record) else {}
    {
      assert middle[i] == before[i] + if Eligible(lines, before, replay, i) then first(lines[i].record) else {};
    }
  }

  // Opaque ids

  ghost function OpaqueCodes(valid: set<Record>, r: Record): set<Code> {
    if ReusesOpaqueId(valid, r) then {OpaqueRevisionIdReused} else {}
  }

  type OpaqueKey = (Dataset, string)

  function OpaqueKeyOf(r: Record): OpaqueKey
    requires HasOpaqueId(r)
  {
    (r.Dataset(), r.opaqueId.value)
  }

  function IdentitiesFor(index: map<OpaqueKey, set<RevisionKey>>, key: OpaqueKey): set<RevisionKey> {
    if key in index then index[key] else {}
  }

  ghost predicate Publishes(
      lines: seq<Line>, issues: seq<set<Code>>, replay: seq<bool>, i: nat, key: OpaqueKey, id: RevisionKey)
    requires i < |lines| == |issues| == |replay|
  {
    Eligible(lines, issues, replay, i) && HasOpaqueId(lines[i].record)
    && OpaqueKeyOf(lines[i].record) == key && lines[i].record.Identity() == id
  }

  ghost predicate Indexed(
      lines: seq<Line>, issues: seq<set<Code>>, replay: seq<bool>, index: map<OpaqueKey, set<RevisionKey>>, n: nat)
    requires n <= |lines| == |issues| == |replay|
  {
    forall key, id :: id in IdentitiesFor(index, key) <==>
      exists i: nat :: i < n && Publishes(lines, issues, replay, i, key, id)
  }

  lemma ReusesMeans(valid: set<Record>, r: Record)
    requires HasOpaqueId(r)
    ensures ReusesOpaqueId(valid, r) <==> exists s :: s in valid && SharesOpaqueId(r, s) && s.Identity() != r.Identity()
  {
  }

  lemma IndexShowsReuse(
      lines: seq<Line>, issues: seq<set<Code>>, replay: seq<bool>, index: map<OpaqueKey, set<RevisionKey>>, i: nat)
    requires i < |lines| == |issues| == |replay| && Indexed(lines, issues, replay, index, |lines|)
    requires Eligible(lines, issues, replay, i) && HasOpaqueId(lines[i].record)
    ensures |IdentitiesFor(index, OpaqueKeyOf(lines[i].record))| > 1 <==>
      ReusesOpaqueId(ValidIn(lines, issues, replay), lines[i].record)
  {
    hide ReusesOpaqueId;
    ReusesMeans(ValidIn(lines, issues, replay), lines[i].record);
    var r, valid := lines[i].record, ValidIn(lines, issues, replay);
    var ids := IdentitiesFor(index, OpaqueKeyOf(r));
    assert Publishes(lines, issues, replay, i, OpaqueKeyOf(r), r.Identity());
    assert r.Identity() in ids;
    if s :| s in valid && SharesOpaqueId(r, s) && s.Identity() != r.Identity() {
      var k: nat :| k < |lines| && Eligible(lines, issues, replay, k) && lines[k].record == s;
      assert Publishes(lines, issues, replay, k, OpaqueKeyOf(r), s.Identity());
      SubsetCardinality({r.Identity(), s.Identity()}, ids);
    } else {
      forall id | id in ids ensures id == r.Identity() {
        var k: nat :| k < |lines| && Publishes(lines, issues, replay, k, OpaqueKeyOf(r), id);
        assert lines[k].record in valid;
      }
      assert ids == {r.Identity()};
    }
  }

  lemma OpaquePassLeaves(valid: set<Record>)
    ensures (set r | r in valid && OpaqueCodes(valid, r) == {}) == AfterOpaqueIds(valid)
  {
    hide ReusesOpaqueId;
  }

  // References

  function ReferenceCodes(valid: set<Record>, r: Record): set<Code> {
    ParentCodes(CustomersOf(valid), SitesOf(valid), r) +
      ChildCodes(CustomersOf(valid), PointsOf(AfterParents(valid)), r)
  }

  lemma ReferencePassLeaves(valid: set<Record>)
    ensures (set r | r in valid && ReferenceCodes(valid, r) == {}) == AfterReferences(valid)
  {
    hide CustomersOf, SitesOf, PointsOf, ChildCodes, ParentCodes;
  }

  // Overlaps

  ghost function OverlapCodes(all: set<Record>, valid: set<Record>, rule: OverlapRule, r: Record): set<Code> {
    if Overlapping(all, valid, rule, r) then {EffectiveOverlap(rule)} else {}
  }

  lemma OverlapPassLeaves(all: set<Record>, valid: set<Record>, rule: OverlapRule)
    ensures (set r | r in valid && OverlapCodes(all, valid, rule, r) == {}) == AfterRule(all, valid, rule)
  {
    hide Overlapping;
  }

  // The passes as the codes they hand out

  ghost function OpaquePass(valid: set<Record>): Record -> set<Code> {
    r => OpaqueCodes(valid, r)
  }

  function LocalPass(): Record -> set<Code> {
    r => LocalCodes(r)
  }

  function ParentPass(customers: set<string>, sites: set<string>): Record -> set<Code> {
    r => ParentCodes(customers, sites, r)
  }

  function ChildPass(customers: set<string>, points: set<string>): Record -> set<Code> {
    r => ChildCodes(customers, points, r)
  }

  function ReferencePass(valid: set<Record>): Record -> set<Code> {
    r => ReferenceCodes(valid, r)
  }

  ghost function OverlapPass(all: set<Record>, valid: set<Record>, rule: OverlapRule): Record -> set<Code> {
    r => OverlapCodes(all, valid, rule, r)
  }

  ghost function IntervalPass(all: set<Record>, valid: set<Record>): Record -> set<Code> {
    r => IntervalCodes(all, valid, r)
  }

  // Current revisions

  predicate Stands(lines: seq<Line>, replay: seq<bool>, i: nat)
    requires i < |lines| == |replay|
  {
    lines[i].Usable? && !replay[i]
  }

  predicate Placed(lines: seq<Line>, replay: seq<bool>, datasets: set<Dataset>, i: nat)
    requires i < |lines| == |replay|
  {
    Stands(lines, replay, i) && lines[i].record.Dataset() in datasets
  }

  ghost predicate Greatest(
      lines: seq<Line>, replay: seq<bool>, datasets: set<Dataset>, greatest: map<EpisodeKey, int>, n: nat)
    requires n <= |lines| == |replay|
  {
    && (forall i: nat :: i < n && Placed(lines, replay, datasets, i) ==>
          lines[i].record.Episode() in greatest && lines[i].record.Number() <= greatest[lines[i].record.Episode()])
    && forall e :: e in greatest ==> exists i: nat :: i < n && Publisher(lines, replay, e, greatest[e], i)
  }

  ghost predicate Publisher(lines: seq<Line>, replay: seq<bool>, e: EpisodeKey, revision: int, i: nat)
    requires i < |lines| == |replay|
  {
    Stands(lines, replay, i) && lines[i].record.Episode() == e && lines[i].record.Number() == revision
  }

  lemma NoneGreatest(lines: seq<Line>, replay: seq<bool>, datasets: set<Dataset>)
    requires |lines| == |replay|
    ensures Greatest(lines, replay, datasets, map[], 0)
  {
  }

  function WithRevision(greatest: map<EpisodeKey, int>, r: Record): map<EpisodeKey, int> {
    if r.Episode() !in greatest || greatest[r.Episode()] < r.Number() then greatest[r.Episode() := r.Number()]
    else greatest
  }

  lemma NextGreatest(
      lines: seq<Line>, replay: seq<bool>, datasets: set<Dataset>, greatest: map<EpisodeKey, int>, n: nat)
    requires n < |lines| == |replay| && Greatest(lines, replay, datasets, greatest, n)
    ensures if Placed(lines, replay, datasets, n)
      then Greatest(lines, replay, datasets, WithRevision(greatest, lines[n].record), n + 1)
      else Greatest(lines, replay, datasets, greatest, n + 1)
  {
    hide Record.Episode, Record.Number, Record.Dataset;
    if Placed(lines, replay, datasets, n) {
      var r := lines[n].record;
      assert Publisher(lines, replay, r.Episode(), r.Number(), n);
      forall e | e in greatest ensures exists i: nat :: i < n + 1 && Publisher(lines, replay, e, greatest[e], i) {
        var i: nat :| i < n && Publisher(lines, replay, e, greatest[e], i);
      }
    }
  }

  lemma EpisodeNamesDataset(r: Record)
    ensures r.Episode().dataset == r.Dataset()
  {
  }

  /** Replays repeat a line that stands, so the greatest standing revision is the greatest of all. */
  lemma GreatestIsCurrent(
      lines: seq<Line>, conforms: Record -> bool, issues: seq<set<Code>>, replay: seq<bool>,
      datasets: set<Dataset>, greatest: map<EpisodeKey, int>, i: nat)
    requires Sound(lines, conforms, issues, replay) && Greatest(lines, replay, datasets, greatest, |lines|)
    requires i < |lines| && Placed(lines, replay, datasets, i)
    ensures lines[i].record.Episode() in greatest
    ensures IsCurrent(AllOf(lines), lines[i].record) <==>
      lines[i].record.Number() == greatest[lines[i].record.Episode()]
  {
    hide Clean;
    var r := lines[i].record;
    var top: nat :| top < |lines| && Publisher(lines, replay, r.Episode(), greatest[r.Episode()], top);
    assert lines[top] in lines && lines[top].record in AllOf(lines);
    forall s | s in AllOf(lines) && s.Episode() == r.Episode() ensures s.Number() <= greatest[r.Episode()] {
      var k := StandingCopy(lines, conforms, issues, replay, s);
      EpisodeNamesDataset(r);
      EpisodeNamesDataset(s);
      assert Placed(lines, replay, datasets, k);
    }
  }

  /** Every record of the bundle is on a line that is no replay. */
  lemma StandingCopy(lines: seq<Line>, conforms: Record -> bool, issues: seq<set<Code>>, replay: seq<bool>, r: Record)
      returns (k: nat)
    requires Sound(lines, conforms, issues, replay) && r in AllOf(lines)
    ensures k < |lines| && Stands(lines, replay, k) && lines[k].record == r
  {
    hide Clean;
    k := FirstCopy(lines, Usable(r));
    assert SoundAt(lines, conforms, issues, replay, k);
  }

  lemma UnrankableStands(
      lines: seq<Line>, conforms: Record -> bool, issues: seq<set<Code>>, replay: seq<bool>, datasets: set<Dataset>)
    requires |lines| == |issues| == |replay| && Sound(lines, conforms, issues, replay)
    ensures Unrankable(AllOf(lines), datasets) <==>
      exists i: nat :: i < |lines| && Placed(lines, replay, datasets, i) && !lines[i].record.Ranked()
  {
    hide Sound;
    if r :| r in AllOf(lines) && r.Dataset() in datasets && !r.Ranked() {
      var k := StandingCopy(lines, conforms, issues, replay, r);
      assert Placed(lines, replay, datasets, k);
    }
    if i: nat :| i < |lines| && Placed(lines, replay, datasets, i) && !lines[i].record.Ranked() {
      assert lines[i] in lines && lines[i].record in AllOf(lines);
    }
  }

  /** The latest revisions of every episode of these datasets, by line. */
  ghost predicate AreCurrent(lines: seq<Line>, replay: seq<bool>, datasets: set<Dataset>, rows: seq<nat>)
    requires |lines| == |replay|
  {
    && Increasing(rows)
    && forall i: nat :: i in rows <==>
      i < |lines| && Placed(lines, replay, datasets, i) && IsCurrent(AllOf(lines), lines[i].record)
  }

  // Pairs

  /** Two lines of one rule share their group and overlap. */
  predicate Pair(lines: seq<Line>, rule: OverlapRule, i: nat, j: nat) {
    && i < |lines| && j < |lines| && lines[i].Usable? && lines[j].Usable?
    && InRule(rule, lines[i].record) && InRule(rule, lines[j].record)
    && GroupKey(rule, lines[i].record) == GroupKey(rule, lines[j].record)
    && Overlaps(lines[i].record.body.span, lines[j].record.body.span)
  }

  /** What comparing the first row with each later one marks. */
  ghost predicate HitsFirst(lines: seq<Line>, rule: OverlapRule, first: nat, rest: seq<nat>, i: nat) {
    (i == first && exists j :: j in rest && Pair(lines, rule, first, j)) || (i in rest && Pair(lines, rule, first, i))
  }

  ghost predicate Hits(lines: seq<Line>, rule: OverlapRule, rows: seq<nat>, i: nat) {
    rows != [] && (HitsFirst(lines, rule, rows[0], rows[1..], i) || Hits(lines, rule, rows[1..], i))
  }

  lemma PairIsSymmetric(lines: seq<Line>, rule: OverlapRule, i: nat, j: nat)
    ensures Pair(lines, rule, i, j) <==> Pair(lines, rule, j, i)
  {
  }

  /** Comparing each row with the later ones marks exactly the rows that pair with another. */
  lemma {:induction false} HitsArePairs(lines: seq<Line>, rule: OverlapRule, rows: seq<nat>, i: nat)
    requires Distinct(rows)
    ensures Hits(lines, rule, rows, i) <==> i in rows && exists j :: j in rows && j != i && Pair(lines, rule, i, j)
  {
    hide Pair;
    if rows != [] {
      var first, rest := rows[0], rows[1..];
      HitsArePairs(lines, rule, rest, i);
      assert first !in rest && rows == [first] + rest;
      forall j: nat ensures Pair(lines, rule, i, j) <==> Pair(lines, rule, j, i) {
        PairIsSymmetric(lines, rule, i, j);
      }
    }
  }

  /** The rows one overlap rule looks at. */
  ghost predicate LooksAt(
      lines: seq<Line>, issues: seq<set<Code>>, replay: seq<bool>, rule: OverlapRule, rows: seq<nat>)
    requires |lines| == |issues| == |replay|
  {
    && Increasing(rows)
    && forall i: nat :: i in rows <==>
      i < |lines| && Eligible(lines, issues, replay, i) && Subject(AllOf(lines), rule, lines[i].record)
  }

  lemma {:induction false} PairsAreClashes(
      lines: seq<Line>, conforms: Record -> bool, issues: seq<set<Code>>, replay: seq<bool>, rule: OverlapRule,
      rows: seq<nat>, i: nat)
    requires |lines| == |issues| == |replay| && Sound(lines, conforms, issues, replay) &&
      LooksAt(lines, issues, replay, rule, rows)
    requires i < |lines| && Eligible(lines, issues, replay, i)
    ensures Hits(lines, rule, rows, i) <==>
      Overlapping(AllOf(lines), ValidIn(lines, issues, replay), rule, lines[i].record)
  {
    hide Hits, Sound, IsCurrent, Overlaps;
    HitsArePairs(lines, rule, rows, i);
    var all, valid, r := AllOf(lines), ValidIn(lines, issues, replay), lines[i].record;
    if i in rows {
      if j :| j in rows && j != i && Pair(lines, rule, i, j) {
        ValidLinesDiffer(lines, conforms, issues, replay, Min(i, j), if i < j then j else i);
        assert Clash(all, rule, r, lines[j].record);
      }
      if s :| s in valid && Clash(all, rule, r, s) {
        var j: nat :| j < |lines| && Eligible(lines, issues, replay, j) && lines[j].record == s;
        assert j in rows && Pair(lines, rule, i, j);
      }
    }
  }

  ghost predicate MarkedBy(
      lines: seq<Line>, before: seq<set<Code>>, after: seq<set<Code>>, rule: OverlapRule, rows: seq<nat>)
  {
    && |after| == |before| == |lines|
    && forall i: nat :: i < |lines| ==>
      after[i] == before[i] + if Hits(lines, rule, rows, i) then {EffectiveOverlap(rule)} else {}
  }

  lemma MarksAreOverlapPass(
      lines: seq<Line>, conforms: Record -> bool, before: seq<set<Code>>, after: seq<set<Code>>, replay: seq<bool>,
      rule: OverlapRule, rows: seq<nat>)
    requires |lines| == |before| == |replay| && Sound(lines, conforms, before, replay) &&
      LooksAt(lines, before, replay, rule, rows)
    requires MarkedBy(lines, before, after, rule, rows)
    ensures Passed(lines, replay, before, after, OverlapPass(AllOf(lines), ValidIn(lines, before, replay), rule))
  {
    hide Sound, Hits, Overlapping, Subject;
    var codes := OverlapPass(AllOf(lines), ValidIn(lines, before, replay), rule);
    forall i: nat | i < |lines|
      ensures after[i] == before[i] + if Eligible(lines, before, replay, i) then codes(lines[i].record) else {}
    {
      HitsArePairs(lines, rule, rows, i);
      if Eligible(lines, before, replay, i) {
        PairsAreClashes(lines, conforms, before, replay, rule, rows, i);
      }
    }
  }

  ghost predicate Comparable(lines: seq<Line>, rule: OverlapRule, rows: seq<nat>) {
    Distinct(rows) && forall i :: i in rows ==> i < |lines| && lines[i].Usable? && InRule(rule, lines[i].record)
  }

  lemma LookedAtIsComparable(
      lines: seq<Line>, issues: seq<set<Code>>, replay: seq<bool>, rule: OverlapRule, rows: seq<nat>)
    requires |lines| == |issues| == |replay| && LooksAt(lines, issues, replay, rule, rows)
    ensures Comparable(lines, rule, rows)
  {
    hide IsCurrent;
  }

  ghost predicate Against(lines: seq<Line>, rule: OverlapRule, first: nat, rest: seq<nat>) {
    && first < |lines| && lines[first].Usable? && InRule(rule, lines[first].record) && first !in rest
    && forall i :: i in rest ==> i < |lines| && lines[i].Usable? && InRule(rule, lines[i].record)
  }

  lemma ComparableRest(lines: seq<Line>, rule: OverlapRule, rows: seq<nat>, p: nat)
    requires Comparable(lines, rule, rows) && p < |rows|
    ensures Against(lines, rule, rows[p], rows[p + 1..])
  {
    var rest := rows[p + 1..];
    assert rows[p] in rows;
    forall i | i in rest ensures i in rows && i != rows[p] {
      var k :| 0 <= k < |rest| && rest[k] == i;
      assert rows[p + 1 + k] == i;
    }
  }

  /** What is marked so far, together with what the rows from `p` on still mark, is what all rows mark. */
  ghost predicate MarksBut(
      lines: seq<Line>, before: seq<set<Code>>, now: seq<set<Code>>, rule: OverlapRule, rows: seq<nat>, p: nat)
  {
    && |now| == |before| == |lines| && p <= |rows|
    && forall i: nat :: i < |lines| ==>
      now[i] + (if Hits(lines, rule, rows[p..], i) then {EffectiveOverlap(rule)} else {}) ==
      before[i] + if Hits(lines, rule, rows, i) then {EffectiveOverlap(rule)} else {}
  }

  lemma NothingMarked(lines: seq<Line>, before: seq<set<Code>>, rule: OverlapRule, rows: seq<nat>)
    requires |before| == |lines|
    ensures MarksBut(lines, before, before, rule, rows, 0)
  {
    hide Hits;
    assert rows[0..] == rows;
  }

  lemma OneRowMarked(
      lines: seq<Line>, before: seq<set<Code>>, now: seq<set<Code>>, after: seq<set<Code>>, rule: OverlapRule,
      rows: seq<nat>, p: nat)
    requires p < |rows| && MarksBut(lines, before, now, rule, rows, p) && |after| == |lines|
    requires forall i: nat :: i < |lines| ==>
      after[i] == now[i] + if HitsFirst(lines, rule, rows[p], rows[p + 1..], i) then {EffectiveOverlap(rule)} else {}
    ensures MarksBut(lines, before, after, rule, rows, p + 1)
  {
    hide HitsFirst;
    forall i: nat | i < |lines|
      ensures after[i] + (if Hits(lines, rule, rows[p + 1..], i) then {EffectiveOverlap(rule)} else {}) ==
        before[i] + if Hits(lines, rule, rows, i) then {EffectiveOverlap(rule)} else {}
    {
      assert rows[p..][1..] == rows[p + 1..] && rows[p..][0] == rows[p];
      assert Hits(lines, rule, rows[p..], i) <==>
        HitsFirst(lines, rule, rows[p], rows[p + 1..], i) || Hits(lines, rule, rows[p + 1..], i);
    }
  }

  lemma {:induction false} NoRowsHit(lines: seq<Line>, rule: OverlapRule, i: nat)
    ensures !Hits(lines, rule, [], i)
  {
  }

  lemma AllRowsMarked(lines: seq<Line>, before: seq<set<Code>>, now: seq<set<Code>>, rule: OverlapRule, rows: seq<nat>)
    requires MarksBut(lines, before, now, rule, rows, |rows|)
    ensures MarkedBy(lines, before, now, rule, rows)
  {
    hide Hits;
    assert rows[|rows|..] == [];
    forall i: nat | i < |lines|
      ensures now[i] == before[i] + if Hits(lines, rule, rows, i) then {EffectiveOverlap(rule)} else {}
    {
      NoRowsHit(lines, rule, i);
      assert now[i] + {} == now[i];
    }
  }

  // Every line is one of three kinds

  lemma ValidLine(lines: seq<Line>, conforms: Record -> bool, issues: seq<set<Code>>, replay: seq<bool>, i: nat)
    requires |lines| == |issues| == |replay| && Sound(lines, conforms, issues, replay)
    requires i < |lines| && Eligible(lines, issues, replay, i)
    ensures lines[i].record in Clean(lines, conforms) && lines[i].record in ValidIn(lines, issues, replay)
    ensures lines[i] !in lines[..i]
  {
    hide Clean;
    assert SoundAt(lines, conforms, issues, replay, i);
  }

  lemma QuarantinedLine(lines: seq<Line>, conforms: Record -> bool, issues: seq<set<Code>>, replay: seq<bool>, i: nat)
    requires |lines| == |issues| == |replay| && Sound(lines, conforms, issues, replay)
    requires i < |lines| && issues[i] != {}
    ensures !replay[i] && !IsReplay(lines, conforms, i)
    ensures lines[i].Usable? ==> lines[i].record !in ValidIn(lines, issues, replay)
    ensures lines[i].Usable? && lines[i].record in Clean(lines, conforms) ==> lines[i] !in lines[..i]
  {
    hide Clean;
    assert SoundAt(lines, conforms, issues, replay, i);
    forall k: nat | k < |lines| && Eligible(lines, issues, replay, k) && lines[i].Usable?
      ensures lines[k].record != lines[i].record
    {
      ValidLine(lines, conforms, issues, replay, k);
      if lines[i].record in Clean(lines, conforms) {
        FirstCopiesDiffer(lines, i, k);
      }
    }
  }

  lemma NotBefore(lines: seq<Line>, i: nat, k: nat)
    requires i < |lines| && k < |lines| && lines[k] !in lines[..k]
    ensures i < k ==> lines[i] != lines[k]
  {
    if i < k {
      assert lines[..k][i] == lines[i];
    }
  }

  lemma FirstCopiesDiffer(lines: seq<Line>, i: nat, k: nat)
    requires i < |lines| && k < |lines| && i != k
    requires lines[i] !in lines[..i] && lines[k] !in lines[..k]
    ensures lines[i] != lines[k]
  {
    NotBefore(lines, i, k);
    NotBefore(lines, k, i);
  }

  /** A replay's first copy is an earlier line, accepted exactly when the content is. */
  lemma ReplayLine(lines: seq<Line>, conforms: Record -> bool, issues: seq<set<Code>>, replay: seq<bool>, i: nat)
    requires |lines| == |issues| == |replay| && Sound(lines, conforms, issues, replay)
    requires i < |lines| && replay[i]
    ensures issues[i] == {} && lines[i].Usable? && IsReplay(lines, conforms, i) &&
      lines[i].record in Clean(lines, conforms)
    ensures lines[i].record in ValidIn(lines, issues, replay) <==>
      exists k: nat :: k < i && Eligible(lines, issues, replay, k) &&
        lines[k].record.Identity() == lines[i].record.Identity()
  {
    hide AfterRevisions;
    assert SoundAt(lines, conforms, issues, replay, i);
    var r := lines[i].record;
    if r in ValidIn(lines, issues, replay) {
      var k: nat :| k < |lines| && Eligible(lines, issues, replay, k) && lines[k].record == r;
      ValidLine(lines, conforms, issues, replay, k);
      NotBefore(lines, i, k);
      assert k < i;
    }
    if k: nat :| k < i && Eligible(lines, issues, replay, k) && lines[k].record.Identity() == r.Identity() {
      ValidLine(lines, conforms, issues, replay, k);
      CleanIdentitiesAreUnique(Conforming(AllOf(lines), conforms), r, lines[k].record);
    }
  }

  lemma {:induction false} OneMoreLine(lines: seq<Line>, i: nat, records: set<Record>)
    requires i < |lines|
    ensures AllOf(lines[..i + 1]) == AllOf(lines[..i]) + if lines[i].Usable? then {lines[i].record} else {}
    ensures lines[i].Usable? ==> (lines[i].record in AllOf(lines[..i]) <==> lines[i] in lines[..i])
    ensures CountIn(lines[..i + 1], records) ==
      CountIn(lines[..i], records) + if lines[i].Usable? && lines[i].record in records then 1 else 0
  {
    assert Front(lines[..i + 1]) == lines[..i] && Last(lines[..i + 1]) == lines[i];
    assert lines[..i + 1] == lines[..i] + [lines[i]];
    if lines[i].Usable? && lines[i].record in AllOf(lines[..i]) {
      var line :| line in lines[..i] && line.Usable? && line.record == lines[i].record;
      assert line == lines[i];
    }
  }

  lemma MeetOneMore(records: set<Record>, seen: set<Record>, r: Record)
    ensures |records * (seen + {r})| == |records * seen| + if r in records && r !in seen then 1 else 0
  {
    if r in records && r !in seen {
      assert records * (seen + {r}) == records * seen + {r};
    } else {
      assert records * (seen + {r}) == records * seen;
    }
  }

  /** What the report holds of the first `n` lines. */
  ghost predicate ReportedTo(
      lines: seq<Line>, conforms: Record -> bool, issues: seq<set<Code>>, replay: seq<bool>, report: Report, n: nat)
    requires n <= |lines| == |issues| == |replay|
  {
    var valid := ValidIn(lines, issues, replay);
    && (forall i: nat :: i in report.accepted <==> i < n && Eligible(lines, issues, replay, i))
    && (forall i: nat :: i in report.quarantined <==> i < n && issues[i] != {})
    && (forall r :: r in report.replays ==>
          && r.line < n && replay[r.line] && lines[r.line].Usable?
          && PointsToAccepted(lines, report.accepted, r, lines[r.line].record in valid))
    && CountsTo(lines, valid, Clean(lines, conforms), report, n)
  }

  ghost predicate CountsTo(lines: seq<Line>, valid: set<Record>, clean: set<Record>, report: Report, n: nat)
    requires n <= |lines|
  {
    && |report.accepted| == |valid * AllOf(lines[..n])|
    && |report.replays| == CountIn(lines[..n], clean) - |clean * AllOf(lines[..n])|
    && |report.accepted| + |report.quarantined| + |report.replays| == n
  }

  lemma CountsNext(lines: seq<Line>, valid: set<Record>, clean: set<Record>, report: Report, next: Report, n: nat)
    requires n < |lines| && CountsTo(lines, valid, clean, report, n) && valid <= clean
    requires var line := lines[n];
      var seen := line in lines[..n];
      var a, q, p := |next.accepted| - |report.accepted|, |next.quarantined| - |report.quarantined|,
          |next.replays| - |report.replays|;
      && a + q + p == 1 && a >= 0 && q >= 0 && p >= 0
      && (a == 1 ==> line.Usable? && line.record in valid && !seen)
      && (q == 1 ==> line.Usable? ==> line.record !in valid && (line.record in clean ==> !seen))
      && (p == 1 ==> line.Usable? && line.record in clean && seen)
    ensures CountsTo(lines, valid, clean, next, n + 1)
  {
    OneMoreLine(lines, n, clean);
    if lines[n].Usable? {
      MeetOneMore(valid, AllOf(lines[..n]), lines[n].record);
      MeetOneMore(clean, AllOf(lines[..n]), lines[n].record);
    } else {
      assert AllOf(lines[..n]) + {} == AllOf(lines[..n]);
    }
  }
}
