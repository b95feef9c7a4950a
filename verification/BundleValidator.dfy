/** The validator: rule passes that append to the issues of each line, and the report they lead to. */
module BundleValidators {
  import opened Sequences
  import opened ValidationRules
  import opened ValidationResults
  import opened BundleLines
  import opened ValidationState

  class BundleValidator {
    const lines: seq<Line>
    const conforms: Record -> bool
    var issues: seq<set<Code>>
    var replay: seq<bool>

    ghost predicate Sized()
      reads this
    {
      |issues| == |replay| == |lines|
    }

    constructor (lines: seq<Line>, conforms: Record -> bool)
      ensures this.lines == lines && this.conforms == conforms && Sized()
      ensures forall i :: 0 <= i < |lines| ==>
        issues[i] == (if lines[i].Unusable? then {Unreadable} else {}) && !replay[i]
    {
      this.lines, this.conforms := lines, conforms;
      issues := seq(|lines|, i requires 0 <= i < |lines| => if lines[i].Unusable? then {Unreadable} else {});
      replay := seq(|lines|, i => false);
    }

    method SchemaValidate()
      requires Sized()
      requires forall i :: 0 <= i < |lines| ==>
        issues[i] == (if lines[i].Unusable? then {Unreadable} else {}) && !replay[i]
      modifies this
      ensures Sized() && forall i: nat :: i < |lines| ==> Untouched(lines, conforms, issues, replay, i)
    {
      for i := 0 to |lines|
        invariant Sized()
        invariant forall k: nat :: k < i ==> issues[k] == SchemaCodes(lines[k], conforms) && !replay[k]
        invariant forall k :: i <= k < |lines| ==>
          issues[k] == (if lines[k].Unusable? then {Unreadable} else {}) && !replay[k]
      {
        if lines[i].Usable? && !conforms(lines[i].record) {
          issues := issues[i := issues[i] + {SchemaValidationFailed}];
        }
      }
    }

    method MarkRows(rows: seq<nat>, code: Code)
      requires Sized() && forall i :: i in rows ==> i < |lines|
      modifies this`issues
      ensures Sized()
      ensures forall i :: 0 <= i < |lines| ==> issues[i] == old(issues)[i] + if i in rows then {code} else {}
    {
      for k := 0 to |rows|
        invariant Sized()
        invariant forall i :: 0 <= i < |lines| ==> issues[i] == old(issues)[i] + if i in rows[..k] then {code} else {}
      {
        assert rows[k] in rows && rows[..k + 1] == rows[..k] + [rows[k]];
        issues := issues[rows[k] := issues[rows[k]] + {code}];
      }
      assert rows[..|rows|] == rows;
    }

    /** The first of the rows stays; each later copy is an exact replay of it. */
    method MarkReplays(rows: seq<nat>)
      requires Sized() && rows != [] && Increasing(rows) && rows[0] in rows && forall i :: i in rows ==> i < |lines|
      modifies this`replay
      ensures Sized()
      ensures forall i :: 0 <= i < |lines| ==> replay[i] == (old(replay)[i] || (i in rows && i != rows[0]))
    {
      for k := 1 to |rows|
        invariant Sized()
        invariant forall i :: 0 <= i < |lines| ==> replay[i] == (old(replay)[i] || (i in rows[..k] && i != rows[0]))
      {
        assert rows[k] in rows && rows[..k + 1] == rows[..k] + [rows[k]];
        replay := replay[rows[k] := true];
      }
      assert rows[..|rows|] == rows;
    }

    method HandleGroup(ghost id: RevisionKey, rows: seq<nat>)
      requires Sized() && rows != [] && IsGroup(lines, conforms, id, rows, |lines|)
      modifies this
      ensures Sized()
      ensures forall i :: 0 <= i < |lines| ==>
        issues[i] == old(issues)[i] + if i in rows && GroupConflicts(lines, rows) then {SourceRevisionConflict} else {}
      ensures forall i :: 0 <= i < |lines| ==>
        replay[i] == (old(replay)[i] || (i in rows && !GroupConflicts(lines, rows) && i != rows[0]))
    {
      PayloadsTellConflict(lines, rows);
      var payloads := set i | i in rows :: lines[i].record;
      if |payloads| > 1 {
        MarkRows(rows, SourceRevisionConflict);
      } else {
        MarkReplays(rows);
      }
    }

    /** Same identity, different content: all of them conflict. Same content: all but the first are replays. */
    method DetectDuplicateRevisions()
      requires Sized() && forall i: nat :: i < |lines| ==> Untouched(lines, conforms, issues, replay, i)
      modifies this
      ensures RevisionsChecked(lines, conforms, issues, replay)
    {
      assert forall i: nat :: i < |lines| ==>
        (Untouched(lines, conforms, issues, replay, i) ==> issues[i] == SchemaCodes(lines[i], conforms));
      var order, groups := GroupRevisions(lines, conforms, issues);
      assert order[..0] == [];
      for n := 0 to |order|
        invariant DecidedFor(lines, conforms, issues, replay, order[..n])
      {
        var id := order[n];
        assert id in order && IsGroup(lines, conforms, id, GroupOf(groups, id), |lines|);
        ghost var before, replayBefore := issues, replay;
        HandleGroup(id, groups[id]);
        OneMoreGroup(lines, conforms, order, groups, n, before, replayBefore, issues, replay);
      }
      assert order[..|order|] == order;
      AllGroupsDecided(lines, conforms, order, groups, issues, replay);
    }

    method IndexOpaqueIds() returns (index: map<OpaqueKey, set<RevisionKey>>)
      requires Sized()
      ensures Indexed(lines, issues, replay, index, |lines|)
    {
      index := map[];
      for i := 0 to |lines|
        invariant Indexed(lines, issues, replay, index, i)
      {
        ghost var before := index;
        if Eligible(lines, issues, replay, i) && HasOpaqueId(lines[i].record) {
          var key := OpaqueKeyOf(lines[i].record);
          index := index[key := IdentitiesFor(index, key) + {lines[i].record.Identity()}];
        }
        forall key, id ensures id in IdentitiesFor(index, key) <==>
            id in IdentitiesFor(before, key) || Publishes(lines, issues, replay, i, key, id)
        {
        }
      }
    }

    /** Quarantines every line whose publisher's revision id names more than one identity. */
    method DetectOpaqueIdReuse()
      requires Sized() && Sound(lines, conforms, issues, replay)
      modifies this`issues
      ensures Sized() && Sound(lines, conforms, issues, replay)
      ensures Passed(lines, replay, old(issues), issues, OpaquePass(ValidIn(lines, old(issues), replay)))
      ensures ValidIn(lines, issues, replay) == AfterOpaqueIds(ValidIn(lines, old(issues), replay))
    {
      var index := IndexOpaqueIds();
      ghost var before, valid := issues, ValidIn(lines, issues, replay);
      ghost var codes := OpaquePass(valid);
      PassStarts(lines, replay, before, codes);
      for i := 0 to |lines|
        invariant Sized() && PassedTo(lines, replay, before, issues, codes, i)
      {
        PassedOne(lines, replay, before, issues, codes, i);
        if Eligible(lines, issues, replay, i) && HasOpaqueId(lines[i].record) {
          IndexShowsReuse(lines, before, replay, index, i);
          if |IdentitiesFor(index, OpaqueKeyOf(lines[i].record))| > 1 {
            issues := issues[i := issues[i] + {OpaqueRevisionIdReused}];
          }
        }
      }
      PassedLeaves(lines, replay, before, issues, codes);
      PassKeepsSound(lines, conforms, replay, before, issues, codes);
      OpaquePassLeaves(valid);
    }

    method LocalBusinessRules()
      requires Sized() && Sound(lines, conforms, issues, replay)
      modifies this`issues
      ensures Sized() && Sound(lines, conforms, issues, replay)
      ensures Passed(lines, replay, old(issues), issues, LocalPass())
      ensures ValidIn(lines, issues, replay) == AfterLocalRules(ValidIn(lines, old(issues), replay))
    {
      hide LocalCodes;
      ghost var before := issues;
      ghost var codes := LocalPass();
      PassStarts(lines, replay, before, codes);
      for i := 0 to |lines|
        invariant Sized() && PassedTo(lines, replay, before, issues, codes, i)
      {
        PassedOne(lines, replay, before, issues, codes, i);
        if Eligible(lines, issues, replay, i) {
          issues := issues[i := issues[i] + LocalCodes(lines[i].record)];
        }
      }
      PassedLeaves(lines, replay, before, issues, codes);
      PassKeepsSound(lines, conforms, replay, before, issues, codes);
    }

    method CheckParents(customers: set<string>, sites: set<string>)
      requires Sized()
      modifies this`issues
      ensures Sized() && Passed(lines, replay, old(issues), issues, ParentPass(customers, sites))
    {
      hide ParentCodes;
      ghost var before := issues;
      ghost var codes := ParentPass(customers, sites);
      PassStarts(lines, replay, before, codes);
      for i := 0 to |lines|
        invariant Sized() && PassedTo(lines, replay, before, issues, codes, i)
      {
        PassedOne(lines, replay, before, issues, codes, i);
        if Eligible(lines, issues, replay, i) {
          issues := issues[i := issues[i] + ParentCodes(customers, sites, lines[i].record)];
        }
      }
    }

    method CheckChildren(customers: set<string>, points: set<string>)
      requires Sized()
      modifies this`issues
      ensures Sized() && Passed(lines, replay, old(issues), issues, ChildPass(customers, points))
    {
      hide ChildCodes;
      ghost var before := issues;
      ghost var codes := ChildPass(customers, points);
      PassStarts(lines, replay, before, codes);
      for i := 0 to |lines|
        invariant Sized() && PassedTo(lines, replay, before, issues, codes, i)
      {
        PassedOne(lines, replay, before, issues, codes, i);
        if Eligible(lines, issues, replay, i) {
          issues := issues[i := issues[i] + ChildCodes(customers, points, lines[i].record)];
        }
      }
    }

    /** Assignments are checked first, so that nothing may refer to one that fails. */
    method DirectReferenceRules()
      requires Sized() && Sound(lines, conforms, issues, replay)
      modifies this`issues
      ensures Sized() && Sound(lines, conforms, issues, replay)
      ensures Passed(lines, replay, old(issues), issues, ReferencePass(ValidIn(lines, old(issues), replay)))
      ensures ValidIn(lines, issues, replay) == AfterReferences(ValidIn(lines, old(issues), replay))
    {
      hide ParentCodes, ChildCodes, ReferenceCodes, AfterReferences, Sound, Passed, ValidIn;
      ghost var before := issues;
      var valid := ValidIn(lines, issues, replay);
      var customers, sites := CustomersOf(valid), SitesOf(valid);
      CheckParents(customers, sites);
      ghost var middle := issues;
      PassedLeaves(lines, replay, before, middle, ParentPass(customers, sites));
      assert ValidIn(lines, issues, replay) == AfterParents(valid);
      var points := PointsOf(ValidIn(lines, issues, replay));
      CheckChildren(customers, points);
      ParentsAndChildren(valid);
      TwoPasses(lines, replay, before, middle, issues, ParentPass(customers, sites), ChildPass(customers, points),
          ReferencePass(valid));
      PassedLeaves(lines, replay, before, issues, ReferencePass(valid));
      PassKeepsSound(lines, conforms, replay, before, issues, ReferencePass(valid));
      ReferencePassLeaves(valid);
    }

    /** The greatest revision of every episode; a record without a place among revisions has none to compare. */
    method GreatestRevisions(datasets: set<Dataset>) returns (greatest: Option<map<EpisodeKey, int>>)
      requires Sized()
      ensures greatest.None? <==>
        exists i: nat :: i < |lines| && Placed(lines, replay, datasets, i) && !lines[i].record.Ranked()
      ensures greatest.Some? ==> Greatest(lines, replay, datasets, greatest.value, |lines|)
    {
      hide Greatest;
      var found: map<EpisodeKey, int> := map[];
      NoneGreatest(lines, replay, datasets);
      for i := 0 to |lines|
        invariant Greatest(lines, replay, datasets, found, i)
        invariant forall k: nat :: k < i && Placed(lines, replay, datasets, k) ==> lines[k].record.Ranked()
      {
        NextGreatest(lines, replay, datasets, found, i);
        if Placed(lines, replay, datasets, i) {
          if !lines[i].record.Ranked() {
            return None;
          }
          var r := lines[i].record;
          if r.Episode() !in found || found[r.Episode()] < r.Number() {
            found := found[r.Episode() := r.Number()];
          }
        }
      }
      return Some(found);
    }

    /**
      The latest declared revision of every episode, valid or not: an invalid one hides its
      predecessors. Fails, as an exception nobody catches, for a record that cannot be placed.
     */
    method CurrentEpisodeRows(datasets: set<Dataset>) returns (rows: Option<seq<nat>>)
      requires Sized() && Sound(lines, conforms, issues, replay)
      ensures rows.None? <==> Unrankable(AllOf(lines), datasets)
      ensures rows.Some? ==> AreCurrent(lines, replay, datasets, rows.value)
    {
      hide Sound, IsCurrent, Unrankable, Greatest;
      UnrankableStands(lines, conforms, issues, replay, datasets);
      var greatest := GreatestRevisions(datasets);
      if greatest.None? {
        return None;
      }
      var found: seq<nat> := [];
      for i := 0 to |lines|
        invariant Increasing(found)
        invariant forall k: nat :: k in found <==>
          k < i && Placed(lines, replay, datasets, k) && IsCurrent(AllOf(lines), lines[k].record)
      {
        if Placed(lines, replay, datasets, i) {
          GreatestIsCurrent(lines, conforms, issues, replay, datasets, greatest.value, i);
          if lines[i].record.Number() == greatest.value[lines[i].record.Episode()] {
            assert forall n :: 0 <= n < |found| ==> found[n] in found;
            IncreasingAppend(found, i);
            found := found + [i];
          }
        }
      }
      return Some(found);
    }

    method ActiveRows(rule: OverlapRule, current: seq<nat>) returns (rows: seq<nat>)
      requires Sized() && AreCurrent(lines, replay, OVERLAP_DATASETS, current)
      ensures LooksAt(lines, issues, replay, rule, rows)
    {
      hide IsCurrent;
      rows := [];
      for k := 0 to |current|
        invariant Increasing(rows)
        invariant forall i: nat :: i in rows <==>
          i < |lines| && i in current[..k] && Eligible(lines, issues, replay, i) &&
            Subject(AllOf(lines), rule, lines[i].record)
      {
        var i := current[k];
        assert i in current && current[..k + 1] == current[..k] + [i];
        var r := lines[i].record;
        if issues[i] == {} && InRule(rule, r) && r.approved && r.active {
          forall n | 0 <= n < |rows| ensures rows[n] < i {
            assert rows[n] in rows && rows[n] in current[..k];
          }
          IncreasingAppend(rows, i);
          rows := rows + [i];
        }
      }
      assert current[..|current|] == current;
    }

    /** Compares one row with each later row of the rule, marking both of every overlapping pair. */
    method MarkAgainst(rule: OverlapRule, first: nat, rest: seq<nat>)
      requires Sized() && Against(lines, rule, first, rest)
      modifies this`issues
      ensures Sized()
      ensures forall i: nat :: i < |lines| ==>
        issues[i] == old(issues)[i] + if HitsFirst(lines, rule, first, rest, i) then {EffectiveOverlap(rule)} else {}
    {
      hide Pair;
      for k := 0 to |rest|
        invariant Sized()
        invariant forall i: nat :: i < |lines| ==>
          issues[i] ==
            old(issues)[i] + if HitsFirst(lines, rule, first, rest[..k], i) then {EffectiveOverlap(rule)} else {}
      {
        var second := rest[k];
        assert second in rest && rest[..k + 1] == rest[..k] + [second];
        if Pair(lines, rule, first, second) {
          issues := issues[first := issues[first] + {EffectiveOverlap(rule)}];
          issues := issues[second := issues[second] + {EffectiveOverlap(rule)}];
        }
      }
      assert rest[..|rest|] == rest;
    }

    method MarkPairs(rule: OverlapRule, rows: seq<nat>)
      requires Sized() && LooksAt(lines, issues, replay, rule, rows)
      modifies this`issues
      ensures Sized() && MarkedBy(lines, old(issues), issues, rule, rows)
    {
      LookedAtIsComparable(lines, issues, replay, rule, rows);
      hide HitsFirst, Hits, LooksAt, Comparable, Against, MarksBut;
      ghost var before := issues;
      NothingMarked(lines, before, rule, rows);
      for p := 0 to |rows|
        invariant Sized() && MarksBut(lines, before, issues, rule, rows, p)
      {
        ghost var now := issues;
        ComparableRest(lines, rule, rows, p);
        MarkAgainst(rule, rows[p], rows[p + 1..]);
        OneRowMarked(lines, before, now, issues, rule, rows, p);
      }
      AllRowsMarked(lines, before, issues, rule, rows);
    }

    method MarkOverlaps(rule: OverlapRule, current: seq<nat>)
      requires Sized() && Sound(lines, conforms, issues, replay)
      requires AreCurrent(lines, replay, OVERLAP_DATASETS, current)
      modifies this`issues
      ensures Sized() && Sound(lines, conforms, issues, replay)
      ensures Passed(lines, replay, old(issues), issues,
          OverlapPass(AllOf(lines), ValidIn(lines, old(issues), replay), rule))
      ensures ValidIn(lines, issues, replay) == AfterRule(AllOf(lines), ValidIn(lines, old(issues), replay), rule)
    {
      hide Sound, Passed, AreCurrent, AfterRule, ValidIn, LooksAt, MarkedBy;
      var rows := ActiveRows(rule, current);
      ghost var before, all, valid := issues, AllOf(lines), ValidIn(lines, issues, replay);
      MarkPairs(rule, rows);
      MarksAreOverlapPass(lines, conforms, before, issues, replay, rule, rows);
      PassedLeaves(lines, replay, before, issues, OverlapPass(all, valid, rule));
      PassKeepsSound(lines, conforms, replay, before, issues, OverlapPass(all, valid, rule));
      OverlapPassLeaves(all, valid, rule);
    }

    /** The seven overlap rules in turn; each looks only at rows the earlier ones left valid. Not ok: it raised. */
    method EffectiveOverlapRules() returns (ok: bool)
      requires Sized() && Sound(lines, conforms, issues, replay)
      modifies this`issues
      ensures Sized() && Sound(lines, conforms, issues, replay)
      ensures ok <==> !Unrankable(AllOf(lines), OVERLAP_DATASETS)
      ensures ok ==>
        ValidIn(lines, issues, replay) == AfterRules(AllOf(lines), ValidIn(lines, old(issues), replay), RULES)
    {
      hide Sound, AreCurrent, AfterRule, ValidIn, Unrankable;
      var found := CurrentEpisodeRows(OVERLAP_DATASETS);
      if found.None? {
        return false;
      }
      var current := found.value;
      ghost var valid := ValidIn(lines, issues, replay);
      assert RULES[..0] == [];
      for n := 0 to |RULES|
        invariant Sized() && Sound(lines, conforms, issues, replay)
        invariant ValidIn(lines, issues, replay) == AfterRules(AllOf(lines), valid, RULES[..n])
      {
        MarkOverlaps(RULES[n], current);
        assert Front(RULES[..n + 1]) == RULES[..n] && Last(RULES[..n + 1]) == RULES[n];
      }
      assert RULES[..|RULES|] == RULES;
      return true;
    }

    /** The valid rows that are current, approved and active. */
    method ActiveCurrent() returns (result: Option<seq<Record>>)
      requires Sized() && Sound(lines, conforms, issues, replay)
      ensures result.None? <==> Unrankable(AllOf(lines), CONTEXT_DATASETS)
      ensures result.Some? ==> IsActiveList(AllOf(lines), ValidIn(lines, issues, replay), result.value)
    {
      hide Sound, IsCurrent, Unrankable;
      var found := CurrentEpisodeRows(CONTEXT_DATASETS);
      if found.None? {
        return None;
      }
      var current := found.value;
      var rows: seq<Record> := [];
      for k := 0 to |current|
        invariant Distinct(rows)
        invariant forall r :: r in rows <==> exists i :: i in current[..k] && ActiveAt(lines, issues, replay, i, r)
      {
        var i := current[k];
        assert i in current && current[..k + 1] == current[..k] + [i];
        var r := lines[i].record;
        if issues[i] == {} && r.approved && r.active {
          assert ActiveAt(lines, issues, replay, i, r);
          if r in rows {
            EarlierActive(lines, conforms, issues, replay, current, k);
            assert false;
          }
          rows := rows + [r];
        }
      }
      assert current[..|current|] == current;
      ActiveRowsAreActiveList(lines, issues, replay, current, rows);
      return Some(rows);
    }

    /**
      Every row that reached this pass is judged against lists drawn up before it began. Not ok: it
      raised, on a record that cannot be placed or on the time of a reading.
     */
    method IntervalRelationshipRules() returns (ok: bool)
      requires Sized() && Sound(lines, conforms, issues, replay)
      modifies this`issues
      ensures ok <==>
        !Unrankable(AllOf(lines), CONTEXT_DATASETS) && !Undated(ValidIn(lines, old(issues), replay))
      ensures ok ==> Sized() && Sound(lines, conforms, issues, replay)
      ensures ok ==>
        Passed(lines, replay, old(issues), issues, IntervalPass(AllOf(lines), ValidIn(lines, old(issues), replay)))
      ensures ok ==>
        ValidIn(lines, issues, replay) == AfterIntervals(AllOf(lines), ValidIn(lines, old(issues), replay))
    {
      hide Sound, ValidIn, IntervalCodes, Unrankable, Undated;
      var found := ActiveCurrent();
      if found.None? {
        return false;
      }
      var active := found.value;
      ghost var before, all, valid := issues, AllOf(lines), ValidIn(lines, issues, replay);
      ghost var codes := IntervalPass(all, valid);
      PassStarts(lines, replay, before, codes);
      for i := 0 to |lines|
        invariant Sized() && PassedTo(lines, replay, before, issues, codes, i)
        invariant forall k: nat :: k < i && Eligible(lines, before, replay, k) ==> !UndatedAt(lines, k)
      {
        PassedOne(lines, replay, before, issues, codes, i);
        if Eligible(lines, issues, replay, i) {
          if lines[i].record.body.Reading? && !lines[i].record.readable {
            UndatedIs(lines, before, replay);
            assert Eligible(lines, before, replay, i) && UndatedAt(lines, i);
            return false;
          }
          var earned := IntervalIssues(lines[i].record, active, all, valid);
          issues := issues[i := issues[i] + earned];
        }
      }
      UndatedIs(lines, before, replay);
      PassedLeaves(lines, replay, before, issues, codes);
      PassKeepsSound(lines, conforms, replay, before, issues, codes);
      return true;
    }

    /** Splits the lines into accepted ones, replays of an earlier line, and quarantined ones. */
    method BuildReport() returns (report: Report)
      requires Sized() && Sound(lines, conforms, issues, replay)
      requires ValidIn(lines, issues, replay) == Accepted(AllOf(lines), conforms)
      ensures Reports(lines, conforms, report)
      ensures forall i: nat :: i in report.quarantined ==> i < |lines| && issues[i] != {}
    {
      hide Sound, ValidIn, Accepted, Clean, ReportedTo, IsReplay, AcceptedLines, AcceptedAt, LineNumber;
      report := Report([], [], []);
      var acceptedLine: map<RevisionKey, nat> := map[];
      ReportStarts(lines, conforms, issues, replay);
      NoAcceptedLines(lines, issues, replay);
      for i := 0 to |lines|
        invariant ReportedTo(lines, conforms, issues, replay, report, i)
        invariant AcceptedLines(lines, issues, replay, acceptedLine, i)
      {
        ghost var before := report;
        NextAcceptedLine(lines, issues, replay, acceptedLine, i);
        if replay[i] && issues[i] == {} {
          ReplayLine(lines, conforms, issues, replay, i);
          var id := lines[i].record.Identity();
          LineFound(lines, issues, replay, acceptedLine, i, id);
          var line := if id in acceptedLine then acceptedLine[id] else 0;
          report := report.(replays := report.replays + [Replay(i, line)]);
          ReplayReported(lines, conforms, issues, replay, before, i, line);
        } else if issues[i] != {} {
          report := report.(quarantined := report.quarantined + [i]);
          QuarantineReported(lines, conforms, issues, replay, before, i);
        } else {
          LineIsValid(lines, conforms, issues, replay, i);
          acceptedLine := acceptedLine[lines[i].record.Identity() := LineNumber(lines, i)];
          report := report.(accepted := report.accepted + [i]);
          AcceptanceReported(lines, conforms, issues, replay, before, i);
        }
      }
      ReportIsComplete(lines, conforms, issues, replay, report);
      QuarantineHasReasons(lines, conforms, issues, replay, report);
    }
  }

  lemma ReplayReported(
      lines: seq<Line>, conforms: Record -> bool, issues: seq<set<Code>>, replay: seq<bool>, report: Report, i: nat,
      line: nat)
    requires |lines| == |issues| == |replay| && Sound(lines, conforms, issues, replay) && i < |lines| && replay[i]
    requires ReportedTo(lines, conforms, issues, replay, report, i)
    requires lines[i].Usable? &&
      if line == 0 then !exists k: nat :: AcceptedAt(lines, issues, replay, i, k, lines[i].record.Identity())
      else exists k: nat ::
        AcceptedAt(lines, issues, replay, i, k, lines[i].record.Identity()) && line == LineNumber(lines, k)
    ensures ReportedTo(lines, conforms, issues, replay, report.(replays := report.replays + [Replay(i, line)]), i + 1)
  {
    hide Sound, ValidIn, Clean, CountsTo;
    ReplayLine(lines, conforms, issues, replay, i);
    ValidIsClean(lines, conforms, issues, replay);
    ReplayPoints(lines, conforms, issues, replay, report.accepted, i, line);
    CountsNext(lines, ValidIn(lines, issues, replay), Clean(lines, conforms), report,
               report.(replays := report.replays + [Replay(i, line)]), i);
  }

  lemma ReplayPoints(
      lines: seq<Line>, conforms: Record -> bool, issues: seq<set<Code>>, replay: seq<bool>, accepted: seq<nat>,
      i: nat, line: nat)
    requires |lines| == |issues| == |replay| && Sound(lines, conforms, issues, replay) && i < |lines| && replay[i]
    requires forall k: nat :: k in accepted <==> k < i && Eligible(lines, issues, replay, k)
    requires lines[i].Usable? &&
      if line == 0 then !exists k: nat :: AcceptedAt(lines, issues, replay, i, k, lines[i].record.Identity())
      else exists k: nat ::
        AcceptedAt(lines, issues, replay, i, k, lines[i].record.Identity()) && line == LineNumber(lines, k)
    ensures PointsToAccepted(lines, accepted, Replay(i, line), lines[i].record in ValidIn(lines, issues, replay))
  {
    hide Sound, ValidIn, AfterRevisions, LineNumber;
    ReplayLine(lines, conforms, issues, replay, i);
    var r := lines[i].record;
    assert forall k: nat :: AcceptedAt(lines, issues, replay, i, k, r.Identity()) <==>
      k < i && Eligible(lines, issues, replay, k) && lines[k].record.Identity() == r.Identity();
    if line != 0 {
      var k: nat :| AcceptedAt(lines, issues, replay, i, k, r.Identity()) && line == LineNumber(lines, k);
      ValidLine(lines, conforms, issues, replay, k);
      CleanIdentitiesAreUnique(Conforming(AllOf(lines), conforms), r, lines[k].record);
      assert k in accepted && lines[k] == lines[i];
    }
  }

  lemma QuarantineReported(
      lines: seq<Line>, conforms: Record -> bool, issues: seq<set<Code>>, replay: seq<bool>, report: Report, i: nat)
    requires |lines| == |issues| == |replay| && Sound(lines, conforms, issues, replay) && i < |lines| && issues[i] != {}
    requires ReportedTo(lines, conforms, issues, replay, report, i)
    ensures ReportedTo(lines, conforms, issues, replay, report.(quarantined := report.quarantined + [i]), i + 1)
  {
    hide Sound, ValidIn, Clean, CountsTo;
    QuarantinedLine(lines, conforms, issues, replay, i);
    ValidIsClean(lines, conforms, issues, replay);
    CountsNext(lines, ValidIn(lines, issues, replay), Clean(lines, conforms), report,
               report.(quarantined := report.quarantined + [i]), i);
  }

  lemma AcceptanceReported(
      lines: seq<Line>, conforms: Record -> bool, issues: seq<set<Code>>, replay: seq<bool>, report: Report, i: nat)
    requires |lines| == |issues| == |replay| && Sound(lines, conforms, issues, replay)
    requires i < |lines| && Eligible(lines, issues, replay, i)
    requires ReportedTo(lines, conforms, issues, replay, report, i)
    ensures ReportedTo(lines, conforms, issues, replay, report.(accepted := report.accepted + [i]), i + 1)
  {
    hide Sound, ValidIn, Clean, CountsTo;
    ValidLine(lines, conforms, issues, replay, i);
    ValidIsClean(lines, conforms, issues, replay);
    CountsNext(lines, ValidIn(lines, issues, replay), Clean(lines, conforms), report,
               report.(accepted := report.accepted + [i]), i);
  }

  lemma QuarantineHasReasons(
      lines: seq<Line>, conforms: Record -> bool, issues: seq<set<Code>>, replay: seq<bool>, report: Report)
    requires |lines| == |issues| == |replay| && ReportedTo(lines, conforms, issues, replay, report, |lines|)
    ensures forall i: nat :: i in report.quarantined ==> i < |lines| && issues[i] != {}
  {
  }

  lemma ReportStarts(lines: seq<Line>, conforms: Record -> bool, issues: seq<set<Code>>, replay: seq<bool>)
    requires |lines| == |issues| == |replay|
    ensures ReportedTo(lines, conforms, issues, replay, Report([], [], []), 0)
  {
    assert lines[..0] == [];
    assert AllOf([]) == {};
  }

  lemma LineIsValid(lines: seq<Line>, conforms: Record -> bool, issues: seq<set<Code>>, replay: seq<bool>, i: nat)
    requires |lines| == |issues| == |replay| && Sound(lines, conforms, issues, replay)
    requires i < |lines| && issues[i] == {} && !replay[i]
    ensures Eligible(lines, issues, replay, i)
  {
    hide Clean;
    assert SoundAt(lines, conforms, issues, replay, i);
  }

  lemma ValidIsClean(lines: seq<Line>, conforms: Record -> bool, issues: seq<set<Code>>, replay: seq<bool>)
    requires |lines| == |issues| == |replay| && Sound(lines, conforms, issues, replay)
    ensures ValidIn(lines, issues, replay) <= Clean(lines, conforms)
  {
    hide Clean;
    forall r | r in ValidIn(lines, issues, replay) ensures r in Clean(lines, conforms) {
      var i: nat :| i < |lines| && Eligible(lines, issues, replay, i) && lines[i].record == r;
      ValidLine(lines, conforms, issues, replay, i);
    }
  }

  lemma {:induction false} CountsAreComplete(lines: seq<Line>, conforms: Record -> bool, valid: set<Record>,
      report: Report)
    requires CountsTo(lines, valid, Clean(lines, conforms), report, |lines|) && valid <= Clean(lines, conforms)
    ensures |report.accepted| == |valid|
    ensures |report.replays| == CountIn(lines, Clean(lines, conforms)) - |Clean(lines, conforms)|
    ensures |report.accepted| + |report.quarantined| + |report.replays| == |lines|
  {
    hide Clean;
    CleanIsOfAll(lines, conforms);
    assert lines[..|lines|] == lines;
    assert valid * AllOf(lines) == valid && Clean(lines, conforms) * AllOf(lines) == Clean(lines, conforms);
  }

  lemma ReportIsComplete(
      lines: seq<Line>, conforms: Record -> bool, issues: seq<set<Code>>, replay: seq<bool>, report: Report)
    requires |lines| == |issues| == |replay| && Sound(lines, conforms, issues, replay)
    requires ReportedTo(lines, conforms, issues, replay, report, |lines|)
    requires ValidIn(lines, issues, replay) == Accepted(AllOf(lines), conforms)
    ensures Reports(lines, conforms, report)
  {
    hide Accepted, IsReplay, Clean, ValidIn, CountsTo, Sound;
    var valid := ValidIn(lines, issues, replay);
    ValidIsClean(lines, conforms, issues, replay);
    CountsAreComplete(lines, conforms, valid, report);
    forall i: nat | i < |lines|
      ensures i in report.accepted <==> lines[i].Usable? && lines[i].record in valid && !IsReplay(lines, conforms, i)
      ensures i in report.quarantined <==>
        (lines[i].Usable? ==> lines[i].record !in valid && !IsReplay(lines, conforms, i))
    {
      KindOfLine(lines, conforms, issues, replay, i);
    }
    forall r | r in report.replays ensures IsReplay(lines, conforms, r.line) {
      KindOfLine(lines, conforms, issues, replay, r.line);
    }
  }

  lemma CleanIsOfAll(lines: seq<Line>, conforms: Record -> bool)
    ensures Clean(lines, conforms) <= AllOf(lines)
  {
    hide Conflicts;
  }

  lemma KindOfLine(lines: seq<Line>, conforms: Record -> bool, issues: seq<set<Code>>, replay: seq<bool>, i: nat)
    requires |lines| == |issues| == |replay| && Sound(lines, conforms, issues, replay) && i < |lines|
    ensures replay[i] <==> IsReplay(lines, conforms, i)
    ensures Eligible(lines, issues, replay, i) <==>
      lines[i].Usable? && lines[i].record in ValidIn(lines, issues, replay) && !IsReplay(lines, conforms, i)
    ensures issues[i] != {} <==>
      (lines[i].Usable? ==> lines[i].record !in ValidIn(lines, issues, replay) && !IsReplay(lines, conforms, i))
  {
    hide Clean;
    assert SoundAt(lines, conforms, issues, replay, i);
    if issues[i] != {} {
      QuarantinedLine(lines, conforms, issues, replay, i);
    } else if !replay[i] {
      ValidLine(lines, conforms, issues, replay, i);
    }
  }

  /**
    Validates a bundle. Every line is accepted, a replay, or quarantined; the accepted records are
    those that pass every rule, given the set of distinct records in the bundle and nothing else. It
    gives no report exactly when a record that needs a place among revisions has none, or when a
    reading without a readable time reaches the interval pass.
   */
  method ValidateCandidates(lines: seq<Line>, conforms: Record -> bool) returns (report: Option<Report>)
    ensures report.None? <==> Raises(AllOf(lines), conforms)
    ensures report.Some? ==> Reports(lines, conforms, report.value)
  {
    hide Sound, ValidIn, AfterRules, AfterReferences, AfterIntervals, AfterLocalRules, AfterOpaqueIds, Clean, Reports;
    hide RevisionsChecked, Untouched, Unrankable, Undated;
    var validator := new BundleValidator(lines, conforms);
    validator.SchemaValidate();
    validator.DetectDuplicateRevisions();
    RevisionsCheckedIsSound(lines, conforms, validator.issues, validator.replay);
    validator.DetectOpaqueIdReuse();
    validator.LocalBusinessRules();
    validator.DirectReferenceRules();
    CleanIs(lines, conforms);
    UndatedReachesIntervals(AllOf(lines), conforms);
    MoreIsUnrankable(AllOf(lines));
    var ok := validator.EffectiveOverlapRules();
    if !ok {
      return None;
    }
    validator.DirectReferenceRules();
    ok := validator.IntervalRelationshipRules();
    if !ok {
      return None;
    }
    var result := validator.BuildReport();
    return Some(result);
  }

  lemma MoreIsUnrankable(all: set<Record>)
    ensures Unrankable(all, OVERLAP_DATASETS) ==> Unrankable(all, CONTEXT_DATASETS)
  {
  }

  lemma CleanIs(lines: seq<Line>, conforms: Record -> bool)
    ensures Clean(lines, conforms) == AfterRevisions(Conforming(AllOf(lines), conforms))
  {
  }

  ghost predicate IsActiveList(all: set<Record>, valid: set<Record>, rows: seq<Record>) {
    Distinct(rows) && forall r :: r in rows <==> r in valid && Active(all, r) && r.Dataset() in CONTEXT_DATASETS
  }

  ghost predicate ActiveAt(lines: seq<Line>, issues: seq<set<Code>>, replay: seq<bool>, i: nat, r: Record) {
    && i < |lines| == |issues| == |replay|
    && lines[i].Usable? && lines[i].record == r && issues[i] == {} && r.approved && r.active
    && r.Dataset() in CONTEXT_DATASETS
  }

  /** The line carries an accepted record of this identity, before line `i`. */
  ghost predicate AcceptedAt(
      lines: seq<Line>, issues: seq<set<Code>>, replay: seq<bool>, i: nat, k: nat, id: RevisionKey)
    requires |lines| == |issues| == |replay|
  {
    k < i && k < |lines| && Eligible(lines, issues, replay, k) && lines[k].record.Identity() == id
  }

  /** The dictionary gives every accepted identity the number of its accepted line. */
  ghost predicate AcceptedLines(
      lines: seq<Line>, issues: seq<set<Code>>, replay: seq<bool>, book: map<RevisionKey, nat>, i: nat)
    requires |lines| == |issues| == |replay|
  {
    forall id :: LineIsKnown(lines, issues, replay, book, i, id)
  }

  ghost predicate LineIsKnown(
      lines: seq<Line>, issues: seq<set<Code>>, replay: seq<bool>, book: map<RevisionKey, nat>, i: nat, id: RevisionKey)
    requires |lines| == |issues| == |replay|
  {
    if id in book then
      exists k: nat :: AcceptedAt(lines, issues, replay, i, k, id) && book[id] == LineNumber(lines, k)
    else !exists k: nat :: AcceptedAt(lines, issues, replay, i, k, id)
  }

  lemma NoAcceptedLines(lines: seq<Line>, issues: seq<set<Code>>, replay: seq<bool>)
    requires |lines| == |issues| == |replay|
    ensures AcceptedLines(lines, issues, replay, map[], 0)
  {
  }

  lemma NextAcceptedLine(
      lines: seq<Line>, issues: seq<set<Code>>, replay: seq<bool>, book: map<RevisionKey, nat>, i: nat)
    requires i < |lines| == |issues| == |replay| && AcceptedLines(lines, issues, replay, book, i)
    ensures if Eligible(lines, issues, replay, i)
      then AcceptedLines(lines, issues, replay, book[lines[i].record.Identity() := LineNumber(lines, i)], i + 1)
      else AcceptedLines(lines, issues, replay, book, i + 1)
  {
    hide LineNumber;
    var n, accepted := i + 1, Eligible(lines, issues, replay, i);
    var next := if accepted then book[lines[i].record.Identity() := LineNumber(lines, i)] else book;
    forall id ensures LineIsKnown(lines, issues, replay, next, n, id) {
      assert LineIsKnown(lines, issues, replay, book, i, id);
      assert forall k: nat :: AcceptedAt(lines, issues, replay, n, k, id) <==>
        AcceptedAt(lines, issues, replay, i, k, id) || (k == i && accepted && lines[i].record.Identity() == id);
    }
  }

  lemma LineFound(
      lines: seq<Line>, issues: seq<set<Code>>, replay: seq<bool>, book: map<RevisionKey, nat>, i: nat, id: RevisionKey)
    requires |lines| == |issues| == |replay| && AcceptedLines(lines, issues, replay, book, i)
    ensures if id in book
      then book[id] != 0
        && exists k: nat :: AcceptedAt(lines, issues, replay, i, k, id) && book[id] == LineNumber(lines, k)
      else !exists k: nat :: AcceptedAt(lines, issues, replay, i, k, id)
  {
    assert LineIsKnown(lines, issues, replay, book, i, id);
  }

  predicate UndatedAt(lines: seq<Line>, i: nat) {
    i < |lines| && lines[i].Usable? && lines[i].record.body.Reading? && !lines[i].record.readable
  }

  lemma UndatedIs(lines: seq<Line>, issues: seq<set<Code>>, replay: seq<bool>)
    requires |lines| == |issues| == |replay|
    ensures Undated(ValidIn(lines, issues, replay)) <==>
      exists i: nat :: i < |lines| && Eligible(lines, issues, replay, i) && UndatedAt(lines, i)
  {
    if i: nat :| i < |lines| && Eligible(lines, issues, replay, i) && UndatedAt(lines, i) {
      assert lines[i].record in ValidIn(lines, issues, replay);
    }
  }

  lemma EarlierActive(
      lines: seq<Line>, conforms: Record -> bool, issues: seq<set<Code>>, replay: seq<bool>, current: seq<nat>, k: nat)
    requires |lines| == |issues| == |replay| && Sound(lines, conforms, issues, replay) && k < |current| &&
      Increasing(current)
    requires forall i :: i in current ==> i < |lines| && Stands(lines, replay, i)
    requires current[k] in current && issues[current[k]] == {} && lines[current[k]].Usable?
    ensures !exists i :: i in current[..k] && ActiveAt(lines, issues, replay, i, lines[current[k]].record)
  {
    forall i | i in current[..k] && ActiveAt(lines, issues, replay, i, lines[current[k]].record) ensures false {
      assert i in current;
      ValidLinesDiffer(lines, conforms, issues, replay, i, current[k]);
    }
  }

  lemma ActiveRowsAreActiveList(
      lines: seq<Line>, issues: seq<set<Code>>, replay: seq<bool>, current: seq<nat>, rows: seq<Record>)
    requires |lines| == |issues| == |replay| && Distinct(rows)
    requires AreCurrent(lines, replay, CONTEXT_DATASETS, current)
    requires forall r :: r in rows <==> exists i :: i in current && ActiveAt(lines, issues, replay, i, r)
    ensures IsActiveList(AllOf(lines), ValidIn(lines, issues, replay), rows)
  {
    hide IsCurrent;
    forall r | r in ValidIn(lines, issues, replay) && Active(AllOf(lines), r) && r.Dataset() in CONTEXT_DATASETS
      ensures r in rows
    {
      var i: nat :| i < |lines| && Eligible(lines, issues, replay, i) && lines[i].record == r;
      assert i in current && ActiveAt(lines, issues, replay, i, r);
    }
  }

  // Coverage

  method CoverageMatches(rows: seq<Record>, wanted: Record -> bool) returns (matches: seq<Record>)
    requires Distinct(rows)
    ensures Distinct(matches) && forall r :: r in matches <==> r in rows && wanted(r)
  {
    matches := [];
    for i := 0 to |rows|
      invariant Distinct(matches) && forall r :: r in matches <==> r in rows[..i] && wanted(r)
    {
      assert rows[..i + 1] == rows[..i] + [rows[i]];
      if wanted(rows[i]) {
        matches := matches + [rows[i]];
      }
    }
    assert rows[..|rows|] == rows;
  }

  /** The one match, or the code that says why there is not exactly one. */
  method RequireSingleCoverage(matches: seq<Record>, missing: Code, ambiguous: Code, ghost expected: set<Record>)
      returns (codes: set<Code>, only: Option<Record>)
    requires Distinct(matches) && forall r :: r in matches <==> r in expected
    ensures codes == CoverageCodes(expected, missing, ambiguous)
    ensures only == if |expected| == 1 then Some(Only(expected)) else None
  {
    hide *;
    SameSize(matches, expected);
    CoverageByCount(matches, expected, missing, ambiguous);
    if |matches| == 1 {
      OneElement(matches, expected);
      return {}, Some(matches[0]);
    } else if |matches| == 0 {
      return {missing}, None;
    }
    return {ambiguous}, None;
  }

  lemma CoverageByCount(matches: seq<Record>, expected: set<Record>, missing: Code, ambiguous: Code)
    requires |matches| == |expected|
    ensures CoverageCodes(expected, missing, ambiguous) ==
      if |matches| == 1 then {} else if |matches| == 0 then {missing} else {ambiguous}
  {
  }

  lemma SameSize(matches: seq<Record>, expected: set<Record>)
    requires Distinct(matches) && forall r :: r in matches <==> r in expected
    ensures |matches| == |expected| && (|matches| == 0 <==> expected == {})
  {
    DistinctCardinality(matches);
    assert Elements(matches) == expected;
  }

  lemma OneElement(matches: seq<Record>, expected: set<Record>)
    requires |matches| == 1 == |expected| && forall r :: r in matches <==> r in expected
    ensures Only(expected) == matches[0]
  {
    assert Only(expected) in expected;
  }

  method AssignmentContext(
      a: Record, from: Time, to: Time, active: seq<Record>, ghost all: set<Record>, ghost valid: set<Record>)
      returns (codes: set<Code>)
    requires IsActiveList(all, valid, active) && a.body.Assignment?
    ensures codes == ContextCodes(all, valid, a, from, to)
  {
    hide Active;
    var customers := CoverageMatches(active, (s: Record) =>
      s.body.Customer? && s.body.operating && s.body.customer == a.body.customer &&
        CoversInterval(s.body.span, from, to));
    var missingCustomer, _ := RequireSingleCoverage(
      customers, CustomerCoverageMissing, CustomerCoverageAmbiguous,
          CustomersFor(all, valid, a.body.customer, from, to));
    var sites := CoverageMatches(active, (s: Record) =>
      s.body.Site? && s.body.operating && s.body.site == a.body.site && CoversInterval(s.body.span, from, to));
    var missingSite, _ := RequireSingleCoverage(
      sites, SiteCoverageMissing, SiteCoverageAmbiguous, SitesFor(all, valid, a.body.site, from, to));
    return missingCustomer + missingSite;
  }

  method ContractIssues(
      r: Record, active: seq<Record>, ghost all: set<Record>, ghost valid: set<Record>) returns (codes: set<Code>)
    requires IsActiveList(all, valid, active) && (r.body.Commitment? || r.body.ExcessOrder?)
    ensures codes == ContractCodes(all, valid, r)
  {
    hide Active;
    var contracts := CoverageMatches(active, (s: Record) =>
      s.body.Contract? && s.body.contract == r.body.contract && CoversInterval(s.body.span, r.body.from, r.body.to));
    var missing, contract := RequireSingleCoverage(
      contracts, ContractCoverageMissing, ContractCoverageAmbiguous,
      ContractsFor(all, valid, r.body.contract, r.body.from, r.body.to));
    if contract.None? {
      return missing;
    }
    return TermsCodes(contract.value, r);
  }

  method PlaceIssues(
      r: Record, active: seq<Record>, ghost all: set<Record>, ghost valid: set<Record>) returns (codes: set<Code>)
    requires IsActiveList(all, valid, active) && r.body.Timed()
    ensures codes == PlaceCodes(all, valid, r)
  {
    hide Active, ContextCodes, ContractCodes;
    var assignments := CoverageMatches(active, (s: Record) =>
      s.body.Assignment? && s.body.point == r.body.point && CoversInterval(s.body.span, r.body.from, r.body.to));
    var missing, assignment := RequireSingleCoverage(
      assignments, AssignmentCoverageMissing, AssignmentCoverageAmbiguous,
      AssignmentsFor(all, valid, r.body.point, r.body.from, r.body.to));
    if assignment.None? {
      return missing;
    }
    var a := assignment.value;
    AssignmentsMatch(all, valid, r.body.point, r.body.from, r.body.to);
    codes := AssignmentContext(a, r.body.from, r.body.to, active, all, valid);
    if !r.body.Capacity? {
      if r.body.customer != a.body.customer {
        codes := codes + {AssignmentCustomerMismatch};
      }
      var terms := ContractIssues(r, active, all, valid);
      codes := codes + terms;
    }
  }

  method ScheduleIssues(
      r: Record, active: seq<Record>, ghost all: set<Record>, ghost valid: set<Record>) returns (codes: set<Code>)
    requires IsActiveList(all, valid, active) && r.body.ExcessOrder?
    ensures codes == ScheduleCodes(all, valid, r)
  {
    hide Active;
    var schedules := CoverageMatches(active, (s: Record) =>
      s.body.Commitment? && s.body.point == r.body.point && s.body.from == r.body.from);
    var missing, schedule := RequireSingleCoverage(
      schedules, PositiveCommitmentMissing, CommitmentAmbiguous, CommitmentsFor(all, valid, r.body.point, r.body.from));
    if schedule.None? {
      return missing;
    }
    return if schedule.value.body.Commitment? && schedule.value.body.positive then {} else {PositiveCommitmentMissing};
  }

  method MeterIssues(
      r: Record, active: seq<Record>, ghost all: set<Record>, ghost valid: set<Record>) returns (codes: set<Code>)
    requires IsActiveList(all, valid, active) && r.body.Reading?
    ensures codes == MeterCodes(all, valid, r)
  {
    hide Active;
    var meters := CoverageMatches(active, (s: Record) =>
      s.body.Meter? && s.body.authoritative && s.body.meter == r.body.meter && s.body.register == r.body.register
      && CoversEvent(s.body.span, r.body.at));
    var missing, meter := RequireSingleCoverage(
      meters, MeterCoverageMissing, MeterCoverageAmbiguous,
          MetersFor(all, valid, r.body.meter, r.body.register, r.body.at));
    if meter.None? {
      return missing;
    }
    return if meter.value.body.Meter? && meter.value.body.metadata == r.body.metadata then {}
      else {MeterMetadataMismatch};
  }

  method IntervalIssues(
      r: Record, active: seq<Record>, ghost all: set<Record>, ghost valid: set<Record>) returns (codes: set<Code>)
    requires IsActiveList(all, valid, active)
    ensures codes == IntervalCodes(all, valid, r)
  {
    hide PlaceCodes, ScheduleCodes, MeterCodes, IsActiveList;
    codes := {};
    if r.body.Timed() {
      codes := PlaceIssues(r, active, all, valid);
      if r.body.ExcessOrder? {
        var schedule := ScheduleIssues(r, active, all, valid);
        codes := codes + schedule;
      }
    } else if r.body.Reading? {
      codes := MeterIssues(r, active, all, valid);
    }
  }

  lemma IncreasingAppend(rows: seq<nat>, i: nat)
    requires Increasing(rows) && forall k :: 0 <= k < |rows| ==> rows[k] < i
    ensures Increasing(rows + [i])
  {
  }

  lemma ParentsAndChildren(valid: set<Record>)
    ensures var customers := CustomersOf(valid);
      var first, second := ParentPass(customers, SitesOf(valid)), ChildPass(customers, PointsOf(AfterParents(valid)));
      forall r :: ReferencePass(valid)(r) == first(r) + second(r) && (first(r) != {} ==> second(r) == {})
  {
    hide CustomersOf, SitesOf, PointsOf, AfterParents;
  }
}
