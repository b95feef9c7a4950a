/** Bundles on which a run does not declare its coverage, although every statement is answered. */
module FailingInputs {
  import opened Sequences
  import opened ValidationRules
  import opened AcceptedFiles
  import opened BatchRuns
  import opened ValidationResults
  import B = BundleLines
  import L = Loading
  import U = UnlinkedOrder

  const ALWAYS := Span(0, None)
  const SOMEONE := Customer("CUST-001", ALWAYS, true)

  function CustomerRevision(revision: Revision, keyed: bool): Record {
    Record("crm", "CUST-V1", keyed, revision, true, true, true, None, SOMEONE, "")
  }

  /** The name is part of what the rules do not look at. */
  function CustomerNamed(name: string): Record {
    CustomerRevision(Revision("1", Some(1)), true).(rest := name)
  }

  // The validator raises

  /** A customer whose revision is the word "first": int() rejects it, though the line is quarantined already. */
  lemma WordAsRevisionRaises(conforms: Record -> bool)
    ensures Raises({CustomerRevision(Revision("first", None), true)}, conforms)
  {
    assert CustomerRevision(Revision("first", None), true).Dataset() == Customers;
  }

  /** A customer whose version id is a list cannot be grouped by episode. */
  lemma ListAsKeyRaises(conforms: Record -> bool)
    ensures Raises({CustomerRevision(Revision("1", Some(1)), false)}, conforms)
  {
    assert CustomerRevision(Revision("1", Some(1)), false).Dataset() == Customers;
  }

  const WORD_ORDER :=
    Record("crm", "", true, Revision("first", None), true, true, true, None,
           ExcessOrder("L-001", "DP-001", "CUST-001", "CONTRACT-001", 0, HALF_HOUR), "")

  /** In an excess order it only quarantines the line: nobody asks for the current revisions of orders. */
  lemma WordAsOrderRevisionIsQuarantined(conforms: Record -> bool)
    requires !conforms(WORD_ORDER)
    ensures !Raises({WORD_ORDER}, conforms) && WORD_ORDER !in Accepted({WORD_ORDER}, conforms)
  {
    NothingConforms({WORD_ORDER}, conforms);
  }

  lemma NothingConforms(all: set<Record>, conforms: Record -> bool)
    requires forall r :: r in all ==> !conforms(r)
    ensures Conforming(all, conforms) == {} && Accepted(all, conforms) == {}
  {
    hide AfterRules;
    assert Conforming(all, conforms) == {};
    PassesOnlyReject(all, conforms);
  }

  const READING :=
    Record("meters", "", true, Revision("1", Some(1)), false, true, true, None,
           Reading("RM-001", "R1", 0, "MWh_th"), "")

  /** A reading that conforms although its time ends in a line feed reaches the interval pass, which cannot read it. */
  lemma UnreadableReadingRaises(conforms: Record -> bool)
    requires conforms(READING)
    ensures Raises({READING}, conforms)
  {
    assert READING in AfterOpaqueIds(AfterRevisions(Conforming({READING}, conforms)));
  }

  // The validation cannot write what it quarantined

  /**
    A customer whose name is a lone surrogate, or some number of whose is 1e400, can be read but not
    written. It is quarantined like any other line, and then its quarantine line raises; nothing else
    keeps the run from declaring its coverage.
   */
  lemma QuarantinedLineIsNotWritten(schema: Record -> bool, json: Json, encode: Encoding, name: string)
    requires !Writable(CustomerNamed(name), json)
    ensures var lines, checked := [B.Usable(CustomerNamed(name))], Checked(schema, json);
      && !Raises(B.AllOf(lines), checked) && Accepted(B.AllOf(lines), checked) == {}
      && AcceptedAreLoadable(Accepted(B.AllOf(lines), checked), json, encode)
      && !AllCanBeWritten(lines, json)
  {
    var line := B.Usable(CustomerNamed(name));
    assert line in [line] && B.AllOf([line]) == {CustomerNamed(name)};
    assert !CanBeWritten([line][0], json);
    NothingConforms({CustomerNamed(name)}, Checked(schema, json));
  }

  /** So does a line that repeats the lone surrogate as a key: the key is written into its issue. */
  lemma RepeatedKeyIsNotWritten(schema: Record -> bool, json: Json, encode: Encoding)
    ensures var lines, checked := [B.Unusable(Customers, false)], Checked(schema, json);
      && !Raises(B.AllOf(lines), checked) && Accepted(B.AllOf(lines), checked) == {}
      && AcceptedAreLoadable(Accepted(B.AllOf(lines), checked), json, encode)
      && !AllCanBeWritten(lines, json)
  {
    var line := B.Unusable(Customers, false);
    assert B.AllOf([line]) == {};
    assert !CanBeWritten([line][0], json);
    NothingConforms({}, Checked(schema, json));
  }

  // The loading step cannot take what was accepted

  /** The loader's columns for whole numbers take whole numbers as Python writes them. */
  function WholeNumberColumns(): Encoding {
    (r: Record) =>
      L.Record(L.Identity(r.revision.text, 0, 0), L.Payload(r.rest, []), "line:1",
               forall c :: c in r.revision.text ==> '0' <= c <= '9')
  }

  const ONE_POINT_ZERO := CustomerRevision(Revision("1.0", Some(1)), true)

  lemma LoneCustomerIsAccepted(r: Record, json: Json)
    requires r.body == SOMEONE && r.readable && Writable(r, json)
    ensures r in Accepted({r}, Checked(U.AnySchema(), json))
  {
    var all := {r};
    assert Conforming(all, Checked(U.AnySchema(), json)) == all == Conforming(all, U.AnySchema());
    U.SoundRowsPass(all);
    U.NothingOverlaps(all, RULES);
    assert AfterReferences(all) == all;
    U.PassesLeaveAll(all);
    U.PassedIsAccepted(all, r);
  }

  /** 1.0 is an integer to the schema, and none to the loader. */
  lemma AcceptedFloatIsNotLoadable(json: Json)
    requires Writable(ONE_POINT_ZERO, json)
    ensures var accepted := Accepted({ONE_POINT_ZERO}, Checked(U.AnySchema(), json));
      ONE_POINT_ZERO in accepted && !AcceptedAreLoadable(accepted, json, WholeNumberColumns())
  {
    hide Accepted, Whole;
    LoneCustomerIsAccepted(ONE_POINT_ZERO, json);
    assert '.' in "1.0" by { assert "1.0"[1] == '.'; }
    assert !Loadable(json, WholeNumberColumns(), ONE_POINT_ZERO);
  }

  /** A line separator in a name survives into the file, where it cuts the record in two. */
  lemma {:induction false} SeparatorCutsTheLine(left: string, right: string)
    requires Whole(left) && Whole(right)
    ensures SplitLines(left + ['\U{2028}'] + right + "\n") == [left, right]
  {
    hide Whole;
    var s := left + ['\U{2028}'] + right + "\n";
    assert s[|left|] == '\U{2028}' && IsBreak('\U{2028}');
    assert s[..|left|] == left;
    FirstBreakIsUnique(s, |left|);
    assert s[|left| + 1..] == right + "\n" + "";
    WholeLineIsSplitOff(right, "");
  }

  /** So no record that contains one can be loaded, however it is encoded. */
  lemma {:induction false} SeparatorIsNotLoadable(json: Json, encode: Encoding, r: Record)
    requires RoundTrips(json) && Writable(r, json) && '\U{2028}' in Text(r, json)
    ensures !Loadable(json, encode, r)
    ensures ReadAll(SplitLines(FileOf(Texts([r], json))), json).None?
  {
    FileReadsBackIff([r], json);
    assert r in [r] && !Whole(Text(r, json));
  }
}
