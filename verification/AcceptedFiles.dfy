/**
  The accepted records of a dataset on their way through a file: one line of canonical JSON each,
  which the loading step splits and reads again.
 */
module AcceptedFiles {
  import opened Sequences
  import opened ValidationRules

  /**
    Canonical JSON, and what json.loads makes of a text: nothing when it raises. An object with a lone
    surrogate or a number too large to be finite can be read, but not written.
   */
  datatype Json = Json(write: Record -> Option<string>, read: string -> Option<Record>)

  predicate Writable(r: Record, json: Json) {
    json.write(r).Some?
  }

  function Text(r: Record, json: Json): string
    requires Writable(r, json)
  {
    json.write(r).value
  }

  /**
    What is assumed of them: what can be written is written without line feeds and carriage returns,
    which JSON escapes, and read back as it was; no text that stops before its end is JSON.
   */
  ghost predicate RoundTrips(json: Json) {
    forall r :: Writable(r, json) ==> WrittenWell(json, r)
  }

  ghost predicate WrittenWell(json: Json, r: Record)
    requires Writable(r, json)
  {
    var text := Text(r, json);
    && text != [] && text[0] == '{' && '\n' !in text && '\r' !in text && json.read(text) == Some(r)
    && forall n :: 0 <= n < |text| ==> json.read(text[..n]).None?
  }

  // Lines

  /** The characters at which str.splitlines ends a line. */
  predicate IsBreak(c: char) {
    c in "\n\r\U{0B}\U{0C}\U{1C}\U{1D}\U{1E}\U{85}\U{2028}\U{2029}"
  }

  /** The characters str.strip removes. */
  predicate IsSpace(c: char) {
    IsBreak(c) || c in " \t\U{1F}\U{A0}\U{1680}\U{202F}\U{205F}\U{3000}" || '\U{2000}' <= c <= '\U{200A}'
  }

  predicate Blank(line: string) {
    forall c :: c in line ==> IsSpace(c)
  }

  /** The text is one line. */
  predicate Whole(text: string) {
    forall c :: c in text ==> !IsBreak(c)
  }

  function FirstBreak(s: string): (n: nat)
    ensures n <= |s| && Whole(s[..n]) && (n < |s| ==> IsBreak(s[n]))
    ensures n == |s| <==> Whole(s)
  {
    if s == [] then 0
    else if IsBreak(s[0]) then
      assert s[0] in s;
      0
    else
      var n := 1 + FirstBreak(s[1..]);
      assert s[..n] == [s[0]] + s[1..][..n - 1] && s == [s[0]] + s[1..];
      n
  }

  function BreakWidth(s: string, i: nat): (w: nat)
    requires i < |s|
    ensures 0 < w <= |s| - i
  {
    if s[i] == '\r' && i + 1 < |s| && s[i + 1] == '\n' then 2 else 1
  }

  /** str.splitlines. */
  function SplitLines(s: string): seq<string>
    decreases |s|
  {
    if s == [] then []
    else if FirstBreak(s) == |s| then [s]
    else [s[..FirstBreak(s)]] + SplitLines(s[FirstBreak(s) + BreakWidth(s, FirstBreak(s))..])
  }

  /** A file of lines, each ended by a line feed. */
  function FileOf(texts: seq<string>): string {
    if texts == [] then [] else texts[0] + "\n" + FileOf(texts[1..])
  }

  lemma BreakIsInside(s: string, i: nat, end: nat)
    requires i < end <= |s| && IsBreak(s[i])
    ensures !Whole(s[..end])
  {
    assert s[..end][i] == s[i];
  }

  lemma {:induction false} FirstBreakIsUnique(s: string, n: nat)
    requires n < |s| && Whole(s[..n]) && IsBreak(s[n])
    ensures FirstBreak(s) == n
  {
    hide Whole;
    var m := FirstBreak(s);
    if m < n {
      BreakIsInside(s, m, n);
    } else if n < m {
      BreakIsInside(s, n, m);
    }
  }

  lemma {:induction false} WholeLineIsSplitOff(text: string, rest: string)
    requires Whole(text)
    ensures SplitLines(text + "\n" + rest) == [text] + SplitLines(rest)
  {
    var s := text + "\n" + rest;
    assert s[..|text|] == text && s[|text|] == '\n';
    FirstBreakIsUnique(s, |text|);
    assert s[|text| + 1..] == rest;
  }

  /** Every break ends a line; a carriage return and a line feed after it end one line together. */
  lemma EveryBreakEndsALine(text: string, b: char, rest: string)
    requires Whole(text) && IsBreak(b)
    ensures b == '\r' && rest != [] && rest[0] == '\n' ==>
      SplitLines(text + [b] + rest) == [text] + SplitLines(rest[1..])
    ensures !(b == '\r' && rest != [] && rest[0] == '\n') ==>
      SplitLines(text + [b] + rest) == [text] + SplitLines(rest)
  {
    var s := text + [b] + rest;
    assert s[..|text|] == text && s[|text|] == b;
    hide Whole, IsBreak;
    FirstBreakIsUnique(s, |text|);
    assert s[|text| + 1..] == rest;
    if rest != [] {
      assert s[|text| + 1] == rest[0] && s[|text| + 2..] == rest[1..];
    }
  }

  lemma {:induction false} CutLineIsSplitShort(text: string, rest: string)
    requires !Whole(text)
    ensures SplitLines(text + "\n" + rest) != [] && SplitLines(text + "\n" + rest)[0] == text[..FirstBreak(text)]
  {
    var s, n := text + "\n" + rest, FirstBreak(text);
    assert s[..n] == text[..n] && s[n] == text[n];
    FirstBreakIsUnique(s, n);
  }

  // Reading the file again

  ghost predicate AllWritable(rs: seq<Record>, json: Json) {
    forall i :: 0 <= i < |rs| ==> Writable(rs[i], json)
  }

  ghost function Texts(rs: seq<Record>, json: Json): (texts: seq<string>)
    requires AllWritable(rs, json)
    ensures |texts| == |rs| && forall i :: 0 <= i < |rs| ==> texts[i] == Text(rs[i], json)
  {
    seq(|rs|, i requires 0 <= i < |rs| => Text(rs[i], json))
  }

  lemma {:induction false} FileOfOneMore(texts: seq<string>, text: string)
    ensures FileOf(texts + [text]) == FileOf(texts) + text + "\n"
  {
    if texts == [] {
      assert texts + [text] == [text] && FileOf([]) == [];
    } else {
      assert (texts + [text])[1..] == texts[1..] + [text];
      FileOfOneMore(texts[1..], text);
    }
  }

  /** The lines of a file, which cannot be written as soon as one record cannot. */
  method JsonlContent(rs: seq<Record>, json: Json) returns (content: Option<string>)
    ensures content.Some? <==> AllWritable(rs, json)
    ensures content.Some? ==> content.value == FileOf(Texts(rs, json))
  {
    var written := "";
    for i := 0 to |rs|
      invariant AllWritable(rs[..i], json) && written == FileOf(Texts(rs[..i], json))
    {
      var text := json.write(rs[i]);
      if text.None? {
        assert !Writable(rs[i], json);
        return None;
      }
      FileOfOneMore(Texts(rs[..i], json), text.value);
      assert Texts(rs[..i + 1], json) == Texts(rs[..i], json) + [text.value];
      written := written + text.value + "\n";
    }
    assert rs[..|rs|] == rs;
    return Some(written);
  }

  function ReadAll(lines: seq<string>, json: Json): Option<seq<Record>> {
    if lines == [] then Some([])
    else if Blank(lines[0]) then ReadAll(lines[1..], json)
    else
      var first, rest := json.read(lines[0]), ReadAll(lines[1..], json);
      if first.None? || rest.None? then None else Some([first.value] + rest.value)
  }

  ghost predicate AllWhole(rs: seq<Record>, json: Json) {
    forall r :: r in rs ==> Writable(r, json) && Whole(Text(r, json))
  }

  lemma NotBlank(line: string)
    requires line != [] && line[0] == '{'
    ensures !Blank(line)
  {
    assert line[0] in line && !IsSpace('{');
  }

  lemma TextsUnfold(rs: seq<Record>, json: Json)
    requires rs != [] && AllWritable(rs, json)
    ensures AllWritable(rs[1..], json)
    ensures Texts(rs, json) == [Text(rs[0], json)] + Texts(rs[1..], json)
  {
  }

  lemma {:induction false} FirstCutRaises(r: Record, rest: string, json: Json)
    requires Writable(r, json) && WrittenWell(json, r) && !Whole(Text(r, json))
    ensures ReadAll(SplitLines(Text(r, json) + "\n" + rest), json).None?
  {
    var text := Text(r, json);
    var n := FirstBreak(text);
    CutLineIsSplitShort(text, rest);
    assert n > 0 by { assert !IsBreak('{'); }
    NotBlank(text[..n]);
  }

  lemma {:induction false} FirstWholeIsRead(r: Record, rest: string, json: Json)
    requires Writable(r, json) && WrittenWell(json, r) && Whole(Text(r, json))
    ensures ReadAll(SplitLines(Text(r, json) + "\n" + rest), json) ==
      match ReadAll(SplitLines(rest), json)
      case None => None
      case Some(others) => Some([r] + others)
  {
    hide SplitLines, Whole;
    WholeLineIsSplitOff(Text(r, json), rest);
    NotBlank(Text(r, json));
    hide Blank, WrittenWell;
    var lines := [Text(r, json)] + SplitLines(rest);
    assert lines[0] == Text(r, json) && lines[1..] == SplitLines(rest);
  }

  lemma FileUnfold(rs: seq<Record>, json: Json)
    requires rs != [] && AllWritable(rs, json) && AllWritable(rs[1..], json)
    ensures FileOf(Texts(rs, json)) == Text(rs[0], json) + "\n" + FileOf(Texts(rs[1..], json))
  {
    TextsUnfold(rs, json);
  }

  lemma AllWholeUnfold(rs: seq<Record>, json: Json)
    requires rs != [] && AllWritable(rs, json)
    ensures AllWhole(rs, json) <==> Whole(Text(rs[0], json)) && AllWhole(rs[1..], json)
  {
    hide Whole;
    assert forall r :: r in rs <==> r == rs[0] || r in rs[1..];
  }

  lemma {:induction false} NoRecordsAreRead(json: Json)
    ensures AllWhole([], json) && ReadAll(SplitLines(FileOf(Texts([], json))), json) == Some([])
  {
    assert FileOf(Texts([], json)) == [] && SplitLines([]) == [];
  }

  lemma {:induction false} OneMoreIsRead(r: Record, others: seq<Record>, rest: string, allWhole: bool, json: Json)
    requires Writable(r, json) && WrittenWell(json, r)
    requires ReadAll(SplitLines(rest), json) == if allWhole then Some(others) else None
    ensures ReadAll(SplitLines(Text(r, json) + "\n" + rest), json) ==
      if Whole(Text(r, json)) && allWhole then Some([r] + others) else None
  {
    hide *;
    if Whole(Text(r, json)) {
      FirstWholeIsRead(r, rest, json);
    } else {
      FirstCutRaises(r, rest, json);
    }
  }

  /** A file of accepted records is read back as it was written exactly when no record contains a line separator. */
  lemma {:induction false} FileReadsBackIff(rs: seq<Record>, json: Json)
    requires RoundTrips(json) && AllWritable(rs, json)
    ensures ReadAll(SplitLines(FileOf(Texts(rs, json))), json) == if AllWhole(rs, json) then Some(rs) else None
  {
    if rs == [] {
      NoRecordsAreRead(json);
    } else {
      assert Writable(rs[0], json) && WrittenWell(json, rs[0]) && AllWritable(rs[1..], json);
      hide *;
      FileReadsBackIff(rs[1..], json);
      AllWholeUnfold(rs, json);
      FileUnfold(rs, json);
      OneMoreIsRead(rs[0], rs[1..], FileOf(Texts(rs[1..], json)), AllWhole(rs[1..], json), json);
      assert rs == [rs[0]] + rs[1..];
    }
  }

  method LoadLines(lines: seq<string>, json: Json) returns (payloads: Option<seq<Record>>)
    ensures payloads == ReadAll(lines, json)
  {
    var found: seq<Record> := [];
    assert lines[0..] == lines && forall rest: seq<Record> :: found + rest == rest;
    for i := 0 to |lines|
      invariant ReadAll(lines, json) ==
        match ReadAll(lines[i..], json)
        case None => None
        case Some(rest) => Some(found + rest)
    {
      assert lines[i..][0] == lines[i] && lines[i..][1..] == lines[i + 1..];
      if !Blank(lines[i]) {
        var payload := json.read(lines[i]);
        if payload.None? {
          return None;
        }
        assert forall rest: seq<Record> :: found + ([payload.value] + rest) == found + [payload.value] + rest;
        found := found + [payload.value];
      }
    }
    assert found + [] == found;
    return Some(found);
  }

  datatype ReadFailure = UnreadableLine | LineageMismatch

  /**
    Reads an accepted file again and compares it, record by record, with the evidence of the
    validation. Only a line separator inside a record can make it fail.
   */
  method ReadAccepted(file: string, evidence: seq<Record>, json: Json)
      returns (failure: Option<ReadFailure>, payloads: seq<Record>)
    requires RoundTrips(json) && AllWritable(evidence, json) && file == FileOf(Texts(evidence, json))
    ensures failure == if AllWhole(evidence, json) then None else Some(UnreadableLine)
    ensures failure.None? ==> payloads == evidence
  {
    payloads := [];
    FileReadsBackIff(evidence, json);
    var loaded := LoadLines(SplitLines(file), json);
    if loaded.None? {
      return Some(UnreadableLine), payloads;
    }
    payloads := loaded.value;
    if |payloads| != |evidence| {
      return Some(LineageMismatch), payloads;
    }
    for i := 0 to |payloads| {
      if payloads[i] != evidence[i] {
        return Some(LineageMismatch), payloads;
      }
    }
    return None, payloads;
  }
}
