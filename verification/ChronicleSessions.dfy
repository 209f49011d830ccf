/**
  Text rules of src/chronicle_sessions.cpp: the validation of a proposed session
  summary, with its 64-byte copy test, and the literal full-text query.

  Texts are byte strings.  A Discord user id is a number; the source compares
  its decimal string.
 */
module ChronicleSessions {

  import U = Utf8
  import opened Wrappers

  type Text = U.Text

  /** `std::isspace` in the C locale. */
  predicate IsSpace(b: bv8) { b == 0x20 || 0x09 <= b <= 0x0D }

  // ----------------------------------------------------------- copied runs

  const SPAN := 64

  predicate At(text: Text, i: nat, piece: Text) {
    i + |piece| <= |text| && text[i..i + |piece|] == piece
  }

  ghost predicate Occurs(piece: Text, text: Text) { exists i: nat :: At(text, i, piece) }

  ghost predicate Shared(line: Text, i: nat, n: nat, text: Text) {
    i + n <= |line| && Occurs(line[i..i + n], text)
  }

  /** The two texts have a run of at least 64 bytes in common. */
  ghost predicate SharesRun(line: Text, text: Text) {
    exists i: nat, n: nat :: n >= 64 && Shared(line, i, n, text)
  }

  lemma PartOccurs(piece: Text, n: nat, text: Text)
    requires n <= |piece| && Occurs(piece, text)
    ensures Occurs(piece[..n], text)
  {
    var i: nat :| At(text, i, piece);
    assert text[i..i + n] == text[i..i + |piece|][..n];
    assert At(text, i, piece[..n]);
  }

  /** Testing the windows of exactly 64 bytes is enough. */
  lemma WindowsSuffice(line: Text, text: Text)
    ensures SharesRun(line, text) <==> exists i: nat :: Shared(line, i, SPAN, text)
  {
    hide Occurs;
    if i: nat, n: nat :| n >= SPAN && Shared(line, i, n, text) {
      PartOccurs(line[i..i + n], SPAN, text);
      assert line[i..i + n][..SPAN] == line[i..i + SPAN];
      assert Shared(line, i, SPAN, text);
    }
  }

  /** `std::string_view::find` as a test. */
  method Find(text: Text, piece: Text) returns (found: bool)
    ensures found <==> Occurs(piece, text)
  {
    var i := 0;
    while i + |piece| <= |text|
      invariant forall j: nat :: j < i ==> !At(text, j, piece)
    {
      if text[i..i + |piece|] == piece {
        assert At(text, i, piece);
        return true;
      }
      i := i + 1;
    }
    return false;
  }

  ghost predicate CopiesFrom(output: Text, context: seq<Text>) {
    exists k :: 0 <= k < |context| && SharesRun(context[k], output)
  }

  method ContainsLongContextSpan(output: Text, context: seq<Text>) returns (copied: bool)
    ensures copied <==> CopiesFrom(output, context)
  {
    hide Occurs, SharesRun;
    for k := 0 to |context|
      invariant forall j :: 0 <= j < k ==> !SharesRun(context[j], output)
    {
      var line := context[k];
      WindowsSuffice(line, output);
      if |line| >= SPAN {
        var offset := 0;
        while offset + SPAN <= |line|
          invariant forall i: nat :: i < offset ==> !Shared(line, i, SPAN, output)
        {
          var found := Find(output, line[offset..offset + SPAN]);
          if found {
            assert Shared(line, offset, SPAN, output);
            return true;
          }
          offset := offset + 1;
        }
      }
    }
    return false;
  }

  // ------------------------------------------------------ joining the fields

  const NEWLINE: bv8 := 0x0A

  function Join(fields: seq<Text>): Text {
    if |fields| == 0 then []
    else if |fields| == 1 then fields[0]
    else Join(fields[..|fields| - 1]) + [NEWLINE] + fields[|fields| - 1]
  }

  lemma JoinMore(fields: seq<Text>, field: Text)
    requires fields != []
    ensures Join(fields + [field]) == Join(fields) + [NEWLINE] + field
  {
    assert (fields + [field])[..|fields|] == fields;
  }

  lemma OccursInPart(piece: Text, a: Text, b: Text)
    requires Occurs(piece, a) || Occurs(piece, b)
    ensures Occurs(piece, a + [NEWLINE] + b)
  {
    var whole := a + [NEWLINE] + b;
    if Occurs(piece, a) {
      var i: nat :| At(a, i, piece);
      assert whole[i..i + |piece|] == a[i..i + |piece|];
      assert At(whole, i, piece);
    } else {
      var i: nat :| At(b, i, piece);
      assert whole[|a| + 1 + i..|a| + 1 + i + |piece|] == b[i..i + |piece|];
      assert At(whole, |a| + 1 + i, piece);
    }
  }

  lemma {:induction false} FieldOccurs(piece: Text, fields: seq<Text>, k: nat)
    requires k < |fields| && Occurs(piece, fields[k])
    ensures Occurs(piece, Join(fields))
    decreases |fields|
  {
    hide Occurs;
    var n := |fields| - 1;
    if n > 0 {
      if k < n {
        FieldOccurs(piece, fields[..n], k);
      }
      OccursInPart(piece, Join(fields[..n]), fields[n]);
    }
  }

  /** The joint in front of field `k` lies inside the piece found at `i`. */
  predicate Straddles(piece: Text, fields: seq<Text>, i: nat, k: nat) {
    && 0 < k < |fields| && At(Join(fields), i, piece)
    && i <= |Join(fields[..k])| < i + |piece|
  }

  ghost predicate CrossesJoint(piece: Text, fields: seq<Text>) {
    exists i: nat, k: nat :: Straddles(piece, fields, i, k)
  }

  /** What stands at a place of the joined text stands inside a field or across a joint. */
  lemma {:induction false} InFieldOrAcross(piece: Text, fields: seq<Text>, i: nat)
    requires fields != [] && piece != [] && At(Join(fields), i, piece)
    ensures (exists k :: 0 <= k < |fields| && Occurs(piece, fields[k])) || exists k: nat :: Straddles(piece, fields, i, k)
    decreases |fields|
  {
    var n := |fields| - 1;
    if n == 0 {
      assert Occurs(piece, fields[0]);
    } else {
      var front, last := Join(fields[..n]), fields[n];
      if i + |piece| <= |front| {
        assert front[i..i + |piece|] == Join(fields)[i..i + |piece|];
        InFieldOrAcross(piece, fields[..n], i);
        if k: nat :| Straddles(piece, fields[..n], i, k) {
          assert fields[..n][..k] == fields[..k];
          assert Straddles(piece, fields, i, k);
        } else {
          var k :| 0 <= k < n && Occurs(piece, fields[..n][k]);
          assert fields[k] == fields[..n][k];
        }
      } else if i > |front| {
        var j := i - |front| - 1;
        assert last[j..j + |piece|] == Join(fields)[i..i + |piece|];
        assert At(last, j, piece);
      } else {
        assert Straddles(piece, fields, i, n);
      }
    }
  }

  /** A piece across a joint contains the line break of the joint. */
  lemma {:induction false} JointIsNewline(fields: seq<Text>, k: nat)
    requires 0 < k < |fields|
    ensures |Join(fields[..k])| < |Join(fields)| && Join(fields)[|Join(fields[..k])|] == NEWLINE
    decreases |fields|
  {
    var n := |fields| - 1;
    if k < n {
      assert fields[..n][..k] == fields[..k];
      JointIsNewline(fields[..n], k);
    }
  }

  lemma AcrossHasNewline(piece: Text, fields: seq<Text>)
    requires CrossesJoint(piece, fields)
    ensures NEWLINE in piece && Occurs(piece, Join(fields))
  {
    hide Join;
    var i: nat, k: nat :| Straddles(piece, fields, i, k);
    JointIsNewline(fields, k);
    var p := |Join(fields[..k])|;
    assert piece[p - i] == Join(fields)[i..i + |piece|][p - i];
  }

  ghost predicate FieldCopies(fields: seq<Text>, line: Text) {
    exists k :: 0 <= k < |fields| && SharesRun(line, fields[k])
  }

  /** No field copies what the joined text does not copy. */
  lemma JoinedTestCoversFields(fields: seq<Text>, line: Text)
    requires FieldCopies(fields, line)
    ensures SharesRun(line, Join(fields))
  {
    hide Occurs, Join;
    var k :| 0 <= k < |fields| && SharesRun(line, fields[k]);
    var i: nat, n: nat :| n >= SPAN && Shared(line, i, n, fields[k]);
    FieldOccurs(line[i..i + n], fields, k);
    assert Shared(line, i, n, Join(fields));
  }

  ghost predicate WindowAcross(fields: seq<Text>, line: Text, i: nat) {
    i + SPAN <= |line| && CrossesJoint(line[i..i + SPAN], fields)
  }

  /** A 64-byte window of the line stands across a joint of the joined text. */
  ghost predicate CopiesAcross(fields: seq<Text>, line: Text) {
    exists i: nat :: WindowAcross(fields, line, i)
  }

  lemma FieldCopied(fields: seq<Text>, line: Text, i: nat, k: int)
    requires 0 <= k < |fields| && Shared(line, i, SPAN, fields[k])
    ensures FieldCopies(fields, line)
  {
    assert SharesRun(line, fields[k]);
  }

  lemma FoundAcross(fields: seq<Text>, line: Text, i: nat)
    requires fields != [] && Shared(line, i, SPAN, Join(fields)) && !FieldCopies(fields, line)
    ensures WindowAcross(fields, line, i)
  {
    hide Join, FieldCopies;
    var piece := line[i..i + SPAN];
    var at: nat :| At(Join(fields), at, piece);
    InFieldOrAcross(piece, fields, at);
    forall k | 0 <= k < |fields|
      ensures !Occurs(piece, fields[k])
    {
      if Occurs(piece, fields[k]) {
        FieldCopied(fields, line, i, k);
      }
    }
  }

  /** What the joined test refuses: a copy inside a field or across a joint.  So
      it differs from the per-field test on a line exactly when no field copies
      from it and one of its windows stands across a joint. */
  lemma JoinedTestIs(fields: seq<Text>, line: Text)
    requires fields != []
    ensures SharesRun(line, Join(fields)) <==> FieldCopies(fields, line) || CopiesAcross(fields, line)
    ensures SharesRun(line, Join(fields)) != FieldCopies(fields, line)
       <==> !FieldCopies(fields, line) && CopiesAcross(fields, line)
  {
    hide Occurs, Join, CrossesJoint, SharesRun;
    WindowsSuffice(line, Join(fields));
    if i: nat :| Shared(line, i, SPAN, Join(fields)) && !FieldCopies(fields, line) {
      FoundAcross(fields, line, i);
    }
    if FieldCopies(fields, line) {
      JoinedTestCoversFields(fields, line);
    }
    if i: nat :| WindowAcross(fields, line, i) {
      AcrossHasNewline(line[i..i + SPAN], fields);
      assert Shared(line, i, SPAN, Join(fields));
    }
  }

  /** In particular the tests agree on a line without a line break. */
  lemma JoinedTestIsPerField(fields: seq<Text>, line: Text)
    requires fields != [] && NEWLINE !in line
    ensures SharesRun(line, Join(fields)) <==> FieldCopies(fields, line)
  {
    hide SharesRun, Join, FieldCopies, CrossesJoint;
    JoinedTestIs(fields, line);
    if i: nat :| WindowAcross(fields, line, i) {
      AcrossHasNewline(line[i..i + SPAN], fields);
    }
  }

  // ------------------------------------------------------------ validation

  const MAXIMUM_TITLE := 100
  const MAXIMUM_BODY := 1000
  const MAXIMUM_MEMORY := 500

  ghost predicate SnapshotText(value: Text, maximum: nat) {
    |value| <= maximum && U.Presentable(value)
  }

  ghost predicate ChronicleText(value: Text, maximum: nat) {
    SnapshotText(value, maximum) && exists i :: 0 <= i < |value| && !IsSpace(value[i])
  }

  method ValidSnapshotText(value: Text, maximum: nat) returns (ok: bool)
    ensures ok <==> SnapshotText(value, maximum)
  {
    if |value| > maximum {
      return false;
    }
    ok := U.ValidChronicleUtf8(value);
  }

  method ValidChronicleText(value: Text, maximum: nat) returns (ok: bool)
    ensures ok <==> ChronicleText(value, maximum)
  {
    if value == [] || |value| > maximum {
      return false;
    }
    ok := U.ValidChronicleUtf8(value);
    if !ok {
      return;
    }
    for i := 0 to |value|
      invariant forall j :: 0 <= j < i ==> IsSpace(value[j])
    {
      if !IsSpace(value[i]) {
        return true;
      }
    }
    return false;
  }

  datatype TitleProposal = TitleProposal(recipient: nat, title: Text, description: Text, supporting: Option<Text>)

  datatype Candidate =
    Candidate(chapterTitle: Text, summary: Text, highlights: seq<Text>, titles: seq<TitleProposal>)

  datatype Context = Context(optedIn: seq<nat>, sharedEntries: seq<Text>, transient: seq<Text>)

  datatype Code =
    Valid | InvalidUtf8 | InvalidLength | UnknownParticipant | UnknownEntry | DuplicateRecipient | CopiedContext

  /** Every text the candidate would publish, `titles` proposals of it. */
  function Fields(c: Candidate, titles: nat): (fields: seq<Text>)
    requires titles <= |c.titles|
    ensures |fields| == 2 + 2 * titles
  {
    if titles == 0 then [c.chapterTitle, c.summary]
    else Fields(c, titles - 1) + [c.titles[titles - 1].title, c.titles[titles - 1].description]
  }

  ghost predicate Fresh<T>(items: seq<T>, k: int)
    requires 0 <= k < |items|
  {
    forall j :: 0 <= j < k ==> items[j] != items[k]
  }

  ghost predicate GoodHighlight(c: Candidate, x: Context, k: int)
    requires 0 <= k < |c.highlights|
  {
    c.highlights[k] in x.sharedEntries && Fresh(c.highlights, k)
  }

  ghost predicate FreshRecipient(c: Candidate, k: int)
    requires 0 <= k < |c.titles|
  {
    forall j :: 0 <= j < k ==> c.titles[j].recipient != c.titles[k].recipient
  }

  ghost predicate GoodTitle(c: Candidate, x: Context, k: int)
    requires 0 <= k < |c.titles|
  {
    var p := c.titles[k];
    && p.recipient in x.optedIn && FreshRecipient(c, k)
    && ChronicleText(p.title, 100) && ChronicleText(p.description, 500)
    && (p.supporting.Some? ==> p.supporting.value in x.sharedEntries)
  }

  /** The first proposal that is not right. */
  ghost predicate FirstBadTitle(c: Candidate, x: Context, k: int) {
    0 <= k < |c.titles| && !GoodTitle(c, x, k) && forall j :: 0 <= j < k ==> GoodTitle(c, x, j)
  }

  /** The answer for a proposal that is not right: its recipient is looked at first,
      then its texts, and its supporting entry only when those are right. */
  ghost predicate TitleError(c: Candidate, x: Context, k: int, code: Code)
    requires 0 <= k < |c.titles|
  {
    var p := c.titles[k];
    var texts := ChronicleText(p.title, 100) && ChronicleText(p.description, 500);
    && (code == UnknownParticipant <==> p.recipient !in x.optedIn)
    && (code == DuplicateRecipient <==> p.recipient in x.optedIn && !FreshRecipient(c, k))
    && (code == InvalidLength <==> p.recipient in x.optedIn && FreshRecipient(c, k) && !texts)
    && (code == UnknownEntry <==> p.recipient in x.optedIn && FreshRecipient(c, k) && texts)
  }

  ghost predicate GoodSnapshot(c: Candidate) {
    SnapshotText(c.chapterTitle, 100) && SnapshotText(c.summary, 1000)
  }

  ghost predicate GoodLengths(c: Candidate, x: Context) {
    && ChronicleText(c.chapterTitle, 100) && ChronicleText(c.summary, 1000)
    && |c.highlights| <= 10 && |c.titles| <= |x.optedIn|
  }

  ghost predicate GoodHighlights(c: Candidate, x: Context) {
    forall k :: 0 <= k < |c.highlights| ==> GoodHighlight(c, x, k)
  }

  ghost predicate GoodTitles(c: Candidate, x: Context) {
    forall k :: 0 <= k < |c.titles| ==> GoodTitle(c, x, k)
  }

  ghost predicate Acceptable(c: Candidate, x: Context) {
    GoodLengths(c, x) && GoodHighlights(c, x) && GoodTitles(c, x)
  }

  ghost predicate Copies(c: Candidate, x: Context) {
    CopiesFrom(Join(Fields(c, |c.titles|)), x.transient)
  }

  /** `validate_summary_candidate`: what each answer means. */
  method ValidateSummaryCandidate(c: Candidate, x: Context) returns (code: Code)
    ensures code == Valid <==> Acceptable(c, x) && !Copies(c, x)
    ensures code == CopiedContext <==> Acceptable(c, x) && Copies(c, x)
    ensures code == InvalidUtf8 <==> !GoodSnapshot(c)
    ensures code == InvalidLength ==> !GoodLengths(c, x) || !GoodTitles(c, x)
    ensures GoodSnapshot(c) && !GoodLengths(c, x) ==> code == InvalidLength
    ensures GoodLengths(c, x) && !GoodHighlights(c, x) ==> code == UnknownEntry
    ensures forall k :: GoodLengths(c, x) && GoodHighlights(c, x) && FirstBadTitle(c, x, k) ==> TitleError(c, x, k, code)
  {
    hide SnapshotText, ChronicleText, CopiesFrom, Join, GoodHighlight, GoodTitle;
    SnapshotsFollow(c, x);
    var titleOk := ValidSnapshotText(c.chapterTitle, MAXIMUM_TITLE);
    var summaryOk := ValidSnapshotText(c.summary, MAXIMUM_BODY);
    if !titleOk || !summaryOk {
      return InvalidUtf8;
    }
    titleOk := ValidChronicleText(c.chapterTitle, MAXIMUM_TITLE);
    summaryOk := ValidChronicleText(c.summary, MAXIMUM_BODY);
    if !titleOk || !summaryOk || |c.highlights| > 10 || |c.titles| > |x.optedIn| {
      return InvalidLength;
    }
    var highlightsOk := CheckHighlights(c, x);
    if !highlightsOk {
      return UnknownEntry;
    }
    code := CheckTitles(c, x);
    if code != Valid {
      return;
    }
    var combined := c.chapterTitle + [NEWLINE] + c.summary;
    CombinedStart(c);
    for k := 0 to |c.titles|
      invariant combined == Join(Fields(c, k))
    {
      CombinedStep(c, k);
      combined := combined + ([NEWLINE] + c.titles[k].title + [NEWLINE] + c.titles[k].description);
    }
    var copied := ContainsLongContextSpan(combined, x.transient);
    if copied {
      return CopiedContext;
    }
    return Valid;
  }

  lemma SnapshotsFollow(c: Candidate, x: Context)
    ensures GoodLengths(c, x) ==> GoodSnapshot(c)
  {
  }

  lemma CombinedStart(c: Candidate)
    ensures Join(Fields(c, 0)) == c.chapterTitle + [NEWLINE] + c.summary
  {
    assert [c.chapterTitle, c.summary][..1] == [c.chapterTitle];
  }

  lemma CombinedStep(c: Candidate, k: nat)
    requires k < |c.titles|
    ensures Join(Fields(c, k + 1))
         == Join(Fields(c, k)) + ([NEWLINE] + c.titles[k].title + [NEWLINE] + c.titles[k].description)
  {
    hide Join;
    var before, p := Fields(c, k), c.titles[k];
    JoinMore(before, p.title);
    JoinMore(before + [p.title], p.description);
    assert before + [p.title, p.description] == before + [p.title] + [p.description];
  }

  method CheckHighlights(c: Candidate, x: Context) returns (ok: bool)
    ensures ok <==> GoodHighlights(c, x)
  {
    var known := set id | id in x.sharedEntries;
    var seen: set<Text> := {};
    for k := 0 to |c.highlights|
      invariant forall j :: 0 <= j < k ==> GoodHighlight(c, x, j)
      invariant seen == set j | 0 <= j < k :: c.highlights[j]
    {
      if c.highlights[k] !in known || c.highlights[k] in seen {
        assert !GoodHighlight(c, x, k);
        return false;
      }
      assert GoodHighlight(c, x, k);
      seen := seen + {c.highlights[k]};
    }
    return true;
  }

  lemma OnlyFirst(c: Candidate, x: Context, k: int)
    requires FirstBadTitle(c, x, k)
    ensures forall j :: FirstBadTitle(c, x, j) ==> j == k
  {
    hide GoodTitle;
  }

  method CheckTitles(c: Candidate, x: Context) returns (code: Code)
    ensures code in {Valid, InvalidLength, UnknownParticipant, UnknownEntry, DuplicateRecipient}
    ensures code == Valid <==> GoodTitles(c, x)
    ensures forall k :: FirstBadTitle(c, x, k) ==> TitleError(c, x, k, code)
  {
    hide ChronicleText;
    var knownEntries := set id | id in x.sharedEntries;
    var knownUsers := set id | id in x.optedIn;
    var recipients: set<nat> := {};
    for k := 0 to |c.titles|
      invariant forall j :: 0 <= j < k ==> GoodTitle(c, x, j)
      invariant recipients == set j | 0 <= j < k :: c.titles[j].recipient
    {
      var p := c.titles[k];
      if p.recipient !in knownUsers {
        OnlyFirst(c, x, k);
        return UnknownParticipant;
      }
      if p.recipient in recipients {
        assert !FreshRecipient(c, k);
        OnlyFirst(c, x, k);
        return DuplicateRecipient;
      }
      recipients := recipients + {p.recipient};
      var titleOk := ValidChronicleText(p.title, MAXIMUM_TITLE);
      var descriptionOk := ValidChronicleText(p.description, MAXIMUM_MEMORY);
      if !titleOk || !descriptionOk {
        OnlyFirst(c, x, k);
        return InvalidLength;
      }
      if p.supporting.Some? && p.supporting.value !in knownEntries {
        OnlyFirst(c, x, k);
        return UnknownEntry;
      }
      assert GoodTitle(c, x, k);
    }
    return Valid;
  }

  /** A candidate that validates publishes no field with a run of 64 bytes of
      any transient context line. */
  lemma ValidatedTextIsOriginal(c: Candidate, x: Context, field: nat, line: nat)
    requires field < 2 + 2 * |c.titles| && line < |x.transient|
    ensures !Copies(c, x) ==> !SharesRun(x.transient[line], Fields(c, |c.titles|)[field])
  {
    hide SharesRun, Join;
    if SharesRun(x.transient[line], Fields(c, |c.titles|)[field]) {
      JoinedTestCoversFields(Fields(c, |c.titles|), x.transient[line]);
    }
  }

  /** A candidate is refused for copying exactly when a field of it copies from
      a context line, or a window of such a line stands across two fields. */
  lemma CopyTestIs(c: Candidate, x: Context)
    ensures var fields := Fields(c, |c.titles|);
            Copies(c, x) <==> exists k :: 0 <= k < |x.transient|
                                && (FieldCopies(fields, x.transient[k]) || CopiesAcross(fields, x.transient[k]))
  {
    hide SharesRun, Join, FieldCopies, CopiesAcross;
    var fields := Fields(c, |c.titles|);
    forall k | 0 <= k < |x.transient|
      ensures SharesRun(x.transient[k], Join(fields))
         <==> FieldCopies(fields, x.transient[k]) || CopiesAcross(fields, x.transient[k])
    {
      JoinedTestIs(fields, x.transient[k]);
    }
  }

  /** When the context lines have no line break, copying is refused exactly
      when some field copies. */
  lemma CopyTestIsPerField(c: Candidate, x: Context)
    requires forall k :: 0 <= k < |x.transient| ==> NEWLINE !in x.transient[k]
    ensures Copies(c, x)
       <==> exists k :: 0 <= k < |x.transient| && FieldCopies(Fields(c, |c.titles|), x.transient[k])
  {
    hide SharesRun, Join, FieldCopies;
    forall k | 0 <= k < |x.transient|
      ensures SharesRun(x.transient[k], Join(Fields(c, |c.titles|)))
         <==> FieldCopies(Fields(c, |c.titles|), x.transient[k])
    {
      JoinedTestIsPerField(Fields(c, |c.titles|), x.transient[k]);
    }
  }

  function Repeated(b: bv8, n: nat): (text: Text)
    ensures |text| == n && forall i :: 0 <= i < n ==> text[i] == b
  {
    if n == 0 then [] else [b] + Repeated(b, n - 1)
  }

  lemma {:induction false} RepeatedIsPresentable(b: bv8, n: nat)
    requires 0x20 <= b <= 0x7E
    ensures U.Presentable(Repeated(b, n))
  {
    if n == 0 {
      U.EmptyIsPresentable();
    } else {
      var text := Repeated(b, n);
      RepeatedIsPresentable(b, n - 1);
      U.PresentableFront(text);
      U.ReadAscii(text);
      assert text[1..] == Repeated(b, n - 1);
      PrintableIsNoControl(b);
    }
  }

  lemma PrintableIsNoControl(b: bv8)
    requires 0x20 <= b <= 0x7E
    ensures !U.IsControl(b as bv32)
  {
  }

  /** No field as short as this shares a run. */
  lemma ShortFieldsCopyNothing(fields: seq<Text>, line: Text)
    requires forall k :: 0 <= k < |fields| ==> |fields[k]| < SPAN
    ensures !FieldCopies(fields, line)
  {
  }

  /** A well-formed candidate that is refused although no field of it copies: its
      title and its summary are short, but a context line holds both. */
  lemma RefusedWithoutACopy(n: nat) returns (c: Candidate, x: Context)
    requires 32 <= n < SPAN
    ensures Acceptable(c, x) && Copies(c, x)
    ensures forall k :: 0 <= k < |x.transient| ==> !FieldCopies(Fields(c, |c.titles|), x.transient[k])
  {
    hide U.Presentable;
    var title, summary := Repeated(0x61, n), Repeated(0x62, n);
    RepeatedIsPresentable(0x61, n);
    RepeatedIsPresentable(0x62, n);
    assert !IsSpace(title[0]) && !IsSpace(summary[0]);
    c := Candidate(title, summary, [], []);
    var line := title + [NEWLINE] + summary;
    x := Context([], [], [line]);
    CombinedStart(c);
    ShortFieldsCopyNothing(Fields(c, 0), line);
    assert At(line, 0, line);
    assert line[0..0 + |line|] == line;
    assert Shared(line, 0, |line|, line);
    assert SharesRun(x.transient[0], Join(Fields(c, 0)));
  }

  // ------------------------------------------------- the tokens of a query

  predicate AllSpace(q: Text) { forall i :: 0 <= i < |q| ==> IsSpace(q[i]) }

  predicate NoSpace(q: Text) { forall i :: 0 <= i < |q| ==> !IsSpace(q[i]) }

  predicate StartsGap(q: Text) { q == [] || IsSpace(q[0]) }

  /** `tokens` are the maximal space-free runs of `q`, in order. */
  ghost predicate Splits(q: Text, tokens: seq<Text>)
    decreases |tokens|
  {
    if tokens == [] then AllSpace(q)
    else exists i: nat, j: nat :: FirstToken(q, i, j) && q[i..j] == tokens[0] && Splits(q[j..], tokens[1..])
  }

  predicate FirstToken(q: Text, i: nat, j: nat) {
    i < j <= |q| && AllSpace(q[..i]) && NoSpace(q[i..j]) && StartsGap(q[j..])
  }

  function WordEnd(q: Text): (k: nat)
    ensures k <= |q| && NoSpace(q[..k]) && StartsGap(q[k..])
  {
    if q == [] || IsSpace(q[0]) then 0 else 1 + WordEnd(q[1..])
  }

  function Tokens(q: Text): seq<Text>
    decreases |q|
  {
    if q == [] then []
    else if IsSpace(q[0]) then Tokens(q[1..])
    else [q[..WordEnd(q)]] + Tokens(q[WordEnd(q)..])
  }

  lemma {:induction false} SkipGap(q: Text, i: nat)
    requires i <= |q| && AllSpace(q[..i])
    ensures Tokens(q) == Tokens(q[i..])
    decreases i
  {
    if i == 0 {
      assert q[0..] == q;
    } else {
      assert q[..i][0] == q[0];
      assert q[1..][..i - 1] == q[..i][1..];
      SkipGap(q[1..], i - 1);
      assert q[1..][i - 1..] == q[i..];
    }
  }

  lemma WordEndIsUnique(q: Text, k: nat)
    requires k <= |q| && NoSpace(q[..k]) && StartsGap(q[k..])
    ensures k == WordEnd(q)
  {
    var w := WordEnd(q);
    assert forall m :: 0 <= m < w ==> q[m] == q[..w][m];
    assert forall m :: 0 <= m < k ==> q[m] == q[..k][m];
    assert w < |q| ==> q[w] == q[w..][0];
    assert k < |q| ==> q[k] == q[k..][0];
  }

  lemma FirstTokenFound(q: Text, i: nat, j: nat)
    requires FirstToken(q, i, j)
    ensures Tokens(q) == [q[i..j]] + Tokens(q[j..])
  {
    SkipGap(q, i);
    var rest := q[i..];
    assert rest[..j - i] == q[i..j] && rest[j - i..] == q[j..];
    WordEndIsUnique(rest, j - i);
    assert q[i..j][0] == rest[0];
  }

  lemma AllSpaceHasNoTokens(q: Text)
    requires AllSpace(q)
    ensures Tokens(q) == []
  {
    assert q[..|q|] == q && q[|q|..] == [];
    SkipGap(q, |q|);
  }

  /** The tokens are determined by the query: no other list splits it. */
  lemma {:induction false} SplitsOnlyIntoTokens(q: Text, tokens: seq<Text>)
    ensures Splits(q, tokens) <==> tokens == Tokens(q)
    decreases |q| + |tokens|
  {
    if Splits(q, tokens) {
      if tokens == [] {
        AllSpaceHasNoTokens(q);
      } else {
        var i: nat, j: nat :| FirstToken(q, i, j) && q[i..j] == tokens[0] && Splits(q[j..], tokens[1..]);
        SplitsOnlyIntoTokens(q[j..], tokens[1..]);
        FirstTokenFound(q, i, j);
      }
    }
    TokensSplit(q);
  }

  lemma {:induction false} TokensSplit(q: Text)
    ensures Splits(q, Tokens(q))
    decreases |q|
  {
    var i := GapEnd(q);
    if i < |q| {
      var rest := q[i..];
      var j := i + WordEnd(rest);
      assert rest[..j - i] == q[i..j] && rest[j - i..] == q[j..];
      assert rest[0] == q[i];
      assert FirstToken(q, i, j);
      FirstTokenFound(q, i, j);
      TokensSplit(q[j..]);
      assert Tokens(q)[1..] == Tokens(q[j..]);
    } else {
      assert q[..i] == q;
      AllSpaceHasNoTokens(q);
    }
  }

  function GapEnd(q: Text): (k: nat)
    ensures k <= |q| && AllSpace(q[..k]) && (k < |q| ==> !IsSpace(q[k]))
  {
    if q == [] || !IsSpace(q[0]) then 0 else 1 + GapEnd(q[1..])
  }

  // ----------------------------------------- quoted strings joined by AND

  const QUOTE: bv8 := 0x22

  /** " AND " */
  const CONJUNCTION: Text := [0x20, 0x41, 0x4E, 0x44, 0x20]

  function EscapedByte(b: bv8): Text { if b == QUOTE then [b, QUOTE] else [b] }

  function Escaped(token: Text): Text {
    if token == [] then []
    else Escaped(token[..|token| - 1]) + EscapedByte(token[|token| - 1])
  }

  function Quoted(token: Text): Text { [QUOTE] + Escaped(token) + [QUOTE] }

  function Glue(a: Text, b: Text): Text {
    if a == [] then b else if b == [] then a else a + CONJUNCTION + b
  }

  function Rendered(tokens: seq<Text>): Text {
    if tokens == [] then [] else Glue(Quoted(tokens[0]), Rendered(tokens[1..]))
  }

  lemma GlueIsAssociative(a: Text, b: Text, c: Text)
    ensures Glue(Glue(a, b), c) == Glue(a, Glue(b, c))
  {
    if a != [] && b != [] && c != [] {
      assert (a + CONJUNCTION + b) + CONJUNCTION + c == a + CONJUNCTION + (b + CONJUNCTION + c);
    }
  }

  method LiteralFtsQuery(query: Text) returns (result: Text)
    ensures result == Rendered(Tokens(query))
  {
    hide Tokens, Quoted, Escaped, WordEnd, IsSpace, Glue, Rendered;
    result := [];
    var offset := 0;
    assert query[0..] == query;
    assert Glue(result, Rendered(Tokens(query))) == Rendered(Tokens(query)) by { GlueEmpty(Rendered(Tokens(query))); }
    while offset < |query|
      invariant 0 <= offset <= |query|
      invariant Glue(result, Rendered(Tokens(query[offset..]))) == Rendered(Tokens(query))
    {
      ghost var rest := query[offset..];
      ghost var from := offset;
      while offset < |query| && IsSpace(query[offset])
        invariant from <= offset <= |query|
        invariant forall j :: from <= j < offset ==> IsSpace(query[j])
      {
        offset := offset + 1;
      }
      var start := offset;
      while offset < |query| && !IsSpace(query[offset])
        invariant start <= offset <= |query|
        invariant forall j :: start <= j < offset ==> !IsSpace(query[j])
      {
        offset := offset + 1;
      }
      if start == offset {
        assert AllSpace(rest);
        AllSpaceHasNoTokens(rest);
        NothingLeft(result);
        return;
      }
      var token := query[start..offset];
      SliceOfRest(query, from, start, offset);
      assert FirstToken(rest, start - from, offset - from);
      FirstTokenFound(rest, start - from, offset - from);
      var escaped := [];
      EscapedEmpty();
      assert token[..0] == [];
      for i := 0 to |token|
        invariant escaped == Escaped(token[..i])
      {
        EscapedStep(token, i);
        escaped := escaped + [token[i]];
        if token[i] == QUOTE {
          escaped := escaped + [QUOTE];
        }
      }
      assert token[..|token|] == token;
      ghost var before := result;
      if result != [] {
        result := result + CONJUNCTION;
      }
      result := result + ([QUOTE] + escaped + [QUOTE]);
      OneMoreToken(before, token, Tokens(query[offset..]));
      assert result == Glue(before, Quoted(token)) by { GlueQuoted(before, token); }
    }
    assert query[offset..] == [];
    AllSpaceHasNoTokens([]);
    NothingLeft(result);
  }

  lemma SliceOfRest(q: Text, from: nat, i: nat, j: nat)
    requires from <= i <= j <= |q|
    ensures q[from..][i - from..j - from] == q[i..j] && q[from..][j - from..] == q[j..]
  {
  }

  lemma GlueEmpty(a: Text)
    ensures Glue([], a) == a
  {
  }

  lemma NothingLeft(a: Text)
    ensures Glue(a, Rendered([])) == a
  {
  }

  lemma EscapedEmpty()
    ensures Escaped([]) == []
  {
  }

  lemma EscapedStep(token: Text, i: nat)
    requires i < |token|
    ensures Escaped(token[..i + 1])
         == Escaped(token[..i]) + EscapedByte(token[i])
  {
    assert token[..i + 1][..i] == token[..i];
  }

  lemma GlueQuoted(a: Text, token: Text)
    ensures Glue(a, Quoted(token))
         == (if a != [] then a + CONJUNCTION else a) + ([QUOTE] + Escaped(token) + [QUOTE])
  {
  }

  lemma OneMoreToken(a: Text, token: Text, tokens: seq<Text>)
    ensures Glue(a, Rendered([token] + tokens)) == Glue(Glue(a, Quoted(token)), Rendered(tokens))
  {
    hide Quoted, Glue;
    assert ([token] + tokens)[1..] == tokens;
    GlueIsAssociative(a, Quoted(token), Rendered(tokens));
  }

  // -------------------------------------------- reading a query expression

  datatype Reading = Reading(content: Text, rest: Text)

  /** The string of the SQLite FTS5 query syntax, after its opening quote: a
      doubled quote stands for a quote, a single one ends the string. */
  function ReadString(s: Text): (r: Option<Reading>)
    ensures r.Some? ==> |r.value.rest| < |s|
  {
    if s == [] then None
    else if s[0] == 0x22 then
      if |s| >= 2 && s[1] == 0x22 then Prefixed(0x22, ReadString(s[2..]))
      else Some(Reading([], s[1..]))
    else Prefixed(s[0], ReadString(s[1..]))
  }

  function Prefixed(b: bv8, r: Option<Reading>): Option<Reading> {
    if r.None? then None else Some(Reading([b] + r.value.content, r.value.rest))
  }

  function SkipSpace(s: Text): (t: Text)
    ensures |t| <= |s|
  {
    if s == [] || !IsSpace(s[0]) then s else SkipSpace(s[1..])
  }

  /** The letters A, N, D and a space. */
  predicate StartsWithAnd(s: Text) {
    |s| > 3 && s[0] == 0x41 && s[1] == 0x4E && s[2] == 0x44 && IsSpace(s[3])
  }

  /** Quoted strings joined by the word AND; None for anything else. */
  function ReadTerms(s: Text): Option<seq<Text>>
    decreases |s|
  {
    if s == [] || s[0] != 0x22 then None
    else
      var r := ReadString(s[1..]);
      if r.None? then None
      else
        var rest := SkipSpace(r.value.rest);
        if rest == [] then Some([r.value.content])
        else if !StartsWithAnd(rest) then None
        else
          var more := ReadTerms(SkipSpace(rest[3..]));
          if more.None? then None else Some([r.value.content] + more.value)
  }

  function ReadQuery(s: Text): Option<seq<Text>> {
    if s == [] then Some([]) else ReadTerms(s)
  }

  lemma EscapedAppend(token: Text, b: bv8)
    ensures Escaped(token + [b]) == Escaped(token) + EscapedByte(b)
  {
    hide EscapedByte;
    assert (token + [b])[..|token|] == token;
  }

  lemma {:induction false} EscapedFront(token: Text)
    requires token != []
    ensures Escaped(token) == EscapedByte(token[0]) + Escaped(token[1..])
    decreases |token|
  {
    hide EscapedByte, Escaped;
    var n := |token| - 1;
    var last := token[n];
    if n == 0 {
      EscapedEmpty();
      EscapedAppend([], last);
      assert token == [] + [last] && token[1..] == [];
    } else {
      var init, mid := token[..n], token[1..n];
      EscapedFront(init);
      EscapedAppend(init, last);
      EscapedAppend(mid, last);
      assert init + [last] == token && mid + [last] == token[1..] && init[1..] == mid;
      Regroup(EscapedByte(token[0]), Escaped(mid), EscapedByte(last));
    }
  }

  lemma Regroup(a: Text, b: Text, c: Text)
    ensures (a + b) + c == a + (b + c)
  {
  }

  /** Reading undoes escaping; `rest` must not open with another quote. */
  lemma {:induction false} ReadEscaped(token: Text, rest: Text)
    requires rest == [] || rest[0] != QUOTE
    ensures ReadString(Escaped(token) + [QUOTE] + rest) == Some(Reading(token, rest))
    decreases |token|
  {
    hide ReadString, EscapedByte, Escaped;
    if token == [] {
      EndOfString(rest);
    } else {
      var tail := Escaped(token[1..]) + [QUOTE] + rest;
      EscapedFront(token);
      ReadEscaped(token[1..], rest);
      ReadByte(token[0], tail);
      Regroup(EscapedByte(token[0]), Escaped(token[1..]), [QUOTE] + rest);
      Regroup(Escaped(token[1..]), [QUOTE], rest);
      Regroup(Escaped(token), [QUOTE], rest);
      assert token == [token[0]] + token[1..];
    }
  }

  lemma EndOfString(rest: Text)
    requires rest == [] || rest[0] != QUOTE
    ensures ReadString(Escaped([]) + [QUOTE] + rest) == Some(Reading([], rest))
  {
    var s := Escaped([]) + [QUOTE] + rest;
    assert s[1..] == rest;
  }

  lemma ReadByte(b: bv8, tail: Text)
    ensures ReadString(EscapedByte(b) + tail) == Prefixed(b, ReadString(tail))
  {
    var s := EscapedByte(b) + tail;
    if b == QUOTE {
      assert s[2..] == tail;
    } else {
      assert s[1..] == tail;
    }
  }

  /** Round trip: whatever the tokens contain, quotes and the word AND
      included, the expression reads back as exactly those tokens. */
  lemma {:induction false} RenderedReadsBack(tokens: seq<Text>)
    ensures ReadQuery(Rendered(tokens)) == Some(tokens)
    decreases |tokens|
  {
    hide Rendered, Escaped, ReadString;
    NonEmptyRendered(tokens);
    if tokens != [] {
      RenderedReadsBack(tokens[1..]);
      var rest := if tokens[1..] == [] then [] else CONJUNCTION + Rendered(tokens[1..]);
      ReadEscaped(tokens[0], rest);
      RenderedFront(tokens, rest);
      var s := Rendered(tokens);
      assert s[1..] == Escaped(tokens[0]) + [QUOTE] + rest;
      if tokens[1..] != [] {
        NonEmptyRendered(tokens[1..]);
        RenderedOpens(tokens[1..]);
        JointReads(Rendered(tokens[1..]));
        assert tokens == [tokens[0]] + tokens[1..];
      } else {
        assert tokens == [tokens[0]];
      }
    }
  }

  lemma RenderedOpens(tokens: seq<Text>)
    requires tokens != []
    ensures Rendered(tokens) != [] && Rendered(tokens)[0] == 0x22
  {
  }

  /** The reader finds its way over the writer's joint. */
  lemma JointReads(next: Text)
    requires next != [] && next[0] == 0x22
    ensures var rest := SkipSpace(CONJUNCTION + next);
            StartsWithAnd(rest) && SkipSpace(rest[3..]) == next
  {
    var joint := CONJUNCTION + next;
    assert joint[0] == 0x20 && joint[1..][0] == 0x41;
    var rest := joint[1..];
    assert SkipSpace(joint) == SkipSpace(rest) == rest;
    assert rest[3] == 0x20 && rest[3..][0] == 0x20 && rest[3..][1..] == next;
    assert SkipSpace(rest[3..]) == SkipSpace(next) == next;
  }

  /** The six bytes that separate tokens. */
  lemma SpaceBytes(b: bv8)
    ensures IsSpace(b) <==> b in {0x20, 0x09, 0x0A, 0x0B, 0x0C, 0x0D}
  {
  }

  lemma QueryTokens()
    ensures Tokens([0x61, 0x22, 0x62, 0x20, 0x63]) == [[0x61, 0x22, 0x62], [0x63]]
  {
    hide Tokens, WordEnd;
    var q: Text := [0x61, 0x22, 0x62, 0x20, 0x63];
    var rest: Text := [0x20, 0x63];
    assert q[3..] == rest && q[0..3] == [0x61, 0x22, 0x62] && q[..0] == [];
    assert FirstToken(q, 0, 3);
    FirstTokenFound(q, 0, 3);
    assert rest[1..2] == [0x63] && rest[2..] == [] && rest[..1] == [0x20];
    assert FirstToken(rest, 1, 2);
    FirstTokenFound(rest, 1, 2);
    AllSpaceHasNoTokens([]);
  }

  lemma EscapedTokens()
    ensures Escaped([0x61, 0x22, 0x62]) == [0x61, 0x22, 0x22, 0x62] && Escaped([0x63]) == [0x63]
  {
    hide Escaped;
    var none: Text, a: Text, quoted: Text := [], [0x61], [0x61, 0x22];
    EscapedEmpty();
    EscapedAppend(none, 0x61);
    EscapedAppend(a, 0x22);
    EscapedAppend(quoted, 0x62);
    EscapedAppend(none, 0x63);
    assert none + [0x61] == a && a + [0x22] == quoted && quoted + [0x62] == [0x61, 0x22, 0x62] && none + [0x63] == [0x63];
  }

  /** One query to the byte: the text a"b c becomes "a""b" AND "c". */
  lemma OneQuery()
    ensures Rendered(Tokens([0x61, 0x22, 0x62, 0x20, 0x63]))
         == [0x22, 0x61, 0x22, 0x22, 0x62, 0x22, 0x20, 0x41, 0x4E, 0x44, 0x20, 0x22, 0x63, 0x22]
  {
    hide Tokens, Escaped;
    QueryTokens();
    EscapedTokens();
    assert [[0x61, 0x22, 0x62], [0x63]][1..] == [[0x63 as bv8]] && [[0x63 as bv8]][1..] == [];
  }

  lemma NonEmptyRendered(tokens: seq<Text>)
    ensures Rendered(tokens) == [] <==> tokens == []
  {
  }

  lemma RenderedFront(tokens: seq<Text>, rest: Text)
    requires tokens != [] && rest == if tokens[1..] == [] then [] else CONJUNCTION + Rendered(tokens[1..])
    ensures Rendered(tokens) == [QUOTE] + (Escaped(tokens[0]) + [QUOTE] + rest)
  {
    NonEmptyRendered(tokens[1..]);
  }

  /** The literal query asks for the tokens of the user's text, nothing else;
      it is empty exactly when the text is blank. */
  lemma LiteralQueryIsLiteral(query: Text)
    ensures ReadQuery(Rendered(Tokens(query))) == Some(Tokens(query))
    ensures Splits(query, Tokens(query))
    ensures Rendered(Tokens(query)) == [] <==> AllSpace(query)
  {
    RenderedReadsBack(Tokens(query));
    TokensSplit(query);
    NonEmptyRendered(Tokens(query));
    if AllSpace(query) {
      AllSpaceHasNoTokens(query);
    }
  }
}
