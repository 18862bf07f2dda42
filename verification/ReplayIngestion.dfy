/** Reading verified replay records from files, one JSON record a line. */
module ReplayIngestion {
  import opened Options
  import opened Ordering
  import opened ActivationGate

  /** The fields of one parsed record. `verdict` is the strictly read label, None when it is ambiguous;
      `score` is the rounded decision score, None when it is no number. */
  datatype Raw = Raw(id: string, family: string, verdict: Option<bool>, provenance: string, humanVerifiedTrue: bool,
                     labelSource: string, reviewerId: string, reviewedAt: string, caseOrigin: string, snapshot: string,
                     score: Option<int>, qualityComplete: bool)

  datatype Line = Blank | InvalidJson | NotObject | Object(raw: Raw)

  datatype File = Missing | File(name: string, lines: seq<Line>)

  /** A line and the identifier made of its file's name and line number. */
  datatype Entry = Entry(place: string, line: Line)

  datatype Replay = Replay(id: string, record: Record, score: int, reviewerId: string, reviewedAt: string,
                           caseOrigin: string, snapshot: string, fingerprint: string)

  datatype Fault =
    | MissingFamily | AmbiguousLabel | UntrustedProvenance | HumanVerifiedTrueRequired
    | MissingLabelSource | MissingReviewerId | MissingReviewedAt | MissingCaseOriginId | MissingEvidenceSnapshotId
    | InvalidDecisionScore | DecisionScoreOutOfRange | IncompleteEvidenceQuality
    | JsonInvalid | RecordMustBeObject | DuplicateVerifiedReplay

  datatype Rejection = Rejection(id: string, family: string, errors: seq<Fault>)

  datatype Outcome = Outcome(accepted: seq<Replay>, rejected: seq<Rejection>, duplicates: nat)

  /** SHA-256 of a text in hexadecimal, and "name:line". */
  datatype Env = Env(text: Text, digest: string -> string, place: (string, nat) -> string)

  /** What is used of `strip` and `lower`: stripping twice is stripping once, and the three trusted
      names are lower-case without blanks. */
  ghost predicate Ordinary(t: Text) {
    (forall s: string :: t.strip(t.strip(s)) == t.strip(s)) && (forall p :: p in TRUSTED ==> t.lower(t.strip(p)) == p)
  }

  function Clean(env: Env, s: string): string { env.text.strip(s) }

  /** A requirement that may be missed, with the fault it is then. */
  datatype Check = Check(missed: bool, fault: Fault)

  function Checks(env: Env, raw: Raw): seq<Check> {
    [Check(Clean(env, raw.family) == "", MissingFamily),
     Check(raw.verdict == None, AmbiguousLabel),
     Check(env.text.lower(Clean(env, raw.provenance)) !in TRUSTED, UntrustedProvenance),
     Check(!raw.humanVerifiedTrue, HumanVerifiedTrueRequired),
     Check(Clean(env, raw.labelSource) == "", MissingLabelSource),
     Check(Clean(env, raw.reviewerId) == "", MissingReviewerId),
     Check(Clean(env, raw.reviewedAt) == "", MissingReviewedAt),
     Check(Clean(env, raw.caseOrigin) == "", MissingCaseOriginId),
     Check(Clean(env, raw.snapshot) == "", MissingEvidenceSnapshotId),
     Check(raw.score == None, InvalidDecisionScore),
     Check(raw.score.Some? && (raw.score.value < 0 || raw.score.value > 100), DecisionScoreOutOfRange),
     Check(!raw.qualityComplete, IncompleteEvidenceQuality)]
  }

  function Missed(checks: seq<Check>): (faults: seq<Fault>)
    ensures forall f :: f in faults <==> Check(true, f) in checks
    ensures faults == [] <==> forall i :: 0 <= i < |checks| ==> !checks[i].missed
  {
    if checks == [] then []
    else if checks[0].missed then assert checks[0] == Check(true, checks[0].fault); [checks[0].fault] + Missed(checks[1..])
    else Missed(checks[1..])
  }

  /** What is wrong with a record, in the order of the checks. */
  function Errors(env: Env, raw: Raw): seq<Fault> { Missed(Checks(env, raw)) }

  predicate Valid(env: Env, line: Line) { line.Object? && Errors(env, line.raw) == [] }

  function Fingerprint(env: Env, raw: Raw): string {
    env.digest(Clean(env, Clean(env, raw.family)) + "|" + Clean(env, Clean(env, raw.caseOrigin)) + "|" +
               Clean(env, Clean(env, raw.snapshot)) + "|" +
               env.text.lower(Clean(env, env.text.lower(Clean(env, raw.provenance)))))
  }

  function IdOf(raw: Raw, place: string): string { if raw.id != "" then raw.id else place }

  // The stored record: cleaned, then annotated with its provenance and label source.
  function Accepted(env: Env, raw: Raw, place: string): Replay {
    var score := match raw.score case None => 0 case Some(n) => if n < 0 then 0 else if n > 100 then 100 else n;
    Replay(IdOf(raw, place),
           Record(env.text.lower(Clean(env, env.text.lower(Clean(env, raw.provenance)))), true,
                  Clean(env, Clean(env, raw.labelSource)), Clean(env, raw.family), raw.verdict == Some(true)),
           score, Clean(env, raw.reviewerId), Clean(env, raw.reviewedAt), Clean(env, raw.caseOrigin),
           Clean(env, raw.snapshot), Fingerprint(env, raw))
  }

  predicate Seen(accepted: seq<Replay>, fingerprint: string) {
    exists i :: 0 <= i < |accepted| && accepted[i].fingerprint == fingerprint
  }

  function Step(env: Env, o: Outcome, e: Entry): Outcome {
    match e.line
    case Blank => o
    case InvalidJson => o.(rejected := o.rejected + [Rejection(e.place, "", [JsonInvalid])])
    case NotObject => o.(rejected := o.rejected + [Rejection(e.place, "", [RecordMustBeObject])])
    case Object(raw) =>
      var id, family := IdOf(raw, e.place), Clean(env, raw.family);
      if Errors(env, raw) != [] then o.(rejected := o.rejected + [Rejection(id, family, Errors(env, raw))])
      else if Seen(o.accepted, Fingerprint(env, raw)) then
        o.(rejected := o.rejected + [Rejection(id, family, [DuplicateVerifiedReplay])], duplicates := o.duplicates + 1)
      else o.(accepted := o.accepted + [Accepted(env, raw, e.place)])
  }

  function Ingest(env: Env, es: seq<Entry>): Outcome {
    if es == [] then Outcome([], [], 0) else Step(env, Ingest(env, es[..|es| - 1]), es[|es| - 1])
  }

  function EntriesOf(env: Env, name: string, lines: seq<Line>): seq<Entry> {
    if lines == [] then []
    else EntriesOf(env, name, lines[..|lines| - 1]) + [Entry(env.place(name, |lines|), lines[|lines| - 1])]
  }

  function Entries(env: Env, files: seq<File>): seq<Entry> {
    if files == [] then []
    else
      var init, last := Entries(env, files[..|files| - 1]), files[|files| - 1];
      if last.Missing? then init else init + EntriesOf(env, last.name, last.lines)
  }

  lemma IngestStep(env: Env, es: seq<Entry>, e: Entry)
    ensures Ingest(env, es + [e]) == Step(env, Ingest(env, es), e)
  {
    assert (es + [e])[..|es|] == es;
  }

  // ----- the reading loop

  method ReadLine(env: Env, o: Outcome, e: Entry, seen: set<string>) returns (next: Outcome, nextSeen: set<string>)
    requires forall f :: f in seen <==> Seen(o.accepted, f)
    ensures next == Step(env, o, e)
    ensures forall f :: f in nextSeen <==> Seen(next.accepted, f)
  {
    next, nextSeen := o, seen;
    match e.line {
      case Blank =>
      case InvalidJson => next := o.(rejected := o.rejected + [Rejection(e.place, "", [JsonInvalid])]);
      case NotObject => next := o.(rejected := o.rejected + [Rejection(e.place, "", [RecordMustBeObject])]);
      case Object(raw) =>
        hide Errors, Fingerprint;
        var errors, fingerprint := Errors(env, raw), Fingerprint(env, raw);
        var id, family := IdOf(raw, e.place), Clean(env, raw.family);
        if errors != [] {
          next := o.(rejected := o.rejected + [Rejection(id, family, errors)]);
        } else if fingerprint in seen {
          next := o.(rejected := o.rejected + [Rejection(id, family, [DuplicateVerifiedReplay])],
                     duplicates := o.duplicates + 1);
        } else {
          nextSeen := seen + {fingerprint};
          next := o.(accepted := o.accepted + [Accepted(env, raw, e.place)]);
          SeenStep(o.accepted, Accepted(env, raw, e.place));
        }
    }
  }

  lemma SeenStep(accepted: seq<Replay>, r: Replay)
    ensures forall f :: Seen(accepted + [r], f) <==> Seen(accepted, f) || f == r.fingerprint
  {
    var now := accepted + [r];
    forall f ensures Seen(now, f) <==> Seen(accepted, f) || f == r.fingerprint {
      assert now[|accepted|] == r;
      if Seen(accepted, f) {
        var i :| 0 <= i < |accepted| && accepted[i].fingerprint == f;
        assert now[i].fingerprint == f;
      }
    }
  }

  method ReadFile(env: Env, file: File, o: Outcome, seen: set<string>, ghost before: seq<Entry>)
    returns (next: Outcome, nextSeen: set<string>)
    requires file.File? && o == Ingest(env, before) && forall f :: f in seen <==> Seen(o.accepted, f)
    ensures next == Ingest(env, before + EntriesOf(env, file.name, file.lines))
    ensures forall f :: f in nextSeen <==> Seen(next.accepted, f)
  {
    hide Step, Seen;
    next, nextSeen := o, seen;
    assert before + [] == before;
    for n := 0 to |file.lines|
      invariant next == Ingest(env, before + EntriesOf(env, file.name, file.lines[..n]))
      invariant forall f :: f in nextSeen <==> Seen(next.accepted, f)
    {
      var e := Entry(env.place(file.name, n + 1), file.lines[n]);
      ghost var done := EntriesOf(env, file.name, file.lines[..n]);
      assert file.lines[..n + 1][..n] == file.lines[..n];
      assert before + (done + [e]) == before + done + [e];
      IngestStep(env, before + done, e);
      next, nextSeen := ReadLine(env, next, e, nextSeen);
    }
    assert file.lines[..|file.lines|] == file.lines;
  }

  method LoadVerifiedReplay(env: Env, files: seq<File>) returns (o: Outcome, sourceFiles: nat)
    ensures o == Ingest(env, Entries(env, files))
    ensures sourceFiles == |Filter((f: File) => f.File?, files)|
  {
    o, sourceFiles := Outcome([], [], 0), 0;
    var seen: set<string> := {};
    assert o == Ingest(env, []);
    assert forall f :: !Seen([], f);
    hide Step, Seen, Ingest;
    for i := 0 to |files|
      invariant o == Ingest(env, Entries(env, files[..i]))
      invariant forall f :: f in seen <==> Seen(o.accepted, f)
      invariant sourceFiles == |Filter((f: File) => f.File?, files[..i])|
    {
      assert files[..i + 1][..i] == files[..i];
      assert files[..i + 1] == files[..i] + [files[i]];
      FilterAppend((f: File) => f.File?, files[..i], [files[i]]);
      if files[i].File? {
        sourceFiles := sourceFiles + 1;
        o, seen := ReadFile(env, files[i], o, seen, Entries(env, files[..i]));
      }
    }
    assert files[..|files|] == files;
  }

  // ----- what is accepted

  /** A record is accepted as valid exactly when it is a verified, trusted, complete and unambiguous one. */
  lemma ValidMeans(env: Env, raw: Raw)
    ensures Errors(env, raw) == [] <==>
      && Clean(env, raw.family) != "" && raw.verdict != None
      && env.text.lower(Clean(env, raw.provenance)) in TRUSTED && raw.humanVerifiedTrue
      && Clean(env, raw.labelSource) != "" && Clean(env, raw.reviewerId) != "" && Clean(env, raw.reviewedAt) != ""
      && Clean(env, raw.caseOrigin) != "" && Clean(env, raw.snapshot) != ""
      && (raw.score.Some? && 0 <= raw.score.value <= 100) && raw.qualityComplete
  {
  }

  lemma ValidIsEligible(env: Env, raw: Raw, place: string)
    requires Ordinary(env.text) && Errors(env, raw) == []
    ensures Eligible(env.text)(Accepted(env, raw, place).record)
  {
    ValidMeans(env, raw);
    hide Errors;
    var p := env.text.lower(Clean(env, raw.provenance));
    assert env.text.lower(env.text.strip(p)) == p && p != "";
  }

  ghost predicate DistinctFingerprints(accepted: seq<Replay>) {
    forall i, j :: 0 <= i < j < |accepted| ==> accepted[i].fingerprint != accepted[j].fingerprint
  }

  lemma {:induction false} AcceptedIsEligible(env: Env, es: seq<Entry>)
    requires Ordinary(env.text)
    ensures forall i :: 0 <= i < |Ingest(env, es).accepted| ==> Eligible(env.text)(Ingest(env, es).accepted[i].record)
  {
    if es != [] {
      AcceptedIsEligible(env, es[..|es| - 1]);
      var e := es[|es| - 1];
      if Valid(env, e.line) { ValidIsEligible(env, e.line.raw, e.place); }
      hide Errors, Accepted, Fingerprint, Eligible;
    }
  }

  predicate NotBlank(e: Entry) { !e.line.Blank? }

  predicate IsDuplicate(r: Rejection) { r.errors == [DuplicateVerifiedReplay] }

  /** Every line that is not blank is either accepted or rejected, and the duplicates are counted. */
  lemma {:induction false} LinesAddUp(env: Env, es: seq<Entry>)
    ensures var o := Ingest(env, es);
            |o.accepted| + |o.rejected| == |Filter(NotBlank, es)| && o.duplicates == |Filter(IsDuplicate, o.rejected)|
  {
    if es != [] {
      var init, e := es[..|es| - 1], es[|es| - 1];
      LinesAddUp(env, init);
      assert es == init + [e];
      LineAddsUp(env, Ingest(env, init), e);
      hide Filter, Step;
      FilterSnoc(NotBlank, init, e);
    }
  }

  lemma LineAddsUp(env: Env, o: Outcome, e: Entry)
    ensures var now := Step(env, o, e);
            && |now.accepted| + |now.rejected| == |o.accepted| + |o.rejected| + (if NotBlank(e) then 1 else 0)
            && |Filter(IsDuplicate, now.rejected)| - now.duplicates == |Filter(IsDuplicate, o.rejected)| - o.duplicates
  {
    OtherErrors(env, e.line);
    hide Errors, Accepted, Fingerprint, Filter, Seen;
    var now := Step(env, o, e);
    if now.rejected != o.rejected { FilterSnoc(IsDuplicate, o.rejected, now.rejected[|o.rejected|]); }
  }

  lemma OtherErrors(env: Env, line: Line)
    ensures line.Object? ==> Errors(env, line.raw) != [DuplicateVerifiedReplay]
  {
    if line.Object? {
      hide Missed;
      assert Check(true, DuplicateVerifiedReplay) !in Checks(env, line.raw);
      assert DuplicateVerifiedReplay !in Errors(env, line.raw) && DuplicateVerifiedReplay in [DuplicateVerifiedReplay];
    }
  }

  // ----- the first occurrence wins

  ghost predicate IsFirst(env: Env, es: seq<Entry>, i: nat) {
    && i < |es| && Valid(env, es[i].line)
    && forall j :: 0 <= j < i && Valid(env, es[j].line) ==>
         Fingerprint(env, es[j].line.raw) != Fingerprint(env, es[i].line.raw)
  }

  // The first `n` entries' first occurrences, in order.
  ghost function Firsts(env: Env, es: seq<Entry>, n: nat): seq<Replay>
    requires n <= |es|
  {
    if n == 0 then []
    else
      var e := es[n - 1];
      if IsFirst(env, es, n - 1) then Firsts(env, es, n - 1) + [Accepted(env, e.line.raw, e.place)]
      else Firsts(env, es, n - 1)
  }

  ghost predicate Appears(env: Env, es: seq<Entry>, n: nat, f: string)
    requires n <= |es|
  {
    exists i :: 0 <= i < n && Valid(env, es[i].line) && Fingerprint(env, es[i].line.raw) == f
  }

  lemma FirstIffNew(env: Env, es: seq<Entry>, n: nat)
    requires n < |es| && Valid(env, es[n].line)
    ensures IsFirst(env, es, n) <==> !Appears(env, es, n, Fingerprint(env, es[n].line.raw))
  {
    hide Errors, Fingerprint;
  }

  lemma AppearsStep(env: Env, es: seq<Entry>, n: nat, f: string)
    requires n < |es|
    ensures Appears(env, es, n + 1, f) <==>
            Appears(env, es, n, f) || (Valid(env, es[n].line) && Fingerprint(env, es[n].line.raw) == f)
  {
    hide Errors, Fingerprint;
  }

  lemma {:induction false} FirstsSeen(env: Env, es: seq<Entry>, n: nat, f: string)
    requires n <= |es|
    ensures Seen(Firsts(env, es, n), f) <==> Appears(env, es, n, f)
  {
    assert n == 0 ==> !Seen([], f) && !Appears(env, es, n, f);
    assert n > 0 && IsFirst(env, es, n - 1) ==> Valid(env, es[n - 1].line);
    hide Errors, Fingerprint, Seen, IsFirst, Appears;
    if n > 0 {
      FirstsSeen(env, es, n - 1, f);
      AppearsStep(env, es, n - 1, f);
      var e := es[n - 1];
      if Valid(env, e.line) {
        FirstIffNew(env, es, n - 1);
        SeenStep(Firsts(env, es, n - 1), Accepted(env, e.line.raw, e.place));
      }
    }
  }

  /** The accepted records are exactly the first occurrences of the valid ones, in reading order. */
  lemma {:induction false} FirstOccurrenceWins(env: Env, es: seq<Entry>, n: nat)
    requires n <= |es|
    ensures Ingest(env, es[..n]).accepted == Firsts(env, es, n)
  {
    hide Errors, Fingerprint, Accepted, Seen, Appears;
    if n > 0 {
      FirstOccurrenceWins(env, es, n - 1);
      assert es[..n][..n - 1] == es[..n - 1];
      var e := es[n - 1];
      if Valid(env, e.line) {
        FirstsSeen(env, es, n - 1, Fingerprint(env, e.line.raw));
        FirstIffNew(env, es, n - 1);
      }
    }
  }

  lemma {:induction false} AcceptedAreDistinct(env: Env, es: seq<Entry>)
    ensures DistinctFingerprints(Ingest(env, es).accepted)
  {
    if es != [] {
      AcceptedAreDistinct(env, es[..|es| - 1]);
      hide Errors, Fingerprint;
    }
  }

  // ----- reading and the gate

  function RecordsOf(accepted: seq<Replay>): (r: seq<Record>)
    ensures |r| == |accepted| && forall i :: 0 <= i < |r| ==> r[i] == accepted[i].record
  {
    if accepted == [] then [] else RecordsOf(accepted[..|accepted| - 1]) + [accepted[|accepted| - 1].record]
  }

  lemma {:induction false} AcceptedGrows(env: Env, es: seq<Entry>, more: seq<Entry>)
    ensures Ingest(env, es).accepted <= Ingest(env, es + more).accepted
  {
    if more == [] {
      assert es + more == es;
    } else {
      var init, e := more[..|more| - 1], more[|more| - 1];
      AcceptedGrows(env, es, init);
      assert es + more == (es + init) + [e];
      IngestStep(env, es + init, e);
      hide Errors, Fingerprint, Ingest;
    }
  }

  /** Every accepted record counts for the gate, and reading more lines never turns readiness off. */
  lemma {:induction false} MoreReplaysKeepReadiness(env: Env, m: Minimums, es: seq<Entry>, more: seq<Entry>)
    requires Ordinary(env.text)
    ensures var a, b := RecordsOf(Ingest(env, es).accepted), RecordsOf(Ingest(env, es + more).accepted);
            && ReadinessOf(env.text, m, a).support == |a|
            && (ReadinessOf(env.text, m, a).globalReady ==> ReadinessOf(env.text, m, b).globalReady)
  {
    hide Ingest, Eligible, Filter, Families;
    var a, b := RecordsOf(Ingest(env, es).accepted), RecordsOf(Ingest(env, es + more).accepted);
    AcceptedIsEligible(env, es);
    AcceptedIsEligible(env, es + more);
    AcceptedGrows(env, es, more);
    FilterAll(Eligible(env.text), a);
    FilterAll(Eligible(env.text), b);
    assert b == a + b[|a|..];
    ReadinessGrows(env.text, m, a, b);
  }
}
