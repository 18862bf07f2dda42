/** What a proposal is made of and what the operations answer, told by the request's own fields. */
module ProposalLaws {
  import opened Options
  import opened PolicyProposals
  import opened PolicyValuesAndDiffs
  import G = ChangeGuidance

  // ----- values

  /** The shipped policy: the weight 0.08; five ratings a signal; windows of 30 days with five ratings each and
      three a slice. */
  lemma WhatIsShipped()
    ensures PolicyValues(CurrentSnapshot("meta_ranker.derived_change_weight")) == map["derived_change_weight" := Number(0.08)]
    ensures PolicyValues(CurrentSnapshot("change_guidance.calibration_sample_gate")) == map["minimum_feedback_per_signal" := Number(5.0)]
    ensures PolicyValues(CurrentSnapshot("change_guidance.drift_window_and_sample_gate")) ==
            map["window_days" := Number(30.0), "minimum_feedback_per_window" := Number(5.0), "minimum_feedback_per_slice" := Number(3.0)]
  {
    SurfaceFields(WEIGHT_SURFACE);
    SurfaceFields(CALIBRATION_SURFACE);
    SurfaceFields(DRIFT_SURFACE);
    assert !IsMeta("derived_change_weight") && !IsMeta("minimum_feedback_per_signal") && !IsMeta("window_days");
    assert !IsMeta("minimum_feedback_per_window") && !IsMeta("minimum_feedback_per_slice");
  }

  /** A validated value is the whole part of the candidate, or the candidate rounded for a weight. */
  lemma WhatIsValidated(rnd: real -> real, surface: string, raw: map<string, Raw>, field: string)
    requires Supported(surface) && ValidateAfter(rnd, surface, raw).Some? && field in raw
    ensures var after := ValidateAfter(rnd, surface, raw).value;
            && field in after && raw[field].Numeric? && after[field].Number?
            && (field == "derived_change_weight" ==> after[field].n == rnd(raw[field].n))
            && (field != "derived_change_weight" ==>
                  after[field].n <= raw[field].n < after[field].n + 1.0 && after[field].n == after[field].n.Floor as real)
  {
    hide CurrentSnapshot, PolicyValues, BoundedInt, BoundedReal;
    ValidatedFields(rnd, surface, raw);
    SurfaceFields(surface);
    if field == "derived_change_weight" {
      RoundedIs(rnd, raw[field], 0.0, 0.50);
    } else {
      WholeIs(raw[field], 3, 100);
      WholeIs(raw[field], 7, 180);
      WholeIs(raw[field], 2, 50);
    }
  }

  lemma RoundedIs(rnd: real -> real, raw: Raw, least: real, most: real)
    ensures var v := BoundedReal(rnd, raw, least, most);
            v.Some? ==> raw.Numeric? && v.value == Number(rnd(raw.n))
  {
  }

  lemma WholeIs(raw: Raw, least: int, most: int)
    requires least > 0
    ensures var v := BoundedInt(raw, least, most);
            v.Some? ==> raw.Numeric? && v.value.Number? && v.value.n.Floor as real == v.value.n &&
                        v.value.n <= raw.n < v.value.n + 1.0
  {
  }

  // ----- the draft

  /** The text, or its first characters when it is longer. */
  predicate IsStart(cut: string, text: string, most: nat) {
    cut <= text && |cut| == if |text| <= most then |text| else most
  }

  /** A draft takes rationale, rollback plan and tests from the request, its packet from the report, its values from
      the shipped policy and the candidate. */
  lemma WhatIsDrafted(h: Hashes, r: Request, packet: Option<G.Packet>, draft: Proposal)
    requires Prepared(h, r, packet, Success(draft))
    ensures packet == Some(draft.packet) && draft.packet.ready
    ensures draft.content.packetId == r.packetId && draft.content.surface == r.surface && draft.target == r.target
    ensures IsStart(draft.content.rationale, r.rationale, 4000) && r.rationale != ""
    ensures IsStart(draft.content.rollback, r.rollback, 4000) && r.rollback != ""
    ensures draft.content.tests == r.tests != []
    ensures draft.content.before == CurrentSnapshot(r.surface) && Some(draft.content.after) == ValidateAfter(h.rnd, r.surface, r.after)
    ensures draft.state == Draft && IsStart(draft.createdBy, r.actor, 200) && draft.decisionBy == "" && draft.decisionNote == ""
  {
    hide ValidateAfter, CurrentSnapshot, IsDiff, PolicyValues;
  }

  /** Each refusal, exactly when it applies and none before it does. */
  lemma WhyNotDrafted(h: Hashes, r: Request, packet: Option<G.Packet>, result: Result)
    requires Prepared(h, r, packet, result)
    ensures var known := Supported(r.surface);
            var ready := known && packet.Some? && packet.value.ready;
            var valid := ready && ValidateAfter(h.rnd, r.surface, r.after).Some?;
            var news := valid && ValidateAfter(h.rnd, r.surface, r.after) != Some(PolicyValues(CurrentSnapshot(r.surface)));
            var told := news && r.rationale != "" && r.rollback != "";
            && (result == Failure(UnsupportedSurface) <==> !known)
            && (result == Failure(PacketNotFound) <==> known && packet.None?)
            && (result == Failure(PacketNotReady) <==> known && packet.Some? && !packet.value.ready)
            && (result == Failure(InvalidAfter) <==> ready && !valid)
            && (result == Failure(NoDifference) <==> valid && !news)
            && (result == Failure(TextRequired) <==> news && !told)
            && (result == Failure(TestRequired) <==> told && r.tests == [])
            && (result.Success? <==> told && r.tests != [])
  {
    hide ValidateAfter, CurrentSnapshot, IsDiff, PolicyValues;
  }

  /** The report read by default: the newest 5000 tasks, windows of 30 days, 100 packets. */
  lemma WhatIsReadByDefault(tasks: seq<G.Task>)
    ensures DefaultQuery(tasks) == G.Query(tasks, 5000, 5000, 30, 100)
  {
  }

  // ----- creating

  /** A successful create answers with the newest version of the key; that has the draft's content, and either it was
      there, or it is new, a draft, and the version before it is superseded. No other row changes. */
  lemma WhatACreateLeaves(t: Table, draft: Proposal, result: Result, t': Table)
    requires Outcome(t, Success(draft), result, t') && (forall id :: id in t ==> t[id].key == id.key && t[id].version == id.version)
    ensures result.Success? ==>
              var row := result.row;
              && Id(draft.key, row.version) in t' && t'[Id(draft.key, row.version)] == row && row.digest == draft.digest
              && Newest(t', draft.key, row.version)
              && (t' == t ||
                  (&& row == draft.(version := row.version) && Newest(t, draft.key, row.version - 1)
                   && (row.version > 1 ==> t'[Id(draft.key, row.version - 1)] == t[Id(draft.key, row.version - 1)].(state := Superseded))))
    ensures result.Failure? ==> t' == t
    ensures forall id :: id in t && id.key != draft.key ==> id in t' && t'[id] == t[id]
  {
    var n :| Newest(t, draft.key, n) && OutcomeAt(t, draft, n, result, t');
  }

  /** Creating the same again answers with the same row and changes nothing. */
  lemma CreateIsIdempotent(t: Table, draft: Proposal, row: Proposal, t': Table, again: Result, t'': Table)
    requires Outcome(t, Success(draft), Success(row), t') && (forall id :: id in t ==> t[id].key == id.key && t[id].version == id.version)
    requires Outcome(t', Success(draft), again, t'')
    ensures t'' == t' && again == Success(row)
  {
    WhatACreateLeaves(t, draft, Success(row), t');
    var n :| Newest(t', draft.key, n) && OutcomeAt(t', draft, n, again, t'');
    hide Outcome;
    assert n == row.version;
  }

  /** An accepted version refuses another content. */
  lemma AcceptedRefuses(t: Table, draft: Proposal, n: nat, result: Result, t': Table)
    requires n > 0 && Newest(t, draft.key, n) && t[Id(draft.key, n)].state == Accepted && t[Id(draft.key, n)].digest != draft.digest
    requires Outcome(t, Success(draft), result, t')
    ensures result == Failure(AcceptedIsFinal) && t' == t
  {
    var m :| Newest(t, draft.key, m) && OutcomeAt(t, draft, m, result, t');
    assert m == n;
  }
}
