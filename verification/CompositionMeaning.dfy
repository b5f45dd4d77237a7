/** What a decision log holds, and when and why it commits, in terms of what was given to it
    (src/noema/composition-log.ts:148-313). */
module CompositionMeaning {
  import opened OrderedMap
  import opened JsonValues
  import opened TextOrder
  import opened ClaimText
  import opened CompositionLog

  // ---------------------------------------------------------------- the logged candidate

  /** An optional text is kept with its words joined by one blank, and is absent exactly when it was
      absent or blank. */
  predicate TextKept(given: Option<string>, kept: Option<string>) {
    match given
    case None => kept == None
    case Some(s) => kept == if Words(s) == [] then None else Some(Joined(Words(s)))
  }

  /** `n` is what the log keeps of `c`. */
  ghost predicate Kept(c: Candidate, n: Candidate) {
    && n.canonicalText == Joined(Words(c.canonicalText))
    && TextKept(c.claimSubject, n.claimSubject) && TextKept(c.claimPredicate, n.claimPredicate)
    && TextKept(c.factKey, n.factKey) && TextKept(c.supersedesNoemaId, n.supersedesNoemaId)
    && n.status == Some(if c.status.Some? then c.status.value else Active)
    && CleanIds(c.supportSemioteIds, n.supportSemioteIds)
    && n.conflictsWithNoemaIds.Some? && CleanIds(GivenConflicts(c), n.conflictsWithNoemaIds.value)
  }

  function GivenConflicts(c: Candidate): seq<string> {
    if c.conflictsWithNoemaIds.Some? then c.conflictsWithNoemaIds.value else []
  }

  lemma TextIsKept(given: Option<string>)
    ensures TextKept(given, NonEmpty(Normalize(given)))
  {
    if given.Some? {
      NormalizeJoins(given.value);
    }
  }

  lemma CandidateIsKept(c: Candidate)
    ensures Kept(c, NormalizeCandidate(c))
  {
    hide Normalize, UniqueSorted, CleanIds, Words, Joined, TextKept;
    NormalizeJoins(c.canonicalText);
    TextIsKept(c.claimSubject);
    TextIsKept(c.claimPredicate);
    TextIsKept(c.factKey);
    TextIsKept(c.supersedesNoemaId);
    UniqueSortedClean(c.supportSemioteIds);
    UniqueSortedClean(GivenConflicts(c));
  }

  /** Promotion of the only source: it is allowed, and the source has a text. */
  predicate Promotes(input: Snapshot) {
    input.allowSingleton && |input.sources| == 1 && Words(input.sources[0].text) != []
  }

  /** The candidate the log is about: the model's, else that of the only source, which has its text, claim and
      status and nothing to supersede or to conflict with. */
  ghost predicate Judged(input: Snapshot, parsed: Option<Candidate>, n: Option<Candidate>) {
    match parsed
    case Some(c) => n.Some? && Kept(c, n.value)
    case None =>
      if Promotes(input) then n.Some? && Kept(OnlySource(input.sources[0]), n.value) else n == None
  }

  function OnlySource(s: Source): Candidate {
    Candidate(s.text, s.subject, s.claimed, None, s.status, [s.id], None, None)
  }

  lemma SingletonIs(input: Snapshot)
    ensures if Promotes(input) then SingletonCandidate(input).Some? && Kept(OnlySource(input.sources[0]), SingletonCandidate(input).value)
            else SingletonCandidate(input) == None
  {
    hide NormalizeCandidate, Trim, Words, Kept;
    if input.allowSingleton && |input.sources| == 1 {
      var s := input.sources[0];
      TrimStrips(s.text);
      BlankWords(s.text);
      CandidateIsKept(Candidate(s.text, s.subject, s.claimed, None, Some(StatusOr(s.status)), [s.id], None, None));
      SameKept(s, StatusOr(s.status), NormalizeCandidate(Candidate(s.text, s.subject, s.claimed, None, Some(StatusOr(s.status)), [s.id], None, None)));
    }
  }

  lemma SameKept(s: Source, status: Status, n: Candidate)
    requires status == (if s.status.Some? then s.status.value else Active)
    requires Kept(Candidate(s.text, s.subject, s.claimed, None, Some(status), [s.id], None, None), n)
    ensures Kept(OnlySource(s), n)
  {
    hide CleanIds, Words, Joined, TextKept;
  }

  lemma BlankWords(s: string)
    ensures Blank(s) <==> Words(s) == []
  {
  }

  lemma ChosenIsJudged(input: Snapshot, parsed: Option<Candidate>)
    ensures Judged(input, parsed, Choose(input, parsed).0)
    ensures Choose(input, parsed).1 == if parsed.Some? then Model else if Promotes(input) then SingletonDeterministic else Missing
  {
    hide NormalizeCandidate, SingletonCandidate, Kept, Promotes;
    SingletonIs(input);
    if parsed.Some? {
      CandidateIsKept(parsed.value);
    }
  }

  // ---------------------------------------------------------------- the decision

  ghost predicate KnownSource(input: Snapshot, id: string) {
    exists s :: s in input.sources && s.id == id
  }

  /** Nothing is recorded, nothing changes, or the recorded status is not absorbing. */
  predicate MayBecome(input: Snapshot, status: Status) {
    match input.existingStatus
    case None => true
    case Some(old_) => old_ == status || old_ == Active || old_ == Conflicted
  }

  /** The first of the ids that no source has. */
  ghost predicate FirstUnknown(input: Snapshot, ids: seq<string>, id: string) {
    exists i :: 0 <= i < |ids| && ids[i] == id && !KnownSource(input, id) && forall j :: 0 <= j < i ==> KnownSource(input, ids[j])
  }

  /** Why a decision does not commit, in the order in which the reasons are looked for. */
  ghost predicate Why(input: Snapshot, bounds: Bounds, n: Option<Candidate>, commit: bool, reason: string) {
    if bounds.attemptedLlmCalls > bounds.maxLlmCalls then !commit && reason == "llm_call_budget_exceeded"
    else
      match n
      case None => !commit && reason == "missing_candidate"
      case Some(c) => WhyCandidate(input, c, commit, reason)
  }

  ghost predicate WhyCandidate(input: Snapshot, c: Candidate, commit: bool, reason: string) {
    var status := if c.status.Some? then c.status.value else Active;
    if c.canonicalText == "" then !commit && reason == "empty_canonical_text"
    else if c.supportSemioteIds == [] then !commit && reason == "missing_support_ids"
    else if exists id :: id in c.supportSemioteIds && !KnownSource(input, id) then
      !commit && exists id :: FirstUnknown(input, c.supportSemioteIds, id) && reason == "unknown_support_id:" + id
    else if !MayBecome(input, status) then
      !commit && reason == "invalid_status_transition:" + StatusText(input.existingStatus.value) + "->" + StatusText(status)
    else if status == Conflicted || GivenConflicts(c) != [] then
      !commit && reason == "candidate_conflict_detected"
    else commit && reason == "deterministic_validation_passed"
  }

  /** The decision carries the support, the superseded id, the conflicts, the identity and the status of the
      logged candidate, whose status is conflicted when only a conflict stops it, and says why it does or
      does not commit. */
  ghost predicate Decides(env: Env, input: Snapshot, bounds: Bounds, n: Option<Candidate>, d: Decision) {
    && Why(input, bounds, n, d.commit, d.reason)
    && match n
       case None => d.supportSemioteIds == [] && d.supersedesNoemaId == None && d.conflicts == [] && d.contract == None && d.status == None
       case Some(c) =>
         && d.supportSemioteIds == c.supportSemioteIds && d.supersedesNoemaId == c.supersedesNoemaId
         && d.conflicts == GivenConflicts(c)
         && d.contract.Some? && Identified(env, input, c, d.contract.value)
         && d.status == Some(if NoErrors(input, bounds, c) && GivenConflicts(c) != [] then Conflicted else d.contract.value.status)
  }

  predicate Identified(env: Env, input: Snapshot, c: Candidate, contract: Contract) {
    && (contract.claimKey, contract.revisionHash, contract.rest) == env.identify(input, c)
    && contract.status == if c.status.Some? then c.status.value else Active
  }

  /** Neither the run nor the candidate gives an error. */
  ghost predicate NoErrors(input: Snapshot, bounds: Bounds, c: Candidate) {
    && bounds.attemptedLlmCalls <= bounds.maxLlmCalls
    && c.canonicalText != "" && c.supportSemioteIds != []
    && (forall id :: id in c.supportSemioteIds ==> KnownSource(input, id))
    && MayBecome(input, if c.status.Some? then c.status.value else Active)
  }

  lemma {:induction false} UnknownFirst(input: Snapshot, ids: seq<string>, known: set<string>)
    requires forall id :: id in known <==> KnownSource(input, id)
    ensures var us := UnknownSupport(ids, known);
      && (us == [] <==> forall id :: id in ids ==> KnownSource(input, id))
      && (us != [] ==> us[0].UnknownSupportId? && FirstUnknown(input, ids, us[0].id))
  {
    hide KnownSource, FirstUnknown;
    if ids != [] {
      var n := |ids| - 1;
      UnknownFirst(input, ids[..n], known);
      assert ids == ids[..n] + [ids[n]];
      if UnknownSupport(ids[..n], known) != [] {
        FirstStays(input, ids, UnknownSupport(ids[..n], known)[0].id);
      } else if !KnownSource(input, ids[n]) {
        LastIsFirst(input, ids);
      }
    }
  }

  lemma FirstStays(input: Snapshot, ids: seq<string>, id: string)
    requires ids != [] && FirstUnknown(input, ids[..|ids| - 1], id)
    ensures FirstUnknown(input, ids, id)
  {
    hide KnownSource;
    var front := ids[..|ids| - 1];
    var i :| 0 <= i < |front| && front[i] == id && !KnownSource(input, id) && forall j :: 0 <= j < i ==> KnownSource(input, front[j]);
    assert ids[i] == id && forall j :: 0 <= j < i ==> ids[j] == front[j];
  }

  lemma LastIsFirst(input: Snapshot, ids: seq<string>)
    requires ids != [] && !KnownSource(input, ids[|ids| - 1]) && forall id :: id in ids[..|ids| - 1] ==> KnownSource(input, id)
    ensures FirstUnknown(input, ids, ids[|ids| - 1])
  {
    hide KnownSource;
    var n := |ids| - 1;
    assert forall j :: 0 <= j < n ==> ids[j] == ids[..n][j] && ids[..n][j] in ids[..n];
  }

  lemma Transitions(input: Snapshot, c: Candidate)
    ensures TransitionAllowed(input, c) <==> MayBecome(input, if c.status.Some? then c.status.value else Active)
  {
  }

  lemma FirstError(input: Snapshot, bounds: Bounds, n: Option<Candidate>)
    ensures var es := Errors(input, bounds, n);
      if es == [] then n.Some? && NoErrors(input, bounds, n.value)
      else Why(input, bounds, n, false, ReasonOf(es[0])) && (n.Some? ==> !NoErrors(input, bounds, n.value))
  {
    hide UnknownSupport, KnownSource, FirstUnknown, StatusText, MayBecome, ValidTransition;
    if n.Some? {
      var c := n.value;
      SourcesKnown(input);
      UnknownFirst(input, c.supportSemioteIds, SourceIds(input.sources));
      Transitions(input, c);
    }
  }

  /** Without an error only a conflict is left to stop a candidate. */
  lemma ConflictOrCommit(input: Snapshot, bounds: Bounds, c: Candidate)
    requires NoErrors(input, bounds, c)
    ensures if c.status == Some(Conflicted) || GivenConflicts(c) != [] then Why(input, bounds, Some(c), false, "candidate_conflict_detected")
            else Why(input, bounds, Some(c), true, "deterministic_validation_passed")
  {
    hide KnownSource, FirstUnknown, StatusText, MayBecome;
  }

  lemma SourcesKnown(input: Snapshot)
    ensures forall id :: id in SourceIds(input.sources) <==> KnownSource(input, id)
  {
  }

  lemma DecisionFollows(env: Env, input: Snapshot, bounds: Bounds, parsed: Option<Candidate>)
    ensures Decides(env, input, bounds, Choose(input, parsed).0, Build(env, input, bounds, parsed).decision)
  {
    hide Errors, Choose, ReasonOf, NoErrors, Why;
    var n := Choose(input, parsed).0;
    FirstError(input, bounds, n);
    if Errors(input, bounds, n) == [] {
      ConflictOrCommit(input, bounds, n.value);
    }
  }

  /** A decision log keeps the judged candidate, and its decision follows from it. */
  lemma LogHolds(env: Env, input: Snapshot, bounds: Bounds, parsed: Option<Candidate>)
    ensures var log := Build(env, input, bounds, parsed);
      Judged(input, parsed, log.parsed) && Decides(env, input, bounds, log.parsed, log.decision)
  {
    hide Choose, Judged, Decides, Validate, DecideCommit;
    ChosenIsJudged(input, parsed);
    DecisionFollows(env, input, bounds, parsed);
  }

  // ---------------------------------------------------------------- when a decision commits

  /** What was given can be committed. */
  ghost predicate Sound(input: Snapshot, c: Candidate) {
    var status := if c.status.Some? then c.status.value else Active;
    && Words(c.canonicalText) != []
    && (exists u :: u in c.supportSemioteIds && !Blank(u))
    && (forall u, v :: u in c.supportSemioteIds && Strips(u, v) ==> KnownSource(input, v))
    && MayBecome(input, status) && status != Conflicted
    && (forall u :: u in GivenConflicts(c) ==> Blank(u))
  }

  lemma IdsOf(given: seq<string>, ids: seq<string>)
    requires CleanIds(given, ids)
    ensures ids == [] <==> forall u :: u in given ==> Blank(u)
  {
    if ids != [] {
      assert ids[0] in ids;
      var u :| u in given && Strips(u, ids[0]);
      TrimStrips(u);
      StripsOne(u, ids[0]);
    }
    if u :| u in given && !Blank(u) {
      TrimStrips(u);
      assert Trim(u) in ids;
    }
  }

  lemma SoundKept(input: Snapshot, bounds: Bounds, c: Candidate, n: Candidate)
    requires Kept(c, n) && bounds.attemptedLlmCalls <= bounds.maxLlmCalls
    ensures Sound(input, c) <==> NoErrors(input, bounds, n) && n.status != Some(Conflicted) && GivenConflicts(n) == []
  {
    hide MayBecome, KnownSource, Strips, Blank, TextKept, Joined;
    IdsOf(c.supportSemioteIds, n.supportSemioteIds);
    IdsOf(GivenConflicts(c), n.conflictsWithNoemaIds.value);
    NormalizeJoins(c.canonicalText);
    assert (forall id :: id in n.supportSemioteIds ==> KnownSource(input, id))
      <==> (forall u, v :: u in c.supportSemioteIds && Strips(u, v) ==> KnownSource(input, v));
  }

  /** A decision commits exactly when the calls are within budget and the model's candidate, or without
      one that of the only source, is sound: with a text, with support and only by known sources, allowed by
      the recorded status, and without conflict. */
  lemma CommitsOnGiven(env: Env, input: Snapshot, bounds: Bounds, parsed: Option<Candidate>)
    ensures Build(env, input, bounds, parsed).decision.commit <==>
      && bounds.attemptedLlmCalls <= bounds.maxLlmCalls
      && (if parsed.Some? then Sound(input, parsed.value) else Promotes(input) && Sound(input, OnlySource(input.sources[0])))
  {
    hide Build, Kept, Sound, WhyCandidate, NoErrors, MayBecome;
    LogHolds(env, input, bounds, parsed);
    var log := Build(env, input, bounds, parsed);
    if bounds.attemptedLlmCalls <= bounds.maxLlmCalls && log.parsed.Some? {
      SoundKept(input, bounds, if parsed.Some? then parsed.value else OnlySource(input.sources[0]), log.parsed.value);
      StatusKept(if parsed.Some? then parsed.value else OnlySource(input.sources[0]), log.parsed.value);
      CommitsIf(input, bounds, log.parsed.value, log.decision);
    }
  }

  lemma StatusKept(c: Candidate, n: Candidate)
    requires Kept(c, n)
    ensures n.status.Some?
  {
    hide CleanIds, TextKept, Words, Joined;
  }

  lemma CommitsIf(input: Snapshot, bounds: Bounds, n: Candidate, d: Decision)
    requires bounds.attemptedLlmCalls <= bounds.maxLlmCalls
    requires WhyCandidate(input, n, d.commit, d.reason) && n.status.Some?
    ensures d.commit <==> NoErrors(input, bounds, n) && n.status != Some(Conflicted) && GivenConflicts(n) == []
  {
    hide KnownSource, MayBecome, FirstUnknown, StatusText;
  }

  // ---------------------------------------------------------------- the validator's loops

  lemma NoneUnknown(known: set<string>)
    ensures UnknownSupport([], known) == []
  {
  }

  lemma UnknownNext(ids: seq<string>, i: nat, known: set<string>)
    requires i < |ids|
    ensures UnknownSupport(ids[..i + 1], known)
         == UnknownSupport(ids[..i], known) + if ids[i] in known then [] else [UnknownSupportId(ids[i])]
  {
    assert ids[..i + 1][..i] == ids[..i] && ids[..i + 1][i] == ids[i];
  }

  /** The errors of one candidate, pushed in the order in which they are found. */
  method CheckCandidate(input: Snapshot, c: Candidate, before: seq<Error>) returns (errors: seq<Error>, allowed: bool)
    ensures errors == before + CandidateErrors(input, c) && allowed == TransitionAllowed(input, c)
  {
    hide SourceIds, UnknownSupport, ValidTransition;
    var sourceIds := SourceIds(input.sources);
    errors := before;
    if c.canonicalText == "" {
      errors := errors + [EmptyCanonicalText];
    }
    if |c.supportSemioteIds| == 0 {
      errors := errors + [MissingSupportIds];
    }
    ghost var found := errors;
    var i := 0;
    assert c.supportSemioteIds[..0] == [];
    NoneUnknown(sourceIds);
    while i < |c.supportSemioteIds|
      invariant 0 <= i <= |c.supportSemioteIds|
      invariant errors == found + UnknownSupport(c.supportSemioteIds[..i], sourceIds)
    {
      UnknownNext(c.supportSemioteIds, i, sourceIds);
      if c.supportSemioteIds[i] !in sourceIds {
        errors := errors + [UnknownSupportId(c.supportSemioteIds[i])];
      }
      i := i + 1;
    }
    assert c.supportSemioteIds[..i] == c.supportSemioteIds;
    allowed := input.existingStatus.None? || ValidTransition(input.existingStatus.value, StatusOr(c.status));
    if !allowed {
      errors := errors + [InvalidTransition(input.existingStatus.value, StatusOr(c.status))];
    }
  }

  /** validateCandidate: chooses the candidate and collects its errors. */
  method ValidateCandidate(env: Env, input: Snapshot, bounds: Bounds, parsed: Option<Candidate>)
    returns (candidate: Option<Candidate>, validation: Validation)
    ensures candidate == Choose(input, parsed).0 && validation == Validate(env, input, bounds, parsed)
    ensures Judged(input, parsed, candidate)
  {
    hide CandidateErrors, NormalizeCandidate, SingletonCandidate, Judged;
    ChosenIsJudged(input, parsed);
    var errors: seq<Error> := [];
    var candidateSource := Model;
    candidate := if parsed.Some? then Some(NormalizeCandidate(parsed.value)) else None;
    if bounds.attemptedLlmCalls > bounds.maxLlmCalls {
      errors := errors + [BudgetExceeded];
    }
    if candidate.None? {
      candidate := SingletonCandidate(input);
      candidateSource := if candidate.Some? then SingletonDeterministic else Missing;
    }
    var contract: Option<Contract>, requested: Option<Status>, allowed := None, None, false;
    if candidate.None? {
      errors := errors + [MissingCandidate];
    } else {
      errors, allowed := CheckCandidate(input, candidate.value, errors);
      contract, requested := Some(DeriveContract(env, input, candidate.value)), Some(StatusOr(candidate.value.status));
    }
    validation := Validation(errors, Conflicts(candidate) != [], candidateSource, contract, input.existingStatus, requested, allowed);
  }
}
