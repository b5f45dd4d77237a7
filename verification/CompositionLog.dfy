/** Building, deciding and replaying a composition decision
    (src/noema/composition-log.ts:148-391, src/noema/claim-contract.ts:55-72). */
module CompositionLog {
  import opened OrderedMap
  import opened JsonValues
  import opened StableJsons
  import opened CanonicalJson
  import opened ClaimText

  // ---------------------------------------------------------------- status machine

  datatype Status = Active | Superseded | Conflicted | Rejected

  predicate ValidTransition(from: Status, to: Status) {
    from == to ||
    match from
    case Active => to == Superseded || to == Conflicted || to == Rejected
    case Conflicted => to == Active || to == Superseded || to == Rejected
    case Superseded => false
    case Rejected => false
  }

  predicate Absorbing(s: Status) {
    s == Superseded || s == Rejected
  }

  /** A history in which every change is a valid transition. */
  ghost predicate History(ss: seq<Status>) {
    forall i :: 0 <= i < |ss| - 1 ==> ValidTransition(ss[i], ss[i + 1])
  }

  /** One change is valid exactly when nothing changes or the state is not absorbing, and an
      absorbing state is never left by any history. */
  lemma {:induction false} AbsorbingForever(ss: seq<Status>, i: nat, j: nat)
    requires History(ss) && i <= j < |ss|
    ensures Absorbing(ss[i]) ==> ss[j] == ss[i]
    ensures forall a, b :: ValidTransition(a, b) <==> a == b || !Absorbing(a)
    decreases j
  {
    if i < j {
      AbsorbingForever(ss, i, j - 1);
      assert ValidTransition(ss[j - 1], ss[j - 1 + 1]);
    }
  }

  // ---------------------------------------------------------------- candidates

  /** A status from the model that is no status counts as active. */
  datatype Candidate = Candidate(canonicalText: string, claimSubject: Option<string>, claimPredicate: Option<string>,
                                 factKey: Option<string>, status: Option<Status>, supportSemioteIds: seq<string>,
                                 supersedesNoemaId: Option<string>, conflictsWithNoemaIds: Option<seq<string>>)

  datatype Source = Source(id: string, text: string, status: Option<Status>, subject: Option<string>, claimed: Option<string>)

  datatype Snapshot = Snapshot(context: Json, sources: seq<Source>, existingStatus: Option<Status>, allowSingleton: bool)

  datatype Bounds = Bounds(maxLlmCalls: int, attemptedLlmCalls: int)

  function NonEmpty(s: string): Option<string> {
    if s == "" then None else Some(s)
  }

  function StatusOr(s: Option<Status>): Status {
    if s.Some? then s.value else Active
  }

  function NormalizeCandidate(c: Candidate): Candidate {
    Candidate(Normalize(Some(c.canonicalText)),
              NonEmpty(Normalize(c.claimSubject)), NonEmpty(Normalize(c.claimPredicate)), NonEmpty(Normalize(c.factKey)),
              Some(StatusOr(c.status)), UniqueSorted(c.supportSemioteIds),
              NonEmpty(Normalize(c.supersedesNoemaId)),
              Some(UniqueSorted(if c.conflictsWithNoemaIds.Some? then c.conflictsWithNoemaIds.value else [])))
  }

  lemma NormalizeOptional(s: Option<string>)
    ensures NonEmpty(Normalize(NonEmpty(Normalize(s)))) == NonEmpty(Normalize(s))
  {
    NormalizeAgain(s);
  }

  /** The normaliser is idempotent. */
  lemma NormalizeCandidateAgain(c: Candidate)
    ensures NormalizeCandidate(NormalizeCandidate(c)) == NormalizeCandidate(c)
  {
    NormalizeAgain(Some(c.canonicalText));
    NormalizeOptional(c.claimSubject);
    NormalizeOptional(c.claimPredicate);
    NormalizeOptional(c.factKey);
    NormalizeOptional(c.supersedesNoemaId);
    UniqueSortedIs(c.supportSemioteIds);
    UniqueSortedIs(if c.conflictsWithNoemaIds.Some? then c.conflictsWithNoemaIds.value else []);
  }

  function SingletonCandidate(input: Snapshot): Option<Candidate> {
    if !input.allowSingleton || |input.sources| != 1 || Trim(input.sources[0].text) == "" then None
    else
      var s := input.sources[0];
      Some(NormalizeCandidate(Candidate(s.text, s.subject, s.claimed, None, Some(StatusOr(s.status)), [s.id], None, None)))
  }

  // ---------------------------------------------------------------- validation

  datatype CandidateSource = Model | SingletonDeterministic | Missing

  datatype Error =
    | BudgetExceeded
    | MissingCandidate
    | EmptyCanonicalText
    | MissingSupportIds
    | UnknownSupportId(id: string)
    | InvalidTransition(from: Status, to: Status)

  /** The derived identity of a claim; `rest` holds its remaining fields. */
  datatype Contract = Contract(claimKey: string, revisionHash: string, status: Status, rest: Json)

  datatype Validation = Validation(errors: seq<Error>, conflictWarning: bool, source: CandidateSource,
                                   contract: Option<Contract>, from: Option<Status>, to: Option<Status>, allowed: bool)
  {
    predicate Accepted() {
      errors == []
    }
  }

  /** Claim identity (its hashing is not modelled), hash and printing of the two results. */
  datatype Env = Env(identify: (Snapshot, Candidate) -> (string, string, Json), sha256: string -> string,
                     validationJson: Validation -> Json, decisionJson: Decision -> Json)
  {
    /** Hashes do not collide; the printed validation names the candidate's source. */
    ghost predicate Valid() {
      && (forall a, b :: sha256(a) == sha256(b) ==> a == b)
      && (forall v :: WellFormed(validationJson(v)) && Get(validationJson(v), "candidateSource") == Some(SourceJson(v.source)))
      && (forall d :: WellFormed(decisionJson(d)))
    }
  }

  function SourceJson(s: CandidateSource): Json {
    match s
    case Model => Str("model")
    case SingletonDeterministic => Str("singleton_deterministic")
    case Missing => Str("none")
  }

  function DeriveContract(env: Env, input: Snapshot, c: Candidate): Contract {
    var (claimKey, revisionHash, rest) := env.identify(input, c);
    Contract(claimKey, revisionHash, StatusOr(c.status), rest)
  }

  /** The candidate that is judged, and where it comes from. */
  function Choose(input: Snapshot, parsed: Option<Candidate>): (Option<Candidate>, CandidateSource) {
    match parsed
    case Some(c) => (Some(NormalizeCandidate(c)), Model)
    case None =>
      match SingletonCandidate(input)
      case Some(c) => (Some(c), SingletonDeterministic)
      case None => (None, Missing)
  }

  function SourceIds(sources: seq<Source>): (ids: set<string>)
    ensures forall x :: x in ids <==> exists s :: s in sources && s.id == x
  {
    set s | s in sources :: s.id
  }

  function UnknownSupport(ids: seq<string>, known: set<string>): seq<Error> {
    if ids == [] then []
    else
      var last := ids[|ids| - 1];
      UnknownSupport(ids[..|ids| - 1], known) + if last in known then [] else [UnknownSupportId(last)]
  }

  function TransitionAllowed(input: Snapshot, c: Candidate): bool {
    input.existingStatus.None? || ValidTransition(input.existingStatus.value, StatusOr(c.status))
  }

  function CandidateErrors(input: Snapshot, c: Candidate): seq<Error> {
    (if c.canonicalText == "" then [EmptyCanonicalText] else [])
    + (if c.supportSemioteIds == [] then [MissingSupportIds] else [])
    + UnknownSupport(c.supportSemioteIds, SourceIds(input.sources))
    + (if TransitionAllowed(input, c) then [] else [InvalidTransition(input.existingStatus.value, StatusOr(c.status))])
  }

  /** The errors in the order in which they are found. */
  function Errors(input: Snapshot, bounds: Bounds, candidate: Option<Candidate>): seq<Error> {
    (if bounds.attemptedLlmCalls > bounds.maxLlmCalls then [BudgetExceeded] else [])
    + if candidate.Some? then CandidateErrors(input, candidate.value) else [MissingCandidate]
  }

  function Conflicts(c: Option<Candidate>): seq<string> {
    if c.Some? && c.value.conflictsWithNoemaIds.Some? then c.value.conflictsWithNoemaIds.value else []
  }

  function Validate(env: Env, input: Snapshot, bounds: Bounds, parsed: Option<Candidate>): Validation {
    var (c, source) := Choose(input, parsed);
    Validation(Errors(input, bounds, c), Conflicts(c) != [], source,
               if c.Some? then Some(DeriveContract(env, input, c.value)) else None,
               input.existingStatus,
               if c.Some? then Some(StatusOr(c.value.status)) else None,
               c.Some? && TransitionAllowed(input, c.value))
  }

  // ---------------------------------------------------------------- the decision

  datatype Decision = Decision(commit: bool, reason: string, contract: Option<Contract>, status: Option<Status>,
                               supportSemioteIds: seq<string>, supersedesNoemaId: Option<string>, conflicts: seq<string>)

  function ReasonOf(e: Error): string {
    match e
    case BudgetExceeded => "llm_call_budget_exceeded"
    case MissingCandidate => "missing_candidate"
    case EmptyCanonicalText => "empty_canonical_text"
    case MissingSupportIds => "missing_support_ids"
    case UnknownSupportId(id) => "unknown_support_id:" + id
    case InvalidTransition(from, to) => "invalid_status_transition:" + StatusText(from) + "->" + StatusText(to)
  }

  function StatusText(s: Status): string {
    match s case Active => "active" case Superseded => "superseded" case Conflicted => "conflicted" case Rejected => "rejected"
  }

  function DecideCommit(c: Option<Candidate>, v: Validation): Decision {
    var support := if c.Some? then c.value.supportSemioteIds else [];
    var supersedes := if c.Some? then c.value.supersedesNoemaId else None;
    var status := if v.contract.Some? then Some(v.contract.value.status) else None;
    if c.None? || v.contract.None? || !v.Accepted() then
      Decision(false, if v.errors == [] then "accepted" else ReasonOf(v.errors[0]), v.contract, status, support, supersedes, Conflicts(c))
    else if v.contract.value.status == Conflicted || Conflicts(c) != [] then
      Decision(false, "candidate_conflict_detected", v.contract, Some(Conflicted), support, supersedes, Conflicts(c))
    else
      Decision(true, "deterministic_validation_passed", v.contract, status, support, supersedes, Conflicts(c))
  }

  // ---------------------------------------------------------------- the log

  /** The parts of a decision log that building and replaying it read. */
  datatype Log = Log(input: Snapshot, bounds: Bounds, parsed: Option<Candidate>, validation: Validation,
                     decision: Decision, decisionHash: string)

  function Outcome(env: Env, v: Validation, d: Decision): Json {
    Obj([Field("validation", env.validationJson(v)), Field("commitDecision", env.decisionJson(d))])
  }

  function Build(env: Env, input: Snapshot, bounds: Bounds, parsed: Option<Candidate>): Log {
    var candidate := Choose(input, parsed).0;
    var validation := Validate(env, input, bounds, parsed);
    var decision := DecideCommit(candidate, validation);
    Log(input, bounds, candidate, validation, decision, env.sha256(StableJson(Outcome(env, validation, decision))))
  }

  function Replay(env: Env, log: Log): Log {
    Build(env, log.input, log.bounds, log.parsed)
  }

  // ---------------------------------------------------------------- replay

  /** Replaying judges the same candidate; only a singleton comes back as the model's. */
  lemma ReplayChooses(input: Snapshot, parsed: Option<Candidate>)
    ensures var (c, source) := Choose(input, parsed);
      Choose(input, c) == (c, if source == SingletonDeterministic then Model else source)
  {
    match parsed
    case Some(c) => NormalizeCandidateAgain(c);
    case None =>
      if SingletonCandidate(input).Some? {
        var s := input.sources[0];
        NormalizeCandidateAgain(Candidate(s.text, s.subject, s.claimed, None, Some(StatusOr(s.status)), [s.id], None, None));
      }
  }

  lemma OutcomeWellFormed(env: Env, v: Validation, d: Decision)
    requires env.Valid()
    ensures WellFormed(Outcome(env, v, d))
  {
    var fs := Outcome(env, v, d).fields;
    assert "validation"[0] != "commitDecision"[0];
    assert fs[0].key != fs[1].key;
  }

  /** Different candidate sources give different canonical texts. */
  lemma SourceShows(env: Env, v: Validation, d: Decision, w: Validation, e: Decision)
    requires env.Valid() && v.source != w.source
    ensures StableJson(Outcome(env, v, d)) != StableJson(Outcome(env, w, e))
  {
    OutcomeWellFormed(env, v, d);
    OutcomeWellFormed(env, w, e);
    StableJsonExact(Outcome(env, v, d), Outcome(env, w, e));
    if Same(Outcome(env, v, d), Outcome(env, w, e)) {
      var fs, gs := Outcome(env, v, d).fields, Outcome(env, w, e).fields;
      assert "validation"[0] != "commitDecision"[0];
      assert Paired(fs[0], gs);
      assert Same(env.validationJson(v), env.validationJson(w));
      SameGet(env.validationJson(v), env.validationJson(w), "candidateSource");
      SourceTexts(v.source, w.source);
    }
  }

  lemma SourceTexts(a: CandidateSource, b: CandidateSource)
    requires SourceJson(a) == SourceJson(b)
    ensures a == b
  {
    assert "model"[0] != "singleton_deterministic"[0] && "model"[0] != "none"[0] && "none"[0] != "singleton_deterministic"[0];
  }

  lemma FieldIndex(fs: seq<Field>, key: string) returns (i: nat)
    requires GetField(fs, key).Some?
    ensures i < |fs| && fs[i] == Field(key, GetField(fs, key).value)
  {
    var f := Field(key, GetField(fs, key).value);
    i :| 0 <= i < |fs| && fs[i] == f;
  }

  lemma SameGet(v: Json, w: Json, key: string)
    requires WellFormed(v) && WellFormed(w) && Same(v, w) && Get(v, key).Some? && Get(v, key).value.Str?
    ensures Get(w, key) == Get(v, key)
  {
    var i := FieldIndex(v.fields, key);
    assert Paired(v.fields[i], w.fields);
    var j :| 0 <= j < |w.fields| && w.fields[j].key == key && Same(v.fields[i].value, w.fields[j].value);
    UniqueField(w.fields, key, j);
  }

  lemma {:induction false} UniqueField(fs: seq<Field>, key: string, j: nat)
    requires DistinctFields(fs) && j < |fs| && fs[j].key == key
    ensures GetField(fs, key) == Some(fs[j].value)
  {
    if j > 0 {
      assert forall i, k :: 0 <= i < k < |fs[1..]| ==> fs[1..][i] == fs[i + 1] && fs[1..][k] == fs[k + 1];
      assert fs[0].key != fs[j].key;
      UniqueField(fs[1..], key, j - 1);
    }
  }

  lemma ReplaySame(env: Env, input: Snapshot, bounds: Bounds, parsed: Option<Candidate>)
    ensures var log := Build(env, input, bounds, parsed); var replayed := Replay(env, log);
      && replayed.decision == log.decision && replayed.parsed == log.parsed
      && replayed.validation == log.validation.(source := replayed.validation.source)
      && (log.validation.source == SingletonDeterministic ==> replayed.validation.source == Model)
      && (log.validation.source != SingletonDeterministic ==> replayed.validation == log.validation)
  {
    hide NormalizeCandidate, SingletonCandidate, Errors;
    ReplayChooses(input, parsed);
  }

  /** Replay reproduces the commit decision of every log, and its decision hash exactly for
      the logs whose candidate is not the deterministic singleton. */
  lemma ReplayReproduces(env: Env, input: Snapshot, bounds: Bounds, parsed: Option<Candidate>)
    requires env.Valid()
    ensures var log := Build(env, input, bounds, parsed); var replayed := Replay(env, log);
      && replayed.decision == log.decision && replayed.parsed == log.parsed
      && replayed.validation == log.validation.(source := replayed.validation.source)
      && (replayed.decisionHash == log.decisionHash <==> log.validation.source != SingletonDeterministic)
  {
    ReplaySame(env, input, bounds, parsed);
    var log := Build(env, input, bounds, parsed);
    var replayed := Replay(env, log);
    if log.validation.source == SingletonDeterministic {
      SourceShows(env, replayed.validation, replayed.decision, log.validation, log.decision);
    }
  }

  /** The decision hash binds what it is made of: logs with one hash have, up to the order of keys, the same
      printed validation and the same printed decision. */
  lemma HashBinds(env: Env, v: Validation, d: Decision, w: Validation, e: Decision)
    requires env.Valid() && env.sha256(StableJson(Outcome(env, v, d))) == env.sha256(StableJson(Outcome(env, w, e)))
    ensures Same(env.validationJson(v), env.validationJson(w)) && Same(env.decisionJson(d), env.decisionJson(e))
  {
    OutcomeWellFormed(env, v, d);
    OutcomeWellFormed(env, w, e);
    StableJsonExact(Outcome(env, v, d), Outcome(env, w, e));
    var fs, gs := Outcome(env, v, d).fields, Outcome(env, w, e).fields;
    assert "validation"[0] != "commitDecision"[0];
    assert Paired(fs[0], gs) && Paired(fs[1], gs);
  }

  // ---------------------------------------------------------------- when a decision commits

  lemma {:induction false} NoUnknownSupport(ids: seq<string>, known: set<string>)
    ensures UnknownSupport(ids, known) == [] <==> forall id :: id in ids ==> id in known
  {
    if ids != [] {
      NoUnknownSupport(ids[..|ids| - 1], known);
      assert ids == ids[..|ids| - 1] + [ids[|ids| - 1]];
    }
  }

  /** What a committed claim must be. */
  ghost predicate Committable(input: Snapshot, bounds: Bounds, c: Candidate) {
    && bounds.attemptedLlmCalls <= bounds.maxLlmCalls
    && c.canonicalText != ""
    && c.supportSemioteIds != [] && (forall id :: id in c.supportSemioteIds ==> exists s :: s in input.sources && s.id == id)
    && (input.existingStatus.Some? && Absorbing(input.existingStatus.value) ==> c.status == input.existingStatus)
    && c.status != Some(Conflicted) && c.conflictsWithNoemaIds == Some([])
  }

  /** A decision commits exactly when there is a committable candidate: never without sources
      it knows, never out of an absorbing status, never in conflict. */
  lemma CommitsExactly(env: Env, input: Snapshot, bounds: Bounds, parsed: Option<Candidate>)
    ensures var c := Choose(input, parsed).0;
      Build(env, input, bounds, parsed).decision.commit <==> c.Some? && Committable(input, bounds, c.value)
  {
    hide Choose, Errors, SourceIds;
    var c := Choose(input, parsed).0;
    ChosenShape(input, parsed);
    if c.Some? {
      NoErrors(input, bounds, c.value);
    } else {
      NoCandidate(input, bounds);
    }
  }

  lemma ChosenShape(input: Snapshot, parsed: Option<Candidate>)
    ensures var c := Choose(input, parsed).0;
      c.Some? ==> c.value.status.Some? && c.value.conflictsWithNoemaIds.Some?
  {
    hide UniqueSorted, Normalize;
  }

  lemma NoCandidate(input: Snapshot, bounds: Bounds)
    ensures Errors(input, bounds, None) != []
  {
  }

  lemma NoErrors(input: Snapshot, bounds: Bounds, c: Candidate)
    ensures Errors(input, bounds, Some(c)) == [] <==>
      && bounds.attemptedLlmCalls <= bounds.maxLlmCalls
      && c.canonicalText != "" && c.supportSemioteIds != []
      && (forall id :: id in c.supportSemioteIds ==> exists s :: s in input.sources && s.id == id)
      && TransitionAllowed(input, c)
  {
    hide UnknownSupport;
    NoUnknownSupport(c.supportSemioteIds, SourceIds(input.sources));
  }
}
