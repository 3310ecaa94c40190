/**
 * The round loader: the Redux action creators of the rounds feature and the
 * `loadRound` thunk, which reads a funding round's parameters from its contract
 * and its two metadata documents from IPFS, one step at a time, and reports
 * progress by dispatching actions.
 *
 * Everything `loadRound` obtains from outside (the address check, the contract
 * calls, the metadata fetch and parse) is an input of type `Sources`; what it
 * dispatches is its result, the log of actions in dispatch order.
 */
module Rounds {
  import opened Options
  import Decimal

  // ---------------------------------------------------------------------------
  // Action types and loading statuses
  // ---------------------------------------------------------------------------

  const RoundsLoadingRound: string := "ROUNDS_LOADING_ROUND"
  const RoundsRoundLoaded: string := "ROUNDS_ROUND_LOADED"
  const RoundsUnloaded: string := "ROUNDS_UNLOADED"
  const RoundsLoadingError: string := "ROUNDS_LOADING_ERROR"

  /** What `loadRound` is fetching when it dispatches a loading status. */
  datatype Status =
    | LoadingApplicationsStartTime
    | LoadingApplicationsEndTime
    | LoadingRoundStartTime
    | LoadingRoundEndTime
    | LoadingToken
    | LoadingRoundMetaPtr
    | LoadingRoundMetadata
    | LoadingApplicationMetaPtr
    | LoadingApplicationMetadata

  /** The nine fetch steps in the order `loadRound` runs them. */
  const Steps: seq<Status> := [
    LoadingApplicationsStartTime,
    LoadingApplicationsEndTime,
    LoadingRoundStartTime,
    LoadingRoundEndTime,
    LoadingToken,
    LoadingRoundMetaPtr,
    LoadingRoundMetadata,
    LoadingApplicationMetaPtr,
    LoadingApplicationMetadata
  ]

  /** Why a load failed: the address check, or one of the nine steps. */
  datatype LoadError = InvalidAddress | StepFailed(step: Status)

  /** The fixed human-readable message dispatched for each failure. */
  function Message(e: LoadError): string {
    match e
    case InvalidAddress => "invalid address or address checksum"
    case StepFailed(LoadingApplicationsStartTime) => "error loading application start time"
    case StepFailed(LoadingApplicationsEndTime) => "error loading application end time"
    case StepFailed(LoadingRoundStartTime) => "error loading round start time"
    case StepFailed(LoadingRoundEndTime) => "error loading round end time"
    case StepFailed(LoadingToken) => "error loading round token"
    case StepFailed(LoadingRoundMetaPtr) => "error loading round metaPtr"
    case StepFailed(LoadingRoundMetadata) => "error loading round metadata"
    case StepFailed(LoadingApplicationMetaPtr) => "error loading application metaPtr"
    case StepFailed(LoadingApplicationMetadata) => "error loading application metadata"
  }

  /** Each failure has its own message, so the message dispatched tells which check or step failed. */
  lemma MessagesDistinct(e: LoadError, f: LoadError)
    ensures Message(e) == Message(f) <==> e == f
  {
    if e != f {
      var m, n := Message(e), Message(f);
      assert |m| != |n| || m[27] != n[27];
    }
  }

  // ---------------------------------------------------------------------------
  // Round data
  // ---------------------------------------------------------------------------

  /** A MetaPtr as the contract returns it: a uint256 protocol and a pointer. */
  datatype MetaPtr = MetaPtr(protocol: nat, pointer: string)

  /** A MetaPtr as the round record stores it: the protocol in decimal. */
  datatype StoredMetaPtr = StoredMetaPtr(protocol: string, pointer: string)

  /** The parsed round metadata document; `loadRound` passes it on untouched. */
  datatype RoundMetadata = RoundMetadata(document: string)

  /** One question of an application schema. */
  datatype Question = Question(
    id: Option<int>,
    question: string,
    kind: string,            // the JSON key `type`
    required: bool,
    info: Option<string>)

  /** What a schema key of the parsed JSON holds: nothing, a list, or anything else. */
  datatype SchemaField = Undefined | NotAList | Questions(items: seq<Question>)

  /** The parsed application metadata document, before and after injection. */
  datatype ApplicationMetadata = ApplicationMetadata(
    applicationSchema: SchemaField,
    legacySchema: SchemaField,         // the JSON key `application_schema`
    projectQuestionId: Option<int>,
    recipientQuestionId: Option<int>)

  /** The record `loadRound` dispatches on success. */
  datatype Round = Round(
    address: string,
    applicationsStartTime: int,
    applicationsEndTime: int,
    roundStartTime: int,
    roundEndTime: int,
    token: string,
    roundMetaPtr: StoredMetaPtr,
    roundMetadata: RoundMetadata,
    applicationMetaPtr: StoredMetaPtr,
    applicationMetadata: ApplicationMetadata)

  // ---------------------------------------------------------------------------
  // Actions and their creators
  // ---------------------------------------------------------------------------

  datatype Action =
    | LoadingRound(address: string, status: Status)
    | RoundLoaded(address: string, round: Round)
    | Unloaded
    | LoadingError(address: string, error: LoadError)

  /** The `type` field of an action. */
  function TypeOf(a: Action): string {
    match a
    case LoadingRound(_, _) => RoundsLoadingRound
    case RoundLoaded(_, _) => RoundsRoundLoaded
    case Unloaded => RoundsUnloaded
    case LoadingError(_, _) => RoundsLoadingError
  }

  /** `roundLoaded`: the notification carrying a fully loaded round. */
  function RoundLoadedAction(address: string, round: Round): (a: Action)
    ensures TypeOf(a) == RoundsRoundLoaded
    ensures a.RoundLoaded? && a.address == address && a.round == round
  {
    RoundLoaded(address, round)
  }

  /** `roundsUnloaded`: the notification that clears every loaded round. */
  function RoundsUnloadedAction(): (a: Action)
    ensures TypeOf(a) == RoundsUnloaded
  {
    Unloaded
  }

  /** `loadingError`: the notification that loading `address` failed with `Message(error)`. */
  function LoadingErrorAction(address: string, error: LoadError): (a: Action)
    ensures TypeOf(a) == RoundsLoadingError
    ensures a.LoadingError? && a.address == address && a.error == error
  {
    LoadingError(address, error)
  }

  /** `unloadRounds`: the exported creator, another name for `roundsUnloaded`. */
  function UnloadRounds(): (a: Action)
    ensures TypeOf(a) == RoundsUnloaded
  {
    RoundsUnloadedAction()
  }

  /** The four action types are distinct, so the type tag tells every action kind apart. */
  lemma ActionTypesDistinct(a: Action, b: Action)
    ensures TypeOf(a) == TypeOf(b) <==> a.LoadingRound? == b.LoadingRound? && a.RoundLoaded? == b.RoundLoaded?
                                         && a.Unloaded? == b.Unloaded? && a.LoadingError? == b.LoadingError?
  {
  }

  // ---------------------------------------------------------------------------
  // Application schema injection
  // ---------------------------------------------------------------------------

  // The wording of the two questions every application form is given.
  const ProjectQuestionText: string := "Select a project you would like to apply for funding:"
  const RecipientQuestionText: string := "Recipient Address"
  const RecipientQuestionInfo: string := "Address that will receive funds"

  /** `{...projectQuestion, id}` */
  function ProjectQuestion(id: int): Question {
    Question(Some(id), ProjectQuestionText, "PROJECT", true, None)
  }

  /** `{...recipientAddressQuestion, id}` */
  function RecipientQuestion(id: int): Question {
    Question(Some(id), RecipientQuestionText, "RECIPIENT", true, Some(RecipientQuestionInfo))
  }

  /** The schema key that is read: `applicationSchema`, or `application_schema` when it is undefined. */
  function SchemaOf(m: ApplicationMetadata): SchemaField {
    if m.applicationSchema.Undefined? then m.legacySchema else m.applicationSchema
  }

  /**
   * The schema after injection, as a whole: the project question, numbered with
   * the original length, then the original questions, then the recipient
   * question, numbered with the length after the first insertion.
   */
  function WithInjectedQuestions(schema: seq<Question>): seq<Question> {
    [ProjectQuestion(|schema|)] + schema + [RecipientQuestion(|schema| + 1)]
  }

  /** The whole effect of the injection block on the parsed document; `Fail` where it throws. */
  function Injected(m: ApplicationMetadata): Outcome<ApplicationMetadata> {
    match SchemaOf(m)
    case Questions(items) =>
      var schema := Questions(WithInjectedQuestions(items));
      Ok(m.(applicationSchema := schema,
            legacySchema := if m.applicationSchema.Undefined? then schema else m.legacySchema,
            projectQuestionId := Some(|items|),
            recipientQuestionId := Some(|items| + 1)))
    case _ => Fail
  }

  /**
   * The injection block of `loadRound`, step by step: fall back to the legacy key,
   * read the length, `unshift` the project question, record its id, read the
   * length again, `push` the recipient question, record its id. After the
   * fallback both keys name the same array, so both see the insertions. A
   * schema key that holds no list makes `.length` or `unshift` throw: `Fail`.
   */
  method InjectQuestions(parsed: ApplicationMetadata) returns (r: Outcome<ApplicationMetadata>)
    ensures r.Fail? <==> !SchemaOf(parsed).Questions?
    ensures r == Injected(parsed)
  {
    var metadata := parsed;
    var aliased := false;
    if metadata.applicationSchema.Undefined? {
      metadata := metadata.(applicationSchema := metadata.legacySchema);
      aliased := true;
    }
    if !metadata.applicationSchema.Questions? {
      return Fail;
    }
    var schema := metadata.applicationSchema.items;
    ghost var original := schema;

    var projectQuestionId := |schema|;
    schema := [ProjectQuestion(projectQuestionId)] + schema;
    metadata := metadata.(projectQuestionId := Some(projectQuestionId));

    var recipientQuestionId := |schema|;
    schema := schema + [RecipientQuestion(recipientQuestionId)];
    metadata := metadata.(recipientQuestionId := Some(recipientQuestionId));

    metadata := metadata.(applicationSchema := Questions(schema));
    if aliased {
      metadata := metadata.(legacySchema := Questions(schema));
    }
    assert schema == WithInjectedQuestions(original);
    r := Ok(metadata);
  }

  /**
   * What the injection leaves in the document: under `applicationSchema`, the
   * project question numbered n (the original length, so `projectQuestionId`
   * is n, not 0), the n original questions in order, and the recipient
   * question numbered n + 1; both ids recorded; and, when the schema came from
   * `application_schema`, the same list under that key too.
   */
  lemma InjectedShape(parsed: ApplicationMetadata)
    requires SchemaOf(parsed).Questions?
    ensures Injected(parsed).Ok?
    ensures var original := SchemaOf(parsed).items;
      var n := |original|;
      var m := Injected(parsed).value;
      && m.applicationSchema.Questions?
      && |m.applicationSchema.items| == n + 2
      && m.applicationSchema.items[0] == ProjectQuestion(n)
      && m.applicationSchema.items[0].kind == "PROJECT"
      && m.applicationSchema.items[1..n + 1] == original
      && m.applicationSchema.items[n + 1] == RecipientQuestion(n + 1)
      && m.applicationSchema.items[n + 1].kind == "RECIPIENT"
      && m.projectQuestionId == Some(n)
      && m.recipientQuestionId == Some(n + 1)
      && m.legacySchema == (if parsed.applicationSchema.Undefined? then m.applicationSchema else parsed.legacySchema)
  {
    var original := SchemaOf(parsed).items;
    InjectionRecoversOriginal(original);
  }

  /** The original questions are the injected schema without its first and last entries. */
  lemma {:induction false} InjectionRecoversOriginal(schema: seq<Question>)
    ensures var s := WithInjectedQuestions(schema);
      |s| == |schema| + 2 && s[1..|s| - 1] == schema
  {
    var s := WithInjectedQuestions(schema);
    assert s == [ProjectQuestion(|schema|)] + schema + [RecipientQuestion(|schema| + 1)];
    assert s[1..|s| - 1] == schema;
  }

  /** Every id in the schema is a distinct number below `bound`. */
  predicate IdsDistinctBelow(schema: seq<Question>, bound: int) {
    && (forall i :: 0 <= i < |schema| ==> schema[i].id.Some? && schema[i].id.value < bound)
    && (forall i, j :: 0 <= i < j < |schema| ==> schema[i].id != schema[j].id)
  }

  /**
   * The ids given to the injected questions are fresh: when the original
   * questions carry distinct ids below their count (the usual 0..n-1), all ids
   * of the injected schema are distinct.
   */
  lemma {:induction false} InjectedIdsDistinct(schema: seq<Question>)
    requires IdsDistinctBelow(schema, |schema|)
    ensures IdsDistinctBelow(WithInjectedQuestions(schema), |schema| + 2)
  {
    var n := |schema|;
    var s := WithInjectedQuestions(schema);
    assert forall i :: 1 <= i <= n ==> s[i] == schema[i - 1];
    forall i, j | 0 <= i < j < |s|
      ensures s[i].id != s[j].id
    {
      if i == 0 && j <= n {
        assert s[j].id.value < n;
      } else if 1 <= i && j <= n {
        assert s[i] == schema[i - 1] && s[j] == schema[j - 1];
      } else if 1 <= i <= n && j == n + 1 {
        assert s[i].id.value < n;
      }
    }
  }

  /**
   * The injection does not guard against running twice: a document whose schema
   * already holds the two questions gets a second pair, two project questions in all.
   */
  lemma {:induction false} InjectionNotIdempotent(schema: seq<Question>)
    ensures var twice := WithInjectedQuestions(WithInjectedQuestions(schema));
      && |twice| == |schema| + 4
      && twice[0] == ProjectQuestion(|schema| + 2)
      && twice[1] == ProjectQuestion(|schema|)
      && twice != WithInjectedQuestions(schema)
  {
    var once := WithInjectedQuestions(schema);
    var twice := WithInjectedQuestions(once);
    assert twice[1] == once[0];
  }

  // ---------------------------------------------------------------------------
  // The load pipeline
  // ---------------------------------------------------------------------------

  /** The result of one external call: a value, or an exception. */
  datatype Outcome<T> = Ok(value: T) | Fail

  /**
   * What the outside world answers during one `loadRound`: whether
   * `ethers.utils.getAddress` accepts the address, the result of each contract
   * call (with its `toNumber()` conversion), and, for a metadata pointer, the
   * result of fetching and parsing the document it points to.
   */
  datatype Sources = Sources(
    addressValid: bool,
    applicationsStartTime: Outcome<int>,
    applicationsEndTime: Outcome<int>,
    roundStartTime: Outcome<int>,
    roundEndTime: Outcome<int>,
    token: Outcome<string>,
    roundMetaPtr: Outcome<MetaPtr>,
    fetchRoundMetadata: string -> Outcome<RoundMetadata>,
    applicationMetaPtr: Outcome<MetaPtr>,
    fetchApplicationMetadata: string -> Outcome<ApplicationMetadata>)

  /** The outcome of the last step: fetch and parse, then inject the questions. */
  function ApplicationMetadataStep(src: Sources): Outcome<ApplicationMetadata>
    requires src.applicationMetaPtr.Ok?
  {
    match src.fetchApplicationMetadata(src.applicationMetaPtr.value.pointer)
    case Ok(parsed) => Injected(parsed)
    case Fail => Fail
  }

  /**
   * Whether `step` obtains its value, provided the steps it depends on did.
   * The last step succeeds when the document is fetched and parsed and has a
   * question list to inject into (`ApplicationMetadataStepOk`).
   */
  predicate Succeeds(src: Sources, step: Status) {
    match step
    case LoadingApplicationsStartTime => src.applicationsStartTime.Ok?
    case LoadingApplicationsEndTime => src.applicationsEndTime.Ok?
    case LoadingRoundStartTime => src.roundStartTime.Ok?
    case LoadingRoundEndTime => src.roundEndTime.Ok?
    case LoadingToken => src.token.Ok?
    case LoadingRoundMetaPtr => src.roundMetaPtr.Ok?
    case LoadingRoundMetadata =>
      src.roundMetaPtr.Ok? && src.fetchRoundMetadata(src.roundMetaPtr.value.pointer).Ok?
    case LoadingApplicationMetaPtr => src.applicationMetaPtr.Ok?
    case LoadingApplicationMetadata =>
      && src.applicationMetaPtr.Ok?
      && var fetched := src.fetchApplicationMetadata(src.applicationMetaPtr.value.pointer);
      && fetched.Ok?
      && SchemaOf(fetched.value).Questions?
  }

  /** The last step succeeds exactly when its outcome, injection included, is a value. */
  lemma ApplicationMetadataStepOk(src: Sources)
    requires src.applicationMetaPtr.Ok?
    ensures Succeeds(src, LoadingApplicationMetadata) <==> ApplicationMetadataStep(src).Ok?
  {
  }

  /** Every step succeeds. */
  predicate Loads(src: Sources) {
    && Succeeds(src, LoadingApplicationsStartTime)
    && Succeeds(src, LoadingApplicationsEndTime)
    && Succeeds(src, LoadingRoundStartTime)
    && Succeeds(src, LoadingRoundEndTime)
    && Succeeds(src, LoadingToken)
    && Succeeds(src, LoadingRoundMetaPtr)
    && Succeeds(src, LoadingRoundMetadata)
    && Succeeds(src, LoadingApplicationMetaPtr)
    && Succeeds(src, LoadingApplicationMetadata)
  }

  /** The round record a load that succeeds dispatches. */
  function AssembledRound(address: string, src: Sources): Round
    requires Loads(src)
  {
    var roundPtr := src.roundMetaPtr.value;
    var applicationPtr := src.applicationMetaPtr.value;
    Round(
      address,
      src.applicationsStartTime.value,
      src.applicationsEndTime.value,
      src.roundStartTime.value,
      src.roundEndTime.value,
      src.token.value,
      StoredMetaPtr(Decimal.ToDecimal(roundPtr.protocol), roundPtr.pointer),
      src.fetchRoundMetadata(roundPtr.pointer).value,
      StoredMetaPtr(Decimal.ToDecimal(applicationPtr.protocol), applicationPtr.pointer),
      ApplicationMetadataStep(src).value)
  }

  /**
   * What a load dispatches after the last step: the assembled round. (Only a
   * load whose every step succeeds gets that far, `LogShape`; the `else`
   * value is never dispatched.)
   */
  function LoadedAction(address: string, src: Sources): Action {
    if Loads(src) then RoundLoaded(address, AssembledRound(address, src)) else Unloaded
  }

  /**
   * The walk over the steps from step `j` on, `acc` holding what has been
   * dispatched so far: dispatch the step's status, then its error if it
   * fails, or else go on; past the last step, dispatch `last`.
   */
  function Walk(address: string, src: Sources, j: nat, acc: seq<Action>, last: Action): seq<Action>
    requires j <= |Steps|
    decreases |Steps| - j
  {
    if j == |Steps| then acc + [last]
    else
      var dispatched := acc + [LoadingRound(address, Steps[j])];
      if Succeeds(src, Steps[j]) then Walk(address, src, j + 1, dispatched, last)
      else dispatched + [LoadingError(address, StepFailed(Steps[j]))]
  }

  /** The log of a load: the address error alone, or the walk over the steps from the first. */
  function ExpectedLog(address: string, src: Sources): seq<Action> {
    if !src.addressValid then [LoadingError(address, InvalidAddress)]
    else Walk(address, src, 0, [], LoadedAction(address, src))
  }

  /**
   * `loadRound(address)(dispatch)`: returns the actions it dispatches, in order.
   * Each status is dispatched just before its step's call, so the statuses in
   * the log are exactly the steps that were tried.
   */
  method LoadRound(address: string, src: Sources) returns (log: seq<Action>)
    ensures log == ExpectedLog(address, src)
  {
    if !src.addressValid {
      log := [LoadingErrorAction(address, InvalidAddress)];
      return;
    }

    log := [];
    log := log + [LoadingRound(address, LoadingApplicationsStartTime)];
    if src.applicationsStartTime.Fail? {
      log := log + [LoadingErrorAction(address, StepFailed(LoadingApplicationsStartTime))];
      return;
    }
    var applicationsStartTime := src.applicationsStartTime.value;
    assert ExpectedLog(address, src) == Walk(address, src, 1, log, LoadedAction(address, src));

    log := log + [LoadingRound(address, LoadingApplicationsEndTime)];
    if src.applicationsEndTime.Fail? {
      log := log + [LoadingErrorAction(address, StepFailed(LoadingApplicationsEndTime))];
      return;
    }
    var applicationsEndTime := src.applicationsEndTime.value;
    assert ExpectedLog(address, src) == Walk(address, src, 2, log, LoadedAction(address, src));

    log := log + [LoadingRound(address, LoadingRoundStartTime)];
    if src.roundStartTime.Fail? {
      log := log + [LoadingErrorAction(address, StepFailed(LoadingRoundStartTime))];
      return;
    }
    var roundStartTime := src.roundStartTime.value;
    assert ExpectedLog(address, src) == Walk(address, src, 3, log, LoadedAction(address, src));

    log := log + [LoadingRound(address, LoadingRoundEndTime)];
    if src.roundEndTime.Fail? {
      log := log + [LoadingErrorAction(address, StepFailed(LoadingRoundEndTime))];
      return;
    }
    var roundEndTime := src.roundEndTime.value;
    assert ExpectedLog(address, src) == Walk(address, src, 4, log, LoadedAction(address, src));

    log := log + [LoadingRound(address, LoadingToken)];
    if src.token.Fail? {
      log := log + [LoadingErrorAction(address, StepFailed(LoadingToken))];
      return;
    }
    var token := src.token.value;
    assert ExpectedLog(address, src) == Walk(address, src, 5, log, LoadedAction(address, src));

    log := log + [LoadingRound(address, LoadingRoundMetaPtr)];
    if src.roundMetaPtr.Fail? {
      log := log + [LoadingErrorAction(address, StepFailed(LoadingRoundMetaPtr))];
      return;
    }
    var roundMetaPtr := src.roundMetaPtr.value;
    assert ExpectedLog(address, src) == Walk(address, src, 6, log, LoadedAction(address, src));

    log := log + [LoadingRound(address, LoadingRoundMetadata)];
    var fetchedRound := src.fetchRoundMetadata(roundMetaPtr.pointer);
    if fetchedRound.Fail? {
      log := log + [LoadingErrorAction(address, StepFailed(LoadingRoundMetadata))];
      return;
    }
    var roundMetadata := fetchedRound.value;
    assert ExpectedLog(address, src) == Walk(address, src, 7, log, LoadedAction(address, src));

    log := log + [LoadingRound(address, LoadingApplicationMetaPtr)];
    if src.applicationMetaPtr.Fail? {
      log := log + [LoadingErrorAction(address, StepFailed(LoadingApplicationMetaPtr))];
      return;
    }
    var applicationMetaPtr := src.applicationMetaPtr.value;
    assert ExpectedLog(address, src) == Walk(address, src, 8, log, LoadedAction(address, src));

    log := log + [LoadingRound(address, LoadingApplicationMetadata)];
    var fetchedApplication := src.fetchApplicationMetadata(applicationMetaPtr.pointer);
    if fetchedApplication.Fail? {
      log := log + [LoadingErrorAction(address, StepFailed(LoadingApplicationMetadata))];
      return;
    }
    var injected := InjectQuestions(fetchedApplication.value);
    if injected.Fail? {
      log := log + [LoadingErrorAction(address, StepFailed(LoadingApplicationMetadata))];
      return;
    }
    var applicationMetadata := injected.value;
    assert ExpectedLog(address, src) == Walk(address, src, 9, log, LoadedAction(address, src));

    var round := Round(
      address,
      applicationsStartTime,
      applicationsEndTime,
      roundStartTime,
      roundEndTime,
      token,
      StoredMetaPtr(Decimal.ToDecimal(roundMetaPtr.protocol), roundMetaPtr.pointer),
      roundMetadata,
      StoredMetaPtr(Decimal.ToDecimal(applicationMetaPtr.protocol), applicationMetaPtr.pointer),
      applicationMetadata);
    log := log + [RoundLoadedAction(address, round)];
  }

  // ---------------------------------------------------------------------------
  // What the log of a load looks like
  // ---------------------------------------------------------------------------

  /** The first `count` loading statuses for `address`. */
  function StatusLog(address: string, count: nat): seq<Action>
    requires count <= |Steps|
  {
    seq(count, i requires 0 <= i < count => LoadingRound(address, Steps[i]))
  }

  /** The index of the first step at or after `from` that fails; 9 when none does. */
  function FirstFailure(src: Sources, from: nat): (k: nat)
    requires from <= |Steps|
    ensures from <= k <= |Steps|
    decreases |Steps| - from
  {
    if from == |Steps| then from
    else if Succeeds(src, Steps[from]) then FirstFailure(src, from + 1)
    else from
  }

  /** `FirstFailure` finds the first failing step: all the steps before it succeed and it does not. */
  lemma {:induction false} FirstFailureIsFirst(src: Sources, from: nat)
    requires from <= |Steps|
    ensures var k := FirstFailure(src, from);
      && (forall i :: from <= i < k ==> Succeeds(src, Steps[i]))
      && (k < |Steps| ==> !Succeeds(src, Steps[k]))
    decreases |Steps| - from
  {
    if from < |Steps| && Succeeds(src, Steps[from]) {
      FirstFailureIsFirst(src, from + 1);
    }
  }

  /** `Loads` is the same as every step of the list succeeding. */
  lemma LoadsIsEveryStep(src: Sources)
    ensures Loads(src) <==> forall i :: 0 <= i < |Steps| ==> Succeeds(src, Steps[i])
  {
    if Loads(src) {
      forall i | 0 <= i < |Steps|
        ensures Succeeds(src, Steps[i])
      {
        assert i == 0 || i == 1 || i == 2 || i == 3 || i == 4 || i == 5 || i == 6 || i == 7 || i == 8;
      }
    } else {
      assert !Succeeds(src, Steps[0]) || !Succeeds(src, Steps[1]) || !Succeeds(src, Steps[2])
        || !Succeeds(src, Steps[3]) || !Succeeds(src, Steps[4]) || !Succeeds(src, Steps[5])
        || !Succeeds(src, Steps[6]) || !Succeeds(src, Steps[7]) || !Succeeds(src, Steps[8]);
    }
  }

  /** From step `j` to a failing step `k`, the walk adds the statuses j..k and then k's error. */
  lemma {:induction false} WalkFailing(address: string, src: Sources, j: nat, k: nat, acc: seq<Action>, last: Action)
    requires j <= k < |Steps|
    requires forall i :: j <= i < k ==> Succeeds(src, Steps[i])
    requires !Succeeds(src, Steps[k])
    ensures Walk(address, src, j, acc, last) == acc + StatusLog(address, k + 1)[j..] + [LoadingError(address, StepFailed(Steps[k]))]
    decreases k - j
  {
    var log := StatusLog(address, k + 1);
    if j < k {
      var dispatched := acc + [LoadingRound(address, Steps[j])];
      assert Succeeds(src, Steps[j]);
      assert Walk(address, src, j, acc, last) == Walk(address, src, j + 1, dispatched, last);
      WalkFailing(address, src, j + 1, k, dispatched, last);
      assert log[j..] == [LoadingRound(address, Steps[j])] + log[j + 1..];
      assert dispatched + log[j + 1..] == acc + log[j..];
    } else {
      assert log[j..] == [LoadingRound(address, Steps[j])];
    }
  }

  /** From step `j` on, when every step succeeds, the walk adds the statuses j..8 and then `last`. */
  lemma {:induction false} WalkLoading(address: string, src: Sources, j: nat, acc: seq<Action>, last: Action)
    requires j <= |Steps| && Loads(src)
    ensures Walk(address, src, j, acc, last) == acc + StatusLog(address, |Steps|)[j..] + [last]
    decreases |Steps| - j
  {
    var log := StatusLog(address, |Steps|);
    if j < |Steps| {
      LoadsIsEveryStep(src);
      WalkLoading(address, src, j + 1, acc + [LoadingRound(address, Steps[j])], last);
      assert log[j..] == [LoadingRound(address, Steps[j])] + log[j + 1..];
    } else {
      assert log[j..] == [];
    }
  }

  /** An address that fails the checksum check gets its error and nothing else: no status, no step. */
  lemma InvalidAddressLog(address: string, src: Sources)
    requires !src.addressValid
    ensures ExpectedLog(address, src) == [LoadingError(address, InvalidAddress)]
  {
  }

  /**
   * When every step obtains its value, the log is the nine statuses in order
   * and then the one `ROUNDS_ROUND_LOADED`; no error is dispatched.
   */
  lemma {:induction false} SuccessfulLoadLog(address: string, src: Sources)
    requires src.addressValid && Loads(src)
    ensures var log := ExpectedLog(address, src);
      && log == StatusLog(address, |Steps|) + [RoundLoaded(address, AssembledRound(address, src))]
      && forall i :: 0 <= i < |log| ==> !log[i].LoadingError?
  {
    WalkLoading(address, src, 0, [], LoadedAction(address, src));
  }

  /**
   * When step `k` is the first that fails, the log is the first k+1 statuses
   * and then that step's error: the later steps never run and no round is loaded.
   */
  lemma {:induction false} FailedAtStepLog(address: string, src: Sources, k: nat)
    requires src.addressValid && k < |Steps|
    requires forall i :: 0 <= i < k ==> Succeeds(src, Steps[i])
    requires !Succeeds(src, Steps[k])
    ensures var log := ExpectedLog(address, src);
      && log == StatusLog(address, k + 1) + [LoadingError(address, StepFailed(Steps[k]))]
      && forall i :: 0 <= i < |log| ==> !log[i].RoundLoaded?
  {
    WalkFailing(address, src, 0, k, [], LoadedAction(address, src));
    assert StatusLog(address, k + 1)[0..] == StatusLog(address, k + 1);
  }

  /**
   * Every log is a run of statuses, one per step tried and in step order,
   * closed by exactly one terminal action for the same address: the loaded
   * round after all nine, exactly when every step succeeded, or else an error.
   */
  lemma {:induction false} LogShape(address: string, src: Sources)
    ensures var log := ExpectedLog(address, src);
      && 1 <= |log| <= |Steps| + 1
      && (log[|log| - 1].RoundLoaded? || log[|log| - 1].LoadingError?)
      && (log[|log| - 1].RoundLoaded? <==> src.addressValid && Loads(src))
      && (log[|log| - 1].RoundLoaded? ==> |log| == |Steps| + 1)
      && (forall i :: 0 <= i < |log| - 1 ==> log[i] == LoadingRound(address, Steps[i]))
      && log[|log| - 1].address == address
  {
    if src.addressValid {
      var log := ExpectedLog(address, src);
      var k := FirstFailure(src, 0);
      FirstFailureIsFirst(src, 0);
      if k < |Steps| {
        FailedAtStepLog(address, src, k);
        StatusesThenOne(address, k + 1, log);
      } else {
        LoadsIsEveryStep(src);
        SuccessfulLoadLog(address, src);
        StatusesThenOne(address, |Steps|, log);
      }
    }
  }

  /** A log made of the first `count` statuses and one more action has them at its first `count` indices. */
  lemma StatusesThenOne(address: string, count: nat, log: seq<Action>)
    requires count <= |Steps| && |log| == count + 1 && log[..count] == StatusLog(address, count)
    ensures forall i :: 0 <= i < |log| - 1 ==> log[i] == LoadingRound(address, Steps[i])
  {
    forall i | 0 <= i < |log| - 1
      ensures log[i] == LoadingRound(address, Steps[i])
    {
      assert log[i] == log[..count][i];
    }
  }

  /**
   * The record of a successful load: the address as given, the four times and
   * the token as fetched, both pointers as fetched, each protocol as the
   * decimal string of the fetched number, the round metadata fetched from the
   * round pointer and the application metadata, with its two questions
   * injected, fetched from the application pointer.
   */
  lemma {:induction false} LoadedRoundFields(address: string, src: Sources)
    requires src.addressValid && Loads(src)
    ensures src.roundMetaPtr.Ok? && src.applicationMetaPtr.Ok?
    ensures var log := ExpectedLog(address, src);
      var round := log[|log| - 1].round;
      && log[|log| - 1] == RoundLoaded(address, round)
      && round.address == address
      && src.applicationsStartTime == Ok(round.applicationsStartTime)
      && src.applicationsEndTime == Ok(round.applicationsEndTime)
      && src.roundStartTime == Ok(round.roundStartTime)
      && src.roundEndTime == Ok(round.roundEndTime)
      && src.token == Ok(round.token)
      && round.roundMetaPtr.pointer == src.roundMetaPtr.value.pointer
      && round.roundMetaPtr.protocol == Decimal.ToDecimal(src.roundMetaPtr.value.protocol)
      && Decimal.AllDigits(round.roundMetaPtr.protocol)
      && Decimal.FromDecimal(round.roundMetaPtr.protocol) == src.roundMetaPtr.value.protocol
      && src.fetchRoundMetadata(src.roundMetaPtr.value.pointer) == Ok(round.roundMetadata)
      && round.applicationMetaPtr.pointer == src.applicationMetaPtr.value.pointer
      && round.applicationMetaPtr.protocol == Decimal.ToDecimal(src.applicationMetaPtr.value.protocol)
      && Decimal.AllDigits(round.applicationMetaPtr.protocol)
      && Decimal.FromDecimal(round.applicationMetaPtr.protocol) == src.applicationMetaPtr.value.protocol
      && ApplicationMetadataStep(src) == Ok(round.applicationMetadata)
  {
    SuccessfulLoadLog(address, src);
    Decimal.FromToDecimal(src.roundMetaPtr.value.protocol);
    Decimal.FromToDecimal(src.applicationMetaPtr.value.protocol);
  }

  /**
   * A document that has neither `applicationSchema` nor `application_schema`
   * makes the last step throw at `.length`: the load ends with
   * "error loading application metadata".
   */
  lemma {:induction false} MissingSchemaFailsLoad(address: string, src: Sources, parsed: ApplicationMetadata)
    requires src.addressValid
    requires forall i :: 0 <= i < |Steps| - 1 ==> Succeeds(src, Steps[i])
    requires src.applicationMetaPtr.Ok?
    requires src.fetchApplicationMetadata(src.applicationMetaPtr.value.pointer) == Ok(parsed)
    requires parsed.applicationSchema.Undefined? && parsed.legacySchema.Undefined?
    ensures var log := ExpectedLog(address, src);
      && log[|log| - 1] == LoadingError(address, StepFailed(LoadingApplicationMetadata))
      && Message(log[|log| - 1].error) == "error loading application metadata"
  {
    assert Succeeds(src, Steps[7]);
    FailedAtStepLog(address, src, |Steps| - 1);
  }
}
