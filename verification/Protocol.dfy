/** The vocabulary of protocol v1 (src/protocol.ts, src/limits.ts, src/errors.ts): identities,
    canonical entries, decisions, requests and responses, and the outcome types that stand for
    the errors the source throws. State, Intent, Operation and Rejection are the application's
    own types and stay abstract. */
module Protocol {
  type State(==, !new)
  type Intent(==, !new)
  type Operation(==, !new)
  type Rejection(==, !new)

  /** Number.MAX_SAFE_INTEGER. */
  const MAX_SAFE: int := 0x1F_FFFF_FFFF_FFFF

  datatype Option<+T> = None | Some(value: T)

  datatype Error =
    | EmptyString
    | InvalidSequence
    | InvalidLimit
    | LimitExceeded
    | DuplicateOperationId(operationId: string)
    | InvalidProposalOrder(clientId: string)
    | LogGap(expected: int, received: int)
    | ClientSequenceConflict(clientId: string, clientSequence: int)
    | MalformedResponse
    | LogDivergence(sequence: int)
    | DecisionConflict(operationId: string)
    | CompactedSequence(sequence: int)
    | RetainedLogTooLong
    | UnknownBase(requested: int, head: int)
    | IdentityConflict(operationId: string)
    | IntentConflict(operationId: string)
    | InvalidSnapshot
    | UnsupportedProtocolVersion
    | WireDecode
    | ClientProtocol
    | InvalidRecord
    | RoundsExceeded
    | CommitConflict

  /** A value, or the error thrown in its place. */
  datatype Result<+T> = Ok(value: T) | Err(error: Error) {
    predicate IsFailure() { Err? }
    function PropagateFailure<U>(): Result<U>
      requires Err?
    {
      Err(error)
    }
    function Extract(): T
      requires Ok?
    {
      value
    }
  }

  /** The result of an assertion: it returns, or throws. */
  datatype Outcome = Pass | Fail(error: Error) {
    predicate IsFailure() { Fail? }
    function PropagateFailure<U>(): Result<U>
      requires Fail?
    {
      Err(error)
    }
  }

  /** The first failure among check(0), ..., check(n - 1): what a validating loop throws. */
  function FirstFailure(check: nat -> Outcome, n: nat): (r: Outcome)
    ensures r.Pass? <==> forall i: nat | i < n :: check(i).Pass?
    ensures r.Fail? ==> exists i: nat :: i < n && check(i) == r && forall j: nat | j < i :: check(j).Pass?
  {
    if n == 0 then Pass
    else
      var before := FirstFailure(check, n - 1);
      if before.Fail? then before else check(n - 1)
  }

  datatype Proposal = Proposal(
    operationId: string,
    clientId: string,
    clientSequence: int,
    intentHash: string,
    intent: Intent)

  datatype Origin = Origin(clientId: string, clientSequence: int, intentHash: string)

  /** An operation at its place in the canonical log. */
  datatype Entry = Entry(sequence: int, operationId: string, origin: Origin, operation: Operation)

  /** The permanent outcome of one operation identity. */
  datatype Decision =
    | Accepted(operationId: string, sequence: int, operation: Operation)
    | Rejected(operationId: string, reason: Rejection)

  datatype Draft = Accept(operation: Operation) | Reject(reason: Rejection)

  datatype Request = Request(baseSequence: int, maximumEntries: int, proposals: seq<Proposal>)

  datatype Response = Response(
    requestedBase: int,
    through: int,
    head: int,
    entries: seq<Entry>,
    decisions: seq<Decision>)

  const PROTOCOL_VERSION: int := 1

  datatype Envelope<+M> = Envelope(protocolVersion: int, streamId: string, message: M)

  datatype Limits = Limits(maximumProposals: int, maximumEntries: int)

  /** What an authority knows of the application: how to judge a proposal, how to apply an operation. */
  datatype LogInterpreter = LogInterpreter(
    decide: (State, Proposal) -> Draft,
    apply: (State, Operation) -> State)

  datatype ReplicaInterpreter = ReplicaInterpreter(
    applyCommitted: (State, Operation) -> State,
    applyOptimistic: (State, Intent) -> State,
    areEqual: (Operation, Operation) -> bool)

  /** One application: its empty state, both interpreters and the limits of its authority. */
  datatype World = World(initial: State, log: LogInterpreter, replica: ReplicaInterpreter, limits: Limits)

  /** Both sides apply operations alike, operation equality is exact, and the limits are the
      positive safe integers that resolveProtocolLimits insists on. */
  ghost predicate Lawful(w: World) {
    && (forall s, o :: w.replica.applyCommitted(s, o) == w.log.apply(s, o))
    && (forall a, b :: w.replica.areEqual(a, b) <==> a == b)
    && 1 <= w.limits.maximumProposals <= MAX_SAFE
    && 1 <= w.limits.maximumEntries <= MAX_SAFE
  }

  lemma LimitsAreNatural(w: World)
    requires Lawful(w)
    ensures 1 <= w.limits.maximumEntries <= MAX_SAFE && 1 <= w.limits.maximumProposals <= MAX_SAFE
  {
  }

  /** The state that a log denotes: apply, folded over its entries in order. */
  function Replay(apply: (State, Operation) -> State, s: State, log: seq<Entry>): State {
    if log == [] then s
    else apply(Replay(apply, s, log[..|log| - 1]), log[|log| - 1].operation)
  }

  function Min(a: int, b: int): int { if a <= b then a else b }
  function Max(a: int, b: int): int { if a <= b then b else a }

  function ProposalIds(ps: seq<Proposal>): set<string> { set p | p in ps :: p.operationId }
  function DecisionIds(ds: seq<Decision>): set<string> { set d | d in ds :: d.operationId }

  /** A loop over xs whose body may throw. */
  function Fold<A, B>(step: (A, B) -> Result<A>, a: A, xs: seq<B>): Result<A> {
    if xs == [] then Ok(a)
    else
      var before :- Fold(step, a, xs[..|xs| - 1]);
      step(before, xs[|xs| - 1])
  }

  lemma FoldNext<A, B>(step: (A, B) -> Result<A>, a: A, xs: seq<B>, i: nat)
    requires i < |xs| && Fold(step, a, xs[..i]).Ok?
    ensures Fold(step, a, xs[..i + 1]) == step(Fold(step, a, xs[..i]).value, xs[i])
  {
    assert xs[..i + 1][..i] == xs[..i];
  }

  lemma {:induction false} FoldFails<A, B>(step: (A, B) -> Result<A>, a: A, xs: seq<B>, i: nat)
    requires i <= |xs| && Fold(step, a, xs[..i]).Err?
    ensures Fold(step, a, xs) == Err(Fold(step, a, xs[..i]).error)
  {
    if i < |xs| {
      assert xs[..|xs| - 1][..i] == xs[..i];
      FoldFails(step, a, xs[..|xs| - 1], i);
    } else {
      assert xs[..i] == xs;
    }
  }
}
