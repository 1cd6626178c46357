/** One attempt at a node: the budget check and the fallback along the ranked models
    (`backend/app/services/agent_executor.py`). Providers are the environment: their replies are an
    argument, one per ranked model. */
module Executor {
  import opened Collections
  import opened Conditions
  import opened Protocol

  datatype ErrorKind =
    | Timeout | RateLimited | Authentication | InvalidRequest | ProviderUnavailable | ContextLengthExceeded
    | ContentFiltered | BadOutput | OverBudget | CancelledCall | Unknown

  datatype Candidate = Candidate(provider: string, model: string)

  datatype Reply =
    | NoReply
    | Refused(kind: ErrorKind, retryable: bool)
    | Text(valid: bool, payload: Json, cost: Usd)

  datatype Offer = Offer(candidate: Candidate, estimate: Usd, reply: Reply)

  datatype Limits = Limits(maxCost: Usd, remaining: Option<Usd>)

  /** An attempt's output with the kind of its error, if it has one. */
  datatype Tried = Tried(output: Output, kind: Option<ErrorKind>)

  const NOTHING := JObj(map[])

  function Failure(kind: ErrorKind, status: ExecutionStatus, retryable: bool, attempt: nat): Tried {
    Tried(Output(if kind.OverBudget? then BudgetExceeded else status, NOTHING, 0.0, attempt, retryable), Some(kind))
  }

  predicate WithinBudget(limits: Limits, estimate: Usd) {
    estimate <= limits.maxCost && (limits.remaining.Some? ==> estimate <= limits.remaining.value)
  }

  /** `_attempt`: nothing is sent to a provider whose estimate does not fit. */
  function Attempt(limits: Limits, offer: Offer, attempt: nat): (tried: Tried)
    ensures tried.output.attempt == attempt
    ensures tried.output.status == Succeeded <==> tried.kind.None?
    ensures tried.output.cost > 0.0 ==> offer.reply.Text? && tried.output.cost == offer.reply.cost
                                        && WithinBudget(limits, offer.estimate)
    ensures offer.estimate > limits.maxCost || (limits.remaining.Some? && offer.estimate > limits.remaining.value) ==>
      tried.kind == Some(OverBudget) && tried.output.status == BudgetExceeded && !tried.output.retryable
    ensures offer.estimate <= limits.maxCost && (limits.remaining.None? || offer.estimate <= limits.remaining.value) ==>
      && (tried.kind.None? <==> offer.reply.Text? && offer.reply.valid)
      && (offer.reply.Text? ==> tried.output.payload == offer.reply.payload && tried.output.cost == offer.reply.cost)
      && (offer.reply.Refused? ==>
            tried.kind == Some(offer.reply.kind) && tried.output.retryable == offer.reply.retryable)
      && (offer.reply.NoReply? ==>
            tried.kind == Some(Timeout) && tried.output.status == TimedOut && tried.output.retryable)
      && (offer.reply.Text? && !offer.reply.valid ==>
            tried.kind == Some(BadOutput) && tried.output.status == InvalidOutput && tried.output.retryable)
  {
    if !WithinBudget(limits, offer.estimate) then Failure(OverBudget, Errored, false, attempt)
    else
      match offer.reply
      case NoReply => Failure(Timeout, TimedOut, true, attempt)
      case Refused(kind, retryable) => Failure(kind, Errored, retryable, attempt)
      case Text(valid, payload, cost) =>
        if valid then Tried(Output(Succeeded, payload, cost, attempt, true), None)
        else Tried(Output(InvalidOutput, payload, cost, attempt, true), Some(BadOutput))
  }

  predicate CanFallBack(tried: Tried) {
    tried.kind.Some? && tried.kind.value !in {Authentication, OverBudget, CancelledCall}
  }

  /** Providers given up on after the first `n` offers. */
  function Outage(limits: Limits, offers: seq<Offer>, attempt: nat, n: nat): set<string>
    requires n <= |offers|
  {
    if n == 0 then {}
    else
      var before := Outage(limits, offers, attempt, n - 1);
      var offer := offers[n - 1];
      var kind := Attempt(limits, offer, attempt).kind;
      if offer.candidate.provider in before then before
      else if kind == Some(Authentication) || kind == Some(ProviderUnavailable) then before + {offer.candidate.provider}
      else before
  }

  predicate IsTried(limits: Limits, offers: seq<Offer>, attempt: nat, i: nat)
    requires i < |offers|
  {
    offers[i].candidate.provider !in Outage(limits, offers, attempt, i)
  }

  /** The loop stops at offer `i`: it succeeded, it rules fallback out, or nothing after it is left. */
  predicate StopsAt(limits: Limits, offers: seq<Offer>, attempt: nat, i: nat)
    requires i < |offers|
  {
    || Attempt(limits, offers[i], attempt).output.status == Succeeded
    || !CanFallBack(Attempt(limits, offers[i], attempt))
    || forall j :: i < j < |offers| ==> offers[j].candidate.provider in Outage(limits, offers, attempt, i + 1)
  }

  ghost predicate ChosenAt(limits: Limits, offers: seq<Offer>, attempt: nat, i: nat) {
    && i < |offers| && IsTried(limits, offers, attempt, i) && StopsAt(limits, offers, attempt, i)
    && forall h :: 0 <= h < i ==> !(IsTried(limits, offers, attempt, h) && StopsAt(limits, offers, attempt, h))
  }

  /** `execute` answers with the first tried offer at which the loop stops. */
  method Execute(limits: Limits, offers: seq<Offer>, attempt: nat) returns (out: Output)
    ensures out.attempt == attempt
    ensures offers == [] ==> out.status == Errored && !out.retryable && out.cost == 0.0
    ensures offers != [] ==>
      exists i: nat :: ChosenAt(limits, offers, attempt, i) && out == Attempt(limits, offers[i], attempt).output
  {
    if offers == [] {
      return Failure(ProviderUnavailable, Errored, false, attempt).output;
    }
    var skipped: set<string> := {};
    assert offers[0].candidate.provider !in skipped;
    for i := 0 to |offers|
      invariant skipped == Outage(limits, offers, attempt, i)
      invariant exists j :: i <= j < |offers| && offers[j].candidate.provider !in skipped
      invariant forall h :: 0 <= h < i ==> !(IsTried(limits, offers, attempt, h) && StopsAt(limits, offers, attempt, h))
    {
      var provider := offers[i].candidate.provider;
      if provider !in skipped {
        var tried := Attempt(limits, offers[i], attempt);
        if tried.output.status == Succeeded || !CanFallBack(tried) {
          assert ChosenAt(limits, offers, attempt, i);
          return tried.output;
        }
        if tried.kind == Some(Authentication) || tried.kind == Some(ProviderUnavailable) {
          skipped := skipped + {provider};
        }
        var next := exists j :: i < j < |offers| && offers[j].candidate.provider !in skipped;
        if !next {
          assert ChosenAt(limits, offers, attempt, i);
          return tried.output;
        }
      }
    }
    assert false;
  }

  // ---- what the fallback promises --------------------------------------------------------

  lemma {:induction false} OutageGrows(limits: Limits, offers: seq<Offer>, attempt: nat, m: nat, n: nat)
    requires m <= n <= |offers|
    ensures Outage(limits, offers, attempt, m) <= Outage(limits, offers, attempt, n)
    decreases n
  {
    if m < n {
      OutageGrows(limits, offers, attempt, m, n - 1);
    }
  }

  /** A failure that another model might not share: anything but a refused key, a spent budget or a cancelled
      call. */
  predicate AnotherMightDo(kind: ErrorKind) {
    || kind == Timeout || kind == RateLimited || kind == InvalidRequest || kind == ProviderUnavailable
    || kind == ContextLengthExceeded || kind == ContentFiltered || kind == BadOutput || kind == Unknown
  }

  /** An attempt is answered with the first offer tried that succeeds, that fails for good, or after which no
      provider is left: it fails only if no earlier offer tried did better. */
  lemma FallsBackExactly(limits: Limits, offers: seq<Offer>, attempt: nat, chosen: nat)
    requires ChosenAt(limits, offers, attempt, chosen)
    ensures forall i: nat :: i < chosen && IsTried(limits, offers, attempt, i) ==>
      var kind := Attempt(limits, offers[i], attempt).kind; kind.Some? && AnotherMightDo(kind.value)
    ensures var kind := Attempt(limits, offers[chosen], attempt).kind;
      || kind.None? || !AnotherMightDo(kind.value)
      || forall j :: chosen < j < |offers| ==> !IsTried(limits, offers, attempt, j)
  {
    hide Attempt, Outage;
    forall j | chosen < j < |offers| && offers[j].candidate.provider in Outage(limits, offers, attempt, chosen + 1)
      ensures !IsTried(limits, offers, attempt, j)
    {
      OutageGrows(limits, offers, attempt, chosen + 1, j);
    }
    forall i: nat | i < chosen && IsTried(limits, offers, attempt, i)
      ensures Attempt(limits, offers[i], attempt).kind.Some?
    {
      assert !StopsAt(limits, offers, attempt, i);
    }
  }

  /** An offer is passed over exactly if an earlier one of the same provider was tried and refused the key or
      was unavailable. */
  lemma {:induction false} PassedOverExactly(limits: Limits, offers: seq<Offer>, attempt: nat, n: nat, provider: string)
    requires n <= |offers|
    ensures provider in Outage(limits, offers, attempt, n) <==>
      exists j: nat ::
        && j < n && offers[j].candidate.provider == provider && IsTried(limits, offers, attempt, j)
        && Attempt(limits, offers[j], attempt).kind in {Some(Authentication), Some(ProviderUnavailable)}
  {
    hide Attempt;
    if n > 0 {
      PassedOverExactly(limits, offers, attempt, n - 1, provider);
    }
  }

  /** A provider that is unavailable once is not called again in the same attempt. */
  lemma UnavailableNotRetried(limits: Limits, offers: seq<Offer>, attempt: nat, i: nat, j: nat)
    requires i < j < |offers| && offers[i].candidate.provider == offers[j].candidate.provider
    requires IsTried(limits, offers, attempt, i)
        && Attempt(limits, offers[i], attempt).kind == Some(ProviderUnavailable)
    ensures !IsTried(limits, offers, attempt, j)
  {
    OutageGrows(limits, offers, attempt, i + 1, j);
  }

  /** An attempt succeeds exactly when some offer that is tried would succeed and every offer tried
      before it may be fallen back from. */
  lemma SucceedsExactly(limits: Limits, offers: seq<Offer>, attempt: nat, chosen: nat)
    requires ChosenAt(limits, offers, attempt, chosen)
    ensures Attempt(limits, offers[chosen], attempt).output.status == Succeeded <==>
      exists i: nat ::
        && i < |offers| && IsTried(limits, offers, attempt, i)
        && Attempt(limits, offers[i], attempt).output.status == Succeeded
        && forall h: nat :: h < i && IsTried(limits, offers, attempt, h) ==>
            CanFallBack(Attempt(limits, offers[h], attempt))
  {
    if i: nat :|
      && i < |offers| && IsTried(limits, offers, attempt, i)
      && Attempt(limits, offers[i], attempt).output.status == Succeeded
      && forall h: nat :: h < i && IsTried(limits, offers, attempt, h) ==>
          CanFallBack(Attempt(limits, offers[h], attempt))
    {
      assert StopsAt(limits, offers, attempt, i);
      assert chosen <= i;
      if chosen < i && Attempt(limits, offers[chosen], attempt).output.status != Succeeded {
        OutageGrows(limits, offers, attempt, chosen + 1, i);
      }
    }
  }

  /** If no reply costs more than its estimate, no attempt costs more than the budget that remained. */
  lemma HonestEstimatesStayWithin(limits: Limits, offers: seq<Offer>, attempt: nat, chosen: nat)
    requires ChosenAt(limits, offers, attempt, chosen) && limits.remaining.Some?
    requires forall o :: o in offers && o.reply.Text? ==> o.reply.cost <= o.estimate
    ensures Attempt(limits, offers[chosen], attempt).output.cost <= limits.remaining.value
  {
    assert offers[chosen] in offers;
  }
}
