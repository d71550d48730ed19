/** The usage ledger: model calls reserve their estimated cost before they start and
    settle it when they end; concurrent calls share one locked ledger. */
module Ledger {
  import opened Wrappers

  type RunId = string

  const DEFAULT_MAX_MODEL_CALLS := 40
  const DEFAULT_MAX_OUTPUT_TOKENS := 4096

  datatype Observability = Observability(
    costLimit: Option<real>, maxModelCalls: Option<nat>, maxOutputTokens: Option<nat>,
    inputPrice: Option<real>, outputPrice: Option<real>)
  {
    function Calls(): nat {
      if maxModelCalls.Some? then maxModelCalls.value else DEFAULT_MAX_MODEL_CALLS
    }

    function Output(): nat {
      if maxOutputTokens.Some? then maxOutputTokens.value else DEFAULT_MAX_OUTPUT_TOKENS
    }

    /** The schema admits positive limits and non-negative prices. */
    predicate WellFormed() {
      && (costLimit.Some? ==> costLimit.value > 0.0)
      && (maxModelCalls.Some? ==> 1 <= maxModelCalls.value <= 100000)
      && (maxOutputTokens.Some? ==> 1 <= maxOutputTokens.value <= 100000)
      && (inputPrice.Some? ==> inputPrice.value >= 0.0)
      && (outputPrice.Some? ==> outputPrice.value >= 0.0)
    }
  }

  function OrZero(price: Option<real>): real {
    if price.Some? then price.value else 0.0
  }

  function Cost(o: Observability, input: int, output: int): real {
    (input as real * OrZero(o.inputPrice) + output as real * OrZero(o.outputPrice)) / 1000000.0
  }

  /** A model request: the size of its payload and the output caps it declares. */
  datatype Request = Request(payloadBytes: nat, declaredCaps: seq<int>)

  function EstimatedInput(r: Request): nat {
    r.payloadBytes + 256
  }

  function MinCap(caps: seq<int>): (m: int)
    requires caps != []
    ensures m in caps && forall c :: c in caps ==> m <= c
  {
    if |caps| == 1 then caps[0]
    else
      var rest := MinCap(caps[1..]);
      assert forall c :: c in caps <==> c == caps[0] || c in caps[1..];
      if caps[0] <= rest then caps[0] else rest
  }

  datatype Reservation = Reservation(cost: real, input: int, output: int)

  datatype Usage = Usage(input: int, output: int)

  datatype Refusal = NoOutputCap | NoPrices | CallLimit | OverBudget

  datatype Event =
    | Start(run: RunId, request: Request)
    | End(run: RunId, usage: Option<Usage>)
    | Error(run: RunId)

  datatype Book = Book(
    inputTokens: int, outputTokens: int, modelCalls: nat, estimatedInput: int, estimatedOutput: int,
    usedCost: real, reservedCost: real, missingUsage: bool, reservations: map<RunId, Reservation>)

  const EMPTY := Book(0, 0, 0, 0, 0, 0.0, 0.0, false, map[])

  // ----- one event

  /** The checks made before the lock is taken. */
  function Precheck(o: Observability, r: Request): Option<Refusal> {
    if o.costLimit.Some? && (r.declaredCaps == [] || MinCap(r.declaredCaps) > o.Output()) then Some(NoOutputCap)
    else if o.costLimit.Some? && (o.inputPrice.None? || o.outputPrice.None?) then Some(NoPrices)
    else None
  }

  function Admit(o: Observability, b: Book, r: Request): Option<Refusal> {
    var early := Precheck(o, r);
    if early.Some? then early
    else if b.modelCalls >= o.Calls() then Some(CallLimit)
    else if o.costLimit.Some?
      && b.usedCost + b.reservedCost + Cost(o, EstimatedInput(r), o.Output()) > o.costLimit.value then Some(OverBudget)
    else None
  }

  function Reserve(o: Observability, b: Book, run: RunId, r: Request): Book {
    var cost := Cost(o, EstimatedInput(r), o.Output());
    b.(modelCalls := b.modelCalls + 1, reservedCost := b.reservedCost + cost,
       reservations := b.reservations[run := Reservation(cost, EstimatedInput(r), o.Output())])
  }

  function Held(b: Book, run: RunId): Reservation {
    if run in b.reservations then b.reservations[run] else Reservation(0.0, 0, 0)
  }

  /** What a finished call costs: its observed usage, or its whole reservation. */
  function Charge(o: Observability, b: Book, run: RunId, usage: Option<Usage>): real {
    match usage
    case Some(u) => Cost(o, u.input, u.output)
    case None => Held(b, run).cost
  }

  function Settle(o: Observability, b: Book, run: RunId, usage: Option<Usage>): Book {
    var held := Held(b, run);
    b.(reservations := b.reservations - {run},
       reservedCost := b.reservedCost - held.cost,
       usedCost := b.usedCost + Charge(o, b, run, usage),
       inputTokens := b.inputTokens + (if usage.Some? then usage.value.input else 0),
       outputTokens := b.outputTokens + (if usage.Some? then usage.value.output else 0),
       estimatedInput := b.estimatedInput + (if usage.Some? then usage.value.input else held.input),
       estimatedOutput := b.estimatedOutput + (if usage.Some? then usage.value.output else held.output),
       missingUsage := b.missingUsage || usage.None?)
  }

  /** A refused start changes nothing. */
  function Apply(o: Observability, b: Book, e: Event): Book {
    match e
    case Start(run, request) => if Admit(o, b, request).Some? then b else Reserve(o, b, run, request)
    case End(run, usage) => Settle(o, b, run, usage)
    case Error(run) => Settle(o, b, run, None)
  }

  function Replay(o: Observability, events: seq<Event>): Book {
    if events == [] then EMPTY
    else Apply(o, Replay(o, events[..|events| - 1]), events[|events| - 1])
  }

  // ----- what is true over every interleaving

  /** The sum of the open reservations. */
  ghost function Open(m: map<RunId, Reservation>): real
    decreases |m|
  {
    if m == map[] then 0.0
    else
      var run :| run in m;
      assert |m - {run}| < |m| by { Smaller(m, run); }
      m[run].cost + Open(m - {run})
  }

  lemma Smaller(m: map<RunId, Reservation>, run: RunId)
    requires run in m
    ensures |m - {run}| == |m| - 1
  {
    assert (m - {run}).Keys == m.Keys - {run};
    assert |m| == |m.Keys| && |m - {run}| == |(m - {run}).Keys|;
  }

  lemma {:induction false} OpenSplit(m: map<RunId, Reservation>, run: RunId)
    requires run in m
    ensures Open(m) == m[run].cost + Open(m - {run})
    decreases |m|
  {
    var first :| first in m && Open(m) == m[first].cost + Open(m - {first});
    if first != run {
      Smaller(m, first);
      Smaller(m, run);
      OpenSplit(m - {first}, run);
      OpenSplit(m - {run}, first);
      assert m - {first} - {run} == m - {run} - {first};
    }
  }

  lemma OpenAdd(m: map<RunId, Reservation>, run: RunId, r: Reservation)
    ensures Open(m[run := r]) == r.cost + Open(m - {run})
  {
    OpenSplit(m[run := r], run);
    assert m[run := r] - {run} == m - {run};
  }

  lemma OpenRemove(b: Book, run: RunId)
    ensures Open(b.reservations - {run}) == Open(b.reservations) - Held(b, run).cost
  {
    if run in b.reservations {
      OpenSplit(b.reservations, run);
    } else {
      assert b.reservations - {run} == b.reservations;
    }
  }

  /** No call starts under a run id that is still open. */
  ghost predicate FreshStart(o: Observability, b: Book, e: Event) {
    e.Start? && Admit(o, b, e.request).None? ==> e.run !in b.reservations
  }

  ghost predicate FreshRuns(o: Observability, events: seq<Event>) {
    events == [] ||
    (FreshRuns(o, events[..|events| - 1]) && FreshStart(o, Replay(o, events[..|events| - 1]), events[|events| - 1]))
  }

  /** One event keeps the reserved cost equal to the open reservations exactly when
      it does not overwrite a reservation that still holds money. */
  lemma BooksBalance(o: Observability, b: Book, e: Event)
    requires b.reservedCost == Open(b.reservations)
    ensures Apply(o, b, e).reservedCost == Open(Apply(o, b, e).reservations) <==>
            !(e.Start? && Admit(o, b, e.request).None? && Held(b, e.run).cost != 0.0)
  {
    match e
    case Start(run, request) =>
      OpenAdd(b.reservations, run,
              Reservation(Cost(o, EstimatedInput(request), o.Output()), EstimatedInput(request), o.Output()));
      OpenRemove(b, run);
    case End(run, usage) => OpenRemove(b, run);
    case Error(run) => OpenRemove(b, run);
  }

  /** Reserved cost is the sum of the open reservations in every run with fresh ids. */
  lemma {:induction false} ReservedIsOpen(o: Observability, events: seq<Event>)
    requires FreshRuns(o, events)
    ensures Replay(o, events).reservedCost == Open(Replay(o, events).reservations)
    decreases |events|
  {
    if events != [] {
      var before, e := events[..|events| - 1], events[|events| - 1];
      ReservedIsOpen(o, before);
      BooksBalance(o, Replay(o, before), e);
    }
  }

  /** With a reused id the equality fails: for any configuration that admits two starts and
      prices the first of them, money stays reserved for a call nobody can close. */
  lemma ReusedIdLeaks(o: Observability, run: RunId, r1: Request, r2: Request) returns (events: seq<Event>)
    requires Admit(o, EMPTY, r1).None? && Admit(o, Apply(o, EMPTY, Start(run, r1)), r2).None?
    requires Cost(o, EstimatedInput(r1), o.Output()) > 0.0
    ensures !FreshRuns(o, events) && Replay(o, events).reservations == map[]
    ensures Replay(o, events).reservedCost == Cost(o, EstimatedInput(r1), o.Output()) > 0.0
  {
    hide Cost, Admit;
    var e0, e1, e2 := Start(run, r1), Start(run, r2), Error(run);
    events := [e0, e1, e2];
    assert [e0][..0] == [] && [e0, e1][..1] == [e0] && events[..2] == [e0, e1];
    assert Replay(o, [e0]) == Apply(o, EMPTY, e0);
    assert Replay(o, [e0, e1]) == Apply(o, Replay(o, [e0]), e1);
    assert Replay(o, events) == Apply(o, Replay(o, [e0, e1]), e2);
    assert Replay(o, events).reservations == map[];
    assert !FreshRuns(o, [e0, e1]);
  }

  /** Without a cost limit every two requests are such, when two calls are allowed and the
      input has a price. */
  lemma AnyRequestsLeak(o: Observability, run: RunId, r1: Request, r2: Request) returns (events: seq<Event>)
    requires o.WellFormed() && o.costLimit.None? && o.Calls() >= 2 && o.inputPrice.Some? && o.inputPrice.value > 0.0
    ensures Replay(o, events).reservations == map[] && Replay(o, events).reservedCost > 0.0
  {
    CostIsPositive(o, r1);
    events := ReusedIdLeaks(o, run, r1, r2);
  }

  lemma CostIsPositive(o: Observability, r: Request)
    requires o.WellFormed() && o.inputPrice.Some? && o.inputPrice.value > 0.0
    ensures Cost(o, EstimatedInput(r), o.Output()) > 0.0
  {
    var n := EstimatedInput(r) as real;
    assert n * o.inputPrice.value > 0.0;
    assert o.Output() as real * OrZero(o.outputPrice) >= 0.0;
  }

  /** The money an event makes unreachable: what the reservation held that an admitted
      start overwrites. */
  function Overwritten(o: Observability, b: Book, e: Event): real {
    if e.Start? && Admit(o, b, e.request).None? then Held(b, e.run).cost else 0.0
  }

  function Leaked(o: Observability, events: seq<Event>): real {
    if events == [] then 0.0
    else Leaked(o, events[..|events| - 1]) + Overwritten(o, Replay(o, events[..|events| - 1]), events[|events| - 1])
  }

  /** Some admitted start of the run overwrites a reservation that holds money. */
  ghost predicate OverwritesMoney(o: Observability, events: seq<Event>) {
    exists k :: 0 <= k < |events| && Overwritten(o, Replay(o, events[..k]), events[k]) != 0.0
  }

  /** Over every run the reserved cost is the open reservations and what has leaked. */
  lemma {:induction false} ReservedIsOpenAndLeaked(o: Observability, events: seq<Event>)
    ensures Replay(o, events).reservedCost == Open(Replay(o, events).reservations) + Leaked(o, events)
    decreases |events|
  {
    if events != [] {
      var before, e := events[..|events| - 1], events[|events| - 1];
      var b := Replay(o, before);
      ReservedIsOpenAndLeaked(o, before);
      OpenRemove(b, e.run);
      if e.Start? {
        OpenAdd(b.reservations, e.run,
                Reservation(Cost(o, EstimatedInput(e.request), o.Output()), EstimatedInput(e.request), o.Output()));
      }
    }
  }

  lemma OverwrittenIsMoney(o: Observability, events: seq<Event>, e: Event)
    requires o.WellFormed()
    ensures Overwritten(o, Replay(o, events), e) >= 0.0
  {
    HeldIsMoney(o, events, e.run);
  }

  lemma {:induction false} HeldIsMoney(o: Observability, events: seq<Event>, run: RunId)
    requires o.WellFormed()
    ensures Held(Replay(o, events), run).cost >= 0.0
    decreases |events|
  {
    if events != [] {
      HeldIsMoney(o, events[..|events| - 1], run);
      var e := events[|events| - 1];
      if e.Start? {
        CostMonotone(o, Usage(0, 0), Usage(EstimatedInput(e.request), o.Output()));
      }
    }
  }

  lemma OverwritesLast(o: Observability, events: seq<Event>)
    requires events != []
    ensures OverwritesMoney(o, events) <==>
            || OverwritesMoney(o, events[..|events| - 1])
            || Overwritten(o, Replay(o, events[..|events| - 1]), events[|events| - 1]) != 0.0
  {
    hide Overwritten, Replay;
    var before, n := events[..|events| - 1], |events| - 1;
    assert forall k :: 0 <= k < n ==> before[..k] == events[..k] && before[k] == events[k];
  }

  lemma {:induction false} LeakedIffOverwritten(o: Observability, events: seq<Event>)
    requires o.WellFormed()
    ensures Leaked(o, events) >= 0.0 && (Leaked(o, events) != 0.0 <==> OverwritesMoney(o, events))
    decreases |events|
  {
    hide Overwritten, Replay, OverwritesMoney;
    if events == [] {
      NothingOverwritten(o);
    } else {
      var before := events[..|events| - 1];
      LeakedIffOverwritten(o, before);
      OverwrittenIsMoney(o, before, events[|events| - 1]);
      OverwritesLast(o, events);
    }
  }

  lemma NothingOverwritten(o: Observability)
    ensures !OverwritesMoney(o, [])
  {
  }

  /** After any run the reserved cost is the sum of the open reservations exactly when no
      admitted start overwrote a reservation that holds money. */
  lemma BalancedIff(o: Observability, events: seq<Event>)
    requires o.WellFormed()
    ensures Replay(o, events).reservedCost == Open(Replay(o, events).reservations) <==> !OverwritesMoney(o, events)
  {
    ReservedIsOpenAndLeaked(o, events);
    LeakedIffOverwritten(o, events);
  }

  // ----- the counters, from the events alone

  /** When a call is admitted, in the configuration's own terms: under a cost limit some
      declared output cap is at most the maximum and both prices are known; the calls
      admitted so far are fewer than allowed; and with this call's own price, a quantity
      per million tokens, the money committed stays within the limit. */
  ghost predicate MayStart(o: Observability, admitted: nat, committed: real, r: Request) {
    && (o.costLimit.Some? ==>
          && (exists cap :: cap in r.declaredCaps && cap <= o.Output())
          && o.inputPrice.Some? && o.outputPrice.Some?)
    && admitted < o.Calls()
    && (o.costLimit.Some? ==>
          committed
              + ((r.payloadBytes + 256) as real * OrZero(o.inputPrice)
                 + o.Output() as real * OrZero(o.outputPrice)) / 1000000.0
          <= o.costLimit.value)
  }

  /** The configured limits, or else 40 calls and 4096 output tokens. */
  lemma LimitsMean(o: Observability, n: nat)
    ensures o.maxModelCalls == Some(n) || (o.maxModelCalls == None && n == 40) <==> o.Calls() == n
    ensures o.maxOutputTokens == Some(n) || (o.maxOutputTokens == None && n == 4096) <==> o.Output() == n
  {
  }

  lemma SomeCap(caps: seq<int>, limit: int)
    ensures caps != [] && MinCap(caps) <= limit <==> exists cap :: cap in caps && cap <= limit
  {
  }

  /** The number of calls admitted in a run. */
  function Admitted(o: Observability, events: seq<Event>): nat {
    if events == [] then 0
    else
      var before, e := events[..|events| - 1], events[|events| - 1];
      Admitted(o, before) + if e.Start? && Admit(o, Replay(o, before), e.request).None? then 1 else 0
  }

  lemma {:induction false} CallsCounted(o: Observability, events: seq<Event>)
    ensures Replay(o, events).modelCalls == Admitted(o, events)
    decreases |events|
  {
    if events != [] {
      CallsCounted(o, events[..|events| - 1]);
    }
  }

  lemma AdmitIff(o: Observability, b: Book, r: Request)
    ensures Admit(o, b, r).None? <==> MayStart(o, b.modelCalls, b.usedCost + b.reservedCost, r)
  {
    SomeCap(r.declaredCaps, o.Output());
    var cost := Cost(o, EstimatedInput(r), o.Output());
    assert cost == ((r.payloadBytes + 256) as real * OrZero(o.inputPrice)
                    + o.Output() as real * OrZero(o.outputPrice)) / 1000000.0;
    hide Cost, MinCap, OrZero;
  }

  /** A start is admitted exactly when it may be, by the number of calls admitted so far. */
  lemma AdmittedIff(o: Observability, events: seq<Event>, r: Request)
    ensures var b := Replay(o, events);
            Admit(o, b, r).None? <==> MayStart(o, Admitted(o, events), b.usedCost + b.reservedCost, r)
  {
    hide *;
    CallsCounted(o, events);
    AdmitIff(o, Replay(o, events), r);
  }

  /** A refusal names the first limit that the start would break. */
  lemma RefusalMeans(o: Observability, events: seq<Event>, r: Request)
    ensures Admit(o, Replay(o, events), r) == Some(NoOutputCap) <==>
            o.costLimit.Some? && forall cap :: cap in r.declaredCaps ==> cap > o.Output()
    ensures Admit(o, Replay(o, events), r) == Some(CallLimit) ==> Admitted(o, events) >= o.Calls()
    ensures Admit(o, Replay(o, events), r) == Some(NoPrices) ==> o.inputPrice.None? || o.outputPrice.None?
    ensures Admit(o, Replay(o, events), r) == Some(OverBudget) ==> Admitted(o, events) < o.Calls()
  {
    CallsCounted(o, events);
    SomeCap(r.declaredCaps, o.Output());
  }

  /** The number of admitted calls never exceeds the maximum ... */
  lemma {:induction false} CallsBounded(o: Observability, events: seq<Event>)
    ensures Admitted(o, events) <= o.Calls()
    decreases |events|
  {
    if events != [] {
      CallsBounded(o, events[..|events| - 1]);
      CallsCounted(o, events[..|events| - 1]);
    }
  }

  /** ... and once it is reached every later start is refused and changes nothing. */
  lemma NoMoreCalls(o: Observability, events: seq<Event>, run: RunId, r: Request)
    requires Admitted(o, events) == o.Calls()
    ensures Admit(o, Replay(o, events), r).Some? && Replay(o, events + [Start(run, r)]) == Replay(o, events)
  {
    CallsCounted(o, events);
    assert (events + [Start(run, r)])[..|events|] == events;
  }

  /** What an admitted start reserves: its own price, its estimated input and the output cap. */
  lemma StartReserves(o: Observability, events: seq<Event>, run: RunId, r: Request)
    requires Admit(o, Replay(o, events), r).None?
    ensures var b, next := Replay(o, events), Replay(o, events + [Start(run, r)]);
            var price := ((r.payloadBytes + 256) as real * OrZero(o.inputPrice)
                          + o.Output() as real * OrZero(o.outputPrice)) / 1000000.0;
            && run in next.reservations
            && next.reservations[run] == Reservation(price, r.payloadBytes + 256, o.Output())
            && next.reservedCost == b.reservedCost + price && next.usedCost == b.usedCost
  {
    assert (events + [Start(run, r)])[..|events|] == events;
  }

  /** Prices are per million tokens, and costs add up. */
  lemma CostMeans(o: Observability, a: Usage, b: Usage)
    ensures Cost(o, 1000000, 0) == OrZero(o.inputPrice) && Cost(o, 0, 1000000) == OrZero(o.outputPrice)
    ensures Cost(o, a.input + b.input, a.output + b.output) == Cost(o, a.input, a.output) + Cost(o, b.input, b.output)
  {
    Distributes(a.input, b.input, OrZero(o.inputPrice));
    Distributes(a.output, b.output, OrZero(o.outputPrice));
  }

  lemma Distributes(a: int, b: int, price: real)
    ensures (a + b) as real * price == a as real * price + b as real * price
  {
  }

  /** The tokens one event reports, and what it settles for: the report, or the reservation
      of a call that ended without one. */
  function ObservedBy(e: Event): Usage {
    if e.End? && e.usage.Some? then e.usage.value else Usage(0, 0)
  }

  function SettledBy(o: Observability, before: seq<Event>, e: Event): Usage {
    if e.Start? then Usage(0, 0)
    else if e.End? && e.usage.Some? then e.usage.value
    else if e.run in Replay(o, before).reservations then
      Usage(Replay(o, before).reservations[e.run].input, Replay(o, before).reservations[e.run].output)
    else Usage(0, 0)
  }

  function Plus(a: Usage, b: Usage): Usage {
    Usage(a.input + b.input, a.output + b.output)
  }

  function Observed(events: seq<Event>): Usage {
    if events == [] then Usage(0, 0) else Plus(Observed(events[..|events| - 1]), ObservedBy(events[|events| - 1]))
  }

  function Settled(o: Observability, events: seq<Event>): Usage {
    if events == [] then Usage(0, 0)
    else Plus(Settled(o, events[..|events| - 1]), SettledBy(o, events[..|events| - 1], events[|events| - 1]))
  }

  /** A call ended without reported usage. */
  predicate Unreported(events: seq<Event>) {
    exists k :: 0 <= k < |events| && (events[k].Error? || (events[k].End? && events[k].usage.None?))
  }

  /** The token counters are the sums of what was reported, the estimates also count the
      reservations of calls that reported nothing, and usage is missing exactly when some
      call ended without it. */
  lemma {:induction false} TokensCounted(o: Observability, events: seq<Event>)
    ensures var b := Replay(o, events);
            && Usage(b.inputTokens, b.outputTokens) == Observed(events)
            && Usage(b.estimatedInput, b.estimatedOutput) == Settled(o, events)
            && (b.missingUsage <==> Unreported(events))
    decreases |events|
  {
    hide Apply, Unreported, SettledBy, Admit;
    if events == [] {
      AllReported();
    } else {
      var before := events[..|events| - 1];
      TokensCounted(o, before);
      TokensOfOne(o, before, events[|events| - 1]);
      UnreportedLast(events);
    }
  }

  lemma TokensOfOne(o: Observability, before: seq<Event>, e: Event)
    ensures var b, next := Replay(o, before), Apply(o, Replay(o, before), e);
            && next.inputTokens == b.inputTokens + ObservedBy(e).input
            && next.outputTokens == b.outputTokens + ObservedBy(e).output
            && next.estimatedInput == b.estimatedInput + SettledBy(o, before, e).input
            && next.estimatedOutput == b.estimatedOutput + SettledBy(o, before, e).output
            && (next.missingUsage <==> b.missingUsage || e.Error? || (e.End? && e.usage.None?))
  {
    hide Replay, Admit, Cost;
  }

  lemma AllReported()
    ensures !Unreported([])
  {
  }

  lemma UnreportedLast(events: seq<Event>)
    requires events != []
    ensures var before, e := events[..|events| - 1], events[|events| - 1];
            Unreported(events) <==> Unreported(before) || e.Error? || (e.End? && e.usage.None?)
  {
    var before, n := events[..|events| - 1], |events| - 1;
    assert forall k :: 0 <= k < n ==> before[k] == events[k];
  }

  /** How much the observed cost of an ending call beats its reservation. */
  function Excess(o: Observability, b: Book, e: Event): real {
    if e.End? && Charge(o, b, e.run, e.usage) > Held(b, e.run).cost
    then Charge(o, b, e.run, e.usage) - Held(b, e.run).cost
    else 0.0
  }

  function TotalExcess(o: Observability, events: seq<Event>): (r: real)
    ensures r >= 0.0
  {
    if events == [] then 0.0
    else TotalExcess(o, events[..|events| - 1]) + Excess(o, Replay(o, events[..|events| - 1]), events[|events| - 1])
  }

  /** Committed money exceeds the limit by at most what calls cost beyond their own
      reservations; in particular never, when no call does. */
  lemma {:induction false} BudgetBound(o: Observability, events: seq<Event>)
    requires o.WellFormed() && o.costLimit.Some?
    ensures var b := Replay(o, events);
            b.usedCost + b.reservedCost <= o.costLimit.value + TotalExcess(o, events)
    decreases |events|
  {
    if events != [] {
      BudgetBound(o, events[..|events| - 1]);
    }
  }

  // ----- calls that keep to their reservations

  lemma ScaleMonotone(a: real, b: real, price: real)
    requires a <= b && price >= 0.0
    ensures a * price <= b * price
  {
    assert (b - a) * price >= 0.0;
    assert (b - a) * price == b * price - a * price;
  }

  lemma CostMonotone(o: Observability, u: Usage, v: Usage)
    requires o.WellFormed() && u.input <= v.input && u.output <= v.output
    ensures Cost(o, u.input, u.output) <= Cost(o, v.input, v.output)
  {
    ScaleMonotone(u.input as real, v.input as real, OrZero(o.inputPrice));
    ScaleMonotone(u.output as real, v.output as real, OrZero(o.outputPrice));
  }

  /** What the checks before a call are for: under a cost limit, an admitted call that
      obeys every output cap it declares and its input estimate cannot cost more than
      is reserved for it. */
  lemma AdmittedCallFits(o: Observability, b: Book, r: Request, u: Usage)
    requires o.WellFormed() && o.costLimit.Some? && Admit(o, b, r).None?
    requires u.input <= EstimatedInput(r) && forall cap :: cap in r.declaredCaps ==> u.output <= cap
    ensures o.inputPrice.Some? && o.outputPrice.Some?
    ensures Cost(o, u.input, u.output) <= Cost(o, EstimatedInput(r), o.Output())
    ensures b.usedCost + b.reservedCost + Cost(o, u.input, u.output) <= o.costLimit.value
  {
    CostMonotone(o, u, Usage(EstimatedInput(r), o.Output()));
  }

  predicate Priced(o: Observability, b: Book) {
    forall run :: run in b.reservations ==>
        b.reservations[run].cost == Cost(o, b.reservations[run].input, b.reservations[run].output)
  }

  lemma {:induction false} AlwaysPriced(o: Observability, events: seq<Event>)
    ensures Priced(o, Replay(o, events))
    decreases |events|
  {
    if events != [] {
      AlwaysPriced(o, events[..|events| - 1]);
    }
  }

  /** A reported usage belongs to an open reservation and stays within its tokens. */
  predicate WithinReservation(b: Book, e: Event) {
    e.End? && e.usage.Some? ==>
      && e.run in b.reservations
      && e.usage.value.input <= b.reservations[e.run].input && e.usage.value.output <= b.reservations[e.run].output
  }

  predicate AllWithin(o: Observability, events: seq<Event>) {
    events == [] ||
    (AllWithin(o, events[..|events| - 1]) && WithinReservation(Replay(o, events[..|events| - 1]), events[|events| - 1]))
  }

  lemma {:induction false} NoExcess(o: Observability, events: seq<Event>)
    requires o.WellFormed() && AllWithin(o, events)
    ensures TotalExcess(o, events) == 0.0
    decreases |events|
  {
    if events != [] {
      var before, e := events[..|events| - 1], events[|events| - 1];
      NoExcess(o, before);
      AlwaysPriced(o, before);
      if e.End? && e.usage.Some? {
        var held := Held(Replay(o, before), e.run);
        CostMonotone(o, e.usage.value, Usage(held.input, held.output));
      }
    }
  }

  /** No interleaving of calls that keep to their reserved tokens goes over the limit. */
  lemma NeverOverBudget(o: Observability, events: seq<Event>)
    requires o.WellFormed() && o.costLimit.Some? && AllWithin(o, events)
    ensures Replay(o, events).usedCost + Replay(o, events).reservedCost <= o.costLimit.value
  {
    BudgetBound(o, events);
    NoExcess(o, events);
  }

  /** The money a settled event is charged. */
  function Charged(o: Observability, b: Book, e: Event): real {
    if e.Start? then 0.0
    else if e.End? && e.usage.Some? then
      (e.usage.value.input as real * OrZero(o.inputPrice)
       + e.usage.value.output as real * OrZero(o.outputPrice)) / 1000000.0
    else if e.run in b.reservations then b.reservations[e.run].cost
    else 0.0
  }

  function TotalCharged(o: Observability, events: seq<Event>): real {
    if events == [] then 0.0
    else TotalCharged(o, events[..|events| - 1]) + Charged(o, Replay(o, events[..|events| - 1]), events[|events| - 1])
  }

  lemma ChargesWhat(o: Observability, b: Book, e: Event)
    ensures Apply(o, b, e).usedCost == b.usedCost + Charged(o, b, e)
  {
    hide Admit, OrZero;
  }

  /** When every call of a run has ended, nothing stays reserved and the used cost is
      exactly what the calls were charged. */
  lemma {:induction false} SettledRun(o: Observability, events: seq<Event>)
    ensures Replay(o, events).usedCost == TotalCharged(o, events)
    ensures FreshRuns(o, events) && Replay(o, events).reservations == map[] ==> Replay(o, events).reservedCost == 0.0
    decreases |events|
  {
    hide Apply, Charged, FreshRuns;
    if events != [] {
      SettledRun(o, events[..|events| - 1]);
      ChargesWhat(o, Replay(o, events[..|events| - 1]), events[|events| - 1]);
    }
    if FreshRuns(o, events) {
      ReservedIsOpen(o, events);
    }
  }

  // ----- the counter as the program keeps it

  class TokenUsageCounter {
    const observability: Observability
    var inputTokens: int
    var outputTokens: int
    var modelCalls: nat
    var estimatedInputTokens: int
    var estimatedOutputTokens: int
    var usedCost: real
    var reservedCost: real
    var missingUsage: bool
    var reservations: map<RunId, Reservation>

    constructor (observability: Observability)
      ensures this.observability == observability && Contents() == EMPTY
    {
      this.observability := observability;
      inputTokens, outputTokens, modelCalls, estimatedInputTokens, estimatedOutputTokens := 0, 0, 0, 0, 0;
      usedCost, reservedCost, missingUsage, reservations := 0.0, 0.0, false, map[];
    }

    function Contents(): Book
      reads this
    {
      Book(inputTokens, outputTokens, modelCalls, estimatedInputTokens, estimatedOutputTokens,
           usedCost, reservedCost, missingUsage, reservations)
    }

    method OnChatModelStart(run: RunId, request: Request) returns (refusal: Option<Refusal>)
      modifies this
      ensures refusal == Admit(observability, old(Contents()), request)
      ensures Contents() == Apply(observability, old(Contents()), Start(run, request))
    {
      refusal := Precheck(observability, request);
      if refusal.Some? {
        return;
      }
      var cost := Cost(observability, EstimatedInput(request), observability.Output());
      if modelCalls >= observability.Calls() {
        return Some(CallLimit);
      }
      if observability.costLimit.Some? && usedCost + reservedCost + cost > observability.costLimit.value {
        return Some(OverBudget);
      }
      modelCalls := modelCalls + 1;
      reservedCost := reservedCost + cost;
      reservations := reservations[run := Reservation(cost, EstimatedInput(request), observability.Output())];
      refusal := None;
    }

    method OnLlmEnd(run: RunId, usage: Option<Usage>)
      modifies this
      ensures Contents() == Apply(observability, old(Contents()), End(run, usage))
    {
      var held := if run in reservations then reservations[run] else Reservation(0.0, 0, 0);
      reservations := reservations - {run};
      reservedCost := reservedCost - held.cost;
      match usage {
        case Some(u) =>
          inputTokens, outputTokens := inputTokens + u.input, outputTokens + u.output;
          estimatedInputTokens := estimatedInputTokens + u.input;
          estimatedOutputTokens := estimatedOutputTokens + u.output;
          usedCost := usedCost + Cost(observability, u.input, u.output);
        case None =>
          estimatedInputTokens := estimatedInputTokens + held.input;
          estimatedOutputTokens := estimatedOutputTokens + held.output;
          missingUsage := true;
          usedCost := usedCost + held.cost;
      }
    }

    method OnLlmError(run: RunId)
      modifies this
      ensures Contents() == Apply(observability, old(Contents()), Error(run))
    {
      var held := if run in reservations then reservations[run] else Reservation(0.0, 0, 0);
      reservations := reservations - {run};
      reservedCost := reservedCost - held.cost;
      usedCost := usedCost + held.cost;
      estimatedInputTokens := estimatedInputTokens + held.input;
      estimatedOutputTokens := estimatedOutputTokens + held.output;
      missingUsage := true;
    }
  }
}
