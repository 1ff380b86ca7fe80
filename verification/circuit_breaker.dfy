/** The per-service circuit breaker of src/utils/circuitBreaker.js.

    The breaker keeps, per service id, a record of its state, its failure
    count and the time of its last failure, created lazily on first use.
    `call(serviceId, apiCall)` has two halves separated by `await apiCall()`:
    admission (lines 13-31) decides whether `apiCall` runs at all, and
    completion (lines 34-50) books the outcome against the entry as it is
    when the call settles. The model keeps the halves apart as `Admit` and
    `Complete` (so that anything may happen to the registry in between) and
    composes them as `Call`. The clock is read twice in the source
    (`Date.now()` at lines 24 and 42), so the model takes two times. */
module CircuitBreaker {
  import opened Values

  /** Failures at which a closed circuit opens (line 8). */
  const FailureThreshold: nat := 3

  /** Milliseconds an open circuit waits before letting a probe through (line 9). */
  const ResetTimeout: nat := 10000

  datatype Phase = Closed | Open | HalfOpen

  /** The string the source stores for each phase. */
  function PhaseName(p: Phase): string {
    match p
    case Closed => "CLOSED"
    case Open => "OPEN"
    case HalfOpen => "HALF-OPEN"
  }

  /** One service's breaker record. */
  datatype Entry = Entry(state: Phase, failures: nat, lastFailureTime: Option<nat>)

  /** The record created for an unseen service id (lines 14-18). */
  const Fresh: Entry := Entry(Closed, 0, None)

  /** `this.states`: service id to record. */
  type Registry = map<string, Entry>

  /** What `apiCall()` settled with. */
  datatype Outcome<+R, +E> = Ok(value: R) | Err(error: E)

  /** What `call` settles with: the result, the very error `apiCall` threw, or
      the breaker's own error when the call was refused. */
  datatype CallResult<+R, +E> = Returned(value: R) | Rethrown(error: E) | Unavailable(message: string)

  /** The message of the error thrown for a refused call (lines 27-29). */
  function UnavailableMessage(serviceId: string): string {
    "Service " + serviceId + " is unavailable - circuit breaker is open"
  }

  /** The record the call works on: the stored one, or a fresh one. */
  function EntryOf(reg: Registry, serviceId: string): Entry {
    if serviceId in reg then reg[serviceId] else Fresh
  }

  /** `now - lastFailureTime` as JavaScript computes it: `null` counts as 0. */
  function Elapsed(e: Entry, now: nat): int {
    now - e.lastFailureTime.GetOr(0)
  }

  /** An open record refuses calls until the reset timeout has passed. */
  predicate Refuses(e: Entry, now: nat) {
    e.state == Open && Elapsed(e, now) < ResetTimeout
  }

  /** Every record that is not closed has seen at least `FailureThreshold`
      failures and remembers when the last one happened. */
  predicate ValidEntry(e: Entry) {
    e.state != Closed ==> e.failures >= FailureThreshold && e.lastFailureTime.Some?
  }

  predicate Valid(reg: Registry) {
    forall id :: id in reg ==> ValidEntry(reg[id])
  }

  /** Registry `after` differs from `before` at most at `serviceId`, which it holds. */
  predicate OnlyTouches(before: Registry, after: Registry, serviceId: string) {
    && after.Keys == before.Keys + {serviceId}
    && forall id :: id in before && id != serviceId ==> after[id] == before[id]
  }

  // ------------------------------------------------------------------ admission

  datatype Admission = Admitted | Refused(message: string)

  datatype AdmitStep = AdmitStep(admission: Admission, registry: Registry)

  /** Lines 13-31: create the record if missing, then either refuse the call
      (open, timeout not yet passed) or let it through, turning an open record
      whose timeout has passed into a half-open one. */
  function Admit(reg: Registry, serviceId: string, now: nat): (r: AdmitStep)
    ensures OnlyTouches(reg, r.registry, serviceId)
    ensures serviceId !in reg ==> r.admission == Admitted && r.registry[serviceId] == Fresh
    ensures r.admission.Refused? <==> Refuses(EntryOf(reg, serviceId), now)
    ensures r.admission.Refused? ==>
      r.registry == reg && r.admission.message == UnavailableMessage(serviceId)
    ensures r.admission.Admitted? ==> r.registry[serviceId].state != Open
    ensures r.admission.Admitted? && EntryOf(reg, serviceId).state == Open ==>
      r.registry[serviceId] == EntryOf(reg, serviceId).(state := HalfOpen)
    ensures EntryOf(reg, serviceId).state != Open ==> r.registry[serviceId] == EntryOf(reg, serviceId)
  {
    var e := EntryOf(reg, serviceId);
    var reg' := reg[serviceId := e];
    if e.state == Open then
      if Elapsed(e, now) >= ResetTimeout then
        AdmitStep(Admitted, reg'[serviceId := e.(state := HalfOpen)])
      else
        AdmitStep(Refused(UnavailableMessage(serviceId)), reg')
    else
      AdmitStep(Admitted, reg')
  }

  // ------------------------------------------------------------------ completion

  datatype CompleteStep<+R, +E> = CompleteStep(result: CallResult<R, E>, registry: Registry)

  /** Lines 34-50: book the outcome against the record as it is NOW (the
      source re-reads `serviceState.state` after the await). A success closes
      a half-open record and otherwise changes nothing; a failure counts one
      more failure, stamps the time, and opens the record when the count
      reaches the threshold or the record was half-open. */
  function Complete<R, E>(reg: Registry, serviceId: string, now: nat, outcome: Outcome<R, E>): (r: CompleteStep<R, E>)
    requires serviceId in reg
    ensures OnlyTouches(reg, r.registry, serviceId)
    ensures outcome.Ok? ==> r.result == Returned(outcome.value)
    ensures outcome.Err? ==> r.result == Rethrown(outcome.error)
    ensures outcome.Ok? && reg[serviceId].state == HalfOpen ==>
      r.registry[serviceId].state == Closed && r.registry[serviceId].failures == 0
    ensures outcome.Ok? && reg[serviceId].state != HalfOpen ==> r.registry == reg
    ensures outcome.Err? ==>
      && r.registry[serviceId].failures == reg[serviceId].failures + 1
      && r.registry[serviceId].lastFailureTime == Some(now)
      && (r.registry[serviceId].state == Open <==>
            r.registry[serviceId].failures >= FailureThreshold || reg[serviceId].state != Closed)
      && (r.registry[serviceId].state != Open ==> r.registry[serviceId].state == reg[serviceId].state)
  {
    var e := reg[serviceId];
    match outcome
    case Ok(v) =>
      if e.state == HalfOpen then
        CompleteStep(Returned(v), reg[serviceId := e.(state := Closed, failures := 0)])
      else
        CompleteStep(Returned(v), reg)
    case Err(err) =>
      var counted := e.(failures := e.failures + 1, lastFailureTime := Some(now));
      var opens := counted.failures >= FailureThreshold || counted.state == HalfOpen;
      CompleteStep(Rethrown(err), reg[serviceId := if opens then counted.(state := Open) else counted])
  }

  // ------------------------------------------------------------------ the whole call

  datatype CallStep<+R, +E> = CallStep(result: CallResult<R, E>, registry: Registry, invoked: bool)

  /** `call(serviceId, apiCall)` with nothing else running between admission
      and completion. `outcome` is what `apiCall()` settles with when it is
      invoked; `admittedAt` and `settledAt` are the two clock readings. */
  function Call<R, E>(reg: Registry, serviceId: string, admittedAt: nat, settledAt: nat,
                      outcome: Outcome<R, E>): (r: CallStep<R, E>)
    ensures OnlyTouches(reg, r.registry, serviceId)
    ensures serviceId !in reg ==> r.invoked
    ensures !r.invoked <==> Refuses(EntryOf(reg, serviceId), admittedAt)
    ensures !r.invoked ==>
      r.result == Unavailable(UnavailableMessage(serviceId)) && r.registry == reg
    ensures r.invoked && outcome.Ok? ==> r.result == Returned(outcome.value)
    ensures r.invoked && outcome.Err? ==> r.result == Rethrown(outcome.error)
    ensures r.invoked && outcome.Ok? ==>
      if EntryOf(reg, serviceId).state == Closed then r.registry[serviceId] == EntryOf(reg, serviceId)
      else r.registry[serviceId].state == Closed && r.registry[serviceId].failures == 0
    ensures r.invoked && outcome.Err? ==>
      && r.registry[serviceId].failures == EntryOf(reg, serviceId).failures + 1
      && r.registry[serviceId].lastFailureTime == Some(settledAt)
      && (r.registry[serviceId].state == Open <==>
            r.registry[serviceId].failures >= FailureThreshold || EntryOf(reg, serviceId).state != Closed)
  {
    var admit := Admit(reg, serviceId, admittedAt);
    match admit.admission
    case Refused(message) => CallStep(Unavailable(message), reg, false)
    case Admitted =>
      var done := Complete(admit.registry, serviceId, settledAt, outcome);
      CallStep(done.result, done.registry, true)
  }

  // ------------------------------------------------------------------ properties

  /** Admission and completion each keep every record valid, so the
      invariant survives any interleaving of concurrent calls, not only
      sequential ones. */
  lemma AdmitKeepsValid(reg: Registry, serviceId: string, now: nat)
    requires Valid(reg)
    ensures Valid(Admit(reg, serviceId, now).registry)
  {
  }

  lemma CompleteKeepsValid<R, E>(reg: Registry, serviceId: string, now: nat, outcome: Outcome<R, E>)
    requires Valid(reg) && serviceId in reg
    ensures Valid(Complete(reg, serviceId, now, outcome).registry)
  {
  }

  lemma CallKeepsValid<R, E>(reg: Registry, serviceId: string, admittedAt: nat, settledAt: nat,
                             outcome: Outcome<R, E>)
    requires Valid(reg)
    ensures Valid(Call(reg, serviceId, admittedAt, settledAt, outcome).registry)
  {
  }

  // ------------------------------------------------------------------ runs of calls

  /** One call of a sequence: the service, the two clock readings, and what
      `apiCall` would settle with if invoked. */
  datatype Attempt<+R, +E> = Attempt(serviceId: string, admittedAt: nat, settledAt: nat, outcome: Outcome<R, E>)

  /** The registry after making the calls one after another. */
  function Run<R, E>(reg: Registry, attempts: seq<Attempt<R, E>>): Registry
    decreases |attempts|
  {
    if |attempts| == 0 then reg
    else
      var last := attempts[|attempts| - 1];
      Call(Run(reg, attempts[..|attempts| - 1]), last.serviceId, last.admittedAt, last.settledAt, last.outcome).registry
  }

  /** Calls on other services never touch a service's record. */
  lemma {:induction false} RunIsolatesServices<R, E>(reg: Registry, attempts: seq<Attempt<R, E>>, serviceId: string)
    requires forall i :: 0 <= i < |attempts| ==> attempts[i].serviceId != serviceId
    ensures serviceId in Run(reg, attempts) <==> serviceId in reg
    ensures serviceId in reg ==> Run(reg, attempts)[serviceId] == reg[serviceId]
    decreases |attempts|
  {
    if |attempts| > 0 {
      RunIsolatesServices(reg, attempts[..|attempts| - 1], serviceId);
    }
  }

  /** A run keeps every record valid. */
  lemma {:induction false} RunKeepsValid<R, E>(reg: Registry, attempts: seq<Attempt<R, E>>)
    requires Valid(reg)
    ensures Valid(Run(reg, attempts))
    decreases |attempts|
  {
    if |attempts| > 0 {
      var prefix := attempts[..|attempts| - 1];
      var last := attempts[|attempts| - 1];
      RunKeepsValid(reg, prefix);
      CallKeepsValid(Run(reg, prefix), last.serviceId, last.admittedAt, last.settledAt, last.outcome);
    }
  }

  /** Three failing calls on an unseen service, each settling before the
      next starts, open its circuit; a fourth call within the reset timeout
      of the last failure is refused without invoking `apiCall`, with the
      breaker's own message. */
  lemma ThreeFailuresOpen<R, E>(serviceId: string, t1: nat, t2: nat, t3: nat, t4: nat, err: E, next: Outcome<R, E>)
    requires t4 < t3 + ResetTimeout
    ensures var r1 := Call<R, E>(map[], serviceId, t1, t1, Err(err));
      var r2 := Call<R, E>(r1.registry, serviceId, t2, t2, Err(err));
      var r3 := Call<R, E>(r2.registry, serviceId, t3, t3, Err(err));
      var r4 := Call<R, E>(r3.registry, serviceId, t4, t4, next);
      && r1.result == Rethrown(err) && r2.result == Rethrown(err) && r3.result == Rethrown(err)
      && r1.registry[serviceId].state == Closed && r2.registry[serviceId].state == Closed
      && r3.registry[serviceId] == Entry(Open, 3, Some(t3))
      && !r4.invoked && r4.result == Unavailable(UnavailableMessage(serviceId))
  {
  }

  /** Failures separated by successes still accumulate: fail, succeed, fail,
      succeed, fail opens the circuit. */
  lemma InterleavedFailuresOpen<R, E>(serviceId: string, t: nat, err: E, v: R)
    ensures var r1 := Call<R, E>(map[], serviceId, t, t, Err(err));
      var r2 := Call<R, E>(r1.registry, serviceId, t, t, Ok(v));
      var r3 := Call<R, E>(r2.registry, serviceId, t, t, Err(err));
      var r4 := Call<R, E>(r3.registry, serviceId, t, t, Ok(v));
      var r5 := Call<R, E>(r4.registry, serviceId, t, t, Err(err));
      r5.registry[serviceId] == Entry(Open, 3, Some(t))
  {
  }

  /** After the timeout a successful probe closes the circuit with a zero
      count; after that, a single failure leaves it closed. */
  lemma RecoveryAfterTimeout<R, E>(reg: Registry, serviceId: string, t: nat, err: E, v: R)
    requires serviceId in reg && ValidEntry(reg[serviceId]) && reg[serviceId].state == Open
    requires t >= reg[serviceId].lastFailureTime.value + ResetTimeout
    ensures var r1 := Call<R, E>(reg, serviceId, t, t, Ok(v));
      var r2 := Call<R, E>(r1.registry, serviceId, t, t, Err(err));
      && r1.invoked && r1.result == Returned(v)
      && r1.registry[serviceId].state == Closed && r1.registry[serviceId].failures == 0
      && r2.invoked && r2.registry[serviceId].state == Closed && r2.registry[serviceId].failures == 1
  {
  }

  // ------------------------------------------------------------------ the registry as written

  /** The property names a plain object literal inherits from
      `Object.prototype`. `this.states` is such a literal (line 7), so
      looking one of these up finds a truthy inherited member, not
      `undefined`. */
  const InheritedNames: set<string> := {
    "constructor", "hasOwnProperty", "isPrototypeOf", "propertyIsEnumerable",
    "toLocaleString", "toString", "valueOf", "__proto__",
    "__defineGetter__", "__defineSetter__", "__lookupGetter__", "__lookupSetter__"
  }

  /** What `call` settles with when `apiCall` was invoked. */
  function Settled<R, E>(outcome: Outcome<R, E>): CallResult<R, E> {
    match outcome
    case Ok(v) => Returned(v)
    case Err(err) => Rethrown(err)
  }

  /** `call` as the source behaves on its plain-object registry. For an id
      naming an inherited member, `!this.states[serviceId]` (line 13) is
      false, so no record is created and `serviceState` is the inherited
      member: its `state` is `undefined`, so the call is never refused and
      a success changes nothing; a failure turns its `failures` into `NaN`,
      and `NaN >= 3` is false, so its state is never set. No record of the
      registry changes. Every other id behaves as in `Call`. */
  function CallAsWritten<R, E>(reg: Registry, serviceId: string, admittedAt: nat, settledAt: nat,
                               outcome: Outcome<R, E>): (r: CallStep<R, E>)
    ensures serviceId in InheritedNames && serviceId !in reg ==>
      r.invoked && r.registry == reg && r.result == Settled(outcome)
    ensures serviceId !in InheritedNames ==> r == Call(reg, serviceId, admittedAt, settledAt, outcome)
  {
    if serviceId in InheritedNames && serviceId !in reg then CallStep(Settled(outcome), reg, true)
    else Call(reg, serviceId, admittedAt, settledAt, outcome)
  }

  /** The registry after making the calls one after another, as written. */
  function RunAsWritten<R, E>(reg: Registry, attempts: seq<Attempt<R, E>>): Registry
    decreases |attempts|
  {
    if |attempts| == 0 then reg
    else
      var last := attempts[|attempts| - 1];
      CallAsWritten(RunAsWritten(reg, attempts[..|attempts| - 1]), last.serviceId, last.admittedAt,
        last.settledAt, last.outcome).registry
  }

  /** As written, no run of calls ever gives an inherited name a record, so
      however often calls on it fail, the next one is invoked. */
  lemma {:induction false} InheritedNamesNeverOpen<R, E>(reg: Registry, attempts: seq<Attempt<R, E>>, serviceId: string,
                                                       now: nat, outcome: Outcome<R, E>)
    requires serviceId in InheritedNames && serviceId !in reg
    ensures serviceId !in RunAsWritten(reg, attempts)
    ensures CallAsWritten(RunAsWritten(reg, attempts), serviceId, now, now, outcome).invoked
    decreases |attempts|
  {
    if |attempts| > 0 {
      InheritedNamesNeverOpen(reg, attempts[..|attempts| - 1], serviceId, now, outcome);
    }
  }

  /** The counterpart of `ThreeFailuresOpen` as written: three failing calls
      on `"toString"` leave no record, and a fourth call within the reset
      timeout still invokes `apiCall`. */
  lemma ToStringNeverOpens<R, E>(t1: nat, t2: nat, t3: nat, t4: nat, err: E, next: Outcome<R, E>)
    requires t4 < t3 + ResetTimeout
    ensures var r1 := CallAsWritten<R, E>(map[], "toString", t1, t1, Err(err));
      var r2 := CallAsWritten<R, E>(r1.registry, "toString", t2, t2, Err(err));
      var r3 := CallAsWritten<R, E>(r2.registry, "toString", t3, t3, Err(err));
      var r4 := CallAsWritten<R, E>(r3.registry, "toString", t4, t4, next);
      && r3.registry == map[] && r4.invoked
      && r4.result != Unavailable(UnavailableMessage("toString"))
  {
  }
}
