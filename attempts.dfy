/** index.js:30-79: the attempt loop of fetch(), with the transport, the body decoding, the
    timers and the backoff generator replaced by what the environment decides each round. */
module Attempts {
  import opened Js
  import opened FetchOptions

  // ---------------------------------------------------------------------------------------
  // What the environment decides
  // ---------------------------------------------------------------------------------------

  /** What the transport call of one attempt did: answered with a response, or threw. */
  datatype Transport = Responded(response: Response) | Failed(error: Thrown)

  /** What `await backoff(error)` does with the error it is given: waits and returns, or
      gives up by throwing that error. */
  datatype Step = Wait | GiveUp

  /** One round of the `for await` loop: one value yielded by the backoff generator and
      everything the outside world decides during the attempt it guards. */
  datatype Round = Round(
    transport: Transport,
    decoded: Result<Value, Thrown>,   // response[responseType]() on a response that passed validation
    errorBody: Option<Value>,         // response[responseType]() on the error's response; None when it throws
    timeoutFired: bool,               // this attempt's timeout source has aborted when the error is examined
    step: Step,                       // what backoff does, when it is consulted
    userAbort: Option<Thrown>,        // the reason of the caller's signal, when it is aborted after the wait
    controllerAbort: Option<Thrown>)  // the reason given to promise.controller.abort() during the wait

  /** The options the loop reads: validateStatus, responseType, signal and timeout. */
  datatype Config = Config(validateStatus: Value, responseType: Value, signal: Value, timeout: Value)

  /** What the promise resolves with: the decoded body, or the response itself. */
  datatype Resolved = Body(body: Value) | Raw(response: Response)

  datatype Settlement = Pending | Fulfilled(value: Resolved) | Rejected(error: Thrown)

  /** How one round ends: resolve, reject, or go on to the next value of the generator. */
  datatype Verdict = Resolve(value: Resolved) | Reject(error: Thrown) | Retry

  /** How the whole loop ends, and how many transport calls it made. */
  datatype Final = Final(settlement: Settlement, attempts: nat)

  /** `responseType === 'json' || responseType === 'text'`. */
  predicate DecodesBody(rt: Value) { IsStr(rt, "json") || IsStr(rt, "text") }

  /** A timeout source exists for the attempt and has fired. */
  predicate TimedOut(cfg: Config, r: Round) { TimeoutFor(cfg.timeout).Some? && r.timeoutFired }

  /** The reason of an `AbortSignal.timeout` signal: a DOMException named TimeoutError
      (code 23, TIMEOUT_ERR). */
  const TimeoutError: Thrown := Thrown("TimeoutError", "The operation was aborted due to timeout", Num(23), None, Undefined)

  /** The names the loop rejects without consulting backoff (index.js:59). */
  predicate Terminal(e: Thrown) { e.name == "AbortError" || e.name == "LikeFetchError" }

  // ---------------------------------------------------------------------------------------
  // One round as a function
  // ---------------------------------------------------------------------------------------

  /** The try block (index.js:32-45): what resolves the promise, or what is thrown. */
  function Attempt(cfg: Config, r: Round): (a: Result<Resolved, Thrown>)
    ensures r.transport.Failed? ==> a == Failure(r.transport.error)
    ensures r.transport.Responded? && ValidateStatus(r.transport.response, cfg.validateStatus).Some? ==>
              a == Failure(ValidateStatus(r.transport.response, cfg.validateStatus).value)
    ensures a.Success? <==>
              r.transport.Responded? && ValidateStatus(r.transport.response, cfg.validateStatus).None?
              && (DecodesBody(cfg.responseType) ==> r.decoded.Success?)
    ensures a.Success? ==> a.value == (if DecodesBody(cfg.responseType) then Body(r.decoded.value) else Raw(r.transport.response))
    ensures a.Failure? && r.transport.Responded? && ValidateStatus(r.transport.response, cfg.validateStatus).None? ==>
              a.error == r.decoded.error
  {
    match r.transport
    case Failed(e) => Failure(e)
    case Responded(response) =>
      match ValidateStatus(response, cfg.validateStatus)
      case Some(e) => Failure(e)
      case None =>
        if !DecodesBody(cfg.responseType) then Success(Raw(response))
        else match r.decoded
          case Success(v) => Success(Body(v))
          case Failure(e) => Failure(e)
  }

  /** The error after the timeout patch and the best-effort body decoding (index.js:47-57). */
  function Examined(cfg: Config, r: Round, error: Thrown): (e: Thrown)
    ensures e.name == (if error.name == "AbortError" && TimedOut(cfg, r) then "TimeoutError" else error.name)
    ensures !(error.name == "AbortError" && TimedOut(cfg, r)) ==>
              e.message == error.message && e.code == error.code && e.response == error.response
    ensures e.body == (if e.response.Some? && DecodesBody(cfg.responseType) && r.errorBody.Some?
                       then r.errorBody.value
                       else if error.name == "AbortError" && TimedOut(cfg, r) then Undefined
                       else error.body)
  {
    var patched := if error.name == "AbortError" && TimedOut(cfg, r) then TimeoutError else error;
    if patched.response.Some? && DecodesBody(cfg.responseType) && r.errorBody.Some? then
      patched.(body := r.errorBody.value)
    else patched
  }

  /** The catch block (index.js:46-77) for the error the try block threw. */
  function Caught(cfg: Config, r: Round, error: Thrown): (v: Verdict)
    ensures !v.Resolve?
    ensures Terminal(Examined(cfg, r, error)) ==> v == Reject(Examined(cfg, r, error))
    ensures !Terminal(Examined(cfg, r, error)) && r.step.GiveUp? ==> v == Reject(Examined(cfg, r, error))
    ensures v.Retry? <==>
              !Terminal(Examined(cfg, r, error)) && r.step.Wait?
              && !(Truthy(cfg.signal) && r.userAbort.Some?) && r.controllerAbort.None?
    ensures !Terminal(Examined(cfg, r, error)) && r.step.Wait? && Truthy(cfg.signal) && r.userAbort.Some? ==>
              v == Reject(r.userAbort.value)
    ensures (!Terminal(Examined(cfg, r, error)) && r.step.Wait? && !(Truthy(cfg.signal) && r.userAbort.Some?)
             && r.controllerAbort.Some?) ==> v == Reject(r.controllerAbort.value)
  {
    var e := Examined(cfg, r, error);
    if Terminal(e) then Reject(e)
    else if r.step.GiveUp? then Reject(e)
    else if Truthy(cfg.signal) && r.userAbort.Some? then Reject(r.userAbort.value)
    else if r.controllerAbort.Some? then Reject(r.controllerAbort.value)
    else Retry
  }

  /** One iteration of the `for await` loop. */
  function RoundVerdict(cfg: Config, r: Round): (v: Verdict)
    ensures v.Resolve? <==> Attempt(cfg, r).Success?
    ensures v.Resolve? ==> v.value == Attempt(cfg, r).value
    ensures !v.Resolve? ==> v == Caught(cfg, r, Attempt(cfg, r).error)
  {
    match Attempt(cfg, r)
    case Success(x) => Resolve(x)
    case Failure(e) => Caught(cfg, r, e)
  }

  function Outcome(v: Verdict): Settlement {
    match v
    case Resolve(x) => Fulfilled(x)
    case Reject(e) => Rejected(e)
    case Retry => Pending
  }

  /** The whole loop over the values the generator yields: it stops at the first round that
      does not retry; when every round retries and the generator ends, the promise never settles. */
  function Settle(cfg: Config, rounds: seq<Round>): (f: Final)
    ensures f.attempts <= |rounds|
    ensures f.settlement.Pending? <==> forall i :: 0 <= i < |rounds| ==> RoundVerdict(cfg, rounds[i]).Retry?
    ensures f.settlement.Pending? ==> f.attempts == |rounds|
    ensures !f.settlement.Pending? ==>
              1 <= f.attempts
              && (forall i :: 0 <= i < f.attempts - 1 ==> RoundVerdict(cfg, rounds[i]).Retry?)
              && f.settlement == Outcome(RoundVerdict(cfg, rounds[f.attempts - 1]))
  {
    if rounds == [] then Final(Pending, 0)
    else
      match RoundVerdict(cfg, rounds[0])
      case Retry =>
        var f := Settle(cfg, rounds[1..]);
        assert forall i :: 1 <= i < |rounds| ==> rounds[i] == rounds[1..][i - 1];
        Final(f.settlement, f.attempts + 1)
      case Resolve(x) => Final(Fulfilled(x), 1)
      case Reject(e) => Final(Rejected(e), 1)
  }

  /** One step of Settle from round `i` on: a retry moves to the next round, anything else
      settles there. */
  lemma SettleFrom(cfg: Config, rounds: seq<Round>, i: nat)
    requires i < |rounds|
    ensures RoundVerdict(cfg, rounds[i]).Retry? ==>
              Settle(cfg, rounds[i..]) == Final(Settle(cfg, rounds[i + 1..]).settlement, Settle(cfg, rounds[i + 1..]).attempts + 1)
    ensures !RoundVerdict(cfg, rounds[i]).Retry? ==>
              Settle(cfg, rounds[i..]) == Final(Outcome(RoundVerdict(cfg, rounds[i])), 1)
  {
    assert rounds[i..][0] == rounds[i] && rounds[i..][1..] == rounds[i + 1..];
  }

  // ---------------------------------------------------------------------------------------
  // The loop as it runs: the promise, its controller, and the rounds
  // ---------------------------------------------------------------------------------------

  ghost predicate Distinct(cs: seq<AbortController>) {
    forall j, k :: 0 <= j < k < |cs| ==> cs[j] != cs[k]
  }

  lemma DistinctAppend(cs: seq<AbortController>, c: AbortController)
    requires Distinct(cs) && c !in cs
    ensures Distinct(cs + [c])
  {
    var ds := cs + [c];
    forall j, k | 0 <= j < k < |ds|
      ensures ds[j] != ds[k]
    {
      if k == |cs| {
        assert ds[j] == cs[j] && cs[j] in cs;
      } else {
        assert ds[j] == cs[j] && ds[k] == cs[k];
      }
    }
  }

  /** An AbortController: its signal's reason once aborted. */
  class AbortController {
    var reason: Option<Thrown>

    constructor ()
      ensures reason.None?
    {
      reason := None;
    }

    /** `controller.abort(reason)`: a second abort changes nothing. */
    method Abort(r: Thrown)
      modifies this
      ensures reason == if old(reason).Some? then old(reason) else Some(r)
    {
      if reason.None? {
        reason := Some(r);
      }
    }
  }

  /** The promise fetch() returns, with its `controller` property. */
  class FetchPromise {
    var controller: AbortController
    var settlement: Settlement
    /** Calls of resolve and reject so far. */
    var calls: nat
    /** Transport calls so far. */
    var attempts: nat
    /** Every controller the property has held, oldest first. */
    ghost var controllers: seq<AbortController>

    constructor ()
      ensures settlement == Pending && calls == 0 && attempts == 0
      ensures fresh(controller) && controller.reason.None? && controllers == [controller]
    {
      settlement := Pending;
      calls := 0;
      attempts := 0;
      var c := new AbortController();
      controller := c;
      controllers := [c];
    }

    /** `resolve(value)`: only the first settlement of a promise counts. */
    method Resolve(value: Resolved)
      modifies this
      ensures settlement == (if old(settlement).Pending? then Fulfilled(value) else old(settlement))
      ensures calls == old(calls) + 1
      ensures attempts == old(attempts) && controller == old(controller) && controllers == old(controllers)
    {
      if settlement.Pending? {
        settlement := Fulfilled(value);
      }
      calls := calls + 1;
    }

    /** `reject(error)`. */
    method Reject(error: Thrown)
      modifies this
      ensures settlement == (if old(settlement).Pending? then Rejected(error) else old(settlement))
      ensures calls == old(calls) + 1
      ensures attempts == old(attempts) && controller == old(controller) && controllers == old(controllers)
    {
      if settlement.Pending? {
        settlement := Rejected(error);
      }
      calls := calls + 1;
    }

    /** The controllers held so far are pairwise distinct, the first is `first`, and the
        property holds the last. */
    ghost predicate DistinctControllers(first: AbortController)
      reads this
    {
      |controllers| > 0 && controllers[0] == first && controller == controllers[|controllers| - 1]
      && Distinct(controllers)
    }

    /** The try block (index.js:32-45): one transport call, then resolve, or hand the thrown
        error to the catch block; `thrown` is that error, and None once the promise resolved. */
    method RunTry(cfg: Config, r: Round) returns (thrown: Option<Thrown>)
      requires settlement.Pending? && calls == 0
      modifies this
      ensures thrown.None? <==> Attempt(cfg, r).Success?
      ensures thrown.None? ==> settlement == Fulfilled(Attempt(cfg, r).value) && calls == 1
      ensures thrown.Some? ==> thrown.value == Attempt(cfg, r).error && settlement.Pending? && calls == 0
      ensures attempts == old(attempts) + 1
      ensures controller == old(controller) && controllers == old(controllers)
    {
      attempts := attempts + 1;
      match r.transport {
        case Failed(e) =>
          return Some(e);
        case Responded(response) =>
          var invalid := ValidateStatus(response, cfg.validateStatus);
          if invalid.Some? {
            return Some(invalid.value);
          } else if !DecodesBody(cfg.responseType) {
            Resolve(Raw(response));
            return None;
          } else if r.decoded.Success? {
            Resolve(Body(r.decoded.value));
            return None;
          } else {
            return Some(r.decoded.error);
          }
      }
    }

    /** The catch block (index.js:46-77): reject, or wait out the backoff and put a new
        controller in place for the next attempt. */
    method RunCatch(cfg: Config, r: Round, thrown: Thrown) returns (done: bool)
      requires settlement.Pending? && calls == 0 && controller.reason.None?
      modifies this, controller
      ensures done <==> !Caught(cfg, r, thrown).Retry?
      ensures settlement == Outcome(Caught(cfg, r, thrown))
      ensures calls == if done then 1 else 0
      ensures attempts == old(attempts)
      ensures done ==> controller == old(controller) && controllers == old(controllers)
      ensures !done ==> fresh(controller) && controller.reason.None? && controllers == old(controllers) + [controller]
      ensures done ==>
                controller.reason == (if !Terminal(Examined(cfg, r, thrown)) && r.step.Wait? then r.controllerAbort else None)
    {
      var error := thrown;
      if error.name == "AbortError" && TimedOut(cfg, r) {
        error := TimeoutError;
      }
      if error.response.Some? && DecodesBody(cfg.responseType) && r.errorBody.Some? {
        error := error.(body := r.errorBody.value);
      }
      assert error == Examined(cfg, r, thrown);
      if error.name == "AbortError" || error.name == "LikeFetchError" {
        Reject(error);
        return true;
      }
      if r.step.GiveUp? {
        Reject(error);
        return true;
      }
      // the wait; the controller may be aborted meanwhile
      if r.controllerAbort.Some? {
        controller.Abort(r.controllerAbort.value);
      }
      if Truthy(cfg.signal) && r.userAbort.Some? {
        Reject(r.userAbort.value);
        return true;
      }
      if controller.reason.Some? {
        Reject(controller.reason.value);
        return true;
      }
      var next := new AbortController();
      controller := next;
      controllers := controllers + [next];
      return false;
    }

    /** One pass of the `for await` body (index.js:32-76): resolve or reject once and report
        that the loop is done, or put a new controller in place for the next attempt. */
    method RunAttempt(cfg: Config, r: Round) returns (done: bool)
      requires settlement.Pending? && calls == 0 && controller.reason.None?
      modifies this, controller
      ensures done <==> !RoundVerdict(cfg, r).Retry?
      ensures attempts == old(attempts) + 1
      ensures settlement == Outcome(RoundVerdict(cfg, r))
      ensures calls == if done then 1 else 0
      ensures done ==> controller == old(controller) && controllers == old(controllers)
      ensures !done ==> fresh(controller) && controller.reason.None? && controllers == old(controllers) + [controller]
      ensures done ==>
                controller.reason == (if Attempt(cfg, r).Failure? && !Terminal(Examined(cfg, r, Attempt(cfg, r).error))
                                         && r.step.Wait? then r.controllerAbort else None)
    {
      var thrown := RunTry(cfg, r);
      if thrown.None? {
        return true;
      }
      done := RunCatch(cfg, r, thrown.value);
    }

    /** callback (index.js:30-79): ends as Settle says, calls resolve or reject exactly once
        when it settles, and puts a new controller in place before every further attempt. */
    method Run(cfg: Config, rounds: seq<Round>)
      requires settlement.Pending? && calls == 0 && attempts == 0
      requires controllers == [controller] && controller.reason.None?
      modifies this, controller
      ensures settlement == Settle(cfg, rounds).settlement
      ensures attempts == Settle(cfg, rounds).attempts
      ensures calls == if settlement.Pending? then 0 else 1
      ensures |controllers| == (if settlement.Pending? then attempts + 1 else attempts)
      ensures DistinctControllers(old(controller))
      ensures forall i :: 1 <= i < |controllers| ==> fresh(controllers[i])
    {
      var i := 0;
      while i < |rounds|
        invariant 0 <= i <= |rounds|
        invariant settlement.Pending? && calls == 0 && attempts == i
        invariant |controllers| == i + 1 && DistinctControllers(old(controller))
        invariant controller.reason.None?
        invariant forall j :: 1 <= j < |controllers| ==> fresh(controllers[j])
        invariant Settle(cfg, rounds).settlement == Settle(cfg, rounds[i..]).settlement
        invariant Settle(cfg, rounds).attempts == i + Settle(cfg, rounds[i..]).attempts
      {
        SettleFrom(cfg, rounds, i);
        ghost var before := controllers;
        var done := RunAttempt(cfg, rounds[i]);
        if done {
          return;
        }
        assert controller !in before;
        DistinctAppend(before, controller);
        assert controllers == before + [controller];
        i := i + 1;
      }
    }
  }

  // ---------------------------------------------------------------------------------------
  // Properties of the retry decision
  // ---------------------------------------------------------------------------------------

  /** A transport failure that is neither an abort nor a validation failure. */
  predicate OtherFailure(r: Round) {
    r.transport.Failed? && !Terminal(r.transport.error)
  }

  /** The wait ends with neither the caller's signal nor the controller aborted. */
  predicate QuietWait(cfg: Config, r: Round) {
    !(Truthy(cfg.signal) && r.userAbort.Some?) && r.controllerAbort.None?
  }

  /** An abort the timeout source did not cause is rejected as it is, and what backoff would
      do makes no difference (index.js:48-51, 59-62). */
  lemma AbortNotFromTimeout(cfg: Config, r: Round, s: Step, rest: seq<Round>)
    requires r.transport.Failed? && r.transport.error.name == "AbortError" && !TimedOut(cfg, r)
    ensures RoundVerdict(cfg, r).Reject? && RoundVerdict(cfg, r).error.name == "AbortError"
    ensures RoundVerdict(cfg, r.(step := s)) == RoundVerdict(cfg, r)
    ensures Settle(cfg, [r] + rest) == Final(Rejected(RoundVerdict(cfg, r).error), 1)
  {
    assert ([r] + rest)[0] == r;
  }

  /** An abort the timeout source caused becomes its TimeoutError, which backoff is consulted
      about: giving up rejects with it, a quiet wait retries (index.js:48-51, 64-76). */
  lemma TimeoutConsultsBackoff(cfg: Config, r: Round)
    requires r.transport.Failed? && r.transport.error.name == "AbortError" && TimedOut(cfg, r)
    ensures Examined(cfg, r, r.transport.error).name == "TimeoutError"
    ensures r.step.GiveUp? ==> RoundVerdict(cfg, r) == Reject(Examined(cfg, r, r.transport.error))
    ensures r.step.Wait? && QuietWait(cfg, r) ==> RoundVerdict(cfg, r) == Retry
  {
  }

  /** A response the validation rule refuses ends the loop on its first attempt, whatever the
      retry budget, rejecting with the LikeFetchError of customError (index.js:36, 59-62). */
  lemma ValidationFailureSingleAttempt(cfg: Config, rounds: seq<Round>)
    requires |rounds| > 0 && rounds[0].transport.Responded?
    requires var rule := cfg.validateStatus; rule.Num? || rule.Fn? || IsStr(rule, "ok")
    requires ValidateStatus(rounds[0].transport.response, cfg.validateStatus).Some?
    ensures Settle(cfg, rounds).attempts == 1 && Settle(cfg, rounds).settlement.Rejected?
    ensures var e := Settle(cfg, rounds).settlement.error;
            var response := rounds[0].transport.response;
            e.name == "LikeFetchError" && e.message == FailureMessage(response.status)
            && e.code == StatusCodeAsWritten(response.status) && e.response == Some(response)
            && e.body == (if DecodesBody(cfg.responseType) && rounds[0].errorBody.Some? then rounds[0].errorBody.value else Undefined)
  {
    var r := rounds[0];
    var e := CustomError(r.transport.response.status, r.transport.response);
    assert Attempt(cfg, r) == Failure(e);
    assert Terminal(Examined(cfg, r, e));
  }

  /** A response that passes validation and decodes resolves the promise on that attempt. */
  lemma SuccessResolves(cfg: Config, rounds: seq<Round>)
    requires |rounds| > 0 && rounds[0].transport.Responded?
    requires ValidateStatus(rounds[0].transport.response, cfg.validateStatus).None?
    requires DecodesBody(cfg.responseType) ==> rounds[0].decoded.Success?
    ensures Settle(cfg, rounds).attempts == 1
    ensures Settle(cfg, rounds).settlement ==
              Fulfilled(if DecodesBody(cfg.responseType) then Body(rounds[0].decoded.value) else Raw(rounds[0].transport.response))
  {
  }

  /** An aborted caller's signal, found after a backoff wait, rejects with its reason and no
      further attempt is made (index.js:67-68). */
  lemma UserAbortAfterBackoff(cfg: Config, r: Round, rest: seq<Round>)
    requires OtherFailure(r) && r.step.Wait? && Truthy(cfg.signal) && r.userAbort.Some?
    ensures Settle(cfg, [r] + rest) == Final(Rejected(r.userAbort.value), 1)
  {
    assert ([r] + rest)[0] == r;
    assert !Terminal(Examined(cfg, r, r.transport.error));
  }

  /** Aborting the current controller during a backoff wait rejects with its reason, even with
      budget left (index.js:69). */
  lemma ControllerAbortAfterBackoff(cfg: Config, r: Round, rest: seq<Round>)
    requires OtherFailure(r) && r.step.Wait? && !Truthy(cfg.signal) && r.controllerAbort.Some?
    ensures Settle(cfg, [r] + rest) == Final(Rejected(r.controllerAbort.value), 1)
  {
    assert ([r] + rest)[0] == r;
    assert !Terminal(Examined(cfg, r, r.transport.error));
  }

  /** With a target that always fails some other way, N quiet waits followed by a give-up make
      N + 1 transport calls and reject with the error of the last one. */
  lemma {:induction false} RetryExhaustion(cfg: Config, rounds: seq<Round>)
    requires |rounds| > 0 && forall i :: 0 <= i < |rounds| ==> OtherFailure(rounds[i])
    requires forall i :: 0 <= i < |rounds| - 1 ==> rounds[i].step.Wait? && QuietWait(cfg, rounds[i])
    requires rounds[|rounds| - 1].step.GiveUp?
    ensures Settle(cfg, rounds).attempts == |rounds|
    ensures var last := rounds[|rounds| - 1];
            OtherFailure(last) && Settle(cfg, rounds).settlement == Rejected(Examined(cfg, last, last.transport.error))
  {
    var r := rounds[0];
    assert !Terminal(Examined(cfg, r, r.transport.error));
    if |rounds| > 1 {
      RetryExhaustion(cfg, rounds[1..]);
      assert RoundVerdict(cfg, r) == Retry;
    }
  }

  // ---------------------------------------------------------------------------------------
  // Two scenarios: a timeout is retried, the caller's signal is not
  // ---------------------------------------------------------------------------------------

  /** The AbortError an aborted signal hands to the transport. */
  const AbortError: Thrown := Thrown("AbortError", "This operation was aborted", Num(20), None, Undefined)

  /** An attempt that the given source aborts. */
  function AbortedRound(timeoutFired: bool, step: Step): Round {
    Round(Failed(AbortError), Failure(AbortError), None, timeoutFired, step, None, None)
  }

  /** `timeout: 1` against a slow target with one retry allowed: two attempts, and the promise
      rejects with the TimeoutError. */
  lemma TimeoutIsRetried(validateStatus: Value, responseType: Value)
    ensures var cfg := Config(validateStatus, responseType, Undefined, Num(1));
            Settle(cfg, [AbortedRound(true, Wait), AbortedRound(true, GiveUp)]) == Final(Rejected(TimeoutError), 2)
  {
    var cfg := Config(validateStatus, responseType, Undefined, Num(1));
    var rounds := [AbortedRound(true, Wait), AbortedRound(true, GiveUp)];
    assert RoundVerdict(cfg, rounds[0]) == Retry;
    assert rounds[1..] == [AbortedRound(true, GiveUp)];
  }

  /** An aborted caller's signal instead: one attempt, whatever follows, and the promise
      rejects with the AbortError. */
  lemma UserSignalIsNotRetried(validateStatus: Value, responseType: Value, signal: Value, rest: seq<Round>)
    requires Truthy(signal)
    ensures var cfg := Config(validateStatus, responseType, signal, Num(1));
            Settle(cfg, [AbortedRound(false, Wait)] + rest) == Final(Rejected(AbortError), 1)
  {
    var cfg := Config(validateStatus, responseType, signal, Num(1));
    AbortNotFromTimeout(cfg, AbortedRound(false, Wait), Wait, rest);
  }
}
