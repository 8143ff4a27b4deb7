/** The retry policy (`retrier`): which outcomes of a request are worth
    another attempt. The attempt loop itself belongs to an outside package
    and is not part of this model; only its limit and the retryable status
    codes are kept. */
module Retriers {
  import opened Common

  /** `retrier`: the attempt limit handed to the outside loop, and the status
      codes that are retried. The delay function is timing only. */
  datatype Retrier = Retrier(max: int, retryCodes: seq<int>)

  /** `NewBasicRetrier(max, delayf)`: no retryable codes. */
  function NewBasicRetrier(max: int): (r: Retrier)
    ensures r.max == max && r.retryCodes == []
  {
    Retrier(max, [])
  }

  /** `NewStatusCodeRetrier(max, delayf, retryCodes)`: the codes as given. */
  function NewStatusCodeRetrier(max: int, retryCodes: seq<int>): (r: Retrier)
    ensures r.max == max && r.retryCodes == retryCodes
  {
    Retrier(max, retryCodes)
  }

  /** Whether `code` is one of the retryable codes, searched in order. */
  function Listed(codes: seq<int>, code: int): (b: bool)
    ensures b <==> code in codes
    decreases |codes|
  {
    if |codes| == 0 then false
    else if codes[0] == code then true
    else Listed(codes[1..], code)
  }

  /** `ShouldRetry(res, err)`: the response is its status code, nil being
      `None`. A nil response with a nil error makes the Go code dereference
      nil, hence the precondition. */
  function ShouldRetry(r: Retrier, status: Option<int>, err: Option<Error>): (o: (Option<Error>, bool))
    requires err.Some? || status.Some?
    ensures err.Some? ==> o == (err, true)
    ensures err.None? && status.value > 299 ==> o == (Some(StatusFailed(status.value)), status.value in r.retryCodes)
    ensures err.None? && status.value <= 299 ==> o == (None, false)
    ensures o.1 ==> o.0.Some?
  {
    if err.Some? then (err, true)
    else if status.value > 299 then (Some(StatusFailed(status.value)), Listed(r.retryCodes, status.value))
    else (None, false)
  }

  /** The basic retrier retries errors only: a failing status alone is
      reported but never retried. */
  lemma BasicRetriesErrorsOnly(max: int, status: Option<int>, err: Option<Error>)
    requires err.Some? || status.Some?
    ensures ShouldRetry(NewBasicRetrier(max), status, err).1 <==> err.Some?
  {
  }
}
