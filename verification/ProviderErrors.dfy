/** The error classes of ai/retry.py. The verdicts of its text patterns are inputs. */
module ProviderErrors {
  import opened Wrappers

  datatype ProviderError = ProviderError(
    statusCode: Option<int>,
    soundsTransient: bool,    // _TRANSIENT_MESSAGE_RE
    soundsOversized: bool,    // _OVERSIZED_MESSAGE_RE
    soundsUnauthorized: bool, // _AUTH_MESSAGE_RE
    mentionsLimits: bool)     // "token", "context" or "length"

  const TRANSIENT_CODES := {408, 425, 429, 500, 502, 503, 504}
  const NON_RETRYABLE_CODES := {400, 401, 403, 404, 422}

  predicate IsOversized(e: ProviderError) {
    e.soundsOversized || (e.statusCode == Some(400) && e.mentionsLimits)
  }

  predicate IsNonRetryable(e: ProviderError): (r: bool)
    ensures IsOversized(e) ==> r
  {
    if IsOversized(e) then true
    else if e.soundsUnauthorized then true
    else e.statusCode.Some? && e.statusCode.value in NON_RETRYABLE_CODES
         && !(e.statusCode.value == 400 && e.soundsTransient)
  }

  predicate IsTransient(e: ProviderError): (r: bool)
    ensures r ==> !IsOversized(e) && !IsNonRetryable(e)
  {
    if IsOversized(e) || IsNonRetryable(e) then false
    else (e.statusCode.Some? && e.statusCode.value in TRANSIENT_CODES) || e.soundsTransient
  }

  predicate Unavailable(code: int) {
    code == 408 || code == 425 || code == 429 || code == 500 || code == 502 || code == 503 || code == 504
  }

  predicate Forbidding(code: int) {
    code == 401 || code == 403 || code == 404 || code == 422
  }

  /** What an error is taken for when its message says nothing: its status alone decides. When the
      message speaks, being too large comes first, then a refused login, then a status that forbids a
      retry; only a bare 400 gives way to a message that sounds transient. */
  lemma ErrorsSorted(e: ProviderError)
    ensures !e.soundsTransient && !e.soundsOversized && !e.soundsUnauthorized && !e.mentionsLimits ==>
      && !IsOversized(e)
      && (IsTransient(e) <==> e.statusCode.Some? && Unavailable(e.statusCode.value))
      && (IsNonRetryable(e) <==> e.statusCode.Some? && (e.statusCode.value == 400 || Forbidding(e.statusCode.value)))
    ensures e.soundsOversized || (e.mentionsLimits && e.statusCode == Some(400)) <==> IsOversized(e)
    ensures e.soundsUnauthorized ==> IsNonRetryable(e)
    ensures e.soundsTransient && !IsOversized(e) && !e.soundsUnauthorized ==>
      (IsTransient(e) <==> !(e.statusCode.Some? && Forbidding(e.statusCode.value)))
    ensures e.soundsTransient && !e.soundsUnauthorized && e.statusCode == Some(400) ==> (IsTransient(e) <==> !IsOversized(e))
  {
  }
}
