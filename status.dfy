/**
 * How the AI service reads a status code out of whatever the model client
 * threw, decides whether the failure is worth retrying, and wraps the last
 * failure into the one error it throws to its caller.
 */
module Status {
  import opened JsValues

  /** The status that marks the remote model as overloaded. */
  const Overloaded: Value := Num(503)

  /** The status of the wrapped error when the last failure carries none. */
  const DefaultStatus: Value := Num(500)

  const ErrorPrefix := "AI service error: "

  const UnknownError := "Unknown AI service error"

  /**
   * `err?.status || err?.response?.status || (err?.error && err.error.code) || fallback`:
   * the first truthy one of the three places a status may be found, else `fallback`.
   */
  function ResolveStatus(err: Value, fallback: Value): (status: Value)
    ensures Truthy(status) || status == fallback
    ensures Truthy(fallback) ==> Truthy(status)
  {
    Or(Prop(err, "status"),
       Or(Prop(Prop(err, "response"), "status"),
          Or(And(Prop(err, "error"), Prop(Prop(err, "error"), "code")),
             fallback)))
  }

  /**
   * The classifier: a failure is retried exactly when its resolved status is
   * the number 503. Resolving with the fallback 500 instead of `null`, as the
   * wrapped error does, gives 503 for exactly the same failures.
   */
  predicate IsOverloaded(err: Value)
    ensures IsOverloaded(err) <==> ResolveStatus(err, DefaultStatus) == Overloaded
  {
    ResolveStatus(err, Null) == Overloaded
  }

  /** The error the service throws: its status, its message and the failure it wraps. */
  datatype ServiceError = ServiceError(status: Value, message: string, raw: Value)

  /**
   * The error thrown once retrying stops: the status resolved from the last
   * failure (500 when it has none), the message prefixed with
   * "AI service error: ", and the last failure itself.
   */
  function WrapError(lastErr: Value): (e: ServiceError)
    ensures e.raw == lastErr
    ensures ErrorPrefix <= e.message
    ensures Truthy(e.status)
  {
    var detail := Or(Prop(lastErr, "message"), Or(JsonValue(Stringify(lastErr)), Str(UnknownError)));
    ServiceError(ResolveStatus(lastErr, DefaultStatus), ErrorPrefix + ToStr(detail), lastErr)
  }

  /**
   * The status is taken from `status`, then `response.status`, then
   * `error.code` (only when `error` itself is truthy), then the fallback.
   */
  lemma StatusPrecedence(err: Value, fallback: Value)
    ensures var direct, nested, code := Prop(err, "status"), Prop(Prop(err, "response"), "status"), Prop(Prop(err, "error"), "code");
      ResolveStatus(err, fallback) ==
        if Truthy(direct) then direct
        else if Truthy(nested) then nested
        else if Truthy(Prop(err, "error")) && Truthy(code) then code
        else fallback
  {
  }

  /**
   * A failure is retried if and only if the first status found, in the order
   * of StatusPrecedence, is the number 503; a later 503 behind an earlier
   * status, a string "503", or no status at all, is not retried.
   */
  lemma OverloadedIff(err: Value)
    ensures var direct, nested, code := Prop(err, "status"), Prop(Prop(err, "response"), "status"), Prop(Prop(err, "error"), "code");
      IsOverloaded(err) <==>
        || direct == Overloaded
        || (!Truthy(direct) && nested == Overloaded)
        || (!Truthy(direct) && !Truthy(nested) && Truthy(Prop(err, "error")) && code == Overloaded)
  {
    StatusPrecedence(err, Null);
  }

  /**
   * The wrapped status follows the same precedence as the classifier, with
   * 500 when none of the three places holds a truthy status.
   */
  lemma WrapStatus(lastErr: Value)
    ensures var direct, nested, code := Prop(lastErr, "status"), Prop(Prop(lastErr, "response"), "status"), Prop(Prop(lastErr, "error"), "code");
      WrapError(lastErr).status ==
        if Truthy(direct) then direct
        else if Truthy(nested) then nested
        else if Truthy(Prop(lastErr, "error")) && Truthy(code) then code
        else DefaultStatus
  {
    StatusPrecedence(lastErr, DefaultStatus);
  }

  /** A failure that was retried keeps status 503 when it is wrapped. */
  lemma WrappedOverloadIs503(err: Value)
    requires IsOverloaded(err)
    ensures WrapError(err).status == Overloaded
  {
    StatusPrecedence(err, Null);
    StatusPrecedence(err, DefaultStatus);
  }

  /**
   * The message is the failure's own truthy `message`, else its JSON text;
   * the generic placeholder is reached only when the failure is `undefined`.
   */
  lemma WrapMessage(lastErr: Value)
    ensures var m := Prop(lastErr, "message");
      WrapError(lastErr).message ==
        if Truthy(m) then ErrorPrefix + ToStr(m)
        else if lastErr.Undefined? then ErrorPrefix + UnknownError
        else ErrorPrefix + Stringify(lastErr).value
  {
  }

  /** With no failure recorded (`lastErr` still `null`) the error is status 500, "AI service error: null". */
  lemma WrapNothing()
    ensures WrapError(Null) == ServiceError(DefaultStatus, "AI service error: null", Null)
  {
  }

  /** Failures the classifier retries: a 503 in any of the three places. */
  lemma RetriedExamples()
    ensures IsOverloaded(Obj([Field("status", Num(503))]))
    ensures IsOverloaded(Obj([Field("response", Obj([Field("status", Num(503))]))]))
    ensures IsOverloaded(Obj([Field("error", Obj([Field("code", Num(503))]))]))
  {
  }

  /**
   * Failures the classifier does not retry: any other numeric status (400,
   * 401, 500, ...), a status given as a string, even "503", and `null`.
   */
  lemma FatalExamples(code: int, text: string)
    requires code != 503
    ensures !IsOverloaded(Obj([Field("status", Num(code))]))
    ensures !IsOverloaded(Obj([Field("status", Str(text))]))
    ensures !IsOverloaded(Null)
  {
  }

  /** An earlier status hides a later 503, and a failure without any status is fatal. */
  lemma PrecedenceExamples()
    ensures !IsOverloaded(Obj([Field("status", Num(429)), Field("response", Obj([Field("status", Num(503))]))]))
    ensures !IsOverloaded(Obj([Field("message", Str("socket hang up"))]))
  {
  }
}
