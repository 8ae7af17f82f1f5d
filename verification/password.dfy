/**
 * The API PasswordController: the reset broker's outcome mapped to an
 * envelope, 202 for the two successes and 422 for the two failures.
 */
module Password {
  import opened Wrappers
  import opened PhpArray
  import opened Users
  import opened Transformers
  import opened Api
  import opened Collaborators
  import opened ApiAuth

  /** Where a completed reset sends the user. */
  const ResetRedirect := "/home"

  /** The errors both failure responses carry: the broker's message under `email`. */
  function BrokerErrors(response: string): (errors: Dict)
    ensures Keys(errors) == ["email"] && Lookup(errors, "email") == Some(Str(response))
  {
    [("email", Str(response))]
  }

  /** `getSendResetLinkEmailSuccessResponse`: 202 carrying `{status: message}` through the SuccessTransformer. */
  function SendResetLinkEmailSuccessResponse(svc: Services, c: Controller, response: string): (e: Emitted)
    ensures Sent(e, "success", 202, CodeAccepted) && !e.warned
    ensures LeftBiased(Fields(e.response), StatusBlock(CodeAccepted, 202, []),
                       svc.toArray(SuccessTransform([("status", Str(response))])))
    ensures Distinct(svc.toArray(SuccessTransform([("status", Str(response))]))) ==> Distinct(Fields(e.response))
  {
    SuccessPassword(c, Item([("status", Str(response))], SuccessTransform), svc.toArray)
  }

  /** `getSendResetLinkEmailFailureResponse`: 422 with the message under `email`. */
  function SendResetLinkEmailFailureResponse(svc: Services, c: Controller, response: string): (e: Emitted)
    ensures ErrorsSent(svc, e, BrokerErrors(response))
  {
    ErrorPassword(c, Item(BrokerErrors(response), ErrorTransform), svc.toArray)
  }

  /**
   * `getResetSuccessResponse`: `successAuth` to `/home` with a token for the
   * user the reset has just logged in (`current`); the broker's message is
   * not used.
   */
  function ResetSuccessResponse(svc: Services, c: Controller, response: string, current: User): (e: Emitted)
    ensures AuthSent(svc, e, ResetRedirect, svc.token(current, []), current)
  {
    SuccessAuth(c, ResetRedirect, svc.token(current, []), Item(current, UserTransform), svc.toArray)
  }

  /** `getResetFailureResponse`: 422 with the message under `email`. */
  function ResetFailureResponse(svc: Services, c: Controller, response: string): (e: Emitted)
    ensures ErrorsSent(svc, e, BrokerErrors(response))
  {
    ErrorPassword(c, Item(BrokerErrors(response), ErrorTransform), svc.toArray)
  }

  /**
   * The four responses never mix: the successes are `success` envelopes with
   * 202, the failures `error` envelopes with 422, and both failures have the
   * same shape.
   */
  lemma ResetResponsesSeparate(svc: Services, c: Controller, response: string, current: User)
    ensures Keys(SendResetLinkEmailSuccessResponse(svc, c, response).response.body) == ["success"]
    ensures Keys(ResetSuccessResponse(svc, c, response, current).response.body) == ["success"]
    ensures Keys(SendResetLinkEmailFailureResponse(svc, c, response).response.body) == ["error"]
    ensures Keys(ResetFailureResponse(svc, c, response).response.body) == ["error"]
    ensures SendResetLinkEmailSuccessResponse(svc, c, response).response.status == 202
    ensures ResetSuccessResponse(svc, c, response, current).response.status == 202
    ensures SendResetLinkEmailFailureResponse(svc, c, response).response.status == 422
    ensures ResetFailureResponse(svc, c, response).response.status == 422
    ensures ResetFailureResponse(svc, c, response) == SendResetLinkEmailFailureResponse(svc, c, response)
  {
  }

  /** The reset-success answer depends only on the logged-in user. */
  lemma ResetSuccessIgnoresMessage(svc: Services, c: Controller, r1: string, r2: string, current: User)
    ensures ResetSuccessResponse(svc, c, r1, current) == ResetSuccessResponse(svc, c, r2, current)
  {
  }
}
