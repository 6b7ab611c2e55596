/**
 * The challenge handshake of `GET /webhook` in index.js: the provider proves it
 * knows the configured secret, and the endpoint echoes its challenge back.
 * The secret (`VERIFY_TOKEN`) is a parameter; the query parameters `hub.mode`,
 * `hub.verify_token` and `hub.challenge` are strings.
 */
module Webhook {

  /** `res.send(challenge)` (status 200) or `res.sendStatus(code)`. */
  datatype WebhookReply = Echo(body: string) | Status(code: nat)
  {
    function HttpStatus(): nat {
      if Echo? then 200 else code
    }
  }

  /** The handshake succeeds exactly when the mode is "subscribe" and the token is the secret. */
  predicate Authorized(mode: string, token: string, verifyToken: string) {
    mode == "subscribe" && token == verifyToken
  }

  /**
   * The answer to `GET /webhook`: the challenge itself, with status 200, when
   * authorized, and a bare 403 otherwise.
   */
  function VerifyChallenge(mode: string, token: string, challenge: string, verifyToken: string): (r: WebhookReply)
    ensures r == Echo(challenge) <==> Authorized(mode, token, verifyToken)
    ensures !Authorized(mode, token, verifyToken) <==> r == Status(403)
    ensures r.HttpStatus() == 200 <==> Authorized(mode, token, verifyToken)
  {
    if Authorized(mode, token, verifyToken) then Echo(challenge) else Status(403)
  }
}
