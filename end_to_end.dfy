/** The server and the two browser clients together: how each `/verify`
    answer of the server is read by the vanilla client and by the React
    component, and the honest round trip from challenge to "Verified". */
module EndToEnd {
  import opened Wrappers
  import opened Encoding
  import opened PowSearch
  import opened Protocol
  import Backend
  import PowJs
  import ReactCaptcha

  /** A server `/verify` answer as the clients receive it: a 429 carries only a
      `detail`, so its body has neither `success` nor `message`; otherwise
      status 200 with the response model. */
  function ToWire(r: Backend.Reply<Backend.VerifyResponse>): (w: VerifyReply)
    ensures w.VerifyAnswered? && w.body.Some?
    ensures w.status == 429 <==> r.TooManyRequests?
    ensures w.body.value.success <==> r.Ok? && r.value.success
    ensures r.TooManyRequests? ==> w.body.value.message.None?
    ensures r.Ok? ==> w.status == 200 && w.body.value.message == Some(r.value.message)
  {
    match r
    case TooManyRequests => VerifyAnswered(429, Some(VerifyBody(false, None)))
    case Ok(v) => VerifyAnswered(200, Some(VerifyBody(v.success, Some(v.message))))
  }

  /** The request the server parses from a client's proof: the three JSON
      strings arrive as they were sent. */
  function ToRequest(p: Proof): Backend.VerifyRequest {
    Backend.VerifyRequest(p.challenge, p.nonce, p.hashAlgo)
  }

  /** The server's expiry message contains the client's "expired" marker. */
  lemma ExpiryMessageMarked()
    ensures Contains(Backend.EXPIRED_MESSAGE, PowJs.EXPIRED_MARKER)
  {
    ContainsInfix(Backend.EXPIRED_HEAD, PowJs.EXPIRED_MARKER, Backend.EXPIRED_TAIL);
  }

  /** None of the server's other messages contains it: none has an 'x'. */
  lemma OtherMessagesUnmarked(m: string)
    requires m == Backend.VALID_MESSAGE || m == Backend.INVALID_MESSAGE || m == Backend.UNSUPPORTED_MESSAGE
    ensures !Contains(m, PowJs.EXPIRED_MARKER)
  {
    assert PowJs.EXPIRED_MARKER[1] == 'x';
    MissingCharNotContained(m, PowJs.EXPIRED_MARKER, 1);
  }

  /** The answers `/verify` can give. */
  predicate IsServerAnswer(r: Backend.Reply<Backend.VerifyResponse>) {
    r.Ok? ==>
      || r.value == Backend.VerifyResponse(true, Backend.VALID_MESSAGE)
      || r.value == Backend.VerifyResponse(false, Backend.EXPIRED_MESSAGE)
      || r.value == Backend.VerifyResponse(false, Backend.INVALID_MESSAGE)
      || r.value == Backend.VerifyResponse(false, Backend.UNSUPPORTED_MESSAGE)
  }

  /** A 200 answer whose message mentions "expired" is shown as expired. */
  lemma ClassifyMarked(success: bool, m: string)
    requires Contains(m, PowJs.EXPIRED_MARKER)
    ensures PowJs.Classify(ToWire(Backend.Ok(Backend.VerifyResponse(success, m)))) == PowJs.Expired(m)
  {
  }

  /** Any other non-empty message is read by `success` alone. */
  lemma ClassifyUnmarked(success: bool, m: string)
    requires m != "" && !Contains(m, PowJs.EXPIRED_MARKER)
    ensures PowJs.Classify(ToWire(Backend.Ok(Backend.VerifyResponse(success, m)))) ==
              if success then PowJs.Verified else PowJs.Rejected(m)
  {
  }

  /** How the vanilla client classifies each answer the server can give. */
  lemma ClassifyServerAnswer(r: Backend.Reply<Backend.VerifyResponse>)
    requires IsServerAnswer(r)
    ensures PowJs.Classify(ToWire(r)) ==
              match r
              case TooManyRequests => PowJs.RateLimited
              case Ok(v) =>
                if v.message == Backend.EXPIRED_MESSAGE then PowJs.Expired(v.message)
                else if v.success then PowJs.Verified
                else PowJs.Rejected(v.message)
  {
    if r.Ok? {
      var v := r.value;
      if v.message == Backend.EXPIRED_MESSAGE {
        ExpiryMessageMarked();
        ClassifyMarked(v.success, v.message);
      } else {
        OtherMessagesUnmarked(v.message);
        ClassifyUnmarked(v.success, v.message);
      }
    }
  }

  /** The vanilla client sees exactly what the server decided: rate limiting
      exactly when the limiter refused; expiry exactly when the challenge key
      was missing; "Verified" exactly on acceptance; and otherwise the
      server's rejection message. */
  lemma VanillaClientReadsServer(H: Hasher, cfg: Backend.Config, s: Backend.Store, ip: string,
                                 req: Backend.VerifyRequest)
    ensures var allowed := Backend.CounterAllows(Backend.Get(s, Backend.RateKey(ip)), cfg.rateLimit);
            var live := Backend.Exists(s, Backend.ChallengeKey(req.challenge));
            var o := PowJs.Classify(ToWire(Backend.VerifyProof(s, ip, req, H, cfg).0));
            && (o == PowJs.RateLimited <==> !allowed)
            && (o == PowJs.Expired(Backend.EXPIRED_MESSAGE) <==> allowed && !live)
            && (o == PowJs.Verified <==> allowed && live && Backend.Accepts(H, cfg, req))
            && (o.Rejected? <==> allowed && live && !Backend.Accepts(H, cfg, req))
            && (o.Rejected? ==> o.message == Backend.INVALID_MESSAGE || o.message == Backend.UNSUPPORTED_MESSAGE)
            && o != PowJs.Errored
  {
    var r := Backend.VerifyProof(s, ip, req, H, cfg).0;
    assert IsServerAnswer(r);
    ClassifyServerAnswer(r);
  }

  /** The React component: "Verified" exactly on acceptance; otherwise "Error: "
      followed by the server's message, or by the default text on a 429. */
  lemma ReactClientReadsServer(H: Hasher, cfg: Backend.Config, s: Backend.Store, ip: string,
                               req: Backend.VerifyRequest, challenge: string, difficulty: nat)
    ensures var r := Backend.VerifyProof(s, ip, req, H, cfg).0;
            var status := ReactCaptcha.AttemptStatus(ChallengeIssued(challenge, difficulty), false, ToWire(r));
            && (status == ReactCaptcha.VERIFIED_STATUS <==> r.Ok? && r.value.success)
            && (r.TooManyRequests? ==> status == ReactCaptcha.ERROR_PREFIX + ReactCaptcha.FAILED_TEXT)
            && (r.Ok? && !r.value.success ==> status == ReactCaptcha.ERROR_PREFIX + r.value.message)
  {
    var r := Backend.VerifyProof(s, ip, req, H, cfg).0;
    if r.Ok? && !r.value.success {
      assert r.value.message != "";
    }
  }

  /** The honest round: the server issues a challenge, the client sends the
      least nonce solving the issued difficulty with "sha256", and the verify
      request is let through. Then the server accepts, the challenge is gone,
      and the vanilla client shows "Verified" with no reset. */
  lemma HonestRoundVerified(H: Hasher, cfg: Backend.Config, s: Backend.Store, ip: string, challenge: string)
    requires Backend.IsChallengeToken(challenge)
    requires Backend.IssueChallenge(s, ip, challenge, cfg).0.Ok?
    requires Solvable(H, challenge, Backend.IssueChallenge(s, ip, challenge, cfg).0.value.difficulty)
    requires Backend.CounterAllows(Backend.Get(Backend.IssueChallenge(s, ip, challenge, cfg).1, Backend.RateKey(ip)),
                                   cfg.rateLimit)
    ensures var issued := Backend.IssueChallenge(s, ip, challenge, cfg);
            var proof := Proof(challenge, Decimal(LeastNonce(H, challenge, issued.0.value.difficulty)), HASH_ALGO);
            var verdict := Backend.VerifyProof(issued.1, ip, ToRequest(proof), H, cfg);
            && verdict.0 == Backend.Ok(Backend.VerifyResponse(true, Backend.VALID_MESSAGE))
            && !Backend.Exists(verdict.1, Backend.ChallengeKey(challenge))
            && PowJs.Show(PowJs.Classify(ToWire(verdict.0))) == PowJs.Screen(PowJs.Status(PowJs.VERIFIED_TEXT, true), None)
  {
    var issued := Backend.IssueChallenge(s, ip, challenge, cfg);
    var d := issued.0.value.difficulty;
    var n := LeastNonce(H, challenge, d);
    Backend.IssueThenVerify(H, cfg, s, ip, challenge, n);
    OtherMessagesUnmarked(Backend.VALID_MESSAGE);
  }
}
