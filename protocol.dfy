/** What the browser clients send and receive over HTTP, as values. Transport,
    JSON parsing and the exceptions of the two requests are folded into the
    failure alternatives. */
module Protocol {
  import opened Wrappers

  /** The algorithm name both clients put in `hash_algo`. */
  const HASH_ALGO: string := "sha256"

  /** The JSON body of `POST /verify`. */
  datatype Proof = Proof(challenge: string, nonce: string, hashAlgo: string)

  /** What `fetch(.../challenge)` followed by `res.json()` yields: an exception,
      or the `challenge` and `difficulty` fields. */
  datatype ChallengeReply =
    | ChallengeFailed
    | ChallengeIssued(challenge: string, difficulty: nat)

  /** The `/verify` JSON body as the clients read it: `success` (an absent field
      reads as false) and `message` (absent or a string). */
  datatype VerifyBody = VerifyBody(success: bool, message: Option<string>)

  /** The `/verify` exchange: `fetch` threw, or a response with its status and,
      when `verify.json()` succeeds, its body. */
  datatype VerifyReply =
    | VerifyFailed
    | VerifyAnswered(status: int, body: Option<VerifyBody>)

  /** JavaScript truthiness of the `message` field: present and not empty. */
  predicate HasMessage(m: Option<string>) {
    m.Some? && m.value != ""
  }
}
