/** The proof-of-work predicate shared by the server and the three client
    search loops, and the nonce every search is meant to find. */
module PowSearch {
  import opened Encoding

  /** A 32-byte digest (SHA-256 and BLAKE3 at their default length). */
  type Digest = d: seq<uint8> | |d| == 32 witness seq(32, _ => 0)

  const DIGEST_HEX_LENGTH: nat := 64

  datatype HashAlgo = Sha256 | Blake3

  /** The digest functions, left abstract: the hash of the UTF-8 encoding of a
      string under the named algorithm. */
  type Hasher = (HashAlgo, string) -> Digest

  /** The digest of one attempt: `challenge ++ decimal(nonce)` under SHA-256. */
  function AttemptDigest(H: Hasher, challenge: string, nonce: nat): Digest {
    H(Sha256, challenge + Decimal(nonce))
  }

  /** The hex digest the clients test for one attempt. */
  function AttemptHex(H: Hasher, challenge: string, nonce: nat): string {
    Hex(AttemptDigest(H, challenge, nonce))
  }

  /** The browser clients' `toString(16)`/`padStart` rendering of an attempt's
      digest is the hex digest, so their prefix test is `Solves`. */
  lemma JsAttemptHex(H: Hasher, challenge: string, difficulty: nat, nonce: nat)
    ensures JsHex(H(Sha256, challenge + Decimal(nonce))) == AttemptHex(H, challenge, nonce)
    ensures StartsWith(JsHex(H(Sha256, challenge + Decimal(nonce))), Zeros(difficulty))
              == Solves(H, challenge, difficulty, nonce)
  {
    JsHexIsHex(AttemptDigest(H, challenge, nonce));
  }

  /** `nonce` solves the challenge: the lowercase-hex SHA-256 digest of
      `challenge ++ decimal(nonce)` starts with `difficulty` zeros. */
  predicate Solves(H: Hasher, challenge: string, difficulty: nat, nonce: nat) {
    StartsWith(AttemptHex(H, challenge, nonce), Zeros(difficulty))
  }

  /** Some nonce solves the challenge; exactly when the unbounded searches stop. */
  ghost predicate Solvable(H: Hasher, challenge: string, difficulty: nat) {
    exists n: nat :: Solves(H, challenge, difficulty, n)
  }

  /** `nonce` solves the challenge and no smaller nonce does. */
  ghost predicate IsLeastNonce(H: Hasher, challenge: string, difficulty: nat, nonce: nat) {
    && Solves(H, challenge, difficulty, nonce)
    && forall k: nat :: k < nonce ==> !Solves(H, challenge, difficulty, k)
  }

  /** Well-ordering: below any solving nonce there is a least one. */
  lemma {:induction false} LeastNonceExists(H: Hasher, challenge: string, difficulty: nat, n: nat)
    requires Solves(H, challenge, difficulty, n)
    ensures exists m: nat :: m <= n && IsLeastNonce(H, challenge, difficulty, m)
    decreases n
  {
    if forall k: nat :: k < n ==> !Solves(H, challenge, difficulty, k) {
      assert IsLeastNonce(H, challenge, difficulty, n);
    } else {
      var k: nat :| k < n && Solves(H, challenge, difficulty, k);
      LeastNonceExists(H, challenge, difficulty, k);
    }
  }

  /** There is only one least solving nonce. */
  lemma LeastNonceUnique(H: Hasher, challenge: string, difficulty: nat, a: nat, b: nat)
    requires IsLeastNonce(H, challenge, difficulty, a)
    requires IsLeastNonce(H, challenge, difficulty, b)
    ensures a == b
  {
  }

  /** The nonce a search from 0 upward stops at. */
  ghost function LeastNonce(H: Hasher, challenge: string, difficulty: nat): (n: nat)
    requires Solvable(H, challenge, difficulty)
    ensures IsLeastNonce(H, challenge, difficulty, n)
  {
    var w: nat :| Solves(H, challenge, difficulty, w);
    LeastNonceExists(H, challenge, difficulty, w);
    var m: nat :| IsLeastNonce(H, challenge, difficulty, m);
    m
  }

  /** A nonce is the search result exactly when it solves and nothing smaller does. */
  lemma LeastNonceIff(H: Hasher, challenge: string, difficulty: nat, n: nat)
    requires Solvable(H, challenge, difficulty)
    ensures LeastNonce(H, challenge, difficulty) == n <==> IsLeastNonce(H, challenge, difficulty, n)
  {
    if IsLeastNonce(H, challenge, difficulty, n) {
      LeastNonceUnique(H, challenge, difficulty, n, LeastNonce(H, challenge, difficulty));
    }
  }

  /** Difficulty 0: the empty prefix always matches, so the search returns 0. */
  lemma ZeroDifficulty(H: Hasher, challenge: string)
    ensures Solvable(H, challenge, 0)
    ensures LeastNonce(H, challenge, 0) == 0
    ensures Decimal(LeastNonce(H, challenge, 0)) == "0"
  {
    assert Solves(H, challenge, 0, 0);
    LeastNonceIff(H, challenge, 0, 0);
  }

  /** A digest has 64 hex characters, so no nonce meets a difficulty above 64. */
  lemma NoSolutionAboveHexLength(H: Hasher, challenge: string, difficulty: nat, n: nat)
    requires difficulty > DIGEST_HEX_LENGTH
    ensures !Solves(H, challenge, difficulty, n)
  {
  }

  /** A nonce that meets a difficulty meets every lower one. */
  lemma SolvesMonotone(H: Hasher, challenge: string, difficulty: nat, lower: nat, n: nat)
    requires lower <= difficulty
    requires Solves(H, challenge, difficulty, n)
    ensures Solves(H, challenge, lower, n)
  {
    ZeroPrefixMonotone(AttemptHex(H, challenge, n), difficulty, lower);
  }

  /** What the difficulty means: the first `difficulty` four-bit groups of the
      digest are zero. */
  lemma SolvesIffLeadingZeroNibbles(H: Hasher, challenge: string, difficulty: nat, n: nat)
    ensures Solves(H, challenge, difficulty, n) <==>
              && difficulty <= DIGEST_HEX_LENGTH
              && forall i :: 0 <= i < difficulty ==> Nibble(AttemptDigest(H, challenge, n), i) == 0
  {
    HexZeroPrefix(AttemptDigest(H, challenge, n), difficulty);
  }
}
