/**
 * What a handler sends: a status and the JSON body `{ success: false, error }` or
 * `{ success: true, message?, data? }`.
 */
module Http {
  import opened Wrappers
  import opened Text

  datatype Body<D> = Failure(error: string) | Success(message: Option<string>, data: Option<D>)

  datatype Reply<D> = Reply(status: nat, body: Body<D>)

  function Fail<D>(status: nat, error: string): Reply<D> {
    Reply(status, Failure(error))
  }

  /**
   * The controllers' test `message.includes('expired') || message.includes('invalid')`;
   * it is case-sensitive, so a message starting with 'Invalid' does not pass it.
   */
  predicate ClientHint(message: string) {
    Contains(message, "expired") || Contains(message, "invalid")
  }

  /** A message in which neither 'ex' nor 'in' occurs carries no hint. */
  lemma NoHint(message: string)
    requires forall k :: 0 <= k < |message| - 1 ==>
               !(message[k] == 'e' && message[k + 1] == 'x') && !(message[k] == 'i' && message[k + 1] == 'n')
    ensures !ClientHint(message)
  {
    NoBigram(message, "expired");
    NoBigram(message, "invalid");
  }

  /** Which of the token messages the controllers treat as the client's fault. */
  lemma TokenMessageHints()
    ensures ClientHint("Verification token expired")
    ensures ClientHint("Refresh token expired")
    ensures !ClientHint("Invalid verification token")
    ensures !ClientHint("Invalid refresh token")
    ensures !ClientHint("Token verification failed")
    ensures !ClientHint("Refresh token verification failed")
    ensures !ClientHint("Token generation failed")
  {
    ExpiredHints();
    InvalidNoHint();
    FailedNoHint();
  }

  lemma ExpiredHints()
    ensures ClientHint("Verification token expired")
    ensures ClientHint("Refresh token expired")
  {
    ContainsAt("Verification token expired", "expired", 19);
    ContainsAt("Refresh token expired", "expired", 14);
  }

  lemma InvalidNoHint()
    ensures !ClientHint("Invalid verification token")
    ensures !ClientHint("Invalid refresh token")
  {
    NoHint("Invalid verification token");
    NoHint("Invalid refresh token");
  }

  lemma FailedNoHint()
    ensures !ClientHint("Token verification failed")
    ensures !ClientHint("Refresh token verification failed")
    ensures !ClientHint("Token generation failed")
  {
    NoHint("Token verification failed");
    NoHint("Refresh token verification failed");
    NoHint("Token generation failed");
  }
}
