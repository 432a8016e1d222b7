/** Token issuing and revocation (backend/app/Http/Controllers/AuthController.php):
    login creates a personal access token, logout deletes the current one,
    and refresh rotates it. */
module Auth {
  import opened Common
  import opened Responses

  /** The plain-text token handed to the client: the row id, '|', and a random secret. */
  function PlainText(id: nat, secret: string): string
  {
    NatToDecimal(id) + ['|'] + secret
  }

  /** The id a plain-text token names: the number before its first '|'. */
  function TokenId(t: string): Option<nat>
  {
    var head := Split(t, '|')[0];
    if AllDigits(head) then Some(DigitsValue(head)) else None
  }

  /** A token reads back as the row it was issued for. */
  lemma TokenIdOfPlainText(id: nat, secret: string)
    ensures TokenId(PlainText(id, secret)) == Some(id)
  {
    var d := NatToDecimal(id);
    assert '|' !in d;
    SplitConcat(d, secret, '|');
    SplitWithoutSep(d, '|');
    DecimalRoundTrip(id);
  }

  /** Tokens issued for different rows never coincide, whatever their secrets. */
  lemma PlainTextsDiffer(a: nat, b: nat, s1: string, s2: string)
    requires a != b
    ensures PlainText(a, s1) != PlainText(b, s2)
  {
    TokenIdOfPlainText(a, s1);
    TokenIdOfPlainText(b, s2);
  }

  datatype Session = Session(token: string, userId: nat)

  /** The personal_access_tokens table: token row id to owning user. */
  class TokenStore {
    var tokens: map<nat, nat>
    var nextId: nat

    /** Every stored row id is below the next id to be issued. */
    predicate Valid()
      reads this
    {
      forall t :: t in tokens ==> t < nextId
    }

    constructor ()
      ensures Valid() && tokens == map[]
    {
      tokens, nextId := map[], 1;
    }

    /** POST /auth/login. `attempt` is what Auth::attempt found: the user whose
        credentials match, or none. */
    method Login(attempt: Option<nat>, secret: string) returns (r: Response<Session>)
      requires Valid()
      modifies this
      ensures Valid()
      ensures attempt.None? ==>
        tokens == old(tokens) && r == Unauthorized("Invalid credentials")
      ensures attempt.Some? ==>
        && old(nextId) !in old(tokens)
        && tokens == old(tokens)[old(nextId) := attempt.value]
        && r == Success(Some(Session(PlainText(old(nextId), secret), attempt.value)), "Success")
    {
      if attempt.None? {
        return Unauthorized("Invalid credentials");
      }
      var id := nextId;
      tokens := tokens[id := attempt.value];
      nextId := nextId + 1;
      r := Success(Some(Session(PlainText(id, secret), attempt.value)), "Success");
    }

    /** POST /auth/logout with the authenticated token `current`. */
    method Logout(current: nat) returns (r: Response<Session>)
      requires Valid() && current in tokens
      modifies this
      ensures Valid()
      ensures tokens == old(tokens) - {current} && r == NoContent()
      ensures |tokens| == |old(tokens)| - 1
    {
      tokens := tokens - {current};
      r := NoContent();
    }

    /** POST /auth/refresh: delete the current token, then issue a new one to the same user. */
    method Refresh(current: nat, secret: string) returns (r: Response<Session>)
      requires Valid() && current in tokens
      modifies this
      ensures Valid()
      ensures var owner := old(tokens)[current];
        && tokens == (old(tokens) - {current})[old(nextId) := owner]
        && r == Success(Some(Session(PlainText(old(nextId), secret), owner)), "Success")
      ensures old(nextId) != current && current !in tokens && old(nextId) in tokens
      ensures |tokens| == |old(tokens)|
    {
      var owner := tokens[current];
      tokens := tokens - {current};
      var id := nextId;
      tokens := tokens[id := owner];
      nextId := nextId + 1;
      r := Success(Some(Session(PlainText(id, secret), owner)), "Success");
    }
  }

  /** The refreshed plain-text token differs from the one it replaces. */
  lemma RefreshedTokenIsNew(current: nat, next: nat, oldSecret: string, newSecret: string)
    requires current < next
    ensures PlainText(next, newSecret) != PlainText(current, oldSecret)
  {
    PlainTextsDiffer(next, current, newSecret, oldSecret);
  }
}
