/** The guard on the detection service's upload route
    (backend/app/Http/Middleware/CustomApiKeyMiddleware.php). */
module ApiKey {
  import opened Common
  import opened Responses

  /** What the middleware does with a request: hand it on, or answer with a
      bare JSON object (not the controller envelope). */
  datatype Guarded = PassThrough | Rejected(status: int, body: map<string, string>)

  const Refusal := Rejected(401, map["message" := "Unauthorized"])

  /** Laravel's `env()` on a raw environment value (None when the variable
      is unset). The words true, false and null, bare or in parentheses and
      in any letter case, become a boolean or null; empty becomes "". A value
      wrapped in a matching pair of single or double quotes, with no line
      break inside, loses the quotes. The result is the string `env()`
      returns, or None when it returns something else. */
  function EnvString(raw: Option<string>): (r: Option<string>)
    ensures raw.None? ==> r.None?
    ensures r.Some? ==> raw.Some? && |r.value| <= |raw.value|
    ensures raw.Some? && Upper(raw.value) in {"TRUE", "(TRUE)", "FALSE", "(FALSE)", "NULL", "(NULL)"} ==> r.None?
  {
    if raw.None? then None
    else
      var v := raw.value;
      var folded := Upper(v);
      if folded in {"TRUE", "(TRUE)", "FALSE", "(FALSE)", "NULL", "(NULL)"} then None
      else if folded in {"EMPTY", "(EMPTY)"} then Some("")
      else if |v| >= 2 && (v[0] == '"' || v[0] == '\'') && v[|v| - 1] == v[0] && '\n' !in v[1..|v| - 1] then
        Some(v[1..|v| - 1])
      else Some(v)
  }

  /** `header` is the X-API-KEY header value, `env` the raw VIOLATION_API_KEY
      environment value (None when it is unset). The header must be
      identical (`!==`) to what `env()` makes of it, so only a string can
      match. */
  function Handle(header: Option<string>, env: Option<string>): (r: Guarded)
    ensures r.PassThrough? <==> PhpTruthy(header) && EnvString(env) == Some(header.value)
    ensures r.Rejected? ==> r == Refusal
  {
    if !PhpTruthy(header) then Refusal
    else if EnvString(env) != Some(header.value) then Refusal
    else PassThrough
  }

  /** A missing header, an empty one and "0" are all refused, whatever key is configured. */
  lemma FalsyHeaderRefused(env: Option<string>)
    ensures Handle(None, env) == Refusal
    ensures Handle(Some(""), env) == Refusal
    ensures Handle(Some("0"), env) == Refusal
  {
  }

  /** With no key configured nothing passes; nor do the keys "0" and
      "empty", which are falsy once read. */
  lemma UnsetKeyRefusesAll(header: Option<string>)
    ensures Handle(header, None) == Refusal
    ensures Handle(header, Some("0")) == Refusal
    ensures Handle(header, Some("empty")) == Refusal
  {
    assert Upper("empty") == "EMPTY";
  }

  /** A key spelled like a boolean or null is no string after `env()`, so
      it refuses every request. */
  lemma KeywordKeyRefusesAll(header: Option<string>, key: string)
    requires Upper(key) in {"TRUE", "(TRUE)", "FALSE", "(FALSE)", "NULL", "(NULL)"}
    ensures Handle(header, Some(key)) == Refusal
  {
  }

  /** With VIOLATION_API_KEY=true even the header "true" is refused. */
  lemma TrueKeyRefusesTrue()
    ensures Handle(Some("true"), Some("true")) == Refusal
  {
    assert Upper("true") == "TRUE";
  }

  /** A quoted key is matched without its quotes. */
  lemma QuotedKeyUnquoted(key: string)
    requires PhpTruthy(Some(key)) && '\n' !in key
    ensures Handle(Some(key), Some("\"" + key + "\"")) == PassThrough
    ensures Handle(Some("\"" + key + "\""), Some("\"" + key + "\"")) == Refusal
  {
    var v := "\"" + key + "\"";
    assert Upper(v)[0] == '"';
    assert v[1..|v| - 1] == key;
  }

  /** A key that is no keyword and does not start with a quote is read as
      it is. */
  lemma PlainKeyKept(key: string)
    requires key != "" && key[0] != '"' && key[0] != '\''
    requires Upper(key) !in {"TRUE", "(TRUE)", "FALSE", "(FALSE)", "NULL", "(NULL)", "EMPTY", "(EMPTY)"}
    ensures EnvString(Some(key)) == Some(key)
  {
  }
}
