/** Signed tokens for incident actions. The signature, JSON and UUID texts are functions
    the model knows only by their laws. */
module ActionTokens {
  import opened Wrappers
  import opened Base64Url

  datatype Payload = Payload(
    org: string, incident: string, action: string, channel: Option<string>, message: Option<string>,
    exp: int, nonce: string, connector: Option<string>)

  datatype Claims = Claims(
    org: nat, incident: nat, action: string, channel: Option<string>, message: Option<string>,
    expiresAt: real, nonce: string, connector: Option<nat>)

  datatype Error = MissingSecret | UnsupportedAction | InvalidToken | ActionMismatch | Expired

  /** Signing, canonical JSON, and the text of an id. */
  datatype Codec = Codec(
    sign: (string, string) -> seq<Byte>,
    dumps: Payload -> seq<Byte>, loads: seq<Byte> -> Option<Payload>,
    show: nat -> string, parse: string -> Option<nat>,
    supported: set<string>)

  ghost predicate Lawful(c: Codec) {
    && (forall p: Payload :: c.loads(c.dumps(p)) == Some(p))
    && (forall id: nat :: c.parse(c.show(id)) == Some(id))
  }

  /** Whole seconds, cut towards zero. */
  function Cut(t: real): int { if t >= 0.0 then t.Floor else -((-t).Floor) }

  function MakeToken(c: Codec, secret: string, claims: Claims): Result<string, Error> {
    if secret == "" then Err(MissingSecret)
    else if claims.action !in c.supported then Err(UnsupportedAction)
    else
      var payload := Payload(
        c.show(claims.org), c.show(claims.incident), claims.action, claims.channel, claims.message,
        Cut(claims.expiresAt), claims.nonce,
        if claims.connector.Some? then Some(c.show(claims.connector.value)) else None);
      var body := Encode(c.dumps(payload));
      Ok(body + "." + Encode(c.sign(secret, body)))
  }

  /** Where the first dot stands, or the length. */
  function Dot(s: string): (i: nat)
    ensures i <= |s| && (i < |s| ==> s[i] == '.') && forall k | 0 <= k < i :: s[k] != '.'
  {
    if s == "" || s[0] == '.' then 0 else 1 + Dot(s[1..])
  }

  function ClaimsOf(c: Codec, p: Payload): Option<Claims> {
    var org, incident := c.parse(p.org), c.parse(p.incident);
    var connector := if p.connector.Some? then c.parse(p.connector.value) else None;
    if org.None? || incident.None? || (p.connector.Some? && connector.None?) then None
    else Some(Claims(org.value, incident.value, p.action, p.channel, p.message, p.exp as real, p.nonce, connector))
  }

  function VerifyToken(
    c: Codec, token: string, secret: string, expected: Option<string>, now: real): Result<Claims, Error> {
    if secret == "" then Err(MissingSecret)
    else if Dot(token) == |token| then Err(InvalidToken)
    else
      var body, signature := token[..Dot(token)], Decode(token[Dot(token) + 1..]);
      if signature != Some(c.sign(secret, body)) then Err(InvalidToken)
      else
        var bytes := Decode(body);
        if bytes.None? || c.loads(bytes.value).None? then Err(InvalidToken)
        else
          var p := c.loads(bytes.value).value;
          if p.action !in c.supported then Err(UnsupportedAction)
          else if expected.Some? && p.action != expected.value then Err(ActionMismatch)
          else if p.exp as real <= now then Err(Expired)
          else if ClaimsOf(c, p).None? then Err(InvalidToken)
          else Ok(ClaimsOf(c, p).value)
  }

  lemma {:induction false} DotAfter(body: string, rest: string)
    requires forall i | 0 <= i < |body| :: IsPlain(body[i])
    ensures Dot(body + "." + rest) == |body|
    decreases |body|
  {
    var s := body + "." + rest;
    if body != "" {
      DotAfter(body[1..], rest);
      assert s[1..] == body[1..] + "." + rest;
    }
  }

  /** The token splits at its first dot into exactly its body and its signature. */
  lemma TokenSplits(bytes: seq<Byte>, signature: seq<Byte>)
    ensures var token := Encode(bytes) + "." + Encode(signature);
      && Dot(token) == |Encode(bytes)| < |token|
      && token[..Dot(token)] == Encode(bytes) && token[Dot(token) + 1..] == Encode(signature)
  {
    EncodedIsPlain(bytes);
    DotAfter(Encode(bytes), Encode(signature));
  }

  /** A fresh token verifies to its claims, its expiry cut to whole seconds, for every
      set of claims; and is refused exactly from that cut second on. */
  lemma MadeTokenVerifies(c: Codec, secret: string, claims: Claims, expected: Option<string>, now: real)
    requires Lawful(c) && secret != "" && claims.action in c.supported
    requires expected.None? || expected == Some(claims.action)
    ensures MakeToken(c, secret, claims).Ok?
    ensures VerifyToken(c, MakeToken(c, secret, claims).value, secret, expected, now) ==
      if Cut(claims.expiresAt) as real <= now then Err(Expired)
      else Ok(claims.(expiresAt := Cut(claims.expiresAt) as real))
  {
    var payload := Payload(
      c.show(claims.org), c.show(claims.incident), claims.action, claims.channel, claims.message,
      Cut(claims.expiresAt), claims.nonce,
      if claims.connector.Some? then Some(c.show(claims.connector.value)) else None);
    var bytes := c.dumps(payload);
    var body := Encode(bytes);
    TokenSplits(bytes, c.sign(secret, body));
    DecodeEncoded(bytes);
    DecodeEncoded(c.sign(secret, body));
    assert c.loads(bytes) == Some(payload);
  }

  /** The cut never prolongs a token issued after the epoch, and takes less than a
      second off. */
  lemma CutShortens(t: real)
    ensures t >= 0.0 ==> Cut(t) as real <= t < Cut(t) as real + 1.0
    ensures t < 0.0 ==> t <= Cut(t) as real < t + 1.0
  {
  }

  // ------------------------------------------------------------ links

  const MIN_TTL_MINUTES: int := 5
  const MAX_TTL_MINUTES: int := 10080

  /** A link's life, within five minutes and seven days whatever is configured. */
  function LinkTtl(minutes: int): (ttl: int)
    ensures MIN_TTL_MINUTES <= ttl <= MAX_TTL_MINUTES
    ensures MIN_TTL_MINUTES <= minutes <= MAX_TTL_MINUTES ==> ttl == minutes
  {
    var low := if minutes > MIN_TTL_MINUTES then minutes else MIN_TTL_MINUTES;
    if low < MAX_TTL_MINUTES then low else MAX_TTL_MINUTES
  }
}
