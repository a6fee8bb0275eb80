/** The session token codec, standing in for `jsonwebtoken`'s `sign` and `verify`.

    A token carries its payload (the claims plus issue and expiry times) and a signature. Real
    HMAC signing is not modelled: the signature is the signing key itself, so a token verifies
    under a key exactly when it was signed with that key. The compact text form is six escaped
    segments joined by '.', which, like the real base64url form, never contains a space. */
module Jwt {
  import opened Wrappers
  import opened Text
  import opened Decimal
  import opened Escaping
  import opened Json

  /** `expiresIn: "7d"`, in seconds. */
  const SevenDays: nat := 7 * 24 * 60 * 60

  /** The decoded payload: the claims `{id, username, role}` plus `iat` and `exp` (seconds). */
  datatype Payload = Payload(id: string, username: Field, role: Field, iat: nat, exp: nat)

  datatype Token = Token(payload: Payload, signature: string)

  /** Why `jwt.verify` throws: a malformed token, a bad signature, or an expired token. */
  datatype VerifyError = Malformed | BadSignature | Expired

  function EncodeField(f: Field): string {
    match f
    case None => "u"
    case Some(VNull) => "z"
    case Some(VBool(b)) => if b then "t" else "f"
    case Some(VNum(n)) => "n" + IntToDecimal(n)
    case Some(VStr(s)) => "s" + s
  }

  function DecodeField(s: string): Option<Field> {
    if s == "u" then Some(None)
    else if s == "z" then Some(Some(VNull))
    else if s == "t" then Some(Some(VBool(true)))
    else if s == "f" then Some(Some(VBool(false)))
    else if |s| >= 1 && s[0] == 'n' then
      match ParseInt(s[1..])
      case Some(n) => Some(Some(VNum(n)))
      case None => None
    else if |s| >= 1 && s[0] == 's' then Some(Some(VStr(s[1..])))
    else None
  }

  lemma DecodeEncodeField(f: Field)
    ensures DecodeField(EncodeField(f)) == Some(f)
  {
    match f
    case Some(VNum(n)) =>
      ParseIntToDecimal(n);
      assert EncodeField(f)[1..] == IntToDecimal(n);
    case Some(VStr(s)) =>
      assert EncodeField(f)[1..] == s;
    case _ =>
  }

  /** The six unescaped segments of a token. */
  function Segments(t: Token): (r: seq<string>)
    ensures |r| == 6
  {
    var p := t.payload;
    [p.id, EncodeField(p.username), EncodeField(p.role), NatToDecimal(p.iat), NatToDecimal(p.exp), t.signature]
  }

  function EscapeAll(xs: seq<string>): (r: seq<string>)
    ensures |r| == |xs|
    ensures forall i :: 0 <= i < |xs| ==> r[i] == Escape(xs[i])
  {
    seq(|xs|, i requires 0 <= i < |xs| => Escape(xs[i]))
  }

  function UnescapeAll(xs: seq<string>): (r: Option<seq<string>>)
    ensures r.Some? ==> |r.value| == |xs|
    decreases |xs|
  {
    if |xs| == 0 then Some([])
    else
      match (Unescape(xs[0]), UnescapeAll(xs[1..]))
      case (Some(x), Some(rest)) => Some([x] + rest)
      case _ => None
  }

  lemma {:induction false} UnescapeAllEscapeAll(xs: seq<string>)
    ensures UnescapeAll(EscapeAll(xs)) == Some(xs)
    decreases |xs|
  {
    if |xs| > 0 {
      var e := EscapeAll(xs);
      assert e[1..] == EscapeAll(xs[1..]);
      UnescapeAllEscapeAll(xs[1..]);
      UnescapeEscape(xs[0]);
      assert xs == [xs[0]] + xs[1..];
    }
  }

  /** The compact text form of a token. */
  function Encode(t: Token): (s: string)
    ensures ' ' !in s
  {
    var parts := EscapeAll(Segments(t));
    JoinAvoids(parts, '.', ' ');
    Join(parts, '.')
  }

  /** Reads the compact text form; `None` is a malformed token. */
  function Decode(s: string): Option<Token> {
    var parts := Split(s, '.');
    if |parts| != 6 then None
    else
      var raw :- UnescapeAll(parts);
      var username :- DecodeField(raw[1]);
      var role :- DecodeField(raw[2]);
      var iat :- ParseNat(raw[3]);
      var exp :- ParseNat(raw[4]);
      Some(Token(Payload(raw[0], username, role, iat, exp), raw[5]))
  }

  /** Every token survives its own encoding. */
  lemma DecodeEncode(t: Token)
    ensures Decode(Encode(t)) == Some(t)
  {
    var segs := Segments(t);
    var parts := EscapeAll(segs);
    SplitJoin(parts, '.');
    UnescapeAllEscapeAll(segs);
    DecodeEncodeField(t.payload.username);
    DecodeEncodeField(t.payload.role);
    ParseNatToDecimal(t.payload.iat);
    ParseNatToDecimal(t.payload.exp);
  }

  /** `jwt.sign({id, username, role}, secret, {expiresIn: "7d"})` at clock `now` (seconds). */
  function Sign(id: string, username: Field, role: Field, secret: string, now: nat): (s: string)
    ensures ' ' !in s
    ensures Decode(s) == Some(Token(Payload(id, username, role, now, now + SevenDays), secret))
  {
    var t := Token(Payload(id, username, role, now, now + SevenDays), secret);
    DecodeEncode(t);
    Encode(t)
  }

  /** `jwt.verify(s, secret)` at clock `now`: the signature is checked before the expiry, and a
      token is expired once the clock reaches `exp`. */
  function Verify(s: string, secret: string, now: nat): (r: Result<Payload, VerifyError>)
    ensures r.Success? <==> Decode(s).Some? && Decode(s).value.signature == secret && now < Decode(s).value.payload.exp
    ensures r.Success? ==> r.value == Decode(s).value.payload
    ensures r == Failure(Malformed) <==> Decode(s).None?
  {
    match Decode(s)
    case None => Failure(Malformed)
    case Some(t) =>
      if t.signature != secret then Failure(BadSignature)
      else if now >= t.payload.exp then Failure(Expired)
      else Success(t.payload)
  }

  /** Signing then verifying with the same key before the expiry gives back the claims unchanged;
      with another key it is a bad signature; from the expiry on it is expired. */
  lemma SignThenVerify(id: string, username: Field, role: Field, secret: string, issued: nat, key: string, now: nat)
    ensures var r := Verify(Sign(id, username, role, secret, issued), key, now);
      && (key != secret ==> r == Failure(BadSignature))
      && (key == secret && now >= issued + SevenDays ==> r == Failure(Expired))
      && (key == secret && now < issued + SevenDays ==>
            r == Success(Payload(id, username, role, issued, issued + SevenDays)))
  {
  }

  /** No token verifies once the clock has reached its expiry, whatever its claims. */
  lemma ExpiredNeverVerifies(s: string, secret: string, now: nat)
    requires Decode(s).Some? && now >= Decode(s).value.payload.exp
    ensures Verify(s, secret, now).Failure?
  {
  }

  /** The empty token (what "Bearer " followed by a second space yields) never verifies. */
  lemma EmptyTokenIsMalformed(secret: string, now: nat)
    ensures Verify("", secret, now) == Failure(Malformed)
  {
    assert Split("", '.') == [""];
  }
}
