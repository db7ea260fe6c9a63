/**
 * A symbolic stand-in for the signed compact serialisation of a JSON Web
 * Token. The payload carries exactly the three registered claims the core
 * uses (section 4.1 of RFC 7519: "sub", "iat", "exp"); the two dates are
 * NumericDate values, i.e. whole seconds. The signature is the output of an
 * uninterpreted message authentication code `mac(secret, payload)`.
 */
module TokenCodec {
  import opened Wrappers
  import opened Decimal

  /** The claims of one token. `subject` is absent when the token has no "sub". */
  datatype Claims = Claims(subject: Option<string>, issuedAt: nat, expiration: nat)

  /** The keyed signing function and the key it is used with. */
  datatype Signer = Signer(secret: string, mac: (string, string) -> string)

  function EncodeSubject(subject: Option<string>): (s: string)
    ensures |s| > 0
  {
    match subject
    case None => "-"
    case Some(x) => Show(|x|) + (":" + x)
  }

  /** The payload: subject, issued-at, a dot, expiration. */
  function EncodeClaims(c: Claims): (s: string)
    ensures |s| > 0
  {
    EncodeSubject(c.subject) + (Show(c.issuedAt) + ("." + Show(c.expiration)))
  }

  /** `compact()`: payload, a dot, and the signature over the payload. */
  function Sign(signer: Signer, c: Claims): string {
    var payload := EncodeClaims(c);
    payload + ("." + signer.mac(signer.secret, payload))
  }

  /** Reads the numeral at the front of `s`; yields its value and what follows. */
  function ReadNumber(s: string): (r: Option<(nat, string)>)
    ensures r.Some? ==> |r.value.1| < |s|
  {
    var k := DigitRun(s);
    if k == 0 then None else Some((Read(s[..k]), s[k..]))
  }

  /** Reads the subject field: "-" for none, else a length, a colon and that many characters. */
  function ReadSubject(s: string): Option<(Option<string>, string)> {
    if |s| > 0 && s[0] == '-' then Some((None, s[1..]))
    else
      match ReadNumber(s)
      case None => None
      case Some((len, r)) =>
        if 1 + len <= |r| && r[0] == ':' then Some((Some(r[1..1 + len]), r[1 + len..])) else None
  }

  /** Reads "iat.exp" at the front of `s`. */
  function ReadDates(s: string): Option<(nat, nat)> {
    match ReadNumber(s)
    case None => None
    case Some((iat, r)) =>
      if |r| > 0 && r[0] == '.' then
        match ReadNumber(r[1..])
        case None => None
        case Some((exp, _)) => Some((iat, exp))
      else None
  }

  /** Reads the claims at the front of a token string. */
  function DecodeClaims(t: string): Option<Claims> {
    match ReadSubject(t)
    case None => None
    case Some((subject, r)) =>
      match ReadDates(r)
      case None => None
      case Some((iat, exp)) => Some(Claims(subject, iat, exp))
  }

  /** Signature verification: the string must be exactly the signed form of
      the claims it carries. */
  function Verify(signer: Signer, t: string): (r: Option<Claims>)
    ensures r.Some? ==> t == Sign(signer, r.value)
  {
    match DecodeClaims(t)
    case None => None
    case Some(c) => if t == Sign(signer, c) then Some(c) else None
  }

  lemma ReadNumberOf(digits: string, rest: string)
    requires AllDigits(digits) && |digits| > 0
    requires rest == [] || !IsDigit(rest[0])
    ensures ReadNumber(digits + rest) == Some((Read(digits), rest))
  {
    DigitRunOfShow(digits, rest);
    assert (digits + rest)[..|digits|] == digits;
    assert (digits + rest)[|digits|..] == rest;
  }

  lemma DotTail(x: string)
    ensures |"." + x| > 0 && ("." + x)[0] == '.' && ("." + x)[1..] == x
  {
  }

  lemma ReadSubjectOf(subject: Option<string>, rest: string)
    ensures ReadSubject(EncodeSubject(subject) + rest) == Some((subject, rest))
  {
    match subject {
      case None =>
        assert ("-" + rest)[1..] == rest;
      case Some(x) =>
        var digits := Show(|x|);
        var tail := ":" + (x + rest);
        assert EncodeSubject(subject) + rest == digits + tail;
        ReadNumberOf(digits, tail);
        ReadShow(|x|);
        assert tail[1..1 + |x|] == x;
        assert tail[1 + |x|..] == rest;
        assert (digits + tail)[0] == digits[0];
    }
  }

  lemma ReadDatesAt(s: string, iat: nat, r: string, exp: nat, rest: string)
    requires ReadNumber(s) == Some((iat, r))
    requires |r| > 0 && r[0] == '.' && ReadNumber(r[1..]) == Some((exp, rest))
    ensures ReadDates(s) == Some((iat, exp))
  {
  }

  lemma ReadDatesOfDigits(a: string, b: string, tag: string)
    requires AllDigits(a) && |a| > 0 && AllDigits(b) && |b| > 0
    ensures ReadDates(a + ("." + (b + ("." + tag)))) == Some((Read(a), Read(b)))
  {
    var r := "." + (b + ("." + tag));
    assert ReadNumber(a + r) == Some((Read(a), r)) by {
      ReadNumberOf(a, r);
    }
    DotTail(b + ("." + tag));
    assert ReadNumber(r[1..]) == Some((Read(b), "." + tag)) by {
      ReadNumberOf(b, "." + tag);
    }
    ReadDatesAt(a + r, Read(a), r, Read(b), "." + tag);
  }

  /** Decoding recovers the claims of any signed token, whatever the tag. */
  lemma {:induction false} DecodeEncode(c: Claims, tag: string)
    ensures DecodeClaims(EncodeClaims(c) + ("." + tag)) == Some(c)
  {
    var a, b := Show(c.issuedAt), Show(c.expiration);
    var dates := a + ("." + (b + ("." + tag)));
    assert EncodeClaims(c) + ("." + tag) == EncodeSubject(c.subject) + dates;
    ReadSubjectOf(c.subject, dates);
    ReadDatesOfDigits(a, b, tag);
    ReadShow(c.issuedAt);
    ReadShow(c.expiration);
  }

  /** Round trip: a token signed under the signer verifies to its claims. */
  lemma VerifySign(signer: Signer, c: Claims)
    ensures Verify(signer, Sign(signer, c)) == Some(c)
  {
    DecodeEncode(c, signer.mac(signer.secret, EncodeClaims(c)));
  }
}
