/** Session-token helpers (src/app/utilities/getMyToken.tsx): which session
    cookie is used, and how the payload of a raw JSON Web Token is located and
    turned from base64url into padded standard base64 (section 5 of RFC 4648)
    before decoding. The payload is the second dot-separated segment of the
    compact serialisation (section 7.1 of RFC 7515). Cookie access, the
    next-auth decoder, base64 decoding and JSON parsing are not modelled:
    they are passed in as values or as a decoding function. */
module SessionToken {
  import opened Wrappers
  import Text

  const StandardCookie := "next-auth.session-token"
  const SecureCookie := "__Secure-next-auth.session-token"

  /** `getSessionToken()`: `secure ?? standard`. A present secure cookie wins
      even when its value is empty, since `??` only skips a missing value. */
  function SessionCookieValue(secure: Option<string>, standard: Option<string>): (r: Option<string>)
    ensures secure.Some? ==> r == secure
    ensures secure.None? ==> r == standard
  {
    if secure.Some? then secure else standard
  }

  /** `getMytoken()`: no decoding is attempted without a truthy session
      token; otherwise the decoder's `token` field (None when the decoder
      yields nothing) is returned. */
  function MyToken(session: Option<string>, decodedToken: Option<string>): (r: Option<string>)
    ensures !Truthy(session) ==> r.None?
    ensures Truthy(session) ==> r == decodedToken
  {
    if !Truthy(session) then None else decodedToken
  }

  /** Splitting yields at least two pieces exactly when the separator occurs. */
  lemma SplitHasTwoPiecesIff(s: string, sep: char)
    ensures |Text.Split(s, sep)| >= 2 <==> sep in s
  {
    var parts := Text.Split(s, sep);
    Text.JoinSplit(s, sep);
    if |parts| == 1 {
      assert Text.Join(parts, sep) == parts[0];
    }
  }

  /** base64url to base64: `-` becomes `+` and `_` becomes `/`, then `=` is
      appended up to a multiple of four characters. */
  function Normalise(payload: string): (r: string)
    ensures |r| % 4 == 0
    ensures |payload| <= |r| < |payload| + 4
    ensures forall i :: 0 <= i < |payload| ==>
      r[i] == (if payload[i] == '-' then '+' else if payload[i] == '_' then '/' else payload[i])
    ensures forall i :: |payload| <= i < |r| ==> r[i] == '='
  {
    var base64 := Text.ReplaceAll(Text.ReplaceAll(payload, '-', '+'), '_', '/');
    var padding := if |base64| % 4 == 0 then "" else Text.Repeat('=', 4 - |base64| % 4);
    base64 + padding
  }

  /** The normalised payload of `token`, or None when it has fewer than two
      segments. */
  function PayloadBase64(token: string): (r: Option<string>)
    ensures r.None? <==> '.' !in token
    ensures r.Some? ==> |Text.Split(token, '.')| >= 2 && r.value == Normalise(Text.Split(token, '.')[1])
  {
    SplitHasTwoPiecesIff(token, '.');
    var parts := Text.Split(token, '.');
    if |parts| < 2 then None else Some(Normalise(parts[1]))
  }

  /** The segment read is the one between the first and the second dot. */
  lemma PayloadIsSecondSegment(token: string)
    requires '.' in token
    ensures
      var parts := Text.Split(token, '.');
      && |parts| >= 2
      && '.' !in parts[0] && '.' !in parts[1]
      && token == parts[0] + ("." + (parts[1]
                  + (if |parts| > 2 then "." + Text.Join(parts[2..], '.') else "")))
  {
    var parts := Text.Split(token, '.');
    SplitHasTwoPiecesIff(token, '.');
    Text.JoinSplit(token, '.');
    if |parts| == 2 {
      JoinPair(parts);
    } else {
      JoinFirstTwo(parts);
    }
  }

  /** Two segments joined by a dot. */
  lemma JoinPair(parts: seq<string>)
    requires |parts| == 2
    ensures Text.Join(parts, '.') == parts[0] + ("." + (parts[1] + ""))
  {
    assert parts[1..] == [parts[1]];
  }

  /** Three or more segments joined by dots: the first, a dot, the second,
      a dot, then the rest. */
  lemma JoinFirstTwo(parts: seq<string>)
    requires |parts| > 2
    ensures Text.Join(parts, '.') == parts[0] + ("." + (parts[1] + ("." + Text.Join(parts[2..], '.'))))
  {
    var rest := parts[1..];
    assert rest[0] == parts[1] && rest[1..] == parts[2..];
    assert Text.Join(parts, '.') == parts[0] + "." + Text.Join(rest, '.');
    assert Text.Join(rest, '.') == parts[1] + "." + Text.Join(parts[2..], '.');
  }

  /** `decodeUserTokenPayload(token)`: the decoding of the normalised
      payload; a token without a second segment, or any failure of the
      decoder, gives None instead of an exception. */
  function DecodeUserTokenPayload<T>(token: string, decode: string -> Option<T>): (r: Option<T>)
    ensures '.' !in token ==> r.None?
    ensures var parts := Text.Split(token, '.');
      |parts| >= 2 ==> r == decode(Normalise(parts[1]))
  {
    match PayloadBase64(token)
    case None => None
    case Some(b) => decode(b)
  }

  /** The base64url spelling of a standard-base64 body (section 5 of
      RFC 4648): `+` written as `-`, `/` as `_`, padding dropped. */
  function ToBase64Url(body: string): string {
    Text.ReplaceAll(Text.ReplaceAll(body, '+', '-'), '/', '_')
  }

  /** Normalising a base64url payload restores the standard base64 text it
      was made from, padding included. */
  lemma NormaliseUndoesBase64Url(body: string, padding: nat)
    requires padding < 4 && (|body| + padding) % 4 == 0
    requires '-' !in body && '_' !in body
    ensures Normalise(ToBase64Url(body)) == body + Text.Repeat('=', padding)
  {
    var url := ToBase64Url(body);
    var r := Normalise(url);
    assert |r| == |body| + padding;
    forall i | 0 <= i < |r|
      ensures r[i] == (body + Text.Repeat('=', padding))[i]
    {
      if i < |body| {
        assert body[i] != '-' && body[i] != '_';
      }
    }
  }
}
