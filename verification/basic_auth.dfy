/** Basic authentication (section 2 of RFC 7617): the `Authorization`
    header is the scheme `Basic`, a space, and the base64 of
    `login ":" password` in the authoriser's text encoding, Latin-1. */
module BasicAuth {
  import opened Wrappers
  import opened Text
  import opened Http
  import opened Base64

  datatype BasicAuthoriser = BasicAuthoriser(login: string, password: string)

  /** The first character Latin-1 cannot encode. */
  datatype EncodeError = NotLatin1(position: nat)

  const Scheme: string := "Basic"
  const AuthorizationHeader: string := "Authorization"

  predicate Latin1Char(c: char)
  {
    c as int < 256
  }

  /** `s.encode("latin-1")`: each character is its own code as a byte;
      the first character above 255 is an error. */
  function EncodeLatin1(s: string): (r: Result<seq<Byte>, EncodeError>)
    ensures r.Ok? <==> forall i :: 0 <= i < |s| ==> Latin1Char(s[i])
    ensures r.Ok? ==> |r.value| == |s| && forall i :: 0 <= i < |s| ==> r.value[i] == s[i] as int
    ensures r.Err? ==> r.error.position < |s| && !Latin1Char(s[r.error.position])
    decreases |s|
  {
    if |s| == 0 then Ok([])
    else if !Latin1Char(s[0]) then Err(NotLatin1(0))
    else match EncodeLatin1(s[1..])
      case Err(NotLatin1(p)) => Err(NotLatin1(p + 1))
      case Ok(rest) => Ok([s[0] as int] + rest)
  }

  /** `bs.decode("latin-1")`. */
  function DecodeLatin1(bs: seq<Byte>): (s: string)
    ensures |s| == |bs| && forall i :: 0 <= i < |bs| ==> s[i] as int == bs[i]
  {
    seq(|bs|, i requires 0 <= i < |bs| => bs[i] as char)
  }

  /** Text Latin-1 can encode comes back unchanged. */
  lemma Latin1RoundTrip(s: string)
    requires forall i :: 0 <= i < |s| ==> Latin1Char(s[i])
    ensures DecodeLatin1(EncodeLatin1(s).value) == s
  {
  }

  /** `authorise()`: the header carrying the encoded credentials. */
  function Authorise(a: BasicAuthoriser): (r: Result<Headers, EncodeError>)
  {
    var bytes :- EncodeLatin1(a.login + ":" + a.password);
    Ok(map[AuthorizationHeader := Scheme + " " + Encode(bytes)])
  }

  /** Credentials are refused exactly when some character of them has no
      Latin-1 byte. */
  lemma AuthoriseFailsOnlyOnEncoding(a: BasicAuthoriser)
    ensures Authorise(a).Ok? <==> forall i :: 0 <= i < |a.login + ":" + a.password| ==> Latin1Char((a.login + ":" + a.password)[i])
  {
  }

  /** The header value is two parts around a single space: the scheme,
      then strict base64 that decodes to the credentials, which split at
      the colon into the login and the password when neither holds one. */
  lemma {:induction false} HeaderDecodes(a: BasicAuthoriser)
    requires Authorise(a).Ok?
    ensures AuthorizationHeader in Authorise(a).value
    ensures var parts := Split(Authorise(a).value[AuthorizationHeader], ' ');
      && |parts| == 2 && parts[0] == Scheme
      && Decode(parts[1]).Some?
      && DecodeLatin1(Decode(parts[1]).value) == a.login + ":" + a.password
    ensures ':' !in a.login && ':' !in a.password ==>
      var parts := Split(Authorise(a).value[AuthorizationHeader], ' ');
      Split(DecodeLatin1(Decode(parts[1]).value), ':') == [a.login, a.password]
  {
    var credentials := a.login + ":" + a.password;
    var bytes := EncodeLatin1(credentials).value;
    var encoded := Encode(bytes);
    assert Authorise(a).value[AuthorizationHeader] == Scheme + [' '] + encoded;
    assert ' ' !in encoded by {
      forall k | 0 <= k < |encoded| ensures encoded[k] != ' ' {
        assert InAlphabet(encoded[k]) || encoded[k] == Pad;
      }
    }
    SplitPair(Scheme, ' ', encoded);
    DecodeEncode(bytes);
    Latin1RoundTrip(credentials);
    if ':' !in a.login && ':' !in a.password {
      SplitPair(a.login, ':', a.password);
      assert credentials == a.login + [':'] + a.password;
    }
  }
}
