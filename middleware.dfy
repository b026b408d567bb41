/**
 * The HTTP Basic authentication gate in front of every page (the Basic scheme of RFC 7617).
 * The outcome depends only on the Authorization header and the two configured secrets; the
 * base64 decoder (Node's lenient `Buffer.from(encoded, 'base64').toString()`) is a parameter.
 */
module Middleware {
  import opened Wrappers
  import opened Js
  import opened Text
  import Base64

  const Challenge := "Basic realm=\"Secure Area\""
  const AuthenticationRequired := "Authentication required"

  /** `NextResponse.next()`, or the 401 response with its challenge header. */
  datatype Decision = Next | Unauthorized(status: int, body: string, wwwAuthenticate: string)

  /** `respondUnauthorized()`. */
  function RespondUnauthorized(): (d: Decision)
    ensures d.Unauthorized? && d.status == 401 && d.wwwAuthenticate == Challenge
  {
    Unauthorized(401, AuthenticationRequired, Challenge)
  }

  /** `middleware(req)`: `user` and `password` are the configured secrets, `authorization` the
      request's header (None when absent). */
  function Decide(user: Option<string>, password: Option<string>, authorization: Option<string>,
                  decode: string -> string): (d: Decision)
    ensures !IsSet(user) || !IsSet(password) ==> d == Next
    ensures IsSet(user) && IsSet(password) && !IsSet(authorization) ==> d == RespondUnauthorized()
    ensures d == Next || d == RespondUnauthorized()
    ensures IsSet(user) && IsSet(password) && IsSet(authorization) ==>
      var (scheme, token) := FirstTwoFields(authorization.value, ' ');
      (d == Next <==>
        && scheme == "Basic"
        && token.Some? && token.value != ""
        && FirstTwoFields(decode(token.value), ':').0 == user.value
        && FirstTwoFields(decode(token.value), ':').1 == password)
  {
    if !IsSet(user) || !IsSet(password) then Next
    else if !IsSet(authorization) then RespondUnauthorized()
    else
      var (scheme, encoded) := FirstTwoFields(authorization.value, ' ');
      if scheme != "Basic" || encoded.None? || encoded.value == "" then RespondUnauthorized()
      else
        var (u, p) := FirstTwoFields(decode(encoded.value), ':');
        if u == user.value && p == password then Next else RespondUnauthorized()
  }

  /** The header a client sends for a user-id and password (RFC 7617 section 2): the scheme, one
      space, and the base64 of `user-id ":" password`. */
  function BasicHeader(userId: string, pass: string): string
    requires Base64.IsAscii(userId + ":" + pass)
  {
    "Basic " + Base64.Encode(Base64.AsciiBytes(userId + ":" + pass))
  }

  /** The text a decoder that follows RFC 4648 on well-formed input gives back. */
  predicate DecodesFaithfully(decode: string -> string, text: string)
    requires Base64.IsAscii(text)
  {
    decode(Base64.Encode(Base64.AsciiBytes(text))) == text
  }

  /** With both secrets configured, a well-formed request for colon-free credentials is let through
      exactly when both match. */
  lemma {:induction false} BasicCredentialsGranted(user: string, password: string, userId: string, pass: string,
                                                  decode: string -> string)
    requires user != "" && password != ""
    requires ':' !in userId && ':' !in pass && Base64.IsAscii(userId + ":" + pass)
    requires DecodesFaithfully(decode, userId + ":" + pass)
    ensures Decide(Some(user), Some(password), Some(BasicHeader(userId, pass)), decode) == Next
            <==> userId == user && pass == password
  {
    var text := userId + ":" + pass;
    var token := Base64.Encode(Base64.AsciiBytes(text));
    Base64.EncodeAlphabet(Base64.AsciiBytes(text));
    assert |token| > 0;
    SplitPrefix("Basic", ' ', token);
    assert BasicHeader(userId, pass) == "Basic" + [' '] + token;
    SplitNoSeparator(token, ' ');
    SplitPrefix(userId, ':', pass);
    assert text == userId + [':'] + pass;
    SplitNoSeparator(pass, ':');
  }

  /** The reference decoder of RFC 4648 meets what `BasicCredentialsGranted` asks of `decode`. */
  lemma ReferenceDecoderFaithful(text: string)
    requires Base64.IsAscii(text)
    ensures DecodesFaithfully(Base64.DecodeText, text)
  {
    Base64.DecodeTextEncode(text);
  }

  /** The gate is open when the secrets are not both configured, whatever the request. */
  lemma UnconfiguredIsOpen(user: Option<string>, password: Option<string>, authorization: Option<string>,
                           decode: string -> string)
    requires !IsSet(user) || !IsSet(password)
    ensures Decide(user, password, authorization, decode) == Next
  {
  }

  /** As written, the decoded text is cut at every colon, so a configured password that contains a
      colon is never matched, whatever the request carries. */
  lemma ColonPasswordNeverGranted(user: string, password: string, authorization: Option<string>,
                                  decode: string -> string)
    requires user != "" && ':' in password
    ensures Decide(Some(user), Some(password), authorization, decode) == RespondUnauthorized()
  {
  }

  /** RFC 7617 section 2: the user-id ends at the FIRST colon and the password is everything after
      it, colons included. */
  function UserAndPasswordAtFirstColon(decoded: string): (r: (string, Option<string>))
    ensures ':' !in r.0
    ensures r.1.Some? ==> decoded == r.0 + ":" + r.1.value
    ensures r.1.None? ==> decoded == r.0
  {
    if decoded == [] then ("", None)
    else if decoded[0] == ':' then ("", Some(decoded[1..]))
    else
      var (u, p) := UserAndPasswordAtFirstColon(decoded[1..]);
      ([decoded[0]] + u, p)
  }

  /** The decision with the credentials split at the first colon, as RFC 7617 section 2 reads. */
  function DecideAtFirstColon(user: Option<string>, password: Option<string>, authorization: Option<string>,
                              decode: string -> string): (d: Decision)
    ensures d == Next || d == RespondUnauthorized()
    ensures !IsSet(user) || !IsSet(password) ==> d == Next
  {
    if !IsSet(user) || !IsSet(password) then Next
    else if !IsSet(authorization) then RespondUnauthorized()
    else
      var (scheme, encoded) := FirstTwoFields(authorization.value, ' ');
      if scheme != "Basic" || encoded.None? || encoded.value == "" then RespondUnauthorized()
      else
        var (u, p) := UserAndPasswordAtFirstColon(decode(encoded.value));
        if u == user.value && p == password then Next else RespondUnauthorized()
  }

  /** Split at the first colon, any password, colons included, is matched exactly. */
  lemma {:induction false} AnyPasswordGrantedAtFirstColon(user: string, password: string, userId: string, pass: string,
                                                         decode: string -> string)
    requires user != "" && password != ""
    requires ':' !in userId && Base64.IsAscii(userId + ":" + pass)
    requires DecodesFaithfully(decode, userId + ":" + pass)
    ensures DecideAtFirstColon(Some(user), Some(password), Some(BasicHeader(userId, pass)), decode) == Next
            <==> userId == user && pass == password
  {
    var text := userId + ":" + pass;
    var token := Base64.Encode(Base64.AsciiBytes(text));
    Base64.EncodeAlphabet(Base64.AsciiBytes(text));
    assert |token| > 0;
    SplitPrefix("Basic", ' ', token);
    assert BasicHeader(userId, pass) == "Basic" + [' '] + token;
    SplitNoSeparator(token, ' ');
    var (u, p) := UserAndPasswordAtFirstColon(text);
    FirstColonUnique(userId, pass, u, p);
  }

  /** A colon-free prefix before a colon is the only way to read the text as user-id and password. */
  lemma {:induction false} FirstColonUnique(userId: string, pass: string, u: string, p: Option<string>)
    requires ':' !in userId
    requires (u, p) == UserAndPasswordAtFirstColon(userId + ":" + pass)
    ensures u == userId && p == Some(pass)
  {
    var text := userId + ":" + pass;
    if userId == [] {
      assert text == [':'] + pass;
      assert text[1..] == pass;
    } else {
      assert text[1..] == userId[1..] + ":" + pass;
      var (u', p') := UserAndPasswordAtFirstColon(text[1..]);
      FirstColonUnique(userId[1..], pass, u', p');
      assert [userId[0]] + userId[1..] == userId;
    }
  }
}
