/** Basic credentials: what the gateway sends to an upstream proxy and what it accepts from clients. */
module Credentials {
  import opened Text
  import opened Base64

  const COLON: Byte := 58

  const BASIC := "Basic "

  /** `ProxyAuthorization`: no header at all when there is neither a user nor a password. */
  function ProxyAuthorization(user: seq<Byte>, password: seq<Byte>): string {
    if user == [] && password == [] then "" else BASIC + Encode(STD, user + [COLON] + password)
  }

  /** `parseBasicAuth`: the decoded text is cut at its first colon. */
  function ParseBasicAuth(header: string): Option<(seq<Byte>, seq<Byte>)> {
    if !(BASIC <= header) then None
    else match Decode(STD, header[|BASIC|..])
      case None => None
      case Some(text) => Cut(text, COLON)
  }

  lemma ParsesSent(user: seq<Byte>, password: seq<Byte>)
    requires !(user == [] && password == [])
    ensures ParseBasicAuth(ProxyAuthorization(user, password)) == Cut(user + [COLON] + password, COLON)
  {
    var text := user + [COLON] + password;
    var header := ProxyAuthorization(user, password);
    assert header[|BASIC|..] == Encode(STD, text);
    DecodeEncode(STD, text);
  }

  /** Parsing gives back exactly what was printed precisely when the user holds no colon and there is
      something to print; the password is free. */
  lemma AuthorizationInverts(user: seq<Byte>, password: seq<Byte>)
    ensures ParseBasicAuth(ProxyAuthorization(user, password)) == Some((user, password))
       <==> COLON !in user && !(user == [] && password == [])
  {
    if user == [] && password == [] {
      assert !(BASIC <= "");
    } else {
      ParsesSent(user, password);
      if COLON !in user {
        CutJoined(user, COLON, password);
      }
    }
  }

  /** What is accepted at all: a header of the scheme whose text decodes and holds a colon. Printing the
      two parts again decodes to the same text. */
  lemma ParsedPrintsAgain(header: string)
    requires ParseBasicAuth(header).Some?
    ensures var (user, password) := ParseBasicAuth(header).value;
         && COLON !in user
         && Decode(STD, header[|BASIC|..]) == Some(user + [COLON] + password)
         && (!(user == [] && password == []) ==>
              ParseBasicAuth(ProxyAuthorization(user, password)) == ParseBasicAuth(header))
  {
    var (user, password) := ParseBasicAuth(header).value;
    AuthorizationInverts(user, password);
  }

  /** The scheme as RFC 7617 (section 2) has it: the word, one space, and the padded encoding of user and
      password around a colon. No other header is accepted. */
  lemma BasicScheme(user: seq<Byte>, password: seq<Byte>, header: string)
    requires COLON !in user
    ensures ParseBasicAuth("Basic " + Encode(Encoding(false, true), user + [58] + password)) == Some((user, password))
    ensures !(user == [] && password == []) ==>
              ProxyAuthorization(user, password) == "Basic " + Encode(Encoding(false, true), user + [58] + password)
    ensures !("Basic " <= header) ==> ParseBasicAuth(header).None?
  {
    var text := user + [COLON] + password;
    var printed := "Basic " + Encode(STD, text);
    assert printed[|BASIC|..] == Encode(STD, text);
    DecodeEncode(STD, text);
    CutJoined(user, COLON, password);
  }
}
