// The precomputed Basic authentication header of the client: the user-pass
// text "username:password" encoded in UTF-8, then in Base64, behind the
// "Basic " scheme prefix (RFC 7617).

module BasicAuth {
  import opened Wrappers
  import opened Bytes
  import opened JavaText
  import Utf8
  import Base64

  const Scheme := "Basic "

  /** The user-pass text; a null password is rendered "null" by Java's string concatenation. */
  function UserPass(username: string, password: Option<string>): (userPass: string)
    ensures |userPass| == |username| + 1 + |Text(password)|
    ensures userPass[..|username|] == username && userPass[|username|] == ':'
    ensures userPass[|username| + 1..] == Text(password)
  {
    username + ":" + Text(password)
  }

  /** The header value computed by initEncodedAuthorization. */
  function EncodedAuthorization(username: string, password: Option<string>): (header: string)
    ensures |header| >= |Scheme| && header[..|Scheme|] == Scheme
    ensures header[|Scheme|..] == Base64.Encode(Utf8.Encode(UserPass(username, password)))
  {
    Scheme + Base64.Encode(Utf8.Encode(UserPass(username, password)))
  }

  /**
   * What a server reads back from a Basic header: the text split at its first
   * ':' into user-id and password, or None when the header is malformed.
   */
  function Credentials(header: string): Option<(string, string)>
  {
    if |header| < |Scheme| || header[..|Scheme|] != Scheme then None
    else match Base64.Decode(header[|Scheme|..])
      case None => None
      case Some(bytes) =>
        match Utf8.Decode(bytes)
          case None => None
          case Some(text) =>
            var k := IndexOf(text, ':');
            if k == |text| then None else Some((text[..k], text[k + 1..]))
  }

  /** The header decodes back to the exact user-pass text. */
  lemma DecodeAuthorization(username: string, password: Option<string>)
    ensures var header := EncodedAuthorization(username, password);
      Base64.Decode(header[|Scheme|..]).Some? &&
      Utf8.Decode(Base64.Decode(header[|Scheme|..]).value) == Some(UserPass(username, password))
  {
    var userPass := UserPass(username, password);
    Utf8.DecodeEncode(userPass);
    Base64.DecodeEncode(Utf8.Encode(userPass));
  }

  /**
   * A user name without ':' is recovered exactly, and so is the password
   * (as Java rendered it), whatever it contains.
   */
  lemma CredentialsRoundTrip(username: string, password: Option<string>)
    requires forall i :: 0 <= i < |username| ==> username[i] != ':'
    ensures Credentials(EncodedAuthorization(username, password)) == Some((username, Text(password)))
  {
    var header := EncodedAuthorization(username, password);
    DecodeAuthorization(username, password);
    SplitUserPass(username, password);
    CredentialsOfText(header, UserPass(username, password));
  }

  /** The first ':' of the user-pass text is the separator when the user name has none. */
  lemma SplitUserPass(username: string, password: Option<string>)
    requires forall i :: 0 <= i < |username| ==> username[i] != ':'
    ensures var userPass := UserPass(username, password);
      IndexOf(userPass, ':') == |username|
  {
    var userPass := UserPass(username, password);
    assert userPass == username + (":" + Text(password));
    IndexOfAfter(username, ":" + Text(password), ':');
  }

  /** The reader on a header whose encoded part decodes to `text`. */
  lemma CredentialsOfText(header: string, text: string)
    requires |header| >= |Scheme| && header[..|Scheme|] == Scheme
    requires Base64.Decode(header[|Scheme|..]).Some?
    requires Utf8.Decode(Base64.Decode(header[|Scheme|..]).value) == Some(text)
    ensures var k := IndexOf(text, ':');
      Credentials(header) == if k == |text| then None else Some((text[..k], text[k + 1..]))
  {
  }

  /** Distinct colon-free user names or distinct passwords give distinct headers. */
  lemma EncodedAuthorizationInjective(u1: string, p1: Option<string>, u2: string, p2: Option<string>)
    requires forall i :: 0 <= i < |u1| ==> u1[i] != ':'
    requires forall i :: 0 <= i < |u2| ==> u2[i] != ':'
    requires EncodedAuthorization(u1, p1) == EncodedAuthorization(u2, p2)
    ensures u1 == u2 && Text(p1) == Text(p2)
  {
    CredentialsRoundTrip(u1, p1);
    CredentialsRoundTrip(u2, p2);
  }

  /** A ':' inside the user name cannot be told apart from the separator. */
  lemma ColonInUsernameIsAmbiguous(user: string, rest: string, password: Option<string>)
    ensures EncodedAuthorization(user + ":" + rest, password) ==
            EncodedAuthorization(user, Some(rest + ":" + Text(password)))
  {
    assert UserPass(user + ":" + rest, password) == UserPass(user, Some(rest + ":" + Text(password)));
  }

  /** A null password is sent as the four characters "null". */
  lemma NullPasswordIsText(username: string)
    ensures EncodedAuthorization(username, None) == EncodedAuthorization(username, Some("null"))
  {
  }

  /** The UTF-8 bytes of "alice:secret". */
  const AliceSecretBytes: seq<byte> := [97, 108, 105, 99, 101, 58, 115, 101, 99, 114, 101, 116]

  lemma AliceSecretLastGroups()
    ensures Base64.Encode(AliceSecretBytes[6..]) == "c2Vj" + "cmV0"
  {
    var bs := AliceSecretBytes[6..];
    assert Base64.Quantum(115, 101, 99) == "c2Vj";
    assert Base64.Quantum(114, 101, 116) == "cmV0";
    Base64.EncodeGroup(bs);
    Base64.EncodeGroup(bs[3..]);
    assert bs[3..][3..] == [];
  }

  lemma AliceSecretFirstGroups()
    ensures Base64.Encode(AliceSecretBytes) == "YWxp" + "Y2U6" + Base64.Encode(AliceSecretBytes[6..])
  {
    var bs := AliceSecretBytes;
    assert Base64.Quantum(97, 108, 105) == "YWxp";
    assert Base64.Quantum(99, 101, 58) == "Y2U6";
    Base64.EncodeGroup(bs);
    Base64.EncodeGroup(bs[3..]);
    assert bs[3..][3..] == bs[6..];
  }

  lemma AliceSecretJoin()
    ensures Scheme + ("YWxp" + "Y2U6" + ("c2Vj" + "cmV0")) == "Basic YWxpY2U6c2VjcmV0"
  {
    assert "c2Vj" + "cmV0" == "c2VjcmV0";
    assert "YWxp" + "Y2U6" == "YWxpY2U6";
    assert "YWxpY2U6" + "c2VjcmV0" == "YWxpY2U6c2VjcmV0";
  }

  lemma AliceSecretText()
    ensures UserPass("alice", Some("secret")) == "alice:secret"
  {
  }

  lemma AliceSecretUtf8()
    ensures Utf8.Encode(UserPass("alice", Some("secret"))) == AliceSecretBytes
  {
    AliceSecretText();
    Utf8.AsciiEncodesAs("alice:secret", AliceSecretBytes);
  }

  /** User "alice" with password "secret" gives "Basic YWxpY2U6c2VjcmV0" (no padding: 12 bytes). */
  lemma AliceSecretHeader()
    ensures EncodedAuthorization("alice", Some("secret")) == "Basic YWxpY2U6c2VjcmV0"
  {
    AliceSecretUtf8();
    AliceSecretFirstGroups();
    AliceSecretLastGroups();
    AliceSecretJoin();
  }
}
