/** Credential entries: how credentials.go builds one from an auth file entry or from a credential helper's
    reply, and what the `auth` field of an entry is worth. */
module Credentials {
  import opened Outcomes
  import opened Base64

  const COLON: byte := 58

  // The literal user name "<token>" of the helper protocol.
  const TOKEN_USER: Bytes := [60, 116, 111, 107, 101, 110, 62]

  datatype AuthEntry = AuthEntry(
    serverURL: string,
    username: Bytes,
    password: Bytes,
    auth: Bytes,
    identityToken: Bytes,
    registryToken: Bytes)

  datatype RawAuthEntry = RawAuthEntry(
    auth: Bytes,
    username: Bytes,
    password: Bytes,
    identityToken: Bytes,
    registryToken: Bytes)

  // bytes.Cut at the first colon.
  function Cut(data: Bytes): Option<(Bytes, Bytes)> {
    if data == [] then None
    else if data[0] == COLON then Some(([], data[1..]))
    else match Cut(data[1..])
      case Some((before, after)) => Some(([data[0]] + before, after))
      case None => None
  }

  function DecodeBase64Credentials(auth: Bytes): (Bytes, Bytes) {
    match Decode(auth)
    case None => ([], [])
    case Some(decoded) =>
      match Cut(decoded)
      case None => ([], [])
      case Some(pair) => pair
  }

  function Pair(username: Bytes, password: Bytes): Bytes {
    username + [COLON] + password
  }

  function DecodeInlineEntry(serverURL: string, raw: RawAuthEntry): AuthEntry {
    if raw.auth != [] then
      var (username, password) := DecodeBase64Credentials(raw.auth);
      AuthEntry(serverURL, username, password, raw.auth, raw.identityToken, raw.registryToken)
    else
      var auth := if raw.username != [] || raw.password != [] then Encode(Pair(raw.username, raw.password)) else [];
      AuthEntry(serverURL, raw.username, raw.password, auth, raw.identityToken, raw.registryToken)
  }

  // What running `docker-credential-<suffix> get` can come to.
  datatype Reply =
    | NotOnPath
    | LookupFailed
    | ExitedNonZero
    | RunFailed
    | Malformed
    | Answer(serverURL: string, username: Bytes, secret: Bytes)

  datatype Lookup = Hit(entry: AuthEntry) | Miss | Failed

  function EntryFromReply(serverURL: string, username: Bytes, secret: Bytes): AuthEntry {
    if username == TOKEN_USER then AuthEntry(serverURL, [], [], [], secret, [])
    else
      AuthEntry(serverURL, username, secret,
                if username != [] || secret != [] then Encode(Pair(username, secret)) else [], [], [])
  }

  function HelperGet(reply: Reply): Lookup {
    match reply
    case NotOnPath => Miss
    case ExitedNonZero => Miss
    case LookupFailed => Failed
    case RunFailed => Failed
    case Malformed => Failed
    case Answer(serverURL, username, secret) => Hit(EntryFromReply(serverURL, username, secret))
  }

  lemma {:induction false} CutFirst(u: Bytes, rest: Bytes)
    requires COLON !in u
    ensures Cut(u + [COLON] + rest) == Some((u, rest))
  {
    var data := u + [COLON] + rest;
    if u == [] {
      assert data[1..] == rest;
    } else {
      assert data[1..] == u[1..] + [COLON] + rest;
      CutFirst(u[1..], rest);
      assert u == [u[0]] + u[1..];
    }
  }

  lemma {:induction false} SplitAtFirstColon(data: Bytes) returns (before: Bytes, after: Bytes)
    requires COLON in data
    ensures data == before + [COLON] + after && COLON !in before
  {
    if data[0] == COLON {
      before, after := [], data[1..];
    } else {
      var b, a := SplitAtFirstColon(data[1..]);
      before, after := [data[0]] + b, a;
    }
  }

  lemma SplitPair(username: Bytes, password: Bytes, before: Bytes, after: Bytes)
    requires username == Pair(before, after) && COLON !in before
    ensures Cut(Pair(username, password)) == Some((before, Pair(after, password)))
  {
    assert Pair(username, password) == before + [COLON] + Pair(after, password);
    CutFirst(before, Pair(after, password));
  }

  // The credential round trip: decoding the encoded "user:password" pair gives the pair back exactly when the
  // user name has no colon; otherwise the user name is cut at its first colon and the rest joins the password.
  lemma CredentialRoundTrip(username: Bytes, password: Bytes)
    ensures DecodeBase64Credentials(Encode(Pair(username, password))) == (username, password) <==> COLON !in username
    ensures forall before, after | username == Pair(before, after) && COLON !in before ::
              DecodeBase64Credentials(Encode(Pair(username, password))) == (before, Pair(after, password))
  {
    DecodeEncode(Pair(username, password));
    if COLON !in username {
      CutFirst(username, password);
    } else {
      var before, after := SplitAtFirstColon(username);
      SplitPair(username, password, before, after);
      assert before != username;
    }
    forall before, after | username == Pair(before, after) && COLON !in before
      ensures DecodeBase64Credentials(Encode(Pair(username, password))) == (before, Pair(after, password))
    {
      SplitPair(username, password, before, after);
    }
  }

  // Cutting succeeds exactly on data with a colon, and loses nothing but that colon.
  lemma {:induction false} CutIff(data: Bytes)
    ensures Cut(data).Some? <==> COLON in data
    ensures Cut(data).Some? ==> Pair(Cut(data).value.0, Cut(data).value.1) == data && COLON !in Cut(data).value.0
  {
    if data != [] && data[0] != COLON {
      CutIff(data[1..]);
      assert data == [data[0]] + data[1..];
    }
  }

  // e is what an answering helper's reply stands for. The user name "<token>" announces an identity token; otherwise
  // the
  // reply is a user name and a password, with an auth field unless both are empty.
  ghost predicate EntryOfReply(reply: Reply, e: AuthEntry) {
    && reply.Answer? && e.serverURL == reply.serverURL && e.registryToken == []
    && if reply.username == [60, 116, 111, 107, 101, 110, 62] then
         e.identityToken == reply.secret && e.username == [] && e.password == [] && e.auth == []
       else
         && e.identityToken == [] && e.username == reply.username && e.password == reply.secret
         && e.auth == if reply.username + reply.secret == [] then [] else Encode(reply.username + [58] + reply.secret)
  }

  // Only an answer is a hit; a helper that is absent or exits with an error has nothing, and everything else failed.
  lemma HelperGetMeans(reply: Reply)
    ensures HelperGet(reply).Hit? <==> reply.Answer?
    ensures HelperGet(reply).Miss? <==> reply.NotOnPath? || reply.ExitedNonZero?
    ensures forall e :: HelperGet(reply) == Hit(e) <==> EntryOfReply(reply, e)
  {
  }

  // The decoded auth text splits at its first colon into these two.
  ghost predicate SplitsInto(text: Bytes, username: Bytes, password: Bytes) {
    58 !in username && text == username + [58] + password
  }

  // e is what an auth file entry stands for: both tokens as given; from an auth field that decodes to a text with a
  // colon the two parts of that text, from any other auth field nothing, and without an auth field the plain ones.
  ghost predicate EntryOfRaw(serverURL: string, raw: RawAuthEntry, e: AuthEntry) {
    && e.serverURL == serverURL && e.identityToken == raw.identityToken && e.registryToken == raw.registryToken
    && if raw.auth != [] then
         && e.auth == raw.auth
         && if Decode(raw.auth).Some? && 58 in Decode(raw.auth).value
            then SplitsInto(Decode(raw.auth).value, e.username, e.password)
            else e.username == [] && e.password == []
       else
         && e.username == raw.username && e.password == raw.password
         && e.auth == if raw.username + raw.password == [] then [] else Encode(raw.username + [58] + raw.password)
  }

  lemma InlineMeans(serverURL: string, raw: RawAuthEntry, e: AuthEntry)
    ensures DecodeInlineEntry(serverURL, raw) == e <==> EntryOfRaw(serverURL, raw, e)
  {
    if raw.auth != [] && Decode(raw.auth).Some? {
      var text := Decode(raw.auth).value;
      CutIff(text);
      if SplitsInto(text, e.username, e.password) {
        CutFirst(e.username, e.password);
      }
    }
  }

  // A user name or password always comes with an auth field, and an auth field decodes to exactly the entry's
  // user name and password unless the user name holds a colon.
  ghost predicate Consistent(e: AuthEntry) {
    && (e.username != [] || e.password != [] ==> e.auth != [])
    && (e.auth != [] && COLON !in e.username ==> DecodeBase64Credentials(e.auth) == (e.username, e.password))
  }

  lemma InlineConsistent(serverURL: string, raw: RawAuthEntry)
    ensures Consistent(DecodeInlineEntry(serverURL, raw))
  {
    if raw.auth == [] {
      CredentialRoundTrip(raw.username, raw.password);
      DecodeEncode(Pair(raw.username, raw.password));
    }
  }

  // Re-reading an entry from the auth field it carries changes nothing, exactly when the user name has no colon
  // or the auth field was given in the file.
  lemma InlineFixedPoint(serverURL: string, raw: RawAuthEntry)
    ensures var e := DecodeInlineEntry(serverURL, raw);
            var again := RawAuthEntry(e.auth, e.username, e.password, e.identityToken, e.registryToken);
            DecodeInlineEntry(serverURL, again) == e <==>
            raw.auth != [] || COLON !in raw.username
  {
    if raw.auth == [] {
      CredentialRoundTrip(raw.username, raw.password);
      DecodeEncode(Pair(raw.username, raw.password));
    }
  }

  lemma HelperConsistent(reply: Reply)
    requires HelperGet(reply).Hit?
    ensures Consistent(HelperGet(reply).entry)
    ensures HelperGet(reply).entry.identityToken != [] ==>
              var e := HelperGet(reply).entry; e.username == [] && e.password == [] && e.auth == []
  {
    CredentialRoundTrip(reply.username, reply.secret);
    DecodeEncode(Pair(reply.username, reply.secret));
  }

  // The comment on AuthEntry.IdentityToken says that user name and password are empty whenever it is set.
  ghost predicate TokenExcludesPassword(e: AuthEntry) {
    e.identityToken != [] ==> e.username == [] && e.password == []
  }

  // The text of an auth file entry names a user or a password: its auth field is the base64 form of something with a
  // colon and more than the colon or, when it has no auth field, one of the two plain fields is filled in.
  predicate GivesPassword(raw: RawAuthEntry) {
    if raw.auth != [] then
      Decode(raw.auth).Some? && COLON in Decode(raw.auth).value && Decode(raw.auth).value != [COLON]
    else raw.username != [] || raw.password != []
  }

  // Entries from auth files keep that comment exactly when the file does not give a token and a user name or
  // password at once.
  lemma InlineTokenExcludesPasswordIff(serverURL: string, raw: RawAuthEntry)
    ensures TokenExcludesPassword(DecodeInlineEntry(serverURL, raw)) <==> raw.identityToken == [] || !GivesPassword(raw)
  {
    if raw.auth != [] && Decode(raw.auth).Some? {
      CutIff(Decode(raw.auth).value);
      assert Pair([], []) == [COLON];
    }
  }

  lemma DecodesUserColonPassword()
    ensures Decode([100, 84, 112, 119]) == Some([117, COLON, 112])
  {
    var text: Bytes := [100, 84, 112, 119];
    NothingToSkip(text);
    FourDigits(text, 29, 19, 41, 48, []);
    assert [First(29, 19), Second(19, 41), Third(41, 48)] + [] == [117, COLON, 112];
  }

  // Two auth file entries that give both: the auth field "dTpw", which is "u:p", next to a token, and the plain
  // fields next to one.
  lemma TokenWithPasswordExists()
    ensures !TokenExcludesPassword(DecodeInlineEntry("ghcr.io", RawAuthEntry([100, 84, 112, 119], [], [], [116], [])))
    ensures !TokenExcludesPassword(DecodeInlineEntry("ghcr.io", RawAuthEntry([], [117], [112], [116], [])))
  {
    DecodesUserColonPassword();
    InlineTokenExcludesPasswordIff("ghcr.io", RawAuthEntry([100, 84, 112, 119], [], [], [116], []));
    InlineTokenExcludesPasswordIff("ghcr.io", RawAuthEntry([], [117], [112], [116], []));
  }
}
