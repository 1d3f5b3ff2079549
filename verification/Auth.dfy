/** Password hashes and session tokens: texts of base64 fields between separators. */
module Auth {
  import opened Results
  import opened Clock
  import opened Text
  import opened Bytes
  import opened Base64
  import opened Pbkdf2

  datatype AuthError = PasswordTooShort | PasswordTooLong | NoRandomness | InvalidToken | BadConfiguration

  // ----- password hashes -----

  const HASH_ALGORITHM := "pbkdf2-sha256"
  const HASH_ITERATIONS := 210_000
  const SALT_BYTES := 16
  const HASH_BYTES := 32

  /** The salt is what the random source returned, if it returned anything. */
  function HashPassword(prf: Prf, password: string, salt: Option<seq<Byte>>): Result<string, AuthError>
    requires salt.Some? ==> |salt.value| == SALT_BYTES
  {
    if |password| < 12 then Err(PasswordTooShort)
    else if |password| > 1024 then Err(PasswordTooLong)
    else if salt.None? then Err(NoRandomness)
    else
      var derived := DerivedKey(prf, ToBytes(password), salt.value, HASH_ITERATIONS, HASH_BYTES);
      Ok(HashText(HASH_ITERATIONS, salt.value, derived))
  }

  function HashText(iterations: int, salt: seq<Byte>, derived: seq<Byte>): string {
    Join([HASH_ALGORITHM, Itoa(iterations), Encode(Standard, salt), Encode(Standard, derived)], '$')
  }

  predicate AcceptedIterations(n: Option<int>) {
    n.Some? && 100_000 <= n.value <= 2_000_000
  }

  predicate AcceptedSalt(salt: Option<seq<Byte>>) {
    salt.Some? && 16 <= |salt.value| <= 64
  }

  predicate AcceptedDigest(digest: Option<seq<Byte>>) {
    digest.Some? && |digest.value| == HASH_BYTES
  }

  function VerifyPassword(prf: Prf, encoded: string, password: string): bool {
    var parts := Split(encoded, '$');
    if |parts| != 4 || parts[0] != HASH_ALGORITHM then false
    else
      var iterations := Atoi(parts[1]);
      if !AcceptedIterations(iterations) then false
      else
        var salt := Decode(Standard, parts[2]);
        if !AcceptedSalt(salt) then false
        else
          var expected := Decode(Standard, parts[3]);
          if !AcceptedDigest(expected) then false
          else DerivedKey(prf, ToBytes(password), salt.value, iterations.value, HASH_BYTES) == expected.value
  }

  const VALIDATION_PASSWORD := "__phnctl_hash_validation__"

  function ValidatePasswordHash(prf: Prf, encoded: string): bool {
    var parts := Split(encoded, '$');
    if |parts| != 4 || parts[0] != HASH_ALGORITHM then false
    else if VerifyPassword(prf, encoded, VALIDATION_PASSWORD) then true
    else
      && AcceptedIterations(Atoi(parts[1]))
      && AcceptedSalt(Decode(Standard, parts[2]))
      && AcceptedDigest(Decode(Standard, parts[3]))
  }

  /** What a well-formed hash text says. */
  datatype HashFields = HashFields(iterations: int, salt: seq<Byte>, digest: seq<Byte>) {
    ghost predicate Accepted() {
      100_000 <= iterations <= 2_000_000 && 16 <= |salt| <= 64 && |digest| == 32
    }
  }

  ghost predicate Says(encoded: string, f: HashFields) {
    exists iterations: string, salt: string, digest: string ::
      && FreeOf(iterations, '$') && FreeOf(salt, '$') && FreeOf(digest, '$')
      && encoded == Join(["pbkdf2-sha256", iterations, salt, digest], '$')
      && Atoi(iterations) == Some(f.iterations)
      && Decode(Standard, salt) == Some(f.salt)
      && Decode(Standard, digest) == Some(f.digest)
  }

  lemma AlgorithmHasNoSeparator()
    ensures FreeOf(HASH_ALGORITHM, '$')
  {}

  lemma HashParts(iterations: string, salt: string, digest: string)
    requires FreeOf(iterations, '$') && FreeOf(salt, '$') && FreeOf(digest, '$')
    ensures Split(Join([HASH_ALGORITHM, iterations, salt, digest], '$'), '$') ==
            [HASH_ALGORITHM, iterations, salt, digest]
  {
    AlgorithmHasNoSeparator();
    SplitJoin([HASH_ALGORITHM, iterations, salt, digest], '$');
  }

  /** A password matches a text exactly when the text says something acceptable whose digest
      is the key derived from that password. */
  lemma VerifyMeaning(prf: Prf, encoded: string, password: string)
    ensures VerifyPassword(prf, encoded, password) <==>
            exists f :: Says(encoded, f) && f.Accepted() &&
              DerivedKey(prf, ToBytes(password), f.salt, f.iterations, 32) == f.digest
  {
    JoinSplit(encoded, '$');
    var parts := Split(encoded, '$');
    if VerifyPassword(prf, encoded, password) {
      assert parts == [HASH_ALGORITHM, parts[1], parts[2], parts[3]];
      var f := HashFields(Atoi(parts[1]).value, Decode(Standard, parts[2]).value, Decode(Standard, parts[3]).value);
      assert Says(encoded, f);
    }
    forall f | Says(encoded, f) && f.Accepted() &&
               DerivedKey(prf, ToBytes(password), f.salt, f.iterations, HASH_BYTES) == f.digest
      ensures VerifyPassword(prf, encoded, password)
    {
      var iterations, salt, digest :|
        && FreeOf(iterations, '$') && FreeOf(salt, '$') && FreeOf(digest, '$')
        && encoded == Join([HASH_ALGORITHM, iterations, salt, digest], '$')
        && Atoi(iterations) == Some(f.iterations)
        && Decode(Standard, salt) == Some(f.salt)
        && Decode(Standard, digest) == Some(f.digest);
      HashParts(iterations, salt, digest);
    }
  }

  /** Validation does not depend on HMAC or on the password it tries: it accepts exactly the
      texts that say something acceptable. */
  lemma ValidateMeaning(prf: Prf, encoded: string)
    ensures ValidatePasswordHash(prf, encoded) <==> exists f :: Says(encoded, f) && f.Accepted()
  {
    JoinSplit(encoded, '$');
    var parts := Split(encoded, '$');
    if ValidatePasswordHash(prf, encoded) {
      assert parts == [HASH_ALGORITHM, parts[1], parts[2], parts[3]];
      var f := HashFields(Atoi(parts[1]).value, Decode(Standard, parts[2]).value, Decode(Standard, parts[3]).value);
      assert Says(encoded, f) && f.Accepted();
    }
    forall f | Says(encoded, f) && f.Accepted()
      ensures ValidatePasswordHash(prf, encoded)
    {
      var iterations, salt, digest :|
        && FreeOf(iterations, '$') && FreeOf(salt, '$') && FreeOf(digest, '$')
        && encoded == Join([HASH_ALGORITHM, iterations, salt, digest], '$')
        && Atoi(iterations) == Some(f.iterations)
        && Decode(Standard, salt) == Some(f.salt)
        && Decode(Standard, digest) == Some(f.digest);
      HashParts(iterations, salt, digest);
    }
  }

  lemma Base64HasNoSeparator(s: string)
    requires IsBase64Text(s)
    ensures FreeOf(s, '$') && FreeOf(s, '|') && FreeOf(s, '.')
  {
    forall i | 0 <= i < |s| ensures s[i] != '$' && s[i] != '|' && s[i] != '.' {
      assert IsBase64Char(s[i]);
    }
  }

  lemma IntegerHasNoSeparator(n: int)
    ensures FreeOf(Itoa(n), '$') && FreeOf(Itoa(n), '|')
  {
    ItoaCharacters(n);
  }

  lemma HashTextParts(iterations: int, salt: seq<Byte>, derived: seq<Byte>)
    ensures Split(HashText(iterations, salt, derived), '$') ==
            [HASH_ALGORITHM, Itoa(iterations), Encode(Standard, salt), Encode(Standard, derived)]
  {
    IntegerHasNoSeparator(iterations);
    EncodeIsBase64(Standard, salt);
    EncodeIsBase64(Standard, derived);
    Base64HasNoSeparator(Encode(Standard, salt));
    Base64HasNoSeparator(Encode(Standard, derived));
    HashParts(Itoa(iterations), Encode(Standard, salt), Encode(Standard, derived));
  }

  lemma HashTextSays(salt: seq<Byte>, derived: seq<Byte>)
    ensures Says(HashText(210_000, salt, derived), HashFields(210_000, salt, derived))
  {
    hide Decode, Encode, Atoi, Itoa;
    HashTextFields(210_000, salt, derived);
  }

  /** The fields of a printed hash hold no separator and read back. */
  lemma HashTextFields(iterations: int, salt: seq<Byte>, derived: seq<Byte>)
    requires IsInt64(iterations)
    ensures FreeOf(Itoa(iterations), '$') && Atoi(Itoa(iterations)) == Some(iterations)
    ensures FreeOf(Encode(Standard, salt), '$') && Decode(Standard, Encode(Standard, salt)) == Some(salt)
    ensures FreeOf(Encode(Standard, derived), '$') && Decode(Standard, Encode(Standard, derived)) == Some(derived)
  {
    hide Decode, Encode, Atoi, Itoa, IsBase64Text;
    IntegerHasNoSeparator(iterations);
    EncodeIsBase64(Standard, salt);
    EncodeIsBase64(Standard, derived);
    Base64HasNoSeparator(Encode(Standard, salt));
    Base64HasNoSeparator(Encode(Standard, derived));
    AtoiItoa(iterations);
    DecodeEncode(Standard, salt);
    DecodeEncode(Standard, derived);
  }

  lemma HashTextVerifies(prf: Prf, salt: seq<Byte>, derived: seq<Byte>, attempt: string)
    requires |salt| == SALT_BYTES && |derived| == HASH_BYTES
    ensures var encoded := HashText(HASH_ITERATIONS, salt, derived);
            && encoded != "" && ValidatePasswordHash(prf, encoded)
            && (VerifyPassword(prf, encoded, attempt) <==>
                DerivedKey(prf, ToBytes(attempt), salt, HASH_ITERATIONS, HASH_BYTES) == derived)
  {
    hide Decode, Encode, Atoi, Itoa, DerivedKey, Join;
    HashTextParts(HASH_ITERATIONS, salt, derived);
    HashTextFields(HASH_ITERATIONS, salt, derived);
    assert Split("", '$') == [""];
  }

  /** Every password of 12 to 1024 bytes is hashed, with 210,000 iterations, to a text that
      validates, and that a password verifies against exactly when it derives the same key. */
  lemma HashRoundTrip(prf: Prf, password: string, salt: seq<Byte>, attempt: string)
    requires |salt| == SALT_BYTES
    ensures HashPassword(prf, password, Some(salt)).Ok? <==> 12 <= |password| <= 1024
    ensures 12 <= |password| <= 1024 ==>
              var encoded := HashPassword(prf, password, Some(salt)).value;
              && encoded != ""
              && Says(encoded, HashFields(210_000, salt, DerivedKey(prf, ToBytes(password), salt, 210_000, 32)))
              && ValidatePasswordHash(prf, encoded)
              && VerifyPassword(prf, encoded, password)
              && (VerifyPassword(prf, encoded, attempt) <==>
                  DerivedKey(prf, ToBytes(attempt), salt, 210_000, 32) ==
                  DerivedKey(prf, ToBytes(password), salt, 210_000, 32))
  {
    hide HashText, VerifyPassword, ValidatePasswordHash, Says, DerivedKey;
    if 12 <= |password| <= 1024 {
      var derived := DerivedKey(prf, ToBytes(password), salt, 210_000, 32);
      HashTextVerifies(prf, salt, derived, password);
      HashTextVerifies(prf, salt, derived, attempt);
      HashTextSays(salt, derived);
    }
  }

  // ----- session tokens -----

  const NONCE_BYTES := 18

  datatype Sessions = Sessions(secret: seq<Byte>, username: string, lifetime: int) {

    /** What NewSessions returns, for a user name that is a Go string. */
    predicate Valid() {
      NewSessions(secret, username, lifetime) == Ok(this) && IsByteText(username)
    }

    function Sign(prf: Prf, payload: string): Digest {
      prf(secret, ToBytes(payload))
    }

    function Payload(now: int, nonce: seq<Byte>): string {
      Join([username, Itoa(Unix(now + lifetime)), Encode(UrlSafe, nonce)], '|')
    }

    /** The token and the time it expires. */
    function New(prf: Prf, now: int, nonce: Option<seq<Byte>>): Result<(string, int), AuthError>
      requires nonce.Some? ==> |nonce.value| == NONCE_BYTES
    {
      if nonce.None? then Err(NoRandomness)
      else
        var encodedPayload := Encode(UrlSafe, ToBytes(Payload(now, nonce.value)));
        Ok((encodedPayload + "." + Encode(UrlSafe, Sign(prf, encodedPayload)), now + lifetime))
    }

    function Validate(prf: Prf, token: string, now: int): Result<string, AuthError> {
      var parts := Split(token, '.');
      if |parts| != 2 then Err(InvalidToken)
      else
        var signature := Decode(UrlSafe, parts[1]);
        if signature != Some(Sign(prf, parts[0])) then Err(InvalidToken)
        else
          var raw := Decode(UrlSafe, parts[0]);
          if raw.None? then Err(InvalidToken)
          else
            var payload := Split(FromBytes(raw.value), '|');
            if |payload| != 3 || payload[0] != username then Err(InvalidToken)
            else
              var expires := Atoi(payload[1]);
              if expires.None? || Unix(now) >= expires.value then Err(InvalidToken)
              else
                var nonce := Decode(UrlSafe, payload[2]);
                if nonce.None? || |nonce.value| != NONCE_BYTES then Err(InvalidToken)
                else Ok(payload[0])
    }
  }

  function NewSessions(secret: seq<Byte>, username: string, lifetime: int): Result<Sessions, AuthError> {
    if |secret| < 32 then Err(BadConfiguration)
    else if username == "" || !FreeOf(username, '|') then Err(BadConfiguration)
    else if lifetime < MINUTE then Err(BadConfiguration)
    else Ok(Sessions(secret, username, lifetime))
  }

  lemma {:induction false} JoinIsByteText(parts: seq<string>, sep: char)
    requires |parts| >= 1 && sep as int < 256
    requires forall i :: 0 <= i < |parts| ==> IsByteText(parts[i])
    ensures IsByteText(Join(parts, sep))
  {
    if |parts| > 1 {
      JoinIsByteText(parts[1..], sep);
    }
  }

  lemma PayloadParts(s: Sessions, now: int, nonce: seq<Byte>)
    requires s.Valid()
    ensures Split(s.Payload(now, nonce), '|') ==
            [s.username, Itoa(Unix(now + s.lifetime)), Encode(UrlSafe, nonce)]
    ensures FromBytes(ToBytes(s.Payload(now, nonce))) == s.Payload(now, nonce)
  {
    var expires, text := Itoa(Unix(now + s.lifetime)), Encode(UrlSafe, nonce);
    IntegerHasNoSeparator(Unix(now + s.lifetime));
    ItoaCharacters(Unix(now + s.lifetime));
    EncodeIsBase64(UrlSafe, nonce);
    Base64HasNoSeparator(text);
    SplitJoin([s.username, expires, text], '|');
    assert IsByteText(expires);
    assert IsByteText(text) by {
      forall i | 0 <= i < |text| ensures text[i] as int < 256 {
        assert IsBase64Char(text[i]);
      }
    }
    JoinIsByteText([s.username, expires, text], '|');
    FromToBytes(s.Payload(now, nonce));
  }

  lemma TokenParts(s: Sessions, prf: Prf, payload: string)
    ensures var encodedPayload := Encode(UrlSafe, ToBytes(payload));
            var signature := Encode(UrlSafe, s.Sign(prf, encodedPayload));
            Split(encodedPayload + "." + signature, '.') == [encodedPayload, signature]
  {
    var encodedPayload := Encode(UrlSafe, ToBytes(payload));
    var signature := Encode(UrlSafe, s.Sign(prf, encodedPayload));
    EncodeIsBase64(UrlSafe, ToBytes(payload));
    EncodeIsBase64(UrlSafe, s.Sign(prf, encodedPayload));
    Base64HasNoSeparator(encodedPayload);
    Base64HasNoSeparator(signature);
    SplitJoin([encodedPayload, signature], '.');
  }

  /** A fresh token names its user at every time whose second is before the second of the
      expiry, and is refused at every other time. */
  lemma SessionRoundTrip(s: Sessions, prf: Prf, now: int, nonce: seq<Byte>, t: int)
    requires s.Valid() && |nonce| == NONCE_BYTES && IsTime(now + s.lifetime)
    ensures var token := s.New(prf, now, Some(nonce)).value.0;
            s.Validate(prf, token, t) ==
            if Unix(t) < Unix(now + s.lifetime) then Ok(s.username) else Err(InvalidToken)
  {
    var payload := s.Payload(now, nonce);
    var encodedPayload := Encode(UrlSafe, ToBytes(payload));
    TokenParts(s, prf, payload);
    PayloadParts(s, now, nonce);
    DecodeEncode(UrlSafe, s.Sign(prf, encodedPayload));
    DecodeEncode(UrlSafe, ToBytes(payload));
    DecodeEncode(UrlSafe, nonce);
    AtoiItoa(Unix(now + s.lifetime));
  }

  /** The token of a user that is good until after the second of t: a payload and a signature of
      it under the secret, neither with a dot; in the payload the user name, an expiry and a
      nonce of 18 bytes. */
  ghost predicate IsGenuine(prf: Prf, secret: seq<Byte>, username: string, token: string, t: int) {
    exists p: string, g: string, expires: string, nonce: string ::
      && FreeOf(p, '.') && FreeOf(g, '.') && token == p + "." + g
      && Decode(UrlSafe, g) == Some(prf(secret, ToBytes(p)))
      && IsPayload(p, username, expires, nonce, t)
  }

  ghost predicate IsPayload(p: string, username: string, expires: string, nonce: string, t: int) {
    && FreeOf(username, '|') && FreeOf(expires, '|') && FreeOf(nonce, '|')
    && Decode(UrlSafe, p).Some? && FromBytes(Decode(UrlSafe, p).value) == username + "|" + expires + "|" + nonce
    && Atoi(expires).Some? && Atoi(expires).value > Unix(t)
    && Decode(UrlSafe, nonce).Some? && |Decode(UrlSafe, nonce).value| == 18
  }

  lemma JoinTwo(a: string, b: string, sep: char)
    ensures Join([a, b], sep) == a + [sep] + b
  {
    assert [a, b][1..] == [b];
  }

  lemma JoinThree(a: string, b: string, c: string, sep: char)
    ensures Join([a, b, c], sep) == a + [sep] + b + [sep] + c
  {
    assert [a, b, c][1..] == [b, c];
    JoinTwo(b, c, sep);
    assert a + [sep] + (b + [sep] + c) == a + [sep] + b + [sep] + c;
  }

  /** A session is accepted exactly for a genuine token, and then for the user of the server:
      what is true of every text and every time, not of minted tokens alone. */
  lemma TokenMeaning(s: Sessions, prf: Prf, token: string, t: int)
    ensures s.Validate(prf, token, t) ==
            if IsGenuine(prf, s.secret, s.username, token, t) then Ok(s.username) else Err(InvalidToken)
  {
    hide Decode, Split, Atoi, Unix, IsGenuine;
    if s.Validate(prf, token, t).Ok? { AcceptedIsGenuine(s, prf, token, t); }
    if IsGenuine(prf, s.secret, s.username, token, t) { GenuineIsAccepted(s, prf, token, t); }
  }

  lemma AcceptedIsGenuine(s: Sessions, prf: Prf, token: string, t: int)
    requires s.Validate(prf, token, t).Ok?
    ensures IsGenuine(prf, s.secret, s.username, token, t)
  {
    hide Decode, Split, Atoi, Unix;
    var parts := Split(token, '.');
    JoinSplit(token, '.');
    assert parts == [parts[0], parts[1]];
    JoinTwo(parts[0], parts[1], '.');
    var raw := FromBytes(Decode(UrlSafe, parts[0]).value);
    var payload := Split(raw, '|');
    JoinSplit(raw, '|');
    assert payload == [s.username, payload[1], payload[2]];
    JoinThree(s.username, payload[1], payload[2], '|');
    assert IsPayload(parts[0], s.username, payload[1], payload[2], t);
  }

  lemma GenuineIsAccepted(s: Sessions, prf: Prf, token: string, t: int)
    requires IsGenuine(prf, s.secret, s.username, token, t)
    ensures s.Validate(prf, token, t) == Ok(s.username)
  {
    hide Decode, Split, Atoi, Unix;
    var p: string, g: string, expires: string, nonce: string :|
      && FreeOf(p, '.') && FreeOf(g, '.') && token == p + "." + g
      && Decode(UrlSafe, g) == Some(prf(s.secret, ToBytes(p)))
      && IsPayload(p, s.username, expires, nonce, t);
    JoinTwo(p, g, '.');
    SplitJoin([p, g], '.');
    JoinThree(s.username, expires, nonce, '|');
    SplitJoin([s.username, expires, nonce], '|');
  }

  /** Sessions are set up exactly with a secret of 32 bytes, a user name without a bar, and a
      lifetime of a minute, or more. */
  lemma NewSessionsMeaning(secret: seq<Byte>, username: string, lifetime: int)
    ensures NewSessions(secret, username, lifetime) ==
            if |secret| >= 32 && username != "" && '|' !in username && lifetime >= 60_000_000_000
            then Ok(Sessions(secret, username, lifetime)) else Err(BadConfiguration)
  {}

  /** A token minted for one user is refused under every other user name, whatever the secrets. */
  lemma TokenIsBoundToUser(s: Sessions, other: Sessions, prf: Prf, now: int, nonce: seq<Byte>, t: int)
    requires s.Valid() && |nonce| == NONCE_BYTES
    requires other.username != s.username
    ensures other.Validate(prf, s.New(prf, now, Some(nonce)).value.0, t) == Err(InvalidToken)
  {
    TokenParts(s, prf, s.Payload(now, nonce));
    PayloadParts(s, now, nonce);
    DecodeEncode(UrlSafe, ToBytes(s.Payload(now, nonce)));
  }
}
