/** Seed files on disk: their bytes, and which password, Cube id and device secret open them. */
module SeedFile {
  import opened Wrappers
  import opened Bytes
  import opened SeedCrypt

  // ----- bytes -----

  predicate Spells(bytes: seq<byte>, text: string) {
    |bytes| == |text| && forall i :: 0 <= i < |text| ==> bytes[i] == text[i] as int
  }

  /** A padded frame: the magic, the length with its high byte first, the payload and zeros. */
  lemma PadLayout(plaintext: seq<byte>)
    ensures Pad(plaintext).Ok? <==> |plaintext| <= 246
    ensures Pad(plaintext).Ok? ==>
              var p := Pad(plaintext).value;
              && |p| == 256 && Spells(p[..5], "CCPAD") && p[5] == 0 && p[6] == 1 && p[7] == 0
              && p[8] == |plaintext| / 256 && p[9] == |plaintext| % 256 && p[10..10 + |plaintext|] == plaintext
              && forall i :: 10 + |plaintext| <= i < 256 ==> p[i] == 0
  {
    if |plaintext| <= 246 {
      var p, n := Pad(plaintext).value, |plaintext|;
      Widths();
      assert Pow256(0) == 1 && n / 256 % 256 == n / 256;
      BEDigit(n, 2, 0);
      BEDigit(n, 2, 1);
      assert p[8..10] == BE(n, 2) && p[10..10 + n] == plaintext && p[..8] == PAD_MAGIC;
      assert p[8] == p[8..10][0] && p[9] == p[8..10][1];
    }
  }

  /** What a file holds at which offset. */
  ghost predicate FileBytes(data: seq<byte>, marker: string, version: byte, salt: Salt, nonce: Nonce, params: KdfParams,
                            ct: seq<byte>) {
    && |data| == 48 + |ct| && Spells(data[..12], marker)
    && data[12] == version && data[13] == 1 && At(data, 14, BE(params.memoryKib, 4))
    && data[18] == params.tCost && data[19] == params.pCost
    && At(data, 20, salt) && At(data, 36, nonce) && At(data, 48, ct)
  }

  /** The key is usable: parameters within the limits, and both derivations answer. */
  ghost predicate Derivable(c: Crypto, password: seq<byte>, salt: Salt, params: KdfParams, secret: Option<Secret>,
                            cubeId: seq<byte>, key: Key) {
    && 8 <= params.memoryKib <= 1_048_576 && params.tCost > 0 && params.pCost > 0
    && c.argon(password, salt, params).Some?
    && if secret.Some? then c.expand(salt, c.argon(password, salt, params).value + secret.value, Info(cubeId)) == Some(key)
       else c.argon(password, salt, params) == Some(key)
  }

  /** The context a version 3 key is bound to. */
  function Info(cubeId: seq<byte>): seq<byte> {
    V3_HKDF_INFO_PREFIX + cubeId
  }

  /** The file key hardens the password with Argon2 and, in version 3, mixes in the device secret for
      this Cube. */
  lemma FileKeyIff(c: Crypto, password: seq<byte>, salt: Salt, params: KdfParams, secret: Option<Secret>,
                   cubeId: seq<byte>, key: Key)
    ensures FileKey(c, password, salt, params, secret, cubeId) == Ok(key) <==>
              Derivable(c, password, salt, params, secret, cubeId, key)
    ensures Spells(V3_HKDF_INFO_PREFIX, "coincube/seed-v3")
  {
  }

  lemma HeaderLayout(version: byte, params: KdfParams)
    ensures var h := HeaderBytes(version, KDF_ID_ARGON2ID, params);
            && h[0] == version && h[1] == 1 && h[2..6] == BE(params.memoryKib, 4)
            && h[6] == params.tCost && h[7] == params.pCost
  {
    hide BE;
  }

  lemma FrameLayout(marker: seq<byte>, version: byte, salt: Salt, nonce: Nonce, params: KdfParams, ct: seq<byte>,
                    text: string)
    requires |marker| == MARKER_LEN && Spells(marker, text)
    ensures FileBytes(Frame(marker, HeaderBytes(version, KDF_ID_ARGON2ID, params), salt, nonce, ct), text, version, salt,
                      nonce, params, ct)
  {
    hide HeaderBytes, BE;
    var header := HeaderBytes(version, KDF_ID_ARGON2ID, params);
    var data := Frame(marker, header, salt, nonce, ct);
    HeaderLayout(version, params);
    assert data == marker + (header + (salt + (nonce + ct)));
    assert data[12..20] == header && data[14..18] == header[2..6];
    assert data[12] == header[0] && data[13] == header[1] && data[18] == header[6] && data[19] == header[7];
    assert data[20..36] == salt && data[36..48] == nonce && data[48..48 + |ct|] == ct && data[..12] == marker;
  }

  /** Encryption succeeds exactly for a payload that fits and a key that can be derived. The file then
      is the marker, the header, salt and nonce in the clear, and the padded payload sealed with the
      header and the Cube id as associated data. */
  lemma EncryptLayout(c: Crypto, plaintext: seq<byte>, password: seq<byte>, cubeId: seq<byte>, secret: Option<Secret>,
                      salt: Salt, nonce: Nonce, params: KdfParams)
    ensures var r := Encrypt(c, plaintext, password, cubeId, secret, salt, nonce, params);
            && (r.Ok? <==> |plaintext| <= 246 && exists key :: Derivable(c, password, salt, params, secret, cubeId, key))
            && (r.Ok? ==>
                  exists key :: Derivable(c, password, salt, params, secret, cubeId, key)
                    && var version, marker := if secret.Some? then 3 else 2,
                                              if secret.Some? then "ENCRYPTED_V3" else "ENCRYPTED_V2";
                    && |r.value| >= 20
                    && FileBytes(r.value, marker, version, salt, nonce, params,
                                 c.seal(key, nonce, Pad(plaintext).value, r.value[12..20] + cubeId)))
  {
    hide FileKey, Pad, FileBytes, Derivable;
    var r := Encrypt(c, plaintext, password, cubeId, secret, salt, nonce, params);
    var k := FileKey(c, password, salt, params, secret, cubeId);
    PadLayout(plaintext);
    forall key ensures Derivable(c, password, salt, params, secret, cubeId, key) <==> k == Ok(key) {
      FileKeyIff(c, password, salt, params, secret, cubeId, key);
    }
    if r.Ok? {
      var header := HeaderBytes(Version(secret), KDF_ID_ARGON2ID, params);
      var ct := c.seal(k.value, nonce, Pad(plaintext).value, Aad(header, cubeId));
      FrameParts(Marker(secret), header, salt, nonce, ct);
      assert r.value == Frame(Marker(secret), header, salt, nonce, ct);
      assert r.value[12..20] == r.value[12..][..8] == header;
      MarkerSpells(secret);
      FrameLayout(Marker(secret), Version(secret), salt, nonce, params, ct,
                  if secret.Some? then "ENCRYPTED_V3" else "ENCRYPTED_V2");
    }
  }

  lemma MarkerSpells(secret: Option<Secret>)
    ensures Spells(Marker(secret), if secret.Some? then "ENCRYPTED_V3" else "ENCRYPTED_V2")
  {
  }

  // ----- what opens a file -----

  /** Neither derivation confuses what the file was sealed with and what is tried: no collision of
      Argon2 on the two passwords, nor of the expansion on the two pairs of key material and context. */
  ghost predicate Unconfused(c: Crypto, salt: Salt, params: KdfParams, password: seq<byte>, cubeId: seq<byte>,
                             secret: Option<Secret>, byPassword: seq<byte>, byCube: seq<byte>, bySecret: Option<Secret>) {
    && (c.argon(password, salt, params) == c.argon(byPassword, salt, params) ==> password == byPassword)
    && (secret.Some? && bySecret.Some? && c.argon(password, salt, params).Some? && c.argon(byPassword, salt, params).Some? ==>
          var a, b := c.argon(password, salt, params).value + secret.value, c.argon(byPassword, salt, params).value + bySecret.value;
          c.expand(salt, a, Info(cubeId)) == c.expand(salt, b, Info(byCube)) ==> a == b && Info(cubeId) == Info(byCube))
  }

  /** The same file key means the same password and, in version 3, the same secret and Cube. */
  lemma SameKey(c: Crypto, salt: Salt, params: KdfParams, password: seq<byte>, cubeId: seq<byte>, secret: Option<Secret>,
                byPassword: seq<byte>, byCube: seq<byte>, bySecret: Option<Secret>)
    requires Unconfused(c, salt, params, password, cubeId, secret, byPassword, byCube, bySecret)
    requires FileKey(c, password, salt, params, secret, cubeId).Ok? && (secret.Some? <==> bySecret.Some?)
    ensures FileKey(c, byPassword, salt, params, bySecret, byCube) == FileKey(c, password, salt, params, secret, cubeId) <==>
              byPassword == password && bySecret == secret && (secret.Some? ==> byCube == cubeId)
  {
    var key := FileKey(c, password, salt, params, secret, cubeId).value;
    FileKeyIff(c, password, salt, params, secret, cubeId, key);
    FileKeyIff(c, byPassword, salt, params, bySecret, byCube, key);
    if FileKey(c, byPassword, salt, params, bySecret, byCube) == Ok(key) && secret.Some? {
      var a, b := c.argon(password, salt, params).value, c.argon(byPassword, salt, params).value;
      SplitEqual(a, secret.value, b, bySecret.value);
      SplitEqual(V3_HKDF_INFO_PREFIX, cubeId, V3_HKDF_INFO_PREFIX, byCube);
    }
  }

  /** Whatever is tried on a file, it opens exactly with its own password, its own device secret if it
      has one, and for its own Cube or, if it is an unbound version 2 file, for any; and it opens to
      what was sealed. */
  lemma OpensIff(c: Crypto, plaintext: seq<byte>, password: seq<byte>, cubeId: seq<byte>, secret: Option<Secret>,
                 salt: Salt, nonce: Nonce, params: KdfParams, byPassword: seq<byte>, byCube: seq<byte>,
                 bySecret: Option<Secret>)
    requires Encrypt(c, plaintext, password, cubeId, secret, salt, nonce, params).Ok?
    requires IdealFile(c, plaintext, password, cubeId, secret, salt, nonce, params)
    requires Unconfused(c, salt, params, password, cubeId, secret, byPassword, byCube, bySecret)
    ensures var data := Encrypt(c, plaintext, password, cubeId, secret, salt, nonce, params).value;
            var r := Decrypt(c, data, byPassword, byCube, bySecret);
            && (r.Ok? <==>
                  && byPassword == password && (secret.Some? ==> bySecret == secret)
                  && (byCube == cubeId || (secret.None? && cubeId == [])))
            && (r.Ok? ==> r.value == plaintext)
            && (secret.Some? && bySecret.None? ==> r == Err(DeviceSecretRequired))
  {
    hide FileKey, Decrypt, IdealFile, Encrypt, Unconfused;
    OpensByKey(c, plaintext, password, cubeId, secret, salt, nonce, params, byPassword, byCube, bySecret);
    KeyWasDerived(c, plaintext, password, cubeId, secret, salt, nonce, params);
    var mixed := if secret.Some? then bySecret else None;
    if secret.Some? <==> mixed.Some? {
      assert Unconfused(c, salt, params, password, cubeId, secret, byPassword, byCube, mixed) by {
        Forgotten(c, salt, params, password, cubeId, secret, byPassword, byCube, bySecret);
      }
      SameKey(c, salt, params, password, cubeId, secret, byPassword, byCube, mixed);
    }
    if secret.Some? && bySecret.None? {
      SecretNeeded(c, plaintext, password, cubeId, secret, salt, nonce, params, byPassword, byCube);
    }
  }

  lemma Forgotten(c: Crypto, salt: Salt, params: KdfParams, password: seq<byte>, cubeId: seq<byte>, secret: Option<Secret>,
                  byPassword: seq<byte>, byCube: seq<byte>, bySecret: Option<Secret>)
    requires Unconfused(c, salt, params, password, cubeId, secret, byPassword, byCube, bySecret)
    ensures Unconfused(c, salt, params, password, cubeId, secret, byPassword, byCube, if secret.Some? then bySecret else None)
  {
  }

  lemma KeyWasDerived(c: Crypto, plaintext: seq<byte>, password: seq<byte>, cubeId: seq<byte>, secret: Option<Secret>,
                      salt: Salt, nonce: Nonce, params: KdfParams)
    requires Encrypt(c, plaintext, password, cubeId, secret, salt, nonce, params).Ok?
    ensures FileKey(c, password, salt, params, secret, cubeId).Ok?
  {
    hide FileKey;
  }

  lemma SecretNeeded(c: Crypto, plaintext: seq<byte>, password: seq<byte>, cubeId: seq<byte>, secret: Option<Secret>,
                     salt: Salt, nonce: Nonce, params: KdfParams, byPassword: seq<byte>, byCube: seq<byte>)
    requires Encrypt(c, plaintext, password, cubeId, secret, salt, nonce, params).Ok? && secret.Some?
    ensures Decrypt(c, Encrypt(c, plaintext, password, cubeId, secret, salt, nonce, params).value, byPassword, byCube, None)
         == Err(DeviceSecretRequired)
  {
    hide FileKey, DecryptV2OrV3, DecryptV1, Pad, HeaderBytes, FormatVersion, Aad;
    var data := Encrypt(c, plaintext, password, cubeId, secret, salt, nonce, params).value;
    assert data[..12] == Marker(secret) && Marker(secret) <= data;
    MarkerVersion(data, secret);
  }

  /** The parameters are within the limits. */
  predicate InRange(params: KdfParams) {
    8 <= params.memoryKib <= 1_048_576 && params.tCost > 0 && params.pCost > 0
  }

  /** What a refused attempt on an intact file says: with the secret at hand and derivations that answer,
      always that the password is wrong, whether the password, the secret or the Cube is. */
  lemma RefusedAlike(c: Crypto, plaintext: seq<byte>, password: seq<byte>, cubeId: seq<byte>, secret: Option<Secret>,
                     salt: Salt, nonce: Nonce, params: KdfParams, byPassword: seq<byte>, byCube: seq<byte>,
                     bySecret: Option<Secret>, byKey: Key)
    requires Encrypt(c, plaintext, password, cubeId, secret, salt, nonce, params).Ok?
    requires IdealFile(c, plaintext, password, cubeId, secret, salt, nonce, params) && (secret.Some? ==> bySecret.Some?)
    requires Derivable(c, byPassword, salt, params, if secret.Some? then bySecret else None, byCube, byKey)
    ensures var r := Decrypt(c, Encrypt(c, plaintext, password, cubeId, secret, salt, nonce, params).value, byPassword,
                             byCube, bySecret);
            r.Ok? || r == Err(InvalidPassword)
  {
    hide FileKey, Decrypt, Ideal, HeaderBytes, Marker, Derivable, ParseHeader, Unpad;
    SealedFits(c, plaintext, password, cubeId, secret, salt, nonce, params);
    var header := HeaderBytes(Version(secret), KDF_ID_ARGON2ID, params);
    var key := FileKey(c, password, salt, params, secret, cubeId).value;
    var ct := c.seal(key, nonce, Pad(plaintext).value, Aad(header, cubeId));
    assert header[..HEADER_LEN] == header;
    HeaderRoundTrip(header, Version(secret), KDF_ID_ARGON2ID, params);
    DecryptFrame(c, header, salt, nonce, ct, secret, byPassword, byCube, bySecret);
    FileKeyIff(c, byPassword, salt, params, if secret.Some? then bySecret else None, byCube, byKey);
  }

  /** What an edited header is refused with: the file's format if the version or the derivation is not the
      file's, the parameters if they are out of range, and only otherwise the password. */
  lemma EditedHeaderAnswers(c: Crypto, plaintext: seq<byte>, password: seq<byte>, cubeId: seq<byte>,
                            secret: Option<Secret>, salt: Salt, nonce: Nonce, params: KdfParams, edited: seq<byte>,
                            byPassword: seq<byte>, byCube: seq<byte>, bySecret: Option<Secret>)
    requires Encrypt(c, plaintext, password, cubeId, secret, salt, nonce, params).Ok?
    requires IdealFile(c, plaintext, password, cubeId, secret, salt, nonce, params) && (secret.Some? ==> bySecret.Some?)
    requires |edited| == HEADER_LEN && edited != HeaderBytes(Version(secret), KDF_ID_ARGON2ID, params)
    ensures var data := Encrypt(c, plaintext, password, cubeId, secret, salt, nonce, params).value;
            && |data| >= 20
            && var r := Decrypt(c, data[..12] + edited + data[20..], byPassword, byCube, bySecret);
            && r.Err?
            && var version, asked := if secret.Some? then 3 else 2, AskedParams(edited);
            && (r == Err(InvalidFileFormat) <==> edited[0] != version || edited[1] != 1)
            && (r == Err(ArgonParamsError) <==> edited[0] == version && edited[1] == 1 && !InRange(asked))
            && (edited[0] == version && edited[1] == 1 && InRange(asked) && c.argon(byPassword, salt, asked).Some?
                && (secret.Some? ==> c.expand(salt, c.argon(byPassword, salt, asked).value + bySecret.value, Info(byCube)).Some?) ==>
                  r == Err(InvalidPassword))
  {
    hide FileKey, Decrypt, HeaderBytes, Marker, ParseHeader, Ideal, InRange, Attempt;
    EditedHeaderRefused(c, plaintext, password, cubeId, secret, salt, nonce, params, edited, byPassword, byCube, bySecret);
    SealedFits(c, plaintext, password, cubeId, secret, salt, nonce, params);
    var header := HeaderBytes(Version(secret), KDF_ID_ARGON2ID, params);
    var key := FileKey(c, password, salt, params, secret, cubeId).value;
    var ct := c.seal(key, nonce, Pad(plaintext).value, Aad(header, cubeId));
    var data := Encrypt(c, plaintext, password, cubeId, secret, salt, nonce, params).value;
    assert data == Frame(Marker(secret), header, salt, nonce, ct);
    assert data[..12] + edited + data[20..] == Frame(Marker(secret), edited, salt, nonce, ct);
    DecryptFrame(c, edited, salt, nonce, ct, secret, byPassword, byCube, bySecret);
    ParsedHeader(edited);
    KeyErrors(c, byPassword, salt, AskedParams(edited), if secret.Some? then bySecret else None, byCube);
    AttemptError(c, nonce, ct, edited, byCube);
  }

  /** The parameters a header asks for. */
  function AskedParams(header: seq<byte>): KdfParams
    requires |header| == HEADER_LEN
  {
    FromBERoundTrip(header[2..6]);
    Widths();
    KdfParams(FromBE(header[2..6]), header[6], header[7])
  }

  lemma ParsedHeader(header: seq<byte>)
    requires |header| == HEADER_LEN
    ensures ParseHeader(header) == Ok((header[0], header[1], AskedParams(header)))
  {
    hide FromBE;
  }

  lemma KeyErrors(c: Crypto, password: seq<byte>, salt: Salt, params: KdfParams, secret: Option<Secret>, cubeId: seq<byte>)
    ensures var k := FileKey(c, password, salt, params, secret, cubeId);
            && (k == Err(ArgonParamsError) <==> !InRange(params))
            && (k.Err? ==> k.error in {ArgonParamsError, PasswordHashError, KeyDerivationFailed})
            && (InRange(params) && c.argon(password, salt, params).Some?
                && (secret.Some? ==> c.expand(salt, c.argon(password, salt, params).value + secret.value, Info(cubeId)).Some?) ==>
                  k.Ok?)
  {
  }

  lemma AttemptError(c: Crypto, nonce: Nonce, ct: seq<byte>, header: seq<byte>, cubeId: seq<byte>)
    ensures forall key, version :: var r := Attempt(c, key, nonce, ct, header, version, cubeId); r.Ok? || r == Err(InvalidPassword)
  {
  }

  // ----- version 1 -----

  /** What the first version wrote: no header, fixed parameters, no padding and no binding. */
  function FileV1(c: Crypto, key: Key, payload: seq<byte>, salt: Salt, nonce: Nonce): seq<byte> {
    V1_MARKER + salt + nonce + c.seal(key, nonce, payload, [])
  }

  /** A version 1 file opens exactly with its password, whatever Cube id and secret are offered, and to
      its payload, less the padding if the payload happens to be a padded frame. */
  lemma OpensV1(c: Crypto, payload: seq<byte>, password: seq<byte>, salt: Salt, nonce: Nonce, byPassword: seq<byte>,
                byCube: seq<byte>, bySecret: Option<Secret>)
    requires c.argon(password, salt, KdfParams(262_144, 3, 4)).Some?
    requires var key := c.argon(password, salt, KdfParams(262_144, 3, 4)); Ideal(c, key.value, nonce, payload, [])
    requires c.argon(password, salt, KdfParams(262_144, 3, 4)) == c.argon(byPassword, salt, KdfParams(262_144, 3, 4)) ==>
               password == byPassword
    ensures var data := FileV1(c, c.argon(password, salt, KdfParams(262_144, 3, 4)).value, payload, salt, nonce);
            var r := Decrypt(c, data, byPassword, byCube, bySecret);
            && Spells(data[..12], "ENCRYPTED_V1") && |data| == 56 + |payload|
            && (if byPassword == password then r == Ok(Unpad(payload)) else r == Err(InvalidPassword))
  {
    hide Unpad, FileV1, FormatVersion, Spells;
    var key := c.argon(password, salt, SEED_PARAMS).value;
    PartsV1(c, key, payload, salt, nonce);
    var data := FileV1(c, key, payload, salt, nonce);
    assert Decrypt(c, data, byPassword, byCube, bySecret) == DecryptV1(c, data, byPassword);
  }

  lemma PartsV1(c: Crypto, key: Key, payload: seq<byte>, salt: Salt, nonce: Nonce)
    ensures var data, ct := FileV1(c, key, payload, salt, nonce), c.seal(key, nonce, payload, []);
            && |data| == 40 + |ct| && Spells(data[..12], "ENCRYPTED_V1") && FormatVersion(data) == Some(1)
            && var body := data[12..];
            && body[..16] == salt && body[16..28] == nonce && body[28..] == ct
  {
    var data, ct := FileV1(c, key, payload, salt, nonce), c.seal(key, nonce, payload, []);
    assert data == V1_MARKER + (salt + (nonce + ct)) && data[12..] == salt + (nonce + ct);
    assert data[..12] == V1_MARKER && V1_MARKER <= data;
    VersionV1(data);
    MarkerV1();
  }

  lemma MarkerV1()
    ensures Spells(V1_MARKER, "ENCRYPTED_V1")
  {
  }

  lemma VersionV1(data: seq<byte>)
    requires V1_MARKER <= data
    ensures FormatVersion(data) == Some(1)
  {
    assert data[11] == V1_MARKER[11];
  }

  /** What is not a seed file, or too short for one, is refused as such. */
  lemma FormatRefused(c: Crypto, data: seq<byte>, password: seq<byte>, cubeId: seq<byte>, secret: Option<Secret>)
    ensures var r := Decrypt(c, data, password, cubeId, secret);
            var marked := (text: string) => |data| >= 12 && Spells(data[..12], text);
            && (r == Err(NotEncryptedFile) <==>
                  !marked("ENCRYPTED_V1") && !marked("ENCRYPTED_V2") && !marked("ENCRYPTED_V3"))
            && (marked("ENCRYPTED_V1") && |data| < 56 ==> r == Err(InvalidFileFormat))
            && (marked("ENCRYPTED_V2") && |data| < 64 ==> r == Err(InvalidFileFormat))
            && (marked("ENCRYPTED_V3") && |data| < 64 && secret.Some? ==> r == Err(InvalidFileFormat))
  {
    hide Attempt, FileKey, ParseHeader, Unpad, Spells;
    MarkerV1();
    MarkerSpells(None);
    MarkerSpells(Some(LE(0, 32)));
    MarkedIff(data, V1_MARKER, "ENCRYPTED_V1");
    MarkedIff(data, V2_MARKER, "ENCRYPTED_V2");
    MarkedIff(data, V3_MARKER, "ENCRYPTED_V3");
    if V1_MARKER <= data { VersionV1(data); }
    if V2_MARKER <= data { MarkerVersion(data, None); }
    DecryptErrors(c, data, password, cubeId, secret);
  }

  lemma DecryptErrors(c: Crypto, data: seq<byte>, password: seq<byte>, cubeId: seq<byte>, secret: Option<Secret>)
    ensures DecryptV1(c, data, password) != Err(NotEncryptedFile)
    ensures DecryptV2OrV3(c, data, password, cubeId, secret) != Err(NotEncryptedFile)
    ensures DecryptV2OrV3(c, data, password, cubeId, None) != Err(NotEncryptedFile)
  {
    hide Unpad, HeaderBytes, Aad;
  }

  lemma MarkedIff(data: seq<byte>, marker: seq<byte>, text: string)
    requires Spells(marker, text) && |marker| == 12
    ensures marker <= data <==> |data| >= 12 && Spells(data[..12], text)
  {
    if marker <= data { assert data[..12] == marker; }
    if |data| >= 12 && Spells(data[..12], text) {
      assert forall i :: 0 <= i < 12 ==> data[..12][i] == marker[i];
      assert data[..12] == marker;
    }
  }

  /** A payload is unpadded exactly when it is a whole frame with a length that fits; anything else
      passes through. */
  lemma UnpadIff(payload: seq<byte>)
    ensures (|payload| == 256 && payload[..8] == PAD_MAGIC && payload[8] == 0 && payload[9] <= 246) ==>
              Unpad(payload) == payload[10..10 + payload[9]]
    ensures !(|payload| == 256 && payload[..8] == PAD_MAGIC && payload[8] == 0 && payload[9] <= 246) ==>
              Unpad(payload) == payload
  {
    if |payload| == 256 {
      var two := payload[8..10];
      var high: int, low: int := payload[8], payload[9];
      assert two[..1] == [payload[8]] && FromBE(two[..1]) == 256 * FromBE([]) + high;
      assert FromBE(two) == 256 * high + low;
    }
  }
}
