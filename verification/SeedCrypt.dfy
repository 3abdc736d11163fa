/** The seed-file codec: versioned framing, fixed-size padding and associated-data binding. The
    cipher and the key derivations are parameters. */
module SeedCrypt {
  import opened Wrappers
  import opened Bytes
  import opened Transactions

  const MARKER_LEN: nat := 12
  /** "ENCRYPTED_V" and a digit. */
  const MARKER_STEM: seq<byte> := [0x45, 0x4e, 0x43, 0x52, 0x59, 0x50, 0x54, 0x45, 0x44, 0x5f, 0x56]
  const V1_MARKER: seq<byte> := MARKER_STEM + [0x31]
  const V2_MARKER: seq<byte> := MARKER_STEM + [0x32]
  const V3_MARKER: seq<byte> := MARKER_STEM + [0x33]
  const VERSION_V2: byte := 2
  const VERSION_V3: byte := 3
  const KDF_ID_ARGON2ID: byte := 1
  const HEADER_LEN: nat := 8
  const SALT_LEN: nat := 16
  const NONCE_LEN: nat := 12
  const TAG_LEN: nat := 16
  const MIN_V1_LEN: nat := MARKER_LEN + SALT_LEN + NONCE_LEN + TAG_LEN
  const MIN_V2_LEN: nat := MARKER_LEN + HEADER_LEN + SALT_LEN + NONCE_LEN + TAG_LEN
  const PADDED_PLAINTEXT_LEN: nat := 256
  /** "CCPAD", then 0, 1, 0. */
  const PAD_MAGIC: seq<byte> := [0x43, 0x43, 0x50, 0x41, 0x44, 0x00, 0x01, 0x00]
  const PAD_PREFIX_LEN: nat := 10
  const MAX_PADDED_PAYLOAD: nat := 246
  const MIN_MEMORY_KIB: nat := 8
  const MAX_MEMORY_KIB: nat := 1_048_576
  /** "coincube/seed-v3" */
  const V3_HKDF_INFO_PREFIX: seq<byte> :=
    [0x63, 0x6f, 0x69, 0x6e, 0x63, 0x75, 0x62, 0x65, 0x2f, 0x73, 0x65, 0x65, 0x64, 0x2d, 0x76, 0x33]

  type Salt = s: seq<byte> | |s| == SALT_LEN witness LE(0, 16)
  type Nonce = s: seq<byte> | |s| == NONCE_LEN witness LE(0, 12)
  type Secret = s: seq<byte> | |s| == 32 witness LE(0, 32)
  type Key = Secret

  datatype KdfParams = KdfParams(memoryKib: u32, tCost: byte, pCost: byte)

  const SEED_PARAMS: KdfParams := KdfParams(262_144, 3, 4)

  datatype SeedError =
    EncryptionFailed | InvalidFileFormat | ArgonParamsError | PasswordHashError | KeyDerivationFailed
    | DeviceSecretRequired | InvalidPassword | NotEncryptedFile

  /** The foreign functions. `expand` is extract-and-expand, sections 2.2 and 2.3 of RFC 5869. */
  datatype Crypto = Crypto(
    argon: (seq<byte>, Salt, KdfParams) -> Option<Key>,
    expand: (Salt, seq<byte>, seq<byte>) -> Option<Key>,
    seal: (Key, Nonce, seq<byte>, seq<byte>) -> seq<byte>,
    open: (Key, Nonce, seq<byte>, seq<byte>) -> Option<seq<byte>>)

  // ----- padding -----

  function Zeros(n: nat): (r: seq<byte>)
    ensures |r| == n && forall i :: 0 <= i < n ==> r[i] == 0
  {
    seq(n, i => 0)
  }

  function Pad(plaintext: seq<byte>): (r: Result<seq<byte>, SeedError>)
    ensures r.Ok? ==> |r.value| == PADDED_PLAINTEXT_LEN
  {
    if |plaintext| > MAX_PADDED_PAYLOAD then Err(EncryptionFailed)
    else Ok(PAD_MAGIC + BE(|plaintext|, 2) + plaintext + Zeros(MAX_PADDED_PAYLOAD - |plaintext|))
  }

  /** Anything that is not a padded frame passes through. */
  function Unpad(plaintext: seq<byte>): seq<byte> {
    if |plaintext| != PADDED_PLAINTEXT_LEN || plaintext[..8] != PAD_MAGIC then plaintext
    else
      var len := FromBE(plaintext[8..10]);
      if len > MAX_PADDED_PAYLOAD then plaintext else plaintext[PAD_PREFIX_LEN..PAD_PREFIX_LEN + len]
  }

  lemma UnpadInvertsPad(plaintext: seq<byte>)
    requires |plaintext| <= MAX_PADDED_PAYLOAD
    ensures Unpad(Pad(plaintext).value) == plaintext
  {
    var p := Pad(plaintext).value;
    Widths();
    assert p[..8] == PAD_MAGIC && p[8..10] == BE(|plaintext|, 2);
    assert p[10..10 + |plaintext|] == plaintext;
    BERoundTrip(|plaintext|, 2);
  }

  // ----- header and associated data -----

  function HeaderBytes(version: byte, kdfId: byte, params: KdfParams): (r: seq<byte>)
    ensures |r| == HEADER_LEN
  {
    [version, kdfId] + BE(params.memoryKib, 4) + [params.tCost, params.pCost]
  }

  function ParseHeader(buf: seq<byte>): Result<(byte, byte, KdfParams), SeedError> {
    if |buf| < HEADER_LEN then Err(InvalidFileFormat)
    else
      FromBERoundTrip(buf[2..6]);
      Widths();
      Ok((buf[0], buf[1], KdfParams(FromBE(buf[2..6]), buf[6], buf[7])))
  }

  /** Parsing undoes printing, and printing what was parsed gives back the header's bytes. */
  lemma HeaderRoundTrip(buf: seq<byte>, version: byte, kdfId: byte, params: KdfParams)
    requires |buf| >= HEADER_LEN
    ensures ParseHeader(buf) == Ok((version, kdfId, params)) <==> HeaderBytes(version, kdfId, params) == buf[..HEADER_LEN]
  {
    Widths();
    FromBERoundTrip(buf[2..6]);
    BERoundTrip(params.memoryKib, 4);
    var h := HeaderBytes(version, kdfId, params);
    assert h[2..6] == BE(params.memoryKib, 4);
    if h == buf[..HEADER_LEN] { assert buf[2..6] == h[2..6] && buf[0] == h[0] && buf[1] == h[1]; }
    if ParseHeader(buf) == Ok((version, kdfId, params)) {
      assert buf[..HEADER_LEN] == [buf[0], buf[1]] + buf[2..6] + [buf[6], buf[7]];
    }
  }

  function Aad(header: seq<byte>, cubeId: seq<byte>): seq<byte> {
    header + cubeId
  }

  // ----- keys -----

  function DeriveKey(c: Crypto, password: seq<byte>, salt: Salt, params: KdfParams): Result<Key, SeedError> {
    if !(MIN_MEMORY_KIB <= params.memoryKib <= MAX_MEMORY_KIB) || params.tCost == 0 || params.pCost == 0 then
      Err(ArgonParamsError)
    else
      match c.argon(password, salt, params)
      case None => Err(PasswordHashError)
      case Some(key) => Ok(key)
  }

  function DeriveKeyV3(c: Crypto, password: seq<byte>, salt: Salt, params: KdfParams, secret: Secret,
                       cubeId: seq<byte>): Result<Key, SeedError>
  {
    var pinHalf :- DeriveKey(c, password, salt, params);
    match c.expand(salt, pinHalf + secret, V3_HKDF_INFO_PREFIX + cubeId)
    case None => Err(KeyDerivationFailed)
    case Some(key) => Ok(key)
  }

  function FileKey(c: Crypto, password: seq<byte>, salt: Salt, params: KdfParams, secret: Option<Secret>,
                   cubeId: seq<byte>): Result<Key, SeedError>
  {
    match secret
    case Some(s) => DeriveKeyV3(c, password, salt, params, s, cubeId)
    case None => DeriveKey(c, password, salt, params)
  }

  // ----- the codec -----

  function FormatVersion(data: seq<byte>): Option<nat> {
    if V3_MARKER <= data then Some(3)
    else if V2_MARKER <= data then Some(2)
    else if V1_MARKER <= data then Some(1)
    else None
  }

  function Marker(secret: Option<Secret>): (r: seq<byte>)
    ensures |r| == MARKER_LEN
  {
    if secret.Some? then V3_MARKER else V2_MARKER
  }

  function Version(secret: Option<Secret>): byte {
    if secret.Some? then VERSION_V3 else VERSION_V2
  }

  function Encrypt(c: Crypto, plaintext: seq<byte>, password: seq<byte>, cubeId: seq<byte>, secret: Option<Secret>,
                   salt: Salt, nonce: Nonce, params: KdfParams): Result<seq<byte>, SeedError>
  {
    var key :- FileKey(c, password, salt, params, secret, cubeId);
    var header := HeaderBytes(Version(secret), KDF_ID_ARGON2ID, params);
    var padded :- Pad(plaintext);
    Ok(Marker(secret) + header + salt + nonce + c.seal(key, nonce, padded, Aad(header, cubeId)))
  }

  /** Bound to the Cube first; the unbound fallback is for version 2 only. */
  function Attempt(c: Crypto, key: Key, nonce: Nonce, ct: seq<byte>, header: seq<byte>, version: byte,
                   cubeId: seq<byte>): Result<seq<byte>, SeedError>
  {
    match c.open(key, nonce, ct, Aad(header, cubeId))
    case Some(pt) => Ok(Unpad(pt))
    case None =>
      if version != VERSION_V2 || cubeId == [] then Err(InvalidPassword)
      else
        match c.open(key, nonce, ct, Aad(header, []))
        case Some(pt) => Ok(Unpad(pt))
        case None => Err(InvalidPassword)
  }

  function DecryptV2OrV3(c: Crypto, data: seq<byte>, password: seq<byte>, cubeId: seq<byte>, secret: Option<Secret>)
    : Result<seq<byte>, SeedError>
  {
    if |data| < MIN_V2_LEN then Err(InvalidFileFormat)
    else
      var body := data[MARKER_LEN..];
      var (version, kdfId, params) :- ParseHeader(body);
      if version != Version(secret) || kdfId != KDF_ID_ARGON2ID then Err(InvalidFileFormat)
      else
        var salt, nonce, ct := body[8..24], body[24..36], body[36..];
        var key :- FileKey(c, password, salt, params, secret, cubeId);
        Attempt(c, key, nonce, ct, HeaderBytes(version, kdfId, params), version, cubeId)
  }

  function DecryptV1(c: Crypto, data: seq<byte>, password: seq<byte>): Result<seq<byte>, SeedError> {
    if |data| < MIN_V1_LEN then Err(InvalidFileFormat)
    else
      var body := data[MARKER_LEN..];
      match c.argon(password, body[..16], SEED_PARAMS)
      case None => Err(InvalidPassword)
      case Some(key) =>
        match c.open(key, body[16..28], body[28..], [])
        case None => Err(InvalidPassword)
        case Some(pt) => Ok(Unpad(pt))
  }

  function Decrypt(c: Crypto, data: seq<byte>, password: seq<byte>, cubeId: seq<byte>, secret: Option<Secret>)
    : Result<seq<byte>, SeedError>
  {
    match FormatVersion(data)
    case Some(v) =>
      if v == 3 then
        if secret.None? then Err(DeviceSecretRequired) else DecryptV2OrV3(c, data, password, cubeId, secret)
      else if v == 2 then DecryptV2OrV3(c, data, password, cubeId, None)
      else DecryptV1(c, data, password)
    case None => Err(NotEncryptedFile)
  }

  // ----- what opens a file -----

  function Frame(marker: seq<byte>, header: seq<byte>, salt: Salt, nonce: Nonce, ct: seq<byte>): seq<byte> {
    marker + header + salt + nonce + ct
  }

  lemma FrameParts(marker: seq<byte>, header: seq<byte>, salt: Salt, nonce: Nonce, ct: seq<byte>)
    requires |marker| == MARKER_LEN && |header| == HEADER_LEN
    ensures var data := Frame(marker, header, salt, nonce, ct);
            && |data| == 48 + |ct| && marker <= data
            && var body := data[MARKER_LEN..];
            && body[..8] == header && body[8..24] == salt && body[24..36] == nonce && body[36..] == ct
  {
    var data := Frame(marker, header, salt, nonce, ct);
    var body := data[MARKER_LEN..];
    assert data == marker + (header + (salt + (nonce + ct)));
    assert body == header + (salt + (nonce + ct));
    assert body[8..] == salt + (nonce + ct) && body[24..] == body[8..][16..] == nonce + ct;
    assert body[8..24] == body[8..][..16] && body[24..36] == body[24..][..12] && body[36..] == body[24..][12..];
  }

  /** Markers differ in their last byte, so a file has one version. */
  lemma MarkerVersion(data: seq<byte>, secret: Option<Secret>)
    requires Marker(secret) <= data
    ensures FormatVersion(data) == Some(if secret.Some? then 3 else 2)
  {
    assert data[11] == Marker(secret)[11];
    assert V3_MARKER <= data ==> data[11] == V3_MARKER[11];
  }

  /** A framed file opens by the attempt on its own parts, whatever its header says. */
  lemma DecryptFrame(c: Crypto, h: seq<byte>, salt: Salt, nonce: Nonce, ct: seq<byte>, sealedWith: Option<Secret>,
                     password: seq<byte>, cubeId: seq<byte>, secret: Option<Secret>)
    requires |h| == HEADER_LEN && |ct| >= TAG_LEN
    ensures var r := Decrypt(c, Frame(Marker(sealedWith), h, salt, nonce, ct), password, cubeId, secret);
            var mixed := if sealedWith.Some? then secret else None;
            var (version, kdfId, params) := ParseHeader(h).value;
            if sealedWith.Some? && secret.None? then r == Err(DeviceSecretRequired)
            else if version != Version(mixed) || kdfId != KDF_ID_ARGON2ID then r == Err(InvalidFileFormat)
            else if FileKey(c, password, salt, params, mixed, cubeId).Err? then
              r == Err(FileKey(c, password, salt, params, mixed, cubeId).error)
            else r == Attempt(c, FileKey(c, password, salt, params, mixed, cubeId).value, nonce, ct, h, version, cubeId)
  {
    hide FileKey, Attempt, FormatVersion, Marker, HeaderBytes;
    var data := Frame(Marker(sealedWith), h, salt, nonce, ct);
    FrameParts(Marker(sealedWith), h, salt, nonce, ct);
    MarkerVersion(data, sealedWith);
    var (version, kdfId, params) := ParseHeader(h).value;
    HeaderRoundTrip(h, version, kdfId, params);
    assert h[..HEADER_LEN] == h && data[MARKER_LEN..][..HEADER_LEN] == h;
    HeaderRoundTrip(data[MARKER_LEN..], version, kdfId, params);
  }

  /** The ideal cipher on one sealed message: it opens to what was sealed, under the sealing key and
      associated data only. */
  ghost predicate Ideal(c: Crypto, key: Key, nonce: Nonce, msg: seq<byte>, aad: seq<byte>) {
    var ct := c.seal(key, nonce, msg, aad);
    && |ct| == |msg| + TAG_LEN && c.open(key, nonce, ct, aad) == Some(msg)
    && forall k, a :: c.open(k, nonce, ct, a).Some? ==> k == key && a == aad
  }

  /** The sealed message of an encryption. */
  ghost predicate IdealFile(c: Crypto, plaintext: seq<byte>, password: seq<byte>, cubeId: seq<byte>,
                            secret: Option<Secret>, salt: Salt, nonce: Nonce, params: KdfParams)
    requires Encrypt(c, plaintext, password, cubeId, secret, salt, nonce, params).Ok?
  {
    Ideal(c, FileKey(c, password, salt, params, secret, cubeId).value, nonce, Pad(plaintext).value,
          Aad(HeaderBytes(Version(secret), KDF_ID_ARGON2ID, params), cubeId))
  }

  lemma AttemptIff(c: Crypto, key: Key, nonce: Nonce, plaintext: seq<byte>, header: seq<byte>, version: byte,
                   cubeId: seq<byte>, byKey: Key, byCube: seq<byte>)
    requires |plaintext| <= MAX_PADDED_PAYLOAD && Ideal(c, key, nonce, Pad(plaintext).value, Aad(header, cubeId))
    ensures var ct := c.seal(key, nonce, Pad(plaintext).value, Aad(header, cubeId));
            var r := Attempt(c, byKey, nonce, ct, header, version, byCube);
            && (r.Ok? <==> byKey == key && (byCube == cubeId || (version == VERSION_V2 && cubeId == [])))
            && (r.Ok? ==> r.value == plaintext)
  {
    hide Unpad, Aad;
    UnpadInvertsPad(plaintext);
    SplitAad(header, cubeId, byCube);
    SplitAad(header, cubeId, []);
    var ct := c.seal(key, nonce, Pad(plaintext).value, Aad(header, cubeId));
    assert c.open(byKey, nonce, ct, Aad(header, byCube)).Some? <==> byKey == key && byCube == cubeId;
    assert c.open(byKey, nonce, ct, Aad(header, [])).Some? <==> byKey == key && cubeId == [];
  }

  lemma SplitAad(header: seq<byte>, a: seq<byte>, b: seq<byte>)
    ensures Aad(header, a) == Aad(header, b) <==> a == b
  {
    if Aad(header, a) == Aad(header, b) { SplitEqual(header, a, header, b); }
  }

  /** Whatever is tried on an encrypted file, it opens exactly with its own key, and for its own Cube
      id or, if it is an unbound version 2 file, for any; and it opens to what was sealed. */
  lemma OpensByKey(c: Crypto, plaintext: seq<byte>, password: seq<byte>, cubeId: seq<byte>, secret: Option<Secret>,
                 salt: Salt, nonce: Nonce, params: KdfParams, byPassword: seq<byte>, byCube: seq<byte>,
                 bySecret: Option<Secret>)
    requires Encrypt(c, plaintext, password, cubeId, secret, salt, nonce, params).Ok?
    requires IdealFile(c, plaintext, password, cubeId, secret, salt, nonce, params)
    ensures var data := Encrypt(c, plaintext, password, cubeId, secret, salt, nonce, params).value;
            var r := Decrypt(c, data, byPassword, byCube, bySecret);
            var mixed := if secret.Some? then bySecret else None;
            && (r.Ok? <==>
                  && (secret.Some? ==> bySecret.Some?)
                  && FileKey(c, byPassword, salt, params, mixed, byCube) == FileKey(c, password, salt, params, secret, cubeId)
                  && (byCube == cubeId || (secret.None? && cubeId == [])))
            && (r.Ok? ==> r.value == plaintext)
  {
    hide FileKey, Attempt, Decrypt, Ideal, Pad, HeaderBytes, Marker;
    var key := FileKey(c, password, salt, params, secret, cubeId).value;
    var header := HeaderBytes(Version(secret), KDF_ID_ARGON2ID, params);
    var ct := c.seal(key, nonce, Pad(plaintext).value, Aad(header, cubeId));
    var mixed := if secret.Some? then bySecret else None;
    SealedFits(c, plaintext, password, cubeId, secret, salt, nonce, params);
    assert header[..HEADER_LEN] == header;
    HeaderRoundTrip(header, Version(secret), KDF_ID_ARGON2ID, params);
    DecryptFrame(c, header, salt, nonce, ct, secret, byPassword, byCube, bySecret);
    var byKey := FileKey(c, byPassword, salt, params, mixed, byCube);
    if byKey.Ok? { AttemptIff(c, key, nonce, plaintext, header, Version(secret), cubeId, byKey.value, byCube); }
  }

  lemma SealedFits(c: Crypto, plaintext: seq<byte>, password: seq<byte>, cubeId: seq<byte>, secret: Option<Secret>,
                   salt: Salt, nonce: Nonce, params: KdfParams)
    requires Encrypt(c, plaintext, password, cubeId, secret, salt, nonce, params).Ok?
    requires IdealFile(c, plaintext, password, cubeId, secret, salt, nonce, params)
    ensures |plaintext| <= MAX_PADDED_PAYLOAD
    ensures var header := HeaderBytes(Version(secret), KDF_ID_ARGON2ID, params);
            var key := FileKey(c, password, salt, params, secret, cubeId).value;
            var ct := c.seal(key, nonce, Pad(plaintext).value, Aad(header, cubeId));
            && |ct| == PADDED_PLAINTEXT_LEN + TAG_LEN
            && Encrypt(c, plaintext, password, cubeId, secret, salt, nonce, params)
                 == Ok(Frame(Marker(secret), header, salt, nonce, ct))
  {
    hide FileKey, HeaderBytes, Marker;
  }

  /** Decryption inverts encryption for exactly the payloads that fit. */
  lemma RoundTrip(c: Crypto, plaintext: seq<byte>, password: seq<byte>, cubeId: seq<byte>, secret: Option<Secret>,
                  salt: Salt, nonce: Nonce, params: KdfParams)
    requires FileKey(c, password, salt, params, secret, cubeId).Ok?
    requires Encrypt(c, plaintext, password, cubeId, secret, salt, nonce, params).Ok? ==>
               IdealFile(c, plaintext, password, cubeId, secret, salt, nonce, params)
    ensures var r := Encrypt(c, plaintext, password, cubeId, secret, salt, nonce, params);
            && (r.Ok? <==> |plaintext| <= MAX_PADDED_PAYLOAD)
            && (r.Ok? ==> Decrypt(c, r.value, password, cubeId, secret) == Ok(plaintext))
  {
    hide FileKey, Decrypt, Ideal, HeaderBytes, Marker;
    if |plaintext| <= MAX_PADDED_PAYLOAD {
      OpensByKey(c, plaintext, password, cubeId, secret, salt, nonce, params, password, cubeId, secret);
    }
  }

  /** All version 2 and 3 files have one length. */
  lemma OneLength(c: Crypto, plaintext: seq<byte>, password: seq<byte>, cubeId: seq<byte>, secret: Option<Secret>,
                  salt: Salt, nonce: Nonce, params: KdfParams)
    requires Encrypt(c, plaintext, password, cubeId, secret, salt, nonce, params).Ok?
    requires IdealFile(c, plaintext, password, cubeId, secret, salt, nonce, params)
    ensures |Encrypt(c, plaintext, password, cubeId, secret, salt, nonce, params).value| == 320
  {
    hide FileKey, HeaderBytes, Marker, Encrypt, Ideal;
    SealedFits(c, plaintext, password, cubeId, secret, salt, nonce, params);
  }

  /** No edit of a file's header survives: whoever tries, with whatever password, Cube id and secret,
      is refused. */
  lemma EditedHeaderRefused(c: Crypto, plaintext: seq<byte>, password: seq<byte>, cubeId: seq<byte>,
                            secret: Option<Secret>, salt: Salt, nonce: Nonce, params: KdfParams, edited: seq<byte>,
                            byPassword: seq<byte>, byCube: seq<byte>, bySecret: Option<Secret>)
    requires Encrypt(c, plaintext, password, cubeId, secret, salt, nonce, params).Ok?
    requires IdealFile(c, plaintext, password, cubeId, secret, salt, nonce, params)
    requires |edited| == HEADER_LEN && edited != HeaderBytes(Version(secret), KDF_ID_ARGON2ID, params)
    ensures var data := Encrypt(c, plaintext, password, cubeId, secret, salt, nonce, params).value;
            |data| >= 20 && Decrypt(c, data[..12] + edited + data[20..], byPassword, byCube, bySecret).Err?
  {
    hide FileKey, Decrypt, HeaderBytes, Marker, ParseHeader;
    SealedFits(c, plaintext, password, cubeId, secret, salt, nonce, params);
    var header := HeaderBytes(Version(secret), KDF_ID_ARGON2ID, params);
    var key := FileKey(c, password, salt, params, secret, cubeId).value;
    var ct := c.seal(key, nonce, Pad(plaintext).value, Aad(header, cubeId));
    var data := Encrypt(c, plaintext, password, cubeId, secret, salt, nonce, params).value;
    assert data == Frame(Marker(secret), header, salt, nonce, ct);
    assert data[..12] + edited + data[20..] == Frame(Marker(secret), edited, salt, nonce, ct);
    DecryptFrame(c, edited, salt, nonce, ct, secret, byPassword, byCube, bySecret);
    OtherHeader(header, edited, cubeId, byCube);
    OtherHeader(header, edited, cubeId, []);
  }

  lemma OtherHeader(header: seq<byte>, edited: seq<byte>, a: seq<byte>, b: seq<byte>)
    requires |header| == |edited| && header != edited
    ensures Aad(header, a) != Aad(edited, b)
  {
    if Aad(header, a) == Aad(edited, b) { SplitEqual(header, a, edited, b); }
  }

  // ----- buffers filled in place -----

  method PadBuffer(plaintext: seq<byte>) returns (r: Result<array<byte>, SeedError>)
    ensures match Pad(plaintext)
            case Err(e) => r == Err(e)
            case Ok(p) => r.Ok? && fresh(r.value) && r.value[..] == p
  {
    if |plaintext| > MAX_PADDED_PAYLOAD { return Err(EncryptionFailed); }
    var out := new byte[PADDED_PLAINTEXT_LEN](i => 0);
    var len := BE(|plaintext|, 2);
    forall i | 0 <= i < 8 { out[i] := PAD_MAGIC[i]; }
    forall i | 0 <= i < 2 { out[8 + i] := len[i]; }
    forall i | 0 <= i < |plaintext| { out[10 + i] := plaintext[i]; }
    assert out[..] == out[..8] + out[8..10] + out[10..10 + |plaintext|] + out[10 + |plaintext|..];
    assert out[..8] == PAD_MAGIC && out[8..10] == len && out[10..10 + |plaintext|] == plaintext;
    assert out[10 + |plaintext|..] == Zeros(MAX_PADDED_PAYLOAD - |plaintext|);
    return Ok(out);
  }
}
