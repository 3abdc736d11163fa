/** The OP_RETURN poison script: a fixed-length label that commits to the spent outpoints. */
module SplitPoison {
  import opened Wrappers
  import opened Bytes
  import opened Transactions
  import opened OutPoints
  import opened Sighash

  /** "REPLAY-PROTECT" */
  const LABEL: seq<byte> :=
    [0x52, 0x45, 0x50, 0x4c, 0x41, 0x59, 0x2d, 0x50, 0x52, 0x4f, 0x54, 0x45, 0x43, 0x54]
  const PAYLOAD_VERSION: byte := 1
  const PAYLOAD_LEN: byte := 87
  const SCRIPT_LEN: nat := 90
  const PADDING: seq<byte> := [0, 0, 0, 0, 0, 0, 0]

  datatype Details = Details(version: byte, chain: ChainId, forkMarker: Hash, commitment: Hash)

  function ChainByte(chain: ChainId): Option<byte> {
    match chain
    case Bitcoin => Some(0)
    case Testnet4 => Some(1)
    case _ => None
  }

  /** `outpoints` is an ordered set, so the commitment does not depend on input order. */
  function InputCommitment(sha: Sha256, outpoints: seq<OutPoint>): Hash {
    sha(Concat(EncodeOutPoint, outpoints))
  }

  function Payload(sha: Sha256, chainByte: byte, marker: Hash, outpoints: seq<OutPoint>): (r: seq<byte>)
    ensures |r| == PAYLOAD_LEN
  {
    LABEL + [PAYLOAD_VERSION, chainByte] + marker + InputCommitment(sha, outpoints) + PADDING
  }

  function PoisonScript(sha: Sha256, chain: ChainId, marker: Hash, outpoints: seq<OutPoint>): Option<Script> {
    match ChainByte(chain)
    case None => None
    case Some(b) => Some([0x6a, 0x4c, PAYLOAD_LEN] + Payload(sha, b, marker, outpoints))
  }

  /** Only the canonical form is decoded. */
  function Decode(script: Script): Option<Details> {
    if |script| != SCRIPT_LEN || script[..3] != [0x6a, 0x4c, PAYLOAD_LEN] then None
    else
      var p := script[3..];
      if p[..14] != LABEL || p[14] != PAYLOAD_VERSION || p[80..] != PADDING || p[15] > 1 then None
      else Some(Details(p[14], if p[15] == 0 then Bitcoin else Testnet4, p[16..48], p[48..80]))
  }

  function ForkMarker(script: Script): Option<Hash> {
    match Decode(script)
    case None => None
    case Some(d) => Some(d.forkMarker)
  }

  /** A script decodes to `d` exactly when it is the poison for `d`'s chain and marker over any
      outpoints with `d`'s commitment. */
  lemma DecoderInvertsEncoder(sha: Sha256, script: Script, d: Details, outpoints: seq<OutPoint>)
    requires d.commitment == InputCommitment(sha, outpoints) && d.version == PAYLOAD_VERSION
    ensures Decode(script) == Some(d) <==>
              PoisonScript(sha, d.chain, d.forkMarker, outpoints) == Some(script)
  {
    hide InputCommitment;
    if Decode(script) == Some(d) {
      var p := script[3..];
      assert script == script[..3] + p;
      assert p == p[..14] + [p[14], p[15]] + p[16..48] + p[48..80] + p[80..];
    }
    if PoisonScript(sha, d.chain, d.forkMarker, outpoints) == Some(script) {
      var p := script[3..];
      assert p == Payload(sha, ChainByte(d.chain).value, d.forkMarker, outpoints);
      assert p[..14] == LABEL && p[16..48] == d.forkMarker && p[48..80] == d.commitment && p[80..] == PADDING;
    }
  }

  /** The poison exceeds the fork's 83-byte output-script limit and is an OP_RETURN. */
  lemma PoisonShape(sha: Sha256, chain: ChainId, marker: Hash, outpoints: seq<OutPoint>)
    requires PoisonScript(sha, chain, marker, outpoints).Some?
    ensures var s := PoisonScript(sha, chain, marker, outpoints).value;
            |s| == SCRIPT_LEN && IsOpReturn(s) && ForkMarker(s) == Some(marker)
  {
    var s := PoisonScript(sha, chain, marker, outpoints).value;
    DecoderInvertsEncoder(sha, s, Details(PAYLOAD_VERSION, chain, marker, InputCommitment(sha, outpoints)), outpoints);
  }

  /** The poison byte by byte: OP_RETURN and a one-byte push of 87, the label, version 1, the chain, the
      fork marker, the hash of the outpoints in order, and seven zeros. */
  lemma PoisonLayout(sha: Sha256, chain: ChainId, marker: Hash, outpoints: seq<OutPoint>)
    ensures PoisonScript(sha, chain, marker, outpoints).Some? <==> chain == Bitcoin || chain == Testnet4
    ensures PoisonScript(sha, chain, marker, outpoints).Some? ==>
              var s := PoisonScript(sha, chain, marker, outpoints).value;
              && |s| == 90 && s[0] == 0x6a && s[1] == 0x4c && s[2] == 87
              && (forall i :: 0 <= i < 14 ==> s[3 + i] == "REPLAY-PROTECT"[i] as int)
              && s[17] == 1 && s[18] == (if chain == Bitcoin then 0 else 1)
              && At(s, 19, marker) && At(s, 51, sha(Concat(EncodeOutPoint, outpoints)))
              && forall i :: 83 <= i < 90 ==> s[i] == 0
  {
    hide Concat;
    if PoisonScript(sha, chain, marker, outpoints).Some? {
      var s, commitment := PoisonScript(sha, chain, marker, outpoints).value, InputCommitment(sha, outpoints);
      var head := [0x6a, 0x4c, 87] + LABEL + [1, if chain == Bitcoin then 0 else 1];
      assert s == head + marker + commitment + PADDING;
      Fields(head, marker, commitment);
      LabelSpells();
      assert forall i :: 0 <= i < 14 ==> head[3 + i] == LABEL[i];
    }
  }

  lemma LabelSpells()
    ensures |LABEL| == 14 && forall i :: 0 <= i < 14 ==> LABEL[i] == "REPLAY-PROTECT"[i] as int
  {
  }

  lemma Fields(head: seq<byte>, marker: Hash, commitment: Hash)
    requires |head| == 19
    ensures var s := head + marker + commitment + PADDING;
            && |s| == 90 && (forall i :: 0 <= i < 19 ==> s[i] == head[i]) && At(s, 19, marker) && At(s, 51, commitment)
            && forall i :: 83 <= i < 90 ==> s[i] == 0
  {
    var s := head + marker + commitment + PADDING;
    assert s[19..51] == marker && s[51..83] == commitment;
    assert forall i :: 83 <= i < 90 ==> s[i] == PADDING[i - 83] == 0;
  }

  /** The payload buffer filled in place. */
  method FillPayload(sha: Sha256, chainByte: byte, marker: Hash, outpoints: seq<OutPoint>)
    returns (payload: array<byte>)
    ensures fresh(payload) && payload[..] == Payload(sha, chainByte, marker, outpoints)
  {
    hide Concat;
    var commitment := InputCommitment(sha, outpoints);
    payload := new byte[PAYLOAD_LEN](i => 0);
    forall i | 0 <= i < 14 { payload[i] := LABEL[i]; }
    payload[14] := PAYLOAD_VERSION;
    payload[15] := chainByte;
    forall i | 0 <= i < 32 { payload[16 + i] := marker[i]; }
    forall i | 0 <= i < 32 { payload[48 + i] := commitment[i]; }
    assert payload[..] == payload[..14] + [payload[14], payload[15]] + payload[16..48] + payload[48..80] + payload[80..];
    assert payload[..14] == LABEL && payload[16..48] == marker && payload[48..80] == commitment;
    assert payload[80..] == PADDING;
  }
}
