/** The claim-status account of the merkle-distributor program
    (core/schema.py): a fixed-offset Borsh record of 56 bytes that follows the
    account's 8-byte type discriminator. */
module Schema {
  import opened Bytes
  import opened Results
  import opened Borsh

  /** Bytes of the record proper: claimant, allocation, sent_allocation, claimed_ts. */
  const CLAIM_STATUS_LEN: nat := 32 + 8 + 8 + 8

  /** Offsets of the four fields within the record. */
  const ALLOCATION_AT: nat := 32
  const SENT_ALLOCATION_AT: nat := 40
  const CLAIMED_TS_AT: nat := 48

  datatype ClaimStatus = ClaimStatus(
    claimant: seq<byte>,
    allocation: int,
    sentAllocation: int,
    claimedTs: int)

  datatype DecodeError = StreamTooShort(available: nat, needed: nat)

  /** The field ranges the layout can carry: a 32-byte key, two U64, one I64. */
  predicate Representable(cs: ClaimStatus) {
    && |cs.claimant| == 32
    && 0 <= cs.allocation < U64_LIMIT
    && 0 <= cs.sentAllocation < U64_LIMIT
    && I64_MIN <= cs.claimedTs < I64_LIMIT
  }

  /** The record as the program writes it. */
  function Serialize(cs: ClaimStatus): (r: seq<byte>)
    requires Representable(cs)
    ensures |r| == CLAIM_STATUS_LEN
    ensures r[..32] == cs.claimant
    ensures LeValue(r[ALLOCATION_AT..SENT_ALLOCATION_AT]) == cs.allocation
    ensures LeValue(r[SENT_ALLOCATION_AT..CLAIMED_TS_AT]) == cs.sentAllocation
    ensures BuildI64(cs.claimedTs) == Ok(r[CLAIMED_TS_AT..])
  {
    Pow256Limits();
    var allocation := BuildUnsigned(cs.allocation, 8).value;
    var sent := BuildUnsigned(cs.sentAllocation, 8).value;
    var ts := BuildI64(cs.claimedTs).value;
    var r := cs.claimant + allocation + sent + ts;
    assert r[ALLOCATION_AT..SENT_ALLOCATION_AT] == allocation;
    assert r[SENT_ALLOCATION_AT..CLAIMED_TS_AT] == sent;
    assert r[CLAIMED_TS_AT..] == ts;
    r
  }

  /** `ClaimStatus.deserialize`: parse the four fields in order from the head
      of `data`. Fails exactly when the stream ends before the last field;
      anything after byte 56 is ignored. A success is the record whose
      serialization is the first 56 bytes. */
  function Deserialize(data: seq<byte>): (r: Result<ClaimStatus, DecodeError>)
    ensures r.Ok? <==> |data| >= CLAIM_STATUS_LEN
    ensures r.Err? ==> r.error == StreamTooShort(|data|, CLAIM_STATUS_LEN)
    ensures r.Ok? ==> Representable(r.value) && Serialize(r.value) == data[..CLAIM_STATUS_LEN]
  {
    Pow256Limits();
    if |data| < CLAIM_STATUS_LEN then Err(StreamTooShort(|data|, CLAIM_STATUS_LEN))
    else
      var claimant := data[..32];
      var allocation := ParseUnsigned(data[ALLOCATION_AT..], 8).value;
      var sent := ParseUnsigned(data[SENT_ALLOCATION_AT..], 8).value;
      var ts := ParseI64(data[CLAIMED_TS_AT..]).value;
      var cs := ClaimStatus(claimant, allocation, sent, ts);
      assert data[..CLAIM_STATUS_LEN] == claimant + data[ALLOCATION_AT..][..8]
        + data[SENT_ALLOCATION_AT..][..8] + data[CLAIMED_TS_AT..][..8];
      Ok(cs)
  }

  /** Round trip: any representable record, followed by any bytes, decodes to itself. */
  lemma DeserializeSerialize(cs: ClaimStatus, tail: seq<byte>)
    requires Representable(cs)
    ensures Deserialize(Serialize(cs) + tail) == Ok(cs)
  {
    var data := Serialize(cs) + tail;
    var d := Deserialize(data).value;
    assert Serialize(d) == Serialize(cs);
    SerializeInjective(d, cs);
  }

  /** Distinct representable records have distinct layouts. */
  lemma SerializeInjective(a: ClaimStatus, b: ClaimStatus)
    requires Representable(a) && Representable(b)
    requires Serialize(a) == Serialize(b)
    ensures a == b
  {
    Pow256Limits();
    var s := Serialize(a);
    assert a.claimant == s[..32] == b.claimant;
    var tsBytes := s[CLAIMED_TS_AT..];
    assert tsBytes == BuildI64(a.claimedTs).value == BuildI64(b.claimedTs).value;
    I64Injective(a.claimedTs, b.claimedTs);
  }

  /** Only the first 56 bytes matter: extra bytes never change the result. */
  lemma DeserializeIgnoresTail(data: seq<byte>, tail: seq<byte>)
    requires |data| >= CLAIM_STATUS_LEN
    ensures Deserialize(data + tail) == Deserialize(data)
  {
    assert (data + tail)[..CLAIM_STATUS_LEN] == data[..CLAIM_STATUS_LEN];
    var a := Deserialize(data + tail).value;
    var b := Deserialize(data).value;
    SerializeInjective(a, b);
  }
}
