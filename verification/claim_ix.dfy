/** The claim instruction of the merkle-distributor program
    (core/process_accs.py): an 8-byte function selector, then the Borsh
    struct `{allocation: U64, proof: Vec(U8[32])}`, sent to the claim program
    with eight accounts in a fixed order. */
module ClaimIx {
  import opened Bytes
  import opened Results
  import opened Borsh
  import opened Accounts
  import opened Instructions

  /** A SHA-256 digest. */
  type Digest = d: seq<byte> | |d| == 32 witness ZERO_KEY

  /** `hashlib.sha256(...).digest()`, a foreign call: any function giving 32 bytes. */
  type Sha256 = seq<byte> -> Digest

  const SELECTOR_LEN: nat := 8
  const INSTRUCTION_NAMESPACE: string := "global"
  const INSTRUCTION_NAME: string := "claim"

  /** `"global:claim".encode("utf-8")`. */
  const CLAIM_PREIMAGE: seq<byte> := [103, 108, 111, 98, 97, 108, 58, 99, 108, 97, 105, 109]

  /** The first eight bytes of SHA-256 of `CLAIM_PREIMAGE`: 3e c6 d6 c1 d5 9f 6c d2. */
  const CLAIM_SELECTOR: seq<byte> := [62, 198, 214, 193, 213, 159, 108, 210]

  /** The text `f"{namespace}:{name}"`, UTF-8 encoded: one to four bytes
      per character of the text (`ClaimPreimageBytes` gives the claim's). */
  function Preimage(namespace: string, name: string): (r: seq<byte>)
    ensures |namespace| + 1 + |name| <= |r| <= 4 * (|namespace| + 1 + |name|)
  {
    Utf8(namespace + ":" + name)
  }

  lemma ClaimPreimageBytes()
    ensures Preimage(INSTRUCTION_NAMESPACE, INSTRUCTION_NAME) == CLAIM_PREIMAGE
  {
    var text := INSTRUCTION_NAMESPACE + ":" + INSTRUCTION_NAME;
    assert |text| == |CLAIM_PREIMAGE| == 12;
    assert forall i :: 0 <= i < 12 ==> text[i] as int == CLAIM_PREIMAGE[i];
    Utf8OfAsciiBytes(text, CLAIM_PREIMAGE);
  }

  /** `get_function_hash`: an 8-byte prefix of the digest of the preimage. */
  function GetFunctionHash(sha: Sha256, namespace: string, name: string): (r: seq<byte>)
    ensures |r| == SELECTOR_LEN
    ensures r <= sha(Preimage(namespace, name))
  {
    sha(Preimage(namespace, name))[..SELECTOR_LEN]
  }

  /** The selector of the claim instruction under a given hash function. */
  function ClaimSelector(sha: Sha256): (r: seq<byte>)
    ensures |r| == SELECTOR_LEN
  {
    GetFunctionHash(sha, INSTRUCTION_NAMESPACE, INSTRUCTION_NAME)
  }

  /** With a hash function that agrees with SHA-256 on the claim preimage,
      the selector is the program's known claim discriminator. */
  lemma GenuineClaimSelector(sha: Sha256)
    requires sha(CLAIM_PREIMAGE)[..SELECTOR_LEN] == CLAIM_SELECTOR
    ensures ClaimSelector(sha) == CLAIM_SELECTOR
  {
    ClaimPreimageBytes();
  }

  /** `ClaimInputSchema.build`: the allocation, then the proof vector. */
  function BuildClaimInput(allocation: int, proof: seq<seq<byte>>): (r: Result<seq<byte>, BuildError>)
    ensures r.Ok? <==> 0 <= allocation < U64_LIMIT && |proof| < U32_LIMIT && AllHashes(proof)
    ensures !(0 <= allocation < U64_LIMIT) ==> r == Err(IntegerOutOfRange(allocation, 8))
    ensures r.Ok? ==> |r.value| == 8 + 4 + HASH_LEN * |proof|
  {
    Pow256Limits();
    var head :- BuildUnsigned(allocation, 8);
    var vec :- BuildHashVec(proof);
    Ok(head + vec)
  }

  /** `get_data`: selector followed by the Borsh claim arguments. */
  function GetData(sha: Sha256, allocation: int, proof: seq<seq<byte>>): (r: Result<seq<byte>, BuildError>)
    ensures r.Ok? <==> 0 <= allocation < U64_LIMIT && |proof| < U32_LIMIT && AllHashes(proof)
    ensures r.Ok? ==> |r.value| == SELECTOR_LEN + 8 + 4 + HASH_LEN * |proof|
    ensures r.Ok? ==> r.value[..SELECTOR_LEN] == ClaimSelector(sha)
    ensures r.Ok? ==> r.value == ClaimSelector(sha) + LeBytes(allocation, 8) + LeBytes(|proof|, 4) + Flatten(proof)
  {
    Pow256Limits();
    match BuildClaimInput(allocation, proof)
    case Err(e) => Err(e)
    case Ok(args) => Ok(ClaimSelector(sha) + args)
  }

  /** The claim call as the program reads it. */
  datatype ClaimPayload = ClaimPayload(selector: seq<byte>, allocation: nat, proof: seq<seq<byte>>)

  /** A reader of the claim data independent of the builder: selector at
      0..8, LE allocation at 8..16, LE proof count at 16..20, then that many
      32-byte chunks. Bytes after the last chunk are not read. */
  function ParseClaimData(data: seq<byte>): (r: Option<ClaimPayload>)
    ensures r.Some? ==> |r.value.selector| == SELECTOR_LEN && r.value.allocation < U64_LIMIT
    ensures r.Some? ==> |r.value.proof| < U32_LIMIT && AllHashes(r.value.proof)
    ensures r.Some? ==> |data| >= SELECTOR_LEN + 8 + 4 + HASH_LEN * |r.value.proof|
  {
    Pow256Limits();
    if |data| < SELECTOR_LEN + 8 + 4 then None
    else
      var allocation := ParseUnsigned(data[SELECTOR_LEN..], 8).value;
      var count := ParseUnsigned(data[SELECTOR_LEN + 8..], 4).value;
      match ParseHashes(data[SELECTOR_LEN + 8 + 4..], count)
      case None => None
      case Some(proof) => Some(ClaimPayload(data[..SELECTOR_LEN], allocation, proof))
  }

  /** Round trip: the reader recovers selector, allocation and every proof
      element, in order, from what `get_data` builds. */
  lemma ParseGetData(sha: Sha256, allocation: int, proof: seq<seq<byte>>)
    requires GetData(sha, allocation, proof).Ok?
    ensures ParseClaimData(GetData(sha, allocation, proof).value)
         == Some(ClaimPayload(ClaimSelector(sha), allocation, proof))
  {
    Pow256Limits();
    var data := GetData(sha, allocation, proof).value;
    var head := BuildUnsigned(allocation, 8).value;
    var vec := BuildHashVec(proof).value;
    assert data == ClaimSelector(sha) + head + vec;
    assert data[SELECTOR_LEN..][..8] == head;
    assert data[SELECTOR_LEN + 8..][..4] == vec[..4];
    var a := ParseUnsigned(data[SELECTOR_LEN..], 8).value;
    assert BuildUnsigned(a, 8) == Ok(head);
    var n := ParseUnsigned(data[SELECTOR_LEN + 8..], 4).value;
    assert LeValue(vec[..4]) == |proof|;
    assert BuildUnsigned(n, 4) == Ok(vec[..4]);
    assert data[SELECTOR_LEN + 8 + 4..] == Flatten(proof) + [];
    ParseHashesOfFlatten(proof, []);
  }

  /** Converse round trip: a buffer the reader accepts whole, carrying the
      claim selector, is exactly what `get_data` builds from its fields. */
  lemma GetDataOfParse(sha: Sha256, data: seq<byte>)
    requires ParseClaimData(data).Some?
    requires ParseClaimData(data).value.selector == ClaimSelector(sha)
    requires |data| == SELECTOR_LEN + 8 + 4 + HASH_LEN * |ParseClaimData(data).value.proof|
    ensures GetData(sha, ParseClaimData(data).value.allocation, ParseClaimData(data).value.proof) == Ok(data)
  {
    Pow256Limits();
    var pl := ParseClaimData(data).value;
    var head := data[SELECTOR_LEN..][..8];
    var count := data[SELECTOR_LEN + 8..][..4];
    var body := data[SELECTOR_LEN + 8 + 4..];
    assert BuildUnsigned(pl.allocation, 8) == Ok(head);
    assert BuildUnsigned(|pl.proof|, 4) == Ok(count);
    FlattenOfParseHashes(body, |pl.proof|);
    assert Flatten(pl.proof) == body;
    assert data == data[..SELECTOR_LEN] + head + count + body;
  }

  /** A 16-element proof encodes to 8 + 8 + 4 + 16 * 32 = 532 bytes. */
  lemma SixteenElementProofLength(sha: Sha256, allocation: int, proof: seq<seq<byte>>)
    requires 0 <= allocation < U64_LIMIT && |proof| == 16 && AllHashes(proof)
    ensures GetData(sha, allocation, proof).Ok? && |GetData(sha, allocation, proof).value| == 532
  {
  }

  /** Number of accounts the claim instruction names. */
  const CLAIM_ACCOUNT_COUNT: nat := 8

  /** The eight account metas of the claim call, in the program's order:
      distributor, GRASS mint, claim status, vault, claimant token account,
      claimant, token program, system program. Only the claimant signs; the
      mint and the two programs are read-only. */
  function ClaimAccounts(distributor: Pubkey, claimStatus: Pubkey, from: Pubkey, to: Pubkey, claimant: Pubkey)
    : (r: seq<AccountMeta>)
    ensures |r| == CLAIM_ACCOUNT_COUNT
    ensures Keys(r) == [distributor, GRASS_PUBKEY, claimStatus, from, to, claimant, TOKEN_PROGRAM_ID, SYSTEM_PROGRAM_ID]
    ensures forall i :: 0 <= i < |r| ==> (r[i].isSigner <==> i == 5)
    ensures forall i :: 0 <= i < |r| ==> (r[i].isWritable <==> i != 1 && i != 6 && i != 7)
  {
    [
      AccountMeta(distributor, false, true),
      AccountMeta(GRASS_PUBKEY, false, false),
      AccountMeta(claimStatus, false, true),
      AccountMeta(from, false, true),
      AccountMeta(to, false, true),
      AccountMeta(claimant, true, true),
      AccountMeta(TOKEN_PROGRAM_ID, false, false),
      AccountMeta(SYSTEM_PROGRAM_ID, false, false)
    ]
  }

  /** `get_claim_ix`: the claim call to the distributor program. Building
      fails exactly when the payload does. */
  function GetClaimIx(
    sha: Sha256, distributor: Pubkey, claimStatus: Pubkey, from: Pubkey, to: Pubkey,
    claimant: Pubkey, allocation: int, proof: seq<seq<byte>>): (r: Result<Instruction, BuildError>)
    ensures r.Ok? <==> GetData(sha, allocation, proof).Ok?
    ensures r.Ok? ==> r.value.Invoke? && r.value.programId == CLAIM_PUBKEY
    ensures r.Ok? ==> r.value.data == GetData(sha, allocation, proof).value
    ensures r.Ok? ==> r.value.accounts == ClaimAccounts(distributor, claimStatus, from, to, claimant)
  {
    match GetData(sha, allocation, proof)
    case Err(e) => Err(e)
    case Ok(data) => Ok(Invoke(CLAIM_PUBKEY, ClaimAccounts(distributor, claimStatus, from, to, claimant), data))
  }
}
