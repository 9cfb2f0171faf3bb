/** Program-derived addresses (core/accounts.py). A derived address is
    `find_program_address(seeds, program_id)`: the first bump in 255..0 whose
    hash of seeds, bump and program id lies off the ed25519 curve. That search
    is a foreign call here, an `AddressOracle`; what the model fixes is which
    seeds, in which order and encoding, go into each derivation. */
module Accounts {
  import opened Bytes
  import opened Results

  /** A 32-byte account address. */
  type Pubkey = s: seq<byte> | |s| == 32 witness ZERO_KEY

  /** `Grass7B4RdKfBCjTKgSqnXkqjwiGvQyFbuSCUJr3XXjs`, the GRASS token mint. */
  const GRASS_PUBKEY: Pubkey := [
    235, 147, 17, 127, 16, 221, 46, 63, 249, 108, 18, 193, 18, 103, 248, 101,
    78, 177, 5, 13, 5, 165, 94, 170, 8, 171, 128, 167, 124, 64, 157, 30]

  /** `Eohp5jrnGQgP74oD7ij9EuCSYnQDLLHgsuAmtSTuxABk`, the merkle-distributor program. */
  const CLAIM_PUBKEY: Pubkey := [
    205, 30, 203, 18, 226, 28, 131, 231, 236, 18, 154, 227, 35, 151, 154, 34,
    212, 0, 241, 253, 18, 55, 125, 179, 126, 188, 57, 8, 237, 83, 74, 139]

  /** `TokenkegQfeZyiNwAJbNbGKPFXCWuBvf9Ss623VQ5DA`, the SPL token program. */
  const TOKEN_PROGRAM_ID: Pubkey := [
    6, 221, 246, 225, 215, 101, 161, 147, 217, 203, 225, 70, 206, 235, 121, 172,
    28, 180, 133, 237, 95, 91, 55, 145, 58, 140, 245, 133, 126, 255, 0, 169]

  /** `ATokenGPvbdGVxr1b2hvZbsiqW5xWH25efTNsLJA8knL`, the associated-token-account program. */
  const ASSOCIATED_TOKEN_PROGRAM_ID: Pubkey := [
    140, 151, 37, 143, 78, 36, 137, 241, 187, 61, 16, 41, 20, 142, 13, 131,
    11, 90, 19, 153, 218, 255, 16, 132, 4, 142, 123, 216, 219, 233, 248, 89]

  /** Thirty-two zero bytes. */
  const ZERO_KEY: seq<byte> := [
    0, 0, 0, 0, 0, 0, 0, 0, 0, 0, 0, 0, 0, 0, 0, 0,
    0, 0, 0, 0, 0, 0, 0, 0, 0, 0, 0, 0, 0, 0, 0, 0]

  /** `11111111111111111111111111111111`, the system program: all zero bytes. */
  const SYSTEM_PROGRAM_ID: Pubkey := ZERO_KEY

  /** Limits the runtime puts on a seed list. */
  const MAX_SEEDS: nat := 16
  const MAX_SEED_LEN: nat := 32

  type Seeds = seq<seq<byte>>

  /** `find_program_address` with the bump dropped: a fixed, deterministic map
      from (seeds, program id) to an address. */
  type AddressOracle = (Seeds, Pubkey) -> Pubkey

  predicate WithinSeedLimits(seeds: Seeds) {
    |seeds| <= MAX_SEEDS && forall i :: 0 <= i < |seeds| ==> |seeds[i]| <= MAX_SEED_LEN
  }

  datatype DeriveError = VersionOutOfRange(version: int)

  /** The text of the two seed tags. */
  const DISTRIBUTOR_TEXT: string := "MerkleDistributor"
  const CLAIM_STATUS_TEXT: string := "ClaimStatus"

  /** `b"MerkleDistributor"`, one ASCII byte per character. */
  const DISTRIBUTOR_TAG: seq<byte> :=
    [77, 101, 114, 107, 108, 101, 68, 105, 115, 116, 114, 105, 98, 117, 116, 111, 114]
  /** `b"ClaimStatus"`, one ASCII byte per character. */
  const CLAIM_STATUS_TAG: seq<byte> := [67, 108, 97, 105, 109, 83, 116, 97, 116, 117, 115]

  /** The distributor tag is the UTF-8 encoding of its text, as the `b"..."`
      literal holds. */
  lemma DistributorTagBytes()
    ensures Utf8(DISTRIBUTOR_TEXT) == DISTRIBUTOR_TAG
  {
    var text := DISTRIBUTOR_TEXT;
    assert |text| == |DISTRIBUTOR_TAG| == 17;
    assert forall i :: 0 <= i < 17 ==> text[i] as int == DISTRIBUTOR_TAG[i] < 0x80;
    Utf8OfAsciiBytes(text, DISTRIBUTOR_TAG);
  }

  /** The claim-status tag is the UTF-8 encoding of its text. */
  lemma ClaimStatusTagBytes()
    ensures Utf8(CLAIM_STATUS_TEXT) == CLAIM_STATUS_TAG
  {
    var text := CLAIM_STATUS_TEXT;
    assert |text| == |CLAIM_STATUS_TAG| == 11;
    assert forall i :: 0 <= i < 11 ==> text[i] as int == CLAIM_STATUS_TAG[i] < 0x80;
    Utf8OfAsciiBytes(text, CLAIM_STATUS_TAG);
  }

  /** Seeds of the distributor of one airdrop version; the tag's bytes are
      tied to its text by `DistributorTagBytes`. `version.to_bytes(4,
      "little")` raises unless the version fits in an unsigned 32-bit field. */
  function DistributorSeeds(version: int): (r: Result<Seeds, DeriveError>)
    ensures r.Ok? <==> 0 <= version < U32_LIMIT
    ensures r.Err? ==> r.error == VersionOutOfRange(version)
    ensures r.Ok? ==> |r.value| == 3 && r.value[0] == DISTRIBUTOR_TAG && r.value[1] == GRASS_PUBKEY
    ensures r.Ok? ==> |r.value[2]| == 4 && LeValue(r.value[2]) == version
    ensures r.Ok? ==> WithinSeedLimits(r.value)
  {
    Pow256Limits();
    if 0 <= version < U32_LIMIT then
      LeValueOfBytes(version, 4);
      Ok([DISTRIBUTOR_TAG, GRASS_PUBKEY, LeBytes(version, 4)])
    else
      Err(VersionOutOfRange(version))
  }

  /** `get_distributor_pda`. */
  function GetDistributorPda(find: AddressOracle, version: int): (r: Result<Pubkey, DeriveError>)
    ensures r.Ok? <==> 0 <= version < U32_LIMIT
    ensures r.Ok? ==> r.value == find(DistributorSeeds(version).value, CLAIM_PUBKEY)
  {
    var seeds :- DistributorSeeds(version);
    Ok(find(seeds, CLAIM_PUBKEY))
  }

  /** Different versions are different derivation requests. */
  lemma DistributorSeedsInjective(v: int, w: int)
    requires DistributorSeeds(v).Ok? && DistributorSeeds(w).Ok?
    requires DistributorSeeds(v) == DistributorSeeds(w)
    ensures v == w
  {
    Pow256Limits();
    LeBytesInjective(v, w, 4);
  }

  /** Seeds of a claimant's claim-status record under one distributor; the
      tag's bytes are tied to its text by `ClaimStatusTagBytes`. */
  function ClaimStatusSeeds(owner: Pubkey, distributor: Pubkey): (r: Seeds)
    ensures |r| == 3 && r[0] == CLAIM_STATUS_TAG && r[1] == owner && r[2] == distributor
    ensures WithinSeedLimits(r)
  {
    [CLAIM_STATUS_TAG, owner, distributor]
  }

  /** `get_claim_status_pda`: the claim program's address for the tag, the
      claimant and the distributor. */
  function GetClaimStatusPda(find: AddressOracle, owner: Pubkey, distributor: Pubkey): (r: Pubkey)
    ensures r == find([CLAIM_STATUS_TAG, owner, distributor], CLAIM_PUBKEY)
  {
    find(ClaimStatusSeeds(owner, distributor), CLAIM_PUBKEY)
  }

  /** Seeds of the associated token account of `owner` for `mint`. */
  function TokenSeeds(owner: Pubkey, mint: Pubkey): (r: Seeds)
    ensures |r| == 3 && r[0] == owner && r[1] == TOKEN_PROGRAM_ID && r[2] == mint
    ensures WithinSeedLimits(r)
  {
    [owner, TOKEN_PROGRAM_ID, mint]
  }

  /** `get_token_pda`: the associated token account address, derived under
      the associated-token program rather than the claim program. */
  function GetTokenPda(find: AddressOracle, owner: Pubkey, mint: Pubkey): (r: Pubkey)
    ensures r == find([owner, TOKEN_PROGRAM_ID, mint], ASSOCIATED_TOKEN_PROGRAM_ID)
  {
    find(TokenSeeds(owner, mint), ASSOCIATED_TOKEN_PROGRAM_ID)
  }

  /** Seed lists of different derivation kinds never coincide: the three
      derivations never ask the oracle the same question for different
      purposes. */
  lemma SeedListsDistinct(version: int, owner: Pubkey, distributor: Pubkey, tokenOwner: Pubkey, mint: Pubkey)
    requires DistributorSeeds(version).Ok?
    ensures DistributorSeeds(version).value != ClaimStatusSeeds(owner, distributor)
    ensures ClaimStatusSeeds(owner, distributor) != TokenSeeds(tokenOwner, mint)
    ensures DistributorSeeds(version).value != TokenSeeds(tokenOwner, mint)
  {
  }

  /** The (seeds, program id) question a claim-status derivation puts to the
      oracle determines the claimant and the distributor: two claimants, or
      two distributors, never share a claim-status request. */
  lemma ClaimStatusRequestInjective(owner: Pubkey, distributor: Pubkey, owner2: Pubkey, distributor2: Pubkey)
    requires (ClaimStatusSeeds(owner, distributor), CLAIM_PUBKEY) == (ClaimStatusSeeds(owner2, distributor2), CLAIM_PUBKEY)
    ensures owner == owner2 && distributor == distributor2
  {
    var s, s2 := ClaimStatusSeeds(owner, distributor), ClaimStatusSeeds(owner2, distributor2);
    assert s[1] == s2[1] && s[2] == s2[2];
  }

  /** Likewise the associated-token request determines the owner and the mint. */
  lemma TokenRequestInjective(owner: Pubkey, mint: Pubkey, owner2: Pubkey, mint2: Pubkey)
    requires (TokenSeeds(owner, mint), ASSOCIATED_TOKEN_PROGRAM_ID) == (TokenSeeds(owner2, mint2), ASSOCIATED_TOKEN_PROGRAM_ID)
    ensures owner == owner2 && mint == mint2
  {
    var s, s2 := TokenSeeds(owner, mint), TokenSeeds(owner2, mint2);
    assert s[0] == s2[0] && s[2] == s2[2];
  }

  /** A claim-status request and a token-account request are never the same
      question: they name different programs, whatever the seeds. */
  lemma ClaimStatusAndTokenRequestsDiffer(owner: Pubkey, distributor: Pubkey, tokenOwner: Pubkey, mint: Pubkey)
    ensures (ClaimStatusSeeds(owner, distributor), CLAIM_PUBKEY) != (TokenSeeds(tokenOwner, mint), ASSOCIATED_TOKEN_PROGRAM_ID)
  {
    assert CLAIM_PUBKEY[0] != ASSOCIATED_TOKEN_PROGRAM_ID[0];
  }
}
