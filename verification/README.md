# Grass airdrop claimer: claim-transaction construction in Dafny

This project models the part of the Grass airdrop claimer that builds the claim
transaction for the on-chain merkle-distributor program. It covers four things:

- **Program-derived addresses** (`accounts.dfy`, module `Accounts`). These are the
  seed lists of the distributor, claim-status and associated-token-account
  derivations: which byte strings, in which order, under which program id. The
  version is written as a 4-byte little-endian field. `find_program_address` is
  an opaque, deterministic oracle.
- **Binary codec** (`bytes.dfy`, `borsh.dfy`, `schema.dfy`, `claim_ix.dfy`).
  - The Borsh primitives the program uses: U32/U64/I64 little-endian fields,
    `U8[32]` arrays and `Vec`.
  - The 56-byte claim-status record: claimant, allocation, sent_allocation,
    claimed_ts.
  - The claim instruction payload: the 8-byte selector `sha256("global:claim")[:8]`
    (3e c6 d6 c1 d5 9f 6c d2), then the allocation as a U64, then the proof as a
    `Vec(U8[32])`.
- **Claim instruction** (`claim_ix.dfy`). This is the call to program
  `Eohp5jrn…ABk` with its eight accounts in a fixed order. Only the claimant
  signs. The mint and the two programs are read-only.
- **One `claimer` call** (`claimer.dfy`, module `Claimer`):
  - derive the distributor and the claim-status address;
  - stop early when the record is settled (allocation equals sent_allocation);
  - otherwise assemble the instructions: create the claimant's token account,
    claim, create the destination and tip token accounts when missing, transfer
    the net amount, transfer the tip;
  - report one boolean after exactly one pass of the retry loop.

Inputs that come from outside the program become parameters:
- the chain is a snapshot `Ledger` (account data by address);
- signing and sending are one boolean, `delivered`;
- SHA-256 and `find_program_address` are the two function-valued fields of
  `Oracles`.

The proofs show the following:
- little-endian integers, U32/U64/I64 fields, `U8[32]` arrays, the claim-status
  record and the claim payload each round-trip in both directions: build then
  parse, and parse then build;
- the claim-status decode fails exactly on short buffers;
- the tag seeds are the UTF-8 bytes of "MerkleDistributor" and "ClaimStatus";
- every derivation request is one-to-one in its inputs, and the three kinds never coincide;
- every seed list is within the runtime's seed limits;
- the already-claimed short cut is taken exactly when the record's
  allocation bytes equal its sent_allocation bytes;
- every token account the claim pays into or a transfer uses already exists
  or is created earlier in the list;
- in exact arithmetic, the tip split never exceeds the allocation and loses at
  most one token.

Behaviour of the code that the model keeps:
- The claimant's own token-account creation is appended **unconditionally**
  (core/process_accs.py:184-188). Only the destination and tip creations depend
  on an existence check.
- Every failure inside the `try` is caught and turned into `False`
  (core/process_accs.py:276-278). This covers a version that does not fit 32
  bits, a claim-status account shorter than 64 bytes, a payload that cannot be
  encoded, and a transfer amount outside U64. None of these propagate.
- Encoding fails when the allocation is outside U64, when a proof element is
  not exactly 32 bytes, or when the proof has 2^32 or more elements
  (`U8[32]` and `Vec`'s U32 prefix refuse the last two).
- The `while i < 10` loop never retries, because every path through its body
  returns.
- The claim-status decode reads 56 bytes from the account data that follows
  the 8-byte discriminator, so the raw account must hold at least 64 bytes.

## Model

| member | source | states |
|---|---|---|
| Bytes.LeValueOfBytes | core/accounts.py:14 | reading back the n-byte little-endian encoding of x yields x |
| Bytes.LeBytes | core/accounts.py:14 | `x.to_bytes(n, "little")`: n bytes, whose meaning is fixed by the round trips LeValueOfBytes and LeBytesOfValue |
| Bytes.Utf8 | core/process_accs.py:46 | `str.encode("utf-8")`: one to four bytes per character; Utf8OfAscii shows an ASCII text encodes to its code points, one byte each |
| Bytes.LeBytesOfValue | core/schema.py:9-11 | re-encoding the value of a little-endian byte string at its own width gives the same bytes |
| Borsh.BuildUnsigned | core/process_accs.py:36 | a U32/U64 build succeeds iff 0 <= x < 256^width, and then yields width bytes whose little-endian value is x |
| Borsh.ParseUnsigned | core/schema.py:9-10 | a U32/U64 parse succeeds iff the stream has at least `width` bytes (8 for U64), trailing bytes allowed, and the value is the one whose build gives exactly those bytes |
| Borsh.BuildI64 | core/schema.py:11 | an I64 build succeeds iff -2^63 <= x < 2^63, writing x (or x + 2^64 when negative) in eight little-endian bytes |
| Borsh.ParseI64 | core/schema.py:11 | an I64 parse succeeds iff 8 bytes remain, gives a value in [-2^63, 2^63), and that value builds back to those bytes |
| Borsh.ParseBuildUnsigned | core/process_accs.py:36 | parsing the bytes a U32/U64 build wrote gives back the integer |
| Borsh.I64Injective | core/schema.py:11 | two in-range integers with the same I64 encoding are equal |
| Borsh.ParseBuildI64 | core/schema.py:11 | parsing the bytes an I64 build wrote gives back the integer, negative values included |
| Borsh.BuildHashes | core/process_accs.py:35 | the `U8[32]` elements build iff every element is exactly 32 bytes, and they are laid end to end, 32 bytes each |
| Borsh.BuildHashVec | core/process_accs.py:36 | a `Vec(U8[32])` builds iff it has fewer than 2^32 elements of 32 bytes, as a LE32 count followed by the elements |
| Borsh.ParseHashes | core/process_accs.py:35-36 | reading n arrays succeeds iff 32n bytes remain, and element i is bytes 32i..32i+32 |
| Borsh.ParseHashesOfFlatten | core/process_accs.py:35-36 | the arrays read back from their concatenation, whatever follows, are the original elements in order |
| Borsh.FlattenOfParseHashes | core/process_accs.py:35-36 | the arrays read from a stream, concatenated again, are the first 32n bytes of it |
| Schema.Serialize | core/schema.py:7-12 | the record is 56 bytes, with the claimant at 0..32, allocation LE at 32..40, sent_allocation LE at 40..48 and claimed_ts as a two's-complement I64 at 48..56 |
| Schema.Deserialize | core/schema.py:22-31 | decoding fails iff fewer than 56 bytes are given; a result has in-range fields and serializes to exactly the first 56 bytes |
| Schema.DeserializeSerialize | core/schema.py:7-31 | any representable record, followed by any bytes, decodes to itself |
| Schema.SerializeInjective | core/schema.py:7-12 | distinct representable records have distinct layouts |
| Schema.DeserializeIgnoresTail | core/schema.py:24 | bytes after the 56th never change the decoded record |
| Accounts.DistributorTagBytes | core/accounts.py:12 | the distributor tag's bytes are the UTF-8 encoding of "MerkleDistributor" |
| Accounts.ClaimStatusTagBytes | core/accounts.py:24 | the claim-status tag's bytes are the UTF-8 encoding of "ClaimStatus" |
| Accounts.DistributorSeeds | core/accounts.py:10-17 | seeds are "MerkleDistributor", the GRASS mint and the version as 4 LE bytes; they exist iff 0 <= version < 2^32 and respect the 16-seed/32-byte limits |
| Accounts.GetDistributorPda | core/accounts.py:8-19 | the distributor is the oracle's address for those seeds under the claim program; an out-of-range version fails |
| Accounts.DistributorSeedsInjective | core/accounts.py:14 | different versions give different seed lists |
| Accounts.ClaimStatusSeeds | core/accounts.py:23-26 | seeds are "ClaimStatus", owner, distributor, in that order, within the seed limits |
| Accounts.ClaimStatusRequestInjective | core/accounts.py:22-28 | the (seeds, program id) request a claim-status derivation makes determines both the claimant and the distributor |
| Accounts.GetClaimStatusPda | core/accounts.py:22-28 | the claim-status address is the claim program's oracle answer for the tag bytes, the claimant and the distributor, in that order |
| Accounts.TokenSeeds | core/accounts.py:32-35 | seeds are owner, token program id, mint, in that order, within the seed limits |
| Accounts.TokenRequestInjective | core/accounts.py:31-37 | the request a token-account derivation makes determines both the owner and the mint |
| Accounts.GetTokenPda | core/accounts.py:31-37 | the token account is the associated-token program's oracle answer for owner, token program id and mint, in that order |
| Accounts.ClaimStatusAndTokenRequestsDiffer | core/accounts.py:22-37 | a claim-status request never equals a token-account request, because they name different programs |
| Accounts.SeedListsDistinct | core/accounts.py:8-37 | the three derivation kinds never submit the same seed list |
| Instructions.TransferIx | core/process_accs.py:231-240 | a transfer builds iff its amount fits a U64 |
| ClaimIx.Preimage | core/process_accs.py:46 | the UTF-8 of `f"{namespace}:{name}"`, one to four bytes per character; ClaimPreimageBytes fixes the claim's preimage |
| ClaimIx.ClaimPreimageBytes | core/process_accs.py:46 | the preimage of the claim selector is the twelve ASCII bytes of "global:claim" |
| ClaimIx.GetFunctionHash | core/process_accs.py:45-48 | the selector is 8 bytes long and a prefix of the digest of "namespace:name" |
| ClaimIx.ClaimSelector | core/process_accs.py:52 | the claim selector is 8 bytes long |
| ClaimIx.GenuineClaimSelector | core/process_accs.py:45-48 | with real SHA-256 the claim selector is 3e c6 d6 c1 d5 9f 6c d2 |
| ClaimIx.BuildClaimInput | core/process_accs.py:54-56 | the claim arguments build iff the allocation fits a U64, the proof has fewer than 2^32 elements and every element is 32 bytes; an allocation out of range is the error reported; the length is 12 + 32n |
| ClaimIx.GetData | core/process_accs.py:51-58 | the payload exists under the same conditions, is 20 + 32n bytes long, and is the claim selector, the allocation as 8 LE bytes, the proof count as 4 LE bytes and the proof elements end to end |
| ClaimIx.ParseClaimData | core/process_accs.py:35-36 | an independent reader yields a U64 allocation and a proof of 32-byte elements that fits inside the buffer |
| ClaimIx.ParseGetData | core/process_accs.py:51-58 | round trip: the reader recovers selector, allocation and every proof element in order from the payload, for any proof length |
| ClaimIx.GetDataOfParse | core/process_accs.py:51-58 | converse round trip: a buffer the reader consumes whole, carrying the claim selector, is exactly the payload built from its fields |
| ClaimIx.SixteenElementProofLength | core/process_accs.py:51-58 | a 16-element proof gives a 532-byte payload |
| ClaimIx.ClaimAccounts | core/process_accs.py:72-81 | eight metas: distributor, GRASS mint, claim status, vault, claimant token account, claimant, token program, system program; only index 5 signs; indices 1, 6, 7 are read-only |
| ClaimIx.GetClaimIx | core/process_accs.py:61-85 | the claim call exists iff its payload does, targets the claim program, carries the payload and the eight metas |
| Claimer.DropPrefix | core/process_accs.py:172 | Python's `data[8:]`: the suffix after 8 bytes, or empty for shorter data |
| Claimer.CheckClaimStatus | core/process_accs.py:168-176 | no account means not created; a present account decodes iff it has at least 64 bytes; settled iff allocation equals sent_allocation |
| Claimer.FullyClaimedBytes | core/process_accs.py:171-174 | on the raw account, settled iff bytes 40..48 equal bytes 48..56 |
| Claimer.TruncDiv | core/process_accs.py:237 | `int()` of an exact quotient: the result has the sign of the dividend; TruncDivOdd and TruncDivBounds carry its meaning |
| Claimer.TruncDivOdd | core/process_accs.py:237 | `int()` rounds toward zero, so negating the dividend negates the result |
| Claimer.TruncDivBounds | core/process_accs.py:237 | a truncated quotient of a part of a * d by d lies in [0, a] |
| Claimer.ShareBounds | core/process_accs.py:227-229 | a share between 0 and 1 of a non-negative allocation, truncated, lies in [0, allocation] |
| Claimer.TipAmount | core/process_accs.py:227 | for a tip share in [0, 1] the tip transfer amount (`int(tip)`, line 249) lies in [0, allocation] |
| Claimer.WithdrawAmount | core/process_accs.py:227-229 | for a tip share in [0, 1] the net transfer amount (`int(amount_to_withdraw)`, line 237) lies in [0, allocation] |
| Claimer.SplitConserves | core/process_accs.py:227-250 | for a tip share in [0, 1], both amounts lie in [0, allocation]; their sum is the allocation or one less, and equals it iff the tip is a whole number of tokens |
| Claimer.FivePercentTip | core/process_accs.py:227-229 | a 5% tip on 1,000,000 is 50,000, leaving 950,000 |
| Claimer.AssembleInstructions | core/process_accs.py:178-254 | the list succeeds iff the payload and both amounts are valid, and has 4 to 6 entries: own-account creation, claim, destination creation iff absent, tip creation iff absent, net transfer, tip transfer |
| Claimer.PlanClaim | core/process_accs.py:164-254 | an out-of-range version fails before anything else; a built transaction has 4 to 6 instructions |
| Claimer.ClaimStatusAddress | core/process_accs.py:164-166 | the looked-up address is the claim-status derivation for the claimant under the version's distributor |
| Claimer.AlreadyClaimedExactly | core/process_accs.py:168-176 | the already-claimed exit is taken iff the claim-status account exists, has at least 64 bytes and its allocation bytes equal its sent_allocation bytes |
| Claimer.ShortClaimStatusFails | core/process_accs.py:171-172 | a claim-status account shorter than 64 bytes aborts the attempt with a decode error |
| Claimer.PlanAccountsReady | core/process_accs.py:182-254 | every token account the claim pays into or a transfer uses exists already or is created earlier in the list |
| Claimer.UnsettledClaimBuilds | core/process_accs.py:178-254 | an absent or unsettled claim with valid inputs always builds 4 + (missing destination) + (missing tip) instructions, with the claim at index 1 |
| Claimer.SettledRecordShortCuts | core/process_accs.py:168-176 | a record with allocation = sent_allocation = 42 ends the call as already claimed |
| Claimer.RunClaimer | core/process_accs.py:143-278 | one call makes exactly one attempt; it is false on any failure, true when already claimed, and otherwise true iff the transaction was delivered |

## Left out

- SHA-256, `find_program_address` and the ed25519 curve test are foreign
  calls. They are oracles, and the model does not check that the oracle is
  real SHA-256. `ClaimIx.GenuineClaimSelector` states the known selector
  under the assumption that it is.
- Accounts.GetDistributorPda, Accounts.GetClaimStatusPda and Accounts.GetTokenPda
  do not model the "no valid bump" failure of `find_program_address`. The oracle
  is total; the failure needs all 256 bumps to land on the curve.
- Claimer.SplitConserves: the tip share `TIP_AMOUNT` (a float) is modelled as
  an exact ratio `num/den`, with `int()` as truncation toward zero. Binary
  floating-point rounding is not modelled, and it can break both conclusions.
  With TIP_AMOUNT 0.29 and allocation 100, `100 * 0.29` is 28.999999999999996,
  so the transfers are 71 + 28 = 99, where the exact ratio gives 71 + 29 = 100.
  With allocation 2^53 + 3 and a 0.0 tip, the float subtraction rounds, and the
  net transfer is 2^53 + 4, more than the allocation.
- Claimer.TruncDiv: truncates an exact rational quotient, not a Python float,
  so float rounding before `int()` is not reproduced.
- Claimer.TipAmount and Claimer.WithdrawAmount: computed as exact-ratio
  truncations, not as `int()` of the float expressions, for the same reason.
- Claimer.AssembleInstructions: its transfer amounts are the exact-ratio
  truncations above, so the floating-point cases above are not reproduced.
- Claimer.FivePercentTip: states the exact-ratio values. The float expressions
  give the same 50,000 and 950,000 for these inputs.
- The byte encodings of the SPL `create_associated_token_account` and
  `transfer` instructions are not modelled. These instructions stay symbolic;
  their accounts and data belong to the SPL libraries.
- JSON parsing of the proof (core/process_accs.py:190-192) is not modelled. The
  proof arrives as a list of byte strings.
- Base58 parsing of keys and of DESTINATION_ADDRESS is not modelled. Keypair
  loading, logging, the RPC client, the blockhash fetch, signing and
  `send_transaction` are not modelled either. Claimer.RunClaimer folds the
  last three into the single boolean `delivered`.
- Claimer.RunClaimer: a failing account lookup (core/process_accs.py:168, 208,
  218) is not modelled. All lookups read one ledger snapshot. In the code, a
  lookup that raises makes `claimer` return False, even for a settled record.
- Claimer.PlanAccountsReady: covers the claimant token account the claim pays
  into and both ends of each transfer. It does not cover the distributor's
  vault, which the claim debits. The code never checks or creates the vault;
  its existence is a property of the on-chain program.
- The "Finalized" and "Processed" commitment levels of the account lookups are
  not modelled. All lookups read one ledger snapshot.
- `transferer` (core/process_accs.py:87-140), the HTTP proof fetch and its
  retry policy, and the file I/O and concurrency in main.py are outside this
  model.
