/** One call of `claimer` (core/process_accs.py): derive the distributor and
    claim-status addresses, stop early when the claim is already settled,
    otherwise assemble the instruction list of the claim transaction. The
    network is a snapshot of account data by address (`Ledger`), the
    outcome of signing and sending is a boolean, and SHA-256 and
    `find_program_address` are the oracles of `Oracles`. */
module Claimer {
  import opened Bytes
  import opened Results
  import opened Borsh
  import opened Schema
  import opened Accounts
  import opened Instructions
  import opened ClaimIx

  /** `Fk1KfqN7jd6rRV4k7k8dedSqm1aZ8tXbFegitvSZYxoY`, the tip recipient fixed in `claimer`. */
  const TIP_ADDRESS: Pubkey := [
    219, 7, 244, 170, 16, 79, 182, 225, 243, 145, 177, 138, 134, 107, 103, 43,
    146, 192, 173, 244, 139, 207, 227, 113, 215, 55, 196, 237, 108, 201, 76, 127]

  /** Length of the account-type discriminator in front of the claim-status record. */
  const DISCRIMINATOR_LEN: nat := 8

  /** Attempts the `while i < 10` loop of `claimer` allows. */
  const MAX_ATTEMPTS: nat := 10

  /** TIP_AMOUNT, the share of the allocation paid as a tip, as the exact ratio num / den. */
  datatype Ratio = Ratio(num: int, den: int)
  type TipRate = r: Ratio | r.den > 0 witness Ratio(0, 1)

  /** The configuration `claimer` reads: DESTINATION_ADDRESS and TIP_AMOUNT. */
  datatype Config = Config(destination: Pubkey, tipRate: TipRate)

  /** The foreign calls: `sha256` and `Pubkey.find_program_address`. */
  datatype Oracles = Oracles(sha256: Sha256, findProgramAddress: AddressOracle)

  /** Account data by address, as `get_account_info` returns it; an absent
      key is an account that does not exist. */
  type Ledger = map<Pubkey, seq<byte>>

  datatype ClaimState =
    | NotCreated
    | PartiallyClaimed(record: ClaimStatus)
    | FullyClaimed(record: ClaimStatus)

  /** Everything that raises inside the `try` of `claimer`. */
  datatype ClaimError =
    | Derivation(deriveError: DeriveError)
    | MalformedClaimStatus(decodeError: DecodeError)
    | Encoding(buildError: BuildError)
    | BadTransfer(transferError: TransferError)

  /** Python's `data[n:]`: empty when the data is no longer than n. */
  function DropPrefix(data: seq<byte>, n: nat): (r: seq<byte>)
    ensures |data| >= n ==> r == data[n..]
    ensures |data| < n ==> r == []
  {
    if |data| <= n then [] else data[n..]
  }

  /** The already-claimed check: decode the record behind its discriminator
      and compare allocation with sent_allocation. */
  function CheckClaimStatus(account: Option<seq<byte>>): (r: Result<ClaimState, ClaimError>)
    ensures account.None? ==> r == Ok(NotCreated)
    ensures account.Some? ==> (r.Ok? <==> |account.value| >= DISCRIMINATOR_LEN + CLAIM_STATUS_LEN)
    ensures account.Some? && r.Ok? ==>
      && !r.value.NotCreated?
      && Representable(r.value.record)
      && Serialize(r.value.record) == account.value[DISCRIMINATOR_LEN..DISCRIMINATOR_LEN + CLAIM_STATUS_LEN]
    ensures r.Ok? && r.value.FullyClaimed? ==> r.value.record.allocation == r.value.record.sentAllocation
    ensures r.Ok? && r.value.PartiallyClaimed? ==> r.value.record.allocation != r.value.record.sentAllocation
  {
    match account
    case None => Ok(NotCreated)
    case Some(data) =>
      var body := DropPrefix(data, DISCRIMINATOR_LEN);
      match Deserialize(body)
      case Err(e) => Err(MalformedClaimStatus(e))
      case Ok(cs) =>
        assert body[..CLAIM_STATUS_LEN] == data[DISCRIMINATOR_LEN..DISCRIMINATOR_LEN + CLAIM_STATUS_LEN];
        if cs.allocation == cs.sentAllocation then Ok(FullyClaimed(cs)) else Ok(PartiallyClaimed(cs))
  }

  /** On raw account bytes: the claim is settled exactly when the eight
      allocation bytes (offset 40) equal the eight sent_allocation bytes
      (offset 48). */
  lemma FullyClaimedBytes(data: seq<byte>)
    requires |data| >= DISCRIMINATOR_LEN + CLAIM_STATUS_LEN
    ensures CheckClaimStatus(Some(data)).Ok?
    ensures CheckClaimStatus(Some(data)).value.FullyClaimed? <==> data[40..48] == data[48..56]
  {
    var cs := CheckClaimStatus(Some(data)).value.record;
    var s := Serialize(cs);
    assert s == data[8..64];
    assert s[ALLOCATION_AT..SENT_ALLOCATION_AT] == data[40..48];
    assert s[SENT_ALLOCATION_AT..CLAIMED_TS_AT] == data[48..56];
    LeBytesOfValue(data[40..48]);
    LeBytesOfValue(data[48..56]);
  }

  /** Python's `int()` of the exact quotient x / d: rounds toward zero, so
      the result has the sign of x (`TruncDivOdd` gives the symmetry). */
  function TruncDiv(x: int, d: int): (r: int)
    requires d > 0
    ensures x >= 0 ==> r >= 0
    ensures x <= 0 ==> r <= 0
  {
    if x >= 0 then x / d else -((-x) / d)
  }

  lemma MulNonneg(a: int, b: int)
    requires a >= 0 && b >= 0
    ensures a * b >= 0
  {
  }

  /** The truncated quotient of a part of `a * d` by `d` lies between 0 and `a`. */
  lemma TruncDivBounds(x: int, d: int, a: int)
    requires d > 0 && 0 <= x <= a * d
    ensures 0 <= TruncDiv(x, d) <= a
  {
    var q := x / d;
    assert x == q * d + x % d;
    if q < 0 {
      MulNonneg(-q - 1, d);
    } else if q > a {
      MulNonneg(q - a - 1, d);
    }
  }

  /** Rounding toward zero is symmetric about zero, unlike Euclidean or
      floor division: `int(-q) == -int(q)`. */
  lemma TruncDivOdd(x: int, d: int)
    requires d > 0
    ensures TruncDiv(-x, d) == -TruncDiv(x, d)
  {
  }

  /** A share `num/den` between 0 and 1 of a non-negative allocation,
      truncated, is between none and all of it. */
  lemma ShareBounds(allocation: int, num: int, den: int)
    requires den > 0
    ensures 0 <= allocation && 0 <= num <= den ==> 0 <= TruncDiv(allocation * num, den) <= allocation
  {
    if 0 <= allocation && 0 <= num <= den {
      MulNonneg(allocation, num);
      MulNonneg(allocation, den - num);
      assert allocation * den - allocation * num == allocation * (den - num);
      TruncDivBounds(allocation * num, den, allocation);
    }
  }

  /** `int(allocation * TIP_AMOUNT)`: with a share between 0 and 1 the tip
      is a whole number of tokens between none and all of them. */
  function TipAmount(allocation: int, rate: TipRate): (r: int)
    ensures allocation >= 0 && 0 <= rate.num <= rate.den ==> 0 <= r <= allocation
  {
    ShareBounds(allocation, rate.num, rate.den);
    TruncDiv(allocation * rate.num, rate.den)
  }

  /** `int(allocation - allocation * TIP_AMOUNT)`: with a share between 0
      and 1 the net amount is likewise between none and all of the tokens. */
  function WithdrawAmount(allocation: int, rate: TipRate): (r: int)
    ensures allocation >= 0 && 0 <= rate.num <= rate.den ==> 0 <= r <= allocation
  {
    ShareBounds(allocation, rate.den - rate.num, rate.den);
    TruncDiv(allocation * (rate.den - rate.num), rate.den)
  }

  /** Euclidean division has one quotient for each remainder in [0, d). */
  lemma DivUnique(x: int, d: int, q: int, r: int)
    requires d > 0 && 0 <= r < d && x == q * d + r
    ensures x / d == q
  {
    var q' := x / d;
    var r' := x % d;
    assert x == q' * d + r';
    assert (q' - q) * d == r - r';
    if q' > q {
      MulNonneg(q' - q - 1, d);
    } else if q' < q {
      MulNonneg(q - q' - 1, d);
    }
  }

  /** With a tip share between 0 and 1 the two transfers never exceed the
      allocation, and they add up to it exactly when the tip is a whole
      number of tokens; otherwise one token is lost to truncation. */
  lemma SplitConserves(allocation: nat, rate: TipRate)
    requires 0 <= rate.num <= rate.den
    ensures 0 <= TipAmount(allocation, rate) <= allocation
    ensures 0 <= WithdrawAmount(allocation, rate) <= allocation
    ensures WithdrawAmount(allocation, rate) + TipAmount(allocation, rate) <= allocation
    ensures WithdrawAmount(allocation, rate) + TipAmount(allocation, rate) >= allocation - 1
    ensures WithdrawAmount(allocation, rate) + TipAmount(allocation, rate) == allocation
        <==> (allocation * rate.num) % rate.den == 0
  {
    var d := rate.den;
    var x := allocation * rate.num;
    var y := allocation * (d - rate.num);
    MulNonneg(allocation, rate.num);
    MulNonneg(allocation, d - rate.num);
    var q := x / d;
    var rem := x % d;
    assert x == q * d + rem;
    assert y == allocation * d - x;
    assert q >= 0 by {
      if q < 0 {
        MulNonneg(-q, d);
      }
    }
    assert q <= allocation by {
      if q > allocation {
        MulNonneg(q - allocation - 1, d);
        MulNonneg(allocation, d - rate.num);
      }
    }
    assert y == (allocation - q) * d - rem;
    if rem == 0 {
      DivUnique(y, d, allocation - q, 0);
    } else {
      DivUnique(y, d, allocation - q - 1, d - rem);
    }
  }

  /** A 5% tip on 1,000,000 tokens: 50,000 to the tip address, 950,000 to the destination. */
  lemma FivePercentTip()
    ensures TipAmount(1_000_000, Ratio(5, 100)) == 50_000
    ensures WithdrawAmount(1_000_000, Ratio(5, 100)) == 950_000
  {
  }

  /** The instruction list of the claim transaction, given whether the
      destination and tip token accounts already exist. */
  function AssembleInstructions(
    o: Oracles, cfg: Config, claimant: Pubkey, distributor: Pubkey, claimStatus: Pubkey,
    allocation: int, proof: seq<seq<byte>>, destAtaExists: bool, tipAtaExists: bool)
    : (r: Result<seq<Instruction>, ClaimError>)
    ensures r.Ok? <==>
      && GetData(o.sha256, allocation, proof).Ok?
      && 0 <= WithdrawAmount(allocation, cfg.tipRate) < U64_LIMIT
      && 0 <= TipAmount(allocation, cfg.tipRate) < U64_LIMIT
    ensures r.Ok? ==> |r.value| == 4 + (if destAtaExists then 0 else 1) + (if tipAtaExists then 0 else 1)
    ensures r.Ok? ==> r.value[0] == CreateAssociatedTokenAccount(claimant, claimant, GRASS_PUBKEY)
    ensures r.Ok? ==> r.value[1] == GetClaimIx(o.sha256, distributor, claimStatus,
      GetTokenPda(o.findProgramAddress, distributor, GRASS_PUBKEY),
      GetTokenPda(o.findProgramAddress, claimant, GRASS_PUBKEY), claimant, allocation, proof).value
    ensures r.Ok? && !destAtaExists ==>
      r.value[2] == CreateAssociatedTokenAccount(claimant, cfg.destination, GRASS_PUBKEY)
    ensures r.Ok? && !tipAtaExists ==>
      r.value[|r.value| - 3] == CreateAssociatedTokenAccount(claimant, TIP_ADDRESS, GRASS_PUBKEY)
    ensures r.Ok? ==> forall i :: 2 <= i < |r.value| - 2 ==>
      r.value[i].CreateAssociatedTokenAccount? && r.value[i].payer == claimant
    ensures r.Ok? ==> r.value[|r.value| - 2] == Transfer(
      GetTokenPda(o.findProgramAddress, claimant, GRASS_PUBKEY),
      GetTokenPda(o.findProgramAddress, cfg.destination, GRASS_PUBKEY),
      claimant, WithdrawAmount(allocation, cfg.tipRate))
    ensures r.Ok? ==> r.value[|r.value| - 1] == Transfer(
      GetTokenPda(o.findProgramAddress, claimant, GRASS_PUBKEY),
      GetTokenPda(o.findProgramAddress, TIP_ADDRESS, GRASS_PUBKEY),
      claimant, TipAmount(allocation, cfg.tipRate))
  {
    var find := o.findProgramAddress;
    var vault := GetTokenPda(find, distributor, GRASS_PUBKEY);
    var tokenAta := GetTokenPda(find, claimant, GRASS_PUBKEY);
    var createOwn := CreateAssociatedTokenAccount(claimant, claimant, GRASS_PUBKEY);
    match GetClaimIx(o.sha256, distributor, claimStatus, vault, tokenAta, claimant, allocation, proof)
    case Err(e) => Err(Encoding(e))
    case Ok(claimIx) =>
      var destAta := GetTokenPda(find, cfg.destination, GRASS_PUBKEY);
      var createDest := if destAtaExists then []
        else [CreateAssociatedTokenAccount(claimant, cfg.destination, GRASS_PUBKEY)];
      var tipAta := GetTokenPda(find, TIP_ADDRESS, GRASS_PUBKEY);
      var createTip := if tipAtaExists then []
        else [CreateAssociatedTokenAccount(claimant, TIP_ADDRESS, GRASS_PUBKEY)];
      match TransferIx(tokenAta, destAta, claimant, WithdrawAmount(allocation, cfg.tipRate))
      case Err(e) => Err(BadTransfer(e))
      case Ok(transfer) =>
        match TransferIx(tokenAta, tipAta, claimant, TipAmount(allocation, cfg.tipRate))
        case Err(e) => Err(BadTransfer(e))
        case Ok(tipTransfer) =>
          Ok([createOwn, claimIx] + createDest + createTip + [transfer, tipTransfer])
  }

  /** What one call decides before anything is signed. */
  datatype Plan = AlreadyClaimed | Submit(instructions: seq<Instruction>)

  /** The part of `claimer` from deriving the distributor to the last
      instruction appended. */
  function PlanClaim(
    o: Oracles, cfg: Config, claimant: Pubkey, version: int, allocation: int,
    proof: seq<seq<byte>>, ledger: Ledger): (r: Result<Plan, ClaimError>)
    ensures !(0 <= version < U32_LIMIT) ==> r == Err(Derivation(VersionOutOfRange(version)))
    ensures r.Ok? ==> 0 <= version < U32_LIMIT
    ensures r.Ok? && r.value.Submit? ==> 4 <= |r.value.instructions| <= 6
  {
    match GetDistributorPda(o.findProgramAddress, version)
    case Err(e) => Err(Derivation(e))
    case Ok(distributor) =>
      var claimStatus := GetClaimStatusPda(o.findProgramAddress, claimant, distributor);
      var account := if claimStatus in ledger then Some(ledger[claimStatus]) else None;
      match CheckClaimStatus(account)
      case Err(e) => Err(e)
      case Ok(state) =>
        if state.FullyClaimed? then Ok(AlreadyClaimed)
        else
          var destAtaExists := GetTokenPda(o.findProgramAddress, cfg.destination, GRASS_PUBKEY) in ledger;
          var tipAtaExists := GetTokenPda(o.findProgramAddress, TIP_ADDRESS, GRASS_PUBKEY) in ledger;
          match AssembleInstructions(o, cfg, claimant, distributor, claimStatus, allocation, proof,
                                     destAtaExists, tipAtaExists)
          case Err(e) => Err(e)
          case Ok(ixs) => Ok(Submit(ixs))
  }

  /** The claim-status address `claimer` looks up for a claimant and version. */
  function ClaimStatusAddress(o: Oracles, claimant: Pubkey, version: int): (r: Pubkey)
    requires 0 <= version < U32_LIMIT
    ensures r == o.findProgramAddress(
      ClaimStatusSeeds(claimant, o.findProgramAddress(DistributorSeeds(version).value, CLAIM_PUBKEY)), CLAIM_PUBKEY)
  {
    GetClaimStatusPda(o.findProgramAddress, claimant, GetDistributorPda(o.findProgramAddress, version).value)
  }

  /** The already-claimed short cut is taken exactly when the claim-status
      account exists, is long enough to decode, and its allocation bytes equal
      its sent_allocation bytes; allocation, proof and configuration play no
      part in it. */
  lemma AlreadyClaimedExactly(
    o: Oracles, cfg: Config, claimant: Pubkey, version: int, allocation: int,
    proof: seq<seq<byte>>, ledger: Ledger)
    requires 0 <= version < U32_LIMIT
    ensures var addr := ClaimStatusAddress(o, claimant, version);
      PlanClaim(o, cfg, claimant, version, allocation, proof, ledger) == Ok(AlreadyClaimed)
      <==> addr in ledger && |ledger[addr]| >= DISCRIMINATOR_LEN + CLAIM_STATUS_LEN
           && ledger[addr][40..48] == ledger[addr][48..56]
  {
    var addr := ClaimStatusAddress(o, claimant, version);
    if addr in ledger && |ledger[addr]| >= DISCRIMINATOR_LEN + CLAIM_STATUS_LEN {
      FullyClaimedBytes(ledger[addr]);
    }
  }

  /** A claim-status account too short for its record aborts the attempt. */
  lemma ShortClaimStatusFails(
    o: Oracles, cfg: Config, claimant: Pubkey, version: int, allocation: int,
    proof: seq<seq<byte>>, ledger: Ledger)
    requires 0 <= version < U32_LIMIT
    requires ClaimStatusAddress(o, claimant, version) in ledger
    requires |ledger[ClaimStatusAddress(o, claimant, version)]| < DISCRIMINATOR_LEN + CLAIM_STATUS_LEN
    ensures PlanClaim(o, cfg, claimant, version, allocation, proof, ledger).Err?
    ensures PlanClaim(o, cfg, claimant, version, allocation, proof, ledger).error.MalformedClaimStatus?
  {
  }

  /** The token account an instruction creates, if any. */
  function Creates(find: AddressOracle, ix: Instruction): Option<Pubkey> {
    if ix.CreateAssociatedTokenAccount? then Some(GetTokenPda(find, ix.owner, ix.mint)) else None
  }

  /** The token accounts that must already exist when an instruction runs:
      both ends of a transfer, and the claimant token account the claim pays into. */
  function Needs(ix: Instruction): seq<Pubkey> {
    match ix
    case Transfer(source, dest, _, _) => [source, dest]
    case Invoke(program, accounts, _) =>
      if program == CLAIM_PUBKEY && |accounts| == CLAIM_ACCOUNT_COUNT then [accounts[4].pubkey] else []
    case CreateAssociatedTokenAccount(_, _, _) => []
  }

  /** `addr` exists on chain, or an instruction before position `i` creates it. */
  predicate AvailableAt(find: AddressOracle, ixs: seq<Instruction>, i: nat, addr: Pubkey, ledger: Ledger)
    requires i <= |ixs|
  {
    addr in ledger || exists j :: 0 <= j < i && Creates(find, ixs[j]) == Some(addr)
  }

  /** Every token account an instruction needs is available when it runs. */
  predicate AccountsReady(find: AddressOracle, ixs: seq<Instruction>, ledger: Ledger) {
    forall i, k :: 0 <= i < |ixs| && 0 <= k < |Needs(ixs[i])| ==> AvailableAt(find, ixs, i, Needs(ixs[i])[k], ledger)
  }

  /** The ordering the transaction depends on: the claimant's token account
      is created before the claim pays into it and before the transfers
      spend from it, and the destination and tip accounts either exist or are
      created before the transfers into them. */
  lemma PlanAccountsReady(
    o: Oracles, cfg: Config, claimant: Pubkey, version: int, allocation: int,
    proof: seq<seq<byte>>, ledger: Ledger)
    requires PlanClaim(o, cfg, claimant, version, allocation, proof, ledger).Ok?
    requires PlanClaim(o, cfg, claimant, version, allocation, proof, ledger).value.Submit?
    ensures AccountsReady(o.findProgramAddress, PlanClaim(o, cfg, claimant, version, allocation, proof, ledger).value.instructions, ledger)
  {
    var find := o.findProgramAddress;
    var ixs := PlanClaim(o, cfg, claimant, version, allocation, proof, ledger).value.instructions;
    var distributor := GetDistributorPda(find, version).value;
    var claimStatus := GetClaimStatusPda(find, claimant, distributor);
    var destAtaExists := GetTokenPda(find, cfg.destination, GRASS_PUBKEY) in ledger;
    var tipAtaExists := GetTokenPda(find, TIP_ADDRESS, GRASS_PUBKEY) in ledger;
    assert ixs == AssembleInstructions(o, cfg, claimant, distributor, claimStatus, allocation, proof,
                                       destAtaExists, tipAtaExists).value;
    var n := |ixs|;
    var tokenAta := GetTokenPda(find, claimant, GRASS_PUBKEY);
    assert Creates(find, ixs[0]) == Some(tokenAta);
    forall i, k | 0 <= i < n && 0 <= k < |Needs(ixs[i])|
      ensures AvailableAt(find, ixs, i, Needs(ixs[i])[k], ledger)
    {
      if i == 1 {
        var claimIx := ixs[1];
        assert Keys(claimIx.accounts)[4] == tokenAta;
        assert Needs(claimIx) == [tokenAta];
      } else if i == n - 2 {
        if !destAtaExists {
          assert Creates(find, ixs[2]) == Some(GetTokenPda(find, cfg.destination, GRASS_PUBKEY));
        }
      } else if i == n - 1 {
        if !tipAtaExists {
          assert Creates(find, ixs[n - 3]) == Some(GetTokenPda(find, TIP_ADDRESS, GRASS_PUBKEY));
        }
      }
    }
  }

  /** With a well-formed payload and a tip share between 0 and 1, an
      unsettled claim always yields a transaction: four instructions plus
      one creation for each of the destination and tip token accounts that
      is missing, the claim second. */
  lemma UnsettledClaimBuilds(
    o: Oracles, cfg: Config, claimant: Pubkey, version: int, allocation: int,
    proof: seq<seq<byte>>, ledger: Ledger)
    requires 0 <= version < U32_LIMIT
    requires 0 <= allocation < U64_LIMIT && |proof| < U32_LIMIT && AllHashes(proof)
    requires 0 <= cfg.tipRate.num <= cfg.tipRate.den
    requires var addr := ClaimStatusAddress(o, claimant, version);
      addr !in ledger
      || (|ledger[addr]| >= DISCRIMINATOR_LEN + CLAIM_STATUS_LEN && ledger[addr][40..48] != ledger[addr][48..56])
    ensures var plan := PlanClaim(o, cfg, claimant, version, allocation, proof, ledger);
      && plan.Ok? && plan.value.Submit?
      && |plan.value.instructions| == 4
         + (if GetTokenPda(o.findProgramAddress, cfg.destination, GRASS_PUBKEY) in ledger then 0 else 1)
         + (if GetTokenPda(o.findProgramAddress, TIP_ADDRESS, GRASS_PUBKEY) in ledger then 0 else 1)
      && plan.value.instructions[1].Invoke?
      && plan.value.instructions[1].programId == CLAIM_PUBKEY
  {
    var addr := ClaimStatusAddress(o, claimant, version);
    if addr in ledger {
      FullyClaimedBytes(ledger[addr]);
    }
    SplitConserves(allocation, cfg.tipRate);
    Pow256Limits();
  }

  /** A settled record (allocation = sent_allocation = 42) short-cuts the claim. */
  lemma SettledRecordShortCuts(
    o: Oracles, cfg: Config, claimant: Pubkey, version: int, allocation: int,
    proof: seq<seq<byte>>, ledger: Ledger, discriminator: seq<byte>, record: ClaimStatus)
    requires 0 <= version < U32_LIMIT
    requires |discriminator| == DISCRIMINATOR_LEN
    requires record.allocation == 42 && record.sentAllocation == 42
    requires Representable(record)
    requires ledger == map[ClaimStatusAddress(o, claimant, version) := discriminator + Serialize(record)]
    ensures PlanClaim(o, cfg, claimant, version, allocation, proof, ledger) == Ok(AlreadyClaimed)
  {
    var data := discriminator + Serialize(record);
    assert DropPrefix(data, DISCRIMINATOR_LEN) == Serialize(record) + [];
    DeserializeSerialize(record, []);
  }

  /** `claimer`: its `while i < 10` loop runs its body once, because every
      path through the body returns: `True` for an already-settled claim or a
      sent transaction, `False` from the `except` branch for any failure.
      `delivered` is whether fetching the blockhash, signing and
      `send_transaction` all completed without raising. */
  method RunClaimer(
    o: Oracles, cfg: Config, claimant: Pubkey, version: int, allocation: int,
    proof: seq<seq<byte>>, ledger: Ledger, delivered: bool)
    returns (claimed: bool, attempts: nat)
    ensures attempts == 1
    ensures PlanClaim(o, cfg, claimant, version, allocation, proof, ledger).Err? ==> !claimed
    ensures PlanClaim(o, cfg, claimant, version, allocation, proof, ledger) == Ok(AlreadyClaimed) ==> claimed
    ensures PlanClaim(o, cfg, claimant, version, allocation, proof, ledger).Ok?
         && PlanClaim(o, cfg, claimant, version, allocation, proof, ledger).value.Submit?
         ==> (claimed <==> delivered)
  {
    var i := 0;
    var returned := false;
    claimed := false;
    while i < MAX_ATTEMPTS && !returned
      invariant if returned then i == 1 else i == 0
      invariant returned ==> claimed == match PlanClaim(o, cfg, claimant, version, allocation, proof, ledger)
        case Err(_) => false
        case Ok(AlreadyClaimed) => true
        case Ok(Submit(_)) => delivered
    {
      i := i + 1;
      var plan := PlanClaim(o, cfg, claimant, version, allocation, proof, ledger);
      match plan {
        case Err(_) =>
          claimed := false;
        case Ok(AlreadyClaimed) =>
          claimed := true;
        case Ok(Submit(_)) =>
          claimed := delivered;
      }
      returned := true;
    }
    attempts := i;
  }
}
