/** Instructions as the transaction carries them. A program call is the
    `solders` triple (program id, account metas, data); the two SPL helpers the
    claimer uses, associated-token-account creation and token transfer, are
    kept symbolic because their byte encodings belong to the SPL libraries. */
module Instructions {
  import opened Bytes
  import opened Results
  import opened Accounts

  datatype AccountMeta = AccountMeta(pubkey: Pubkey, isSigner: bool, isWritable: bool)

  datatype Instruction =
    | Invoke(programId: Pubkey, accounts: seq<AccountMeta>, data: seq<byte>)
      /** `create_associated_token_account(payer, owner, mint)`. */
    | CreateAssociatedTokenAccount(payer: Pubkey, owner: Pubkey, mint: Pubkey)
      /** `transfer(TransferParams(...))` under the SPL token program. */
    | Transfer(source: Pubkey, dest: Pubkey, owner: Pubkey, amount: nat)

  /** The addresses of a list of account metas, in order. */
  function Keys(metas: seq<AccountMeta>): (r: seq<Pubkey>)
    ensures |r| == |metas|
    ensures forall i :: 0 <= i < |metas| ==> r[i] == metas[i].pubkey
  {
    seq(|metas|, i requires 0 <= i < |metas| => metas[i].pubkey)
  }

  datatype TransferError = AmountOutOfRange(amount: int)

  /** An SPL transfer; its amount is packed as a U64, so building it raises
      for a negative amount or one of 2^64 or more. */
  function TransferIx(source: Pubkey, dest: Pubkey, owner: Pubkey, amount: int): (r: Result<Instruction, TransferError>)
    ensures r.Ok? <==> 0 <= amount < U64_LIMIT
    ensures r.Ok? ==> r.value == Transfer(source, dest, owner, amount)
    ensures r.Err? ==> r.error == AmountOutOfRange(amount)
  {
    if 0 <= amount < U64_LIMIT then Ok(Transfer(source, dest, owner, amount))
    else Err(AmountOutOfRange(amount))
  }
}
