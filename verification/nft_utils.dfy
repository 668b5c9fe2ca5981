/** Deposit helpers of the NFT contract (nft-contract/src/utils.rs). */
module NftUtils {
  import opened Near
  import opened NftTypes

  /** `refund_deposit`: the storage a call used costs `storageByteCost` per byte and is
      paid out of the attached deposit; what is left goes back to the caller, unless it is
      at most 1 yoctoNEAR. Panics when the deposit does not cover the cost. */
  function RefundDeposit(storageUsed: nat, storageByteCost: nat, attached: nat, predecessor: AccountId)
    : (r: Result<seq<NftEffect>, NftError>)
    ensures r.Failure? <==> storageByteCost * storageUsed > attached
    ensures r.Failure? ==> r.error == StorageNotCovered
    ensures r.Ok? ==> |r.value| <= 1 && (r.value == [] <==> attached - storageByteCost * storageUsed <= 1)
    ensures r.Ok? ==> forall e | e in r.value ::
      e.Transfer? && e.receiver == predecessor && e.amount + storageByteCost * storageUsed == attached
  {
    var required := storageByteCost * storageUsed;
    if required > attached then Failure(StorageNotCovered)
    else
      var refund := attached - required;
      if refund > 1 then Ok([Transfer(predecessor, refund)]) else Ok([])
  }

  /** `assert_one_yocto`. */
  function AssertOneYocto(attached: nat): (r: Result<(), NftError>)
    ensures r.Ok? <==> attached == 1
    ensures r.Failure? ==> r.error == RequiresOneYocto
  {
    if attached == ONE_YOCTO then Ok(()) else Failure(RequiresOneYocto)
  }
}
