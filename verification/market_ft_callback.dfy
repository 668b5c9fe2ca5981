/** Purchases paid in a NEP-141 fungible token (market-contract/src/ft_callback.rs): the
    token contract calls `ft_on_transfer` on the market after moving the buyer's tokens;
    the market removes the sale, asks the NFT contract for a payout of the listed
    amount, and pays it out, or refunds it, with `ft_transfer` on the listed token. */
module MarketFtCallback {
  import opened Near
  import opened Collections
  import opened MarketTypes
  import opened MarketInternal
  import opened MarketSale

  /** The message of `ft_on_transfer`: which sale the tokens buy. */
  datatype FtSaleArgs = FtSaleArgs(nftContractId: AccountId, tokenId: TokenId)

  /** `ft_process_purchase`: remove the sale and call `nft_transfer_payout` for the buyer
      with the listed amount as the balance to split, then `ft_resolve_purchase`. */
  function FtProcessPurchase(m: Market, nftContractId: AccountId, tokenId: TokenId, price: SalePrice, buyerId: AccountId)
    : (r: MarketResult<()>)
    ensures r.Failure? <==> InternalRemoveSale(m, nftContractId, tokenId).Failure?
    ensures r.Ok? ==>
      var removed := InternalRemoveSale(m, nftContractId, tokenId).value;
      && r.value.state == removed.state
      && SaleKey(nftContractId, tokenId) !in r.value.state.sales.entries
      && r.value.effects == [NftTransferPayout(nftContractId, buyerId, tokenId, removed.ret.approvalId, PAYOUT_MEMO,
                                               price.amount, MAX_LEN_PAYOUT, PurchaseCallback.FtResolvePurchase(buyerId, price))]
  {
    match InternalRemoveSale(m, nftContractId, tokenId)
    case Failure(e) => Failure(e)
    case Ok(removed) =>
      Ok(Step(removed.state, [NftTransferPayout(nftContractId, buyerId, tokenId, removed.ret.approvalId, PAYOUT_MEMO,
                                                price.amount, MAX_LEN_PAYOUT, PurchaseCallback.FtResolvePurchase(buyerId, price))], ()))
  }

  /** `ft_on_transfer`, called by the token contract `predecessor` after `senderId` sent
      it `amount`: buys the sale `msg` names when the amount covers the listed amount,
      the sender is not the seller and the tokens are the ones the sale is priced in.
      Whether the sale is priced in NEAR is not checked. Only the listed amount, not
      the amount sent, is split or refunded later. */
  function FtOnTransfer(m: Market, predecessor: AccountId, senderId: AccountId, amount: nat, msg: Option<FtSaleArgs>)
    : (r: MarketResult<()>)
    ensures msg.None? ==> r == Failure(InvalidSaleArgs)
    ensures msg.Some? && SaleKey(msg.value.nftContractId, msg.value.tokenId) !in m.sales.entries ==> r == Failure(SaleNotFound)
    ensures r.Failure? <==>
      || msg.None?
      || SaleKey(msg.value.nftContractId, msg.value.tokenId) !in m.sales.entries
      || amount < m.sales.entries[SaleKey(msg.value.nftContractId, msg.value.tokenId)].saleConditions.amount
      || senderId == m.sales.entries[SaleKey(msg.value.nftContractId, msg.value.tokenId)].ownerId
      || predecessor != m.sales.entries[SaleKey(msg.value.nftContractId, msg.value.tokenId)].saleConditions.contractId
      || InternalRemoveSale(m, msg.value.nftContractId, msg.value.tokenId).Failure?
    ensures r.Ok? ==> r.value.state == InternalRemoveSale(m, msg.value.nftContractId, msg.value.tokenId).value.state
    ensures r.Ok? ==>
      var key := SaleKey(msg.value.nftContractId, msg.value.tokenId);
      var sale := m.sales.entries[key];
      && amount >= sale.saleConditions.amount
      && r.value.state.sales.entries == m.sales.entries - {key}
      && r.value.effects == [NftTransferPayout(msg.value.nftContractId, senderId, msg.value.tokenId, sale.approvalId,
                                               PAYOUT_MEMO, sale.saleConditions.amount, MAX_LEN_PAYOUT,
                                               PurchaseCallback.FtResolvePurchase(senderId, sale.saleConditions))]
  {
    match msg
    case None => Failure(InvalidSaleArgs)
    case Some(args) =>
      var key := SaleKey(args.nftContractId, args.tokenId);
      if key !in m.sales.entries then Failure(SaleNotFound)
      else
        var sale := m.sales.entries[key];
        var price := sale.saleConditions;
        if amount < price.amount then Failure(DepositBelowPrice)
        else if senderId == sale.ownerId then Failure(BuyerIsSeller)
        else if predecessor != price.contractId then Failure(WrongFtContract)
        else FtProcessPurchase(m, args.nftContractId, args.tokenId, price, senderId)
  }

  /** A sale priced in NEAR can be bought with any token contract named as its
      `contractId`, at its `amount` counted in that token's units. */
  lemma NativeSaleBuyableWithTokens(m: Market, ftContract: AccountId, senderId: AccountId, args: FtSaleArgs)
    requires Consistent(m)
    requires SaleKey(args.nftContractId, args.tokenId) in m.sales.entries
    requires var sale := m.sales.entries[SaleKey(args.nftContractId, args.tokenId)];
      && sale.nftContractId == args.nftContractId && sale.tokenId == args.tokenId
      && sale.saleConditions.isNative && sale.saleConditions.contractId == ftContract && sale.ownerId != senderId
    ensures var sale := m.sales.entries[SaleKey(args.nftContractId, args.tokenId)];
      FtOnTransfer(m, ftContract, senderId, sale.saleConditions.amount, Some(args)).Ok?
  {
    var key := SaleKey(args.nftContractId, args.tokenId);
    assert m.sales.entries[key].ownerId in m.byOwnerId;
    assert args.nftContractId in m.byContractId;
  }

  /** `ft_resolve_purchase`: after `nft_transfer_payout`, pay each account of an
      acceptable payout with `ft_transfer` on the sale's token, or refund the listed
      amount to the buyer the same way. Under the same acceptance rule as a NEAR
      purchase; it always reports 0 tokens unused, so whatever the buyer sent beyond the
      listed amount stays with the market. */
  method FtResolvePurchase(m: Market, buyerId: AccountId, price: SalePrice, result: PromiseResult<map<AccountId, nat>>)
    returns (r: MarketResult<nat>)
    ensures r.Failure? <==> result == Successful(None)
    ensures r.Failure? ==> r.error == InvalidPayout
    ensures r.Ok? ==> r.value.state == m && r.value.ret == 0
    ensures r.Ok? ==>
      && Paid(r.value.effects) <= price.amount
      && forall e | e in r.value.effects && !e.Log? :: e.FtTransfer? && e.ftContractId == price.contractId
    ensures r.Ok? ==>
      var accepted := result.Successful? && result.parsed.Some? && PayoutAcceptable(result.parsed.value, price.amount);
      && (!accepted ==> r.value.effects == RoyaltyLog(result) + [FtTransfer(price.contractId, buyerId, price.amount)])
      && (accepted ==>
            var payout := result.parsed.value;
            && |r.value.effects| == |payout|
            && (forall i | 0 <= i < |r.value.effects| ::
                  && IsPayment(r.value.effects[i]) && r.value.effects[i].receiver in payout
                  && r.value.effects[i].amount == payout[r.value.effects[i].receiver])
            && (forall i, j | 0 <= i < j < |r.value.effects| :: r.value.effects[i].receiver != r.value.effects[j].receiver)
            && Receivers(r.value.effects) == payout.Keys
            && price.amount - Paid(r.value.effects) <= 1)
  {
    var settled := Settle(buyerId, price.amount, FungibleToken(price.contractId), result);
    if settled.Failure? {
      return Failure(settled.error);
    }
    return Ok(Step(m, settled.value, 0));
  }
}
