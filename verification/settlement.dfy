/** A NEAR purchase end to end: the market's `offer`, the NFT contract's
    `nft_transfer_payout` called by the market, and the market's `resolve_purchase` on
    its reply, each step on its own contract's state. The NFT contract's transfer
    accepts only the token's owner as sender, so while the market does not own the
    token the payout call fails and the buyer is refunded, with the sale gone. */
module Settlement {
  import opened Near
  import MT = MarketTypes
  import MS = MarketSale
  import NT = NftTypes
  import NI = NftInternal
  import NR = NftRoyalty

  /** Both contracts after a purchase and what each sent. */
  datatype Settled = Settled(market: MT.Market, nft: NT.Contract, nftEffects: seq<NT.NftEffect>,
                             marketEffects: seq<MT.MarketEffect>)

  /** `offer` by `buyerId` with `attached` yoctoNEAR, then the payout call it dispatches,
      made by the market account `marketId` on the NFT contract whose state is `nft`,
      then `resolve_purchase` on its reply. */
  method Purchase(market: MT.Market, nft: NT.Contract, marketId: AccountId, buyerId: AccountId, attached: nat,
                  nftContractId: AccountId, tokenId: MT.TokenId)
    returns (r: Result<Settled, MT.MarketError>)
    ensures r.Failure? <==> MS.Offer(market, buyerId, attached, nftContractId, tokenId).Failure?
    ensures r.Failure? ==> r.error == MS.Offer(market, buyerId, attached, nftContractId, tokenId).error
    ensures r.Ok? ==>
      && r.value.market == MS.Offer(market, buyerId, attached, nftContractId, tokenId).value.state
      && MT.SaleKey(nftContractId, tokenId) !in r.value.market.sales.entries
      && MS.Paid(r.value.marketEffects) <= attached
    ensures r.Ok? && (tokenId !in nft.tokensById || nft.tokensById[tokenId].ownerId != marketId) ==>
      && r.value.nft == nft
      && r.value.nftEffects == []
      && r.value.marketEffects == [MT.Transfer(buyerId, attached)]
    ensures r.Ok? && r.value.nft != nft ==>
      && tokenId in nft.tokensById && nft.tokensById[tokenId].ownerId == marketId
      && tokenId in r.value.nft.tokensById && r.value.nft.tokensById[tokenId].ownerId == buyerId
  {
    var offer := MS.Offer(market, buyerId, attached, nftContractId, tokenId);
    if offer.Failure? {
      return Failure(offer.error);
    }
    var call := offer.value.effects[0];
    var paid := NR.NftTransferPayout(nft, marketId, ONE_YOCTO, call.receiver, call.tokenId, call.approvalId, call.memo,
                                     call.balance, call.maxLenPayout);
    var reply: PromiseResult<map<AccountId, nat>>;
    var nft' := nft;
    var nftEffects: seq<NT.NftEffect> := [];
    if paid.Failure? {
      reply := Failed;
    } else {
      reply := Successful(Some(paid.value.ret));
      nft' := paid.value.state;
      nftEffects := paid.value.effects;
    }
    var resolved := MS.ResolvePurchase(offer.value.state, buyerId, attached, reply);
    assert resolved.Ok?;
    return Ok(Settled(resolved.value.state, nft', nftEffects, resolved.value.effects));
  }
}
