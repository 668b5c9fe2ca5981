/** Sales in NEAR (market-contract/src/sale.rs): cancelling and repricing a listing, the
    offer that removes the sale and asks the NFT contract for `nft_transfer_payout`, and
    the callback that pays the payout out or refunds the buyer. The payout check and
    the distribution are shared with the fungible-token purchase. */
module MarketSale {
  import opened Near
  import opened Collections
  import opened MarketTypes
  import opened MarketInternal
  import opened MarketNftCallback

  /** The memo a purchase passes to `nft_transfer_payout`. */
  const PAYOUT_MEMO: string := "Payout from market contract"

  /** The most accounts a payout may pay, asked of the NFT contract and checked on return. */
  const MAX_LEN_PAYOUT: nat := 10

  /** `remove_sale`: with exactly 1 yoctoNEAR, the seller withdraws a listing. The sale
      is removed first and the seller checked afterwards; a caller other than the seller
      panics, which undoes the removal. */
  function RemoveSale(m: Market, predecessor: AccountId, attached: nat, nftContractId: AccountId, tokenId: TokenId)
    : (r: MarketResult<()>)
    ensures attached != 1 ==> r == Failure(RequiresOneYocto)
    ensures r.Ok? <==>
      && attached == 1
      && InternalRemoveSale(m, nftContractId, tokenId).Ok?
      && InternalRemoveSale(m, nftContractId, tokenId).value.ret.ownerId == predecessor
    ensures (SaleKey(nftContractId, tokenId) in m.sales.entries
             && m.sales.entries[SaleKey(nftContractId, tokenId)].ownerId != predecessor) ==> r.Failure?
    ensures r.Ok? ==>
      && r.value.effects == []
      && r.value.state == InternalRemoveSale(m, nftContractId, tokenId).value.state
      && r.value.state.sales.entries == m.sales.entries - {SaleKey(nftContractId, tokenId)}
    ensures r.Ok? && StorageCovers(m) ==> StorageCovers(r.value.state)
  {
    if attached != ONE_YOCTO then Failure(RequiresOneYocto)
    else
      match InternalRemoveSale(m, nftContractId, tokenId)
      case Failure(e) => Failure(e)
      case Ok(removed) =>
        if predecessor != removed.ret.ownerId then Failure(NotSaleOwner)
        else Ok(Step(removed.state, [], ()))
  }

  /** `update_price`: with exactly 1 yoctoNEAR, the seller replaces the price of a
      listing; nothing else changes. */
  function UpdatePrice(m: Market, predecessor: AccountId, attached: nat, nftContractId: AccountId, tokenId: TokenId,
                       price: SalePrice)
    : (r: MarketResult<()>)
    ensures attached != 1 ==> r == Failure(RequiresOneYocto)
    ensures r.Failure? <==>
      || attached != 1
      || SaleKey(nftContractId, tokenId) !in m.sales.entries
      || m.sales.entries[SaleKey(nftContractId, tokenId)].ownerId != predecessor
    ensures r.Ok? ==>
      var key := SaleKey(nftContractId, tokenId);
      && key in m.sales.entries
      && r.value.state.sales.entries == m.sales.entries[key := m.sales.entries[key].(saleConditions := price)]
      && (m.sales.Valid() ==> r.value.state.sales.keys == m.sales.keys)
      && r.value.state.byOwnerId == m.byOwnerId && r.value.state.byContractId == m.byContractId
      && r.value.state.storageDeposit == m.storageDeposit
      && r.value.effects == []
    ensures r.Ok? && Consistent(m) ==> Consistent(r.value.state)
    ensures r.Ok? && StorageCovers(m) ==> StorageCovers(r.value.state)
  {
    var key := SaleKey(nftContractId, tokenId);
    if attached != ONE_YOCTO then Failure(RequiresOneYocto)
    else if key !in m.sales.entries then Failure(SaleNotFound)
    else
      var sale := m.sales.entries[key];
      if predecessor != sale.ownerId then Failure(NotSaleOwner)
      else
        var m' := m.(sales := m.sales.Insert(key, sale.(saleConditions := price)));
        RepriceKeepsConsistent(m, key, price);
        Ok(Step(m', [], ()))
  }

  /** Changing a sale's price touches neither its seller, its contract nor its token, so
      the indices still agree with the sale map. */
  lemma RepriceKeepsConsistent(m: Market, key: string, price: SalePrice)
    requires key in m.sales.entries
    ensures var sale := m.sales.entries[key];
      Consistent(m) ==> Consistent(m.(sales := m.sales.Insert(key, sale.(saleConditions := price))))
  {
    var sale := m.sales.entries[key];
    var sales' := m.sales.entries[key := sale.(saleConditions := price)];
    if Consistent(m) {
      assert forall k | k in sales' ::
        (sales'[k].ownerId == m.sales.entries[k].ownerId
         && sales'[k].nftContractId == m.sales.entries[k].nftContractId && sales'[k].tokenId == m.sales.entries[k].tokenId);
    }
  }

  /** `process_purchase`: remove the sale, then call `nft_transfer_payout` on the NFT
      contract for the buyer with `price` as the balance to split, and schedule
      `resolve_purchase` with the same price. */
  function ProcessPurchase(m: Market, nftContractId: AccountId, tokenId: TokenId, price: nat, buyerId: AccountId)
    : (r: MarketResult<()>)
    ensures r.Failure? <==> InternalRemoveSale(m, nftContractId, tokenId).Failure?
    ensures r.Ok? ==>
      var removed := InternalRemoveSale(m, nftContractId, tokenId).value;
      && r.value.state == removed.state
      && SaleKey(nftContractId, tokenId) !in r.value.state.sales.entries
      && r.value.effects == [NftTransferPayout(nftContractId, buyerId, tokenId, removed.ret.approvalId, PAYOUT_MEMO,
                                               price, MAX_LEN_PAYOUT, PurchaseCallback.ResolvePurchase(buyerId, price))]
  {
    match InternalRemoveSale(m, nftContractId, tokenId)
    case Failure(e) => Failure(e)
    case Ok(removed) =>
      Ok(Step(removed.state, [NftTransferPayout(nftContractId, buyerId, tokenId, removed.ret.approvalId, PAYOUT_MEMO,
                                                price, MAX_LEN_PAYOUT, PurchaseCallback.ResolvePurchase(buyerId, price))], ()))
  }

  /** `offer`: a buyer other than the seller attaches at least the asking price of a sale
      priced in NEAR. The whole deposit, not the asking price, is what the NFT contract
      is asked to split and what the callback later pays out or refunds. */
  function Offer(m: Market, predecessor: AccountId, attached: nat, nftContractId: AccountId, tokenId: TokenId)
    : (r: MarketResult<()>)
    ensures attached == 0 ==> r == Failure(RequiresDeposit)
    ensures attached > 0 && SaleKey(nftContractId, tokenId) !in m.sales.entries ==> r == Failure(SaleNotFound)
    ensures r.Ok? ==>
      var key := SaleKey(nftContractId, tokenId);
      && key in m.sales.entries
      && var sale := m.sales.entries[key];
      && attached > 0
      && predecessor != sale.ownerId
      && attached >= sale.saleConditions.amount
      && sale.saleConditions.isNative
      && r.value.state.sales.entries == m.sales.entries - {key}
      && r.value.effects == [NftTransferPayout(nftContractId, predecessor, tokenId, sale.approvalId, PAYOUT_MEMO,
                                               attached, MAX_LEN_PAYOUT, PurchaseCallback.ResolvePurchase(predecessor, attached))]
    ensures r.Failure? <==>
      || attached == 0
      || SaleKey(nftContractId, tokenId) !in m.sales.entries
      || predecessor == m.sales.entries[SaleKey(nftContractId, tokenId)].ownerId
      || attached < m.sales.entries[SaleKey(nftContractId, tokenId)].saleConditions.amount
      || !m.sales.entries[SaleKey(nftContractId, tokenId)].saleConditions.isNative
      || InternalRemoveSale(m, nftContractId, tokenId).Failure?
    ensures r.Ok? ==> r.value.state == InternalRemoveSale(m, nftContractId, tokenId).value.state
  {
    var key := SaleKey(nftContractId, tokenId);
    if attached == 0 then Failure(RequiresDeposit)
    else if key !in m.sales.entries then Failure(SaleNotFound)
    else
      var sale := m.sales.entries[key];
      if predecessor == sale.ownerId then Failure(BuyerIsSeller)
      else if attached < sale.saleConditions.amount then Failure(DepositBelowPrice)
      else if !sale.saleConditions.isNative then Failure(NotNativePrice)
      else ProcessPurchase(m, nftContractId, tokenId, attached, predecessor)
  }

  // ---------------------------------------------------------------------------
  // Paying out or refunding

  /** The payout a purchase accepts: 1 to 10 accounts, together paid at most the price
      and at most 1 yoctoNEAR (or token unit) less. */
  ghost predicate PayoutAcceptable(payout: map<AccountId, nat>, price: nat) {
    && 1 <= |payout| <= MAX_LEN_PAYOUT
    && Sum(payout) <= price
    && price - Sum(payout) <= 1
  }

  /** The `checked_sub` loop: subtract the payout's amounts from the price in the map's
      iteration order, giving `None` at the first amount that does not fit. Whatever
      the order, it fails exactly when the amounts add up to more than the price. */
  method CheckedRemainder(payout: map<AccountId, nat>, price: nat) returns (remainder: Option<nat>)
    ensures remainder.Some? <==> Sum(payout) <= price
    ensures remainder.Some? ==> remainder.value + Sum(payout) == price
  {
    var left := payout.Keys;
    var rest: nat := price;
    while left != {}
      invariant left <= payout.Keys
      invariant rest + SumOver(payout, payout.Keys - left) == price
      decreases left
    {
      var k :| k in left;
      ghost var done := payout.Keys - left;
      SumOverRemove(payout, done + {k}, k);
      assert done + {k} - {k} == done;
      if rest < payout[k] {
        SumOverSubset(payout, done + {k}, payout.Keys);
        return None;
      }
      rest := rest - payout[k];
      left := left - {k};
      assert payout.Keys - left == done + {k};
    }
    assert payout.Keys - left == payout.Keys;
    return Some(rest);
  }

  /** The closure of `resolve_purchase`: a failed call gives `None`; a successful one
      whose result does not parse panics; a parsed payout is taken when it is
      acceptable and otherwise gives `None`. */
  method AcceptedPayout(result: PromiseResult<map<AccountId, nat>>, price: nat)
    returns (r: Result<Option<map<AccountId, nat>>, MarketError>, logs: seq<MarketEffect>)
    ensures r.Failure? <==> result == Successful(None)
    ensures r.Failure? ==> r.error == InvalidPayout
    ensures r.Ok? ==>
      (r.value.Some? <==> result.Successful? && result.parsed.Some? && PayoutAcceptable(result.parsed.value, price))
    ensures r.Ok? && r.value.Some? ==> result.Successful? && r.value == result.parsed
    ensures logs == RoyaltyLog(result)
  {
    logs := [];
    match result
    case Failed => return Ok(None), logs;
    case Successful(parsed) =>
      if parsed.None? {
        return Failure(InvalidPayout), logs;
      }
      var payout := parsed.value;
      if |payout| > MAX_LEN_PAYOUT || |payout| == 0 {
        return Ok(None), [Log(TOO_MANY_ROYALTIES)];
      }
      var remainder := CheckedRemainder(payout, price);
      if remainder.None? {
        return Ok(None), logs;
      }
      if remainder.value == 0 || remainder.value == 1 {
        return Ok(Some(payout)), logs;
      }
      return Ok(None), logs;
  }

  /** The message `resolve_purchase` logs for a payout of the wrong length. */
  const TOO_MANY_ROYALTIES: string := "Cannot have more than 10 royalities"

  /** What `resolve_purchase` logs: the message above when the reply parses to a payout
      with no entries or more than `MAX_LEN_PAYOUT`, nothing otherwise. */
  function RoyaltyLog(result: PromiseResult<map<AccountId, nat>>): (logs: seq<MarketEffect>)
    ensures logs == [] || logs == [Log(TOO_MANY_ROYALTIES)]
    ensures logs != [] <==>
      result.Successful? && result.parsed.Some? && !(1 <= |result.parsed.value| <= MAX_LEN_PAYOUT)
  {
    match result
    case Successful(Some(payout)) =>
      if |payout| > MAX_LEN_PAYOUT || |payout| == 0 then [Log(TOO_MANY_ROYALTIES)] else []
    case _ => []
  }

  /** The amount a payment effect moves (0 for any other effect). */
  function Amount(e: MarketEffect): nat {
    if IsPayment(e) then e.amount else 0
  }

  /** The total the effects pay. */
  function Paid(effects: seq<MarketEffect>): nat {
    if effects == [] then 0 else Paid(effects[..|effects| - 1]) + Amount(effects[|effects| - 1])
  }

  /** One payment per account of `order`, in that order. */
  function Payments(order: seq<AccountId>, payout: map<AccountId, nat>, currency: Currency): (r: seq<MarketEffect>)
    requires forall a | a in order :: a in payout
    ensures |r| == |order|
    ensures forall i | 0 <= i < |r| :: r[i] == Pay(currency, order[i], payout[order[i]])
    ensures forall e | e in r :: InCurrency(e, currency)
  {
    if order == [] then []
    else Payments(order[..|order| - 1], payout, currency) + [Pay(currency, order[|order| - 1], payout[order[|order| - 1]])]
  }

  /** Paying each account of a repetition-free order pays the sum of their amounts. */
  lemma {:induction false} PaymentsAddUp(order: seq<AccountId>, payout: map<AccountId, nat>, currency: Currency)
    requires forall a | a in order :: a in payout
    requires Distinct(order)
    ensures Paid(Payments(order, payout, currency)) == SumOver(payout, Elements(order))
  {
    if order != [] {
      var n := |order| - 1;
      PaymentsDropLast(order, payout, currency);
      PaymentsAddUp(order[..n], payout, currency);
      SumOverRemove(payout, Elements(order), order[n]);
      ElementsDropLast(order);
    }
  }

  lemma PaymentsDropLast(order: seq<AccountId>, payout: map<AccountId, nat>, currency: Currency)
    requires forall a | a in order :: a in payout
    requires order != []
    ensures Paid(Payments(order, payout, currency))
      == Paid(Payments(order[..|order| - 1], payout, currency)) + payout[order[|order| - 1]]
  {
    var effects := Payments(order, payout, currency);
    assert effects[..|order| - 1] == Payments(order[..|order| - 1], payout, currency);
  }

  /** One payment per payout entry, in the map's iteration order: every account is paid
      its amount exactly once, so the payments add up to the payout's sum. */
  method Distribute(payout: map<AccountId, nat>, currency: Currency) returns (effects: seq<MarketEffect>)
    ensures |effects| == |payout|
    ensures forall i | 0 <= i < |effects| ::
      IsPayment(effects[i]) && effects[i].receiver in payout && effects[i] == Pay(currency, effects[i].receiver, payout[effects[i].receiver])
    ensures forall i, j | 0 <= i < j < |effects| && IsPayment(effects[i]) && IsPayment(effects[j]) ::
      effects[i].receiver != effects[j].receiver
    ensures Receivers(effects) == payout.Keys
    ensures Paid(effects) == Sum(payout)
    ensures forall e | e in effects :: InCurrency(e, currency)
  {
    var order := IterationOrder(payout.Keys);
    effects := Payments(order, payout, currency);
    PaymentsPayEachOnce(order, payout, currency);
  }

  lemma PaymentsPayEachOnce(order: seq<AccountId>, payout: map<AccountId, nat>, currency: Currency)
    requires Distinct(order) && Elements(order) == payout.Keys && |order| == |payout|
    ensures var effects := Payments(order, payout, currency);
      && |effects| == |payout|
      && (forall i | 0 <= i < |effects| ::
            IsPayment(effects[i]) && effects[i].receiver in payout && effects[i] == Pay(currency, effects[i].receiver, payout[effects[i].receiver]))
      && (forall i, j | 0 <= i < j < |effects| :: effects[i].receiver != effects[j].receiver)
      && Receivers(effects) == payout.Keys
      && Paid(effects) == Sum(payout)
  {
    assert forall a | a in order :: a in payout by {
      forall a | a in order ensures a in payout { assert a in Elements(order); }
    }
    PaymentsAddUp(order, payout, currency);
    PaymentsPayAmounts(order, payout, currency);
    PaymentsReachEveryone(order, payout, currency);
    PaymentsToDistinctAccounts(order, payout, currency);
  }

  lemma PaymentsPayAmounts(order: seq<AccountId>, payout: map<AccountId, nat>, currency: Currency)
    requires forall a | a in order :: a in payout
    ensures var effects := Payments(order, payout, currency);
      forall i | 0 <= i < |effects| ::
        IsPayment(effects[i]) && effects[i].receiver in payout && effects[i] == Pay(currency, effects[i].receiver, payout[effects[i].receiver])
  {
    var effects := Payments(order, payout, currency);
    forall i | 0 <= i < |effects|
      ensures IsPayment(effects[i]) && effects[i].receiver in payout && effects[i] == Pay(currency, effects[i].receiver, payout[effects[i].receiver])
    {
      assert order[i] in order;
      assert effects[i].receiver == order[i];
    }
  }

  lemma PaymentsReachEveryone(order: seq<AccountId>, payout: map<AccountId, nat>, currency: Currency)
    requires forall a | a in order :: a in payout
    requires Elements(order) == payout.Keys
    ensures Receivers(Payments(order, payout, currency)) == payout.Keys
  {
    var effects := Payments(order, payout, currency);
    forall a | a in payout
      ensures a in Receivers(effects)
    {
      assert a in Elements(order);
      var i :| 0 <= i < |order| && order[i] == a;
      assert effects[i] in effects;
    }
  }

  lemma PaymentsToDistinctAccounts(order: seq<AccountId>, payout: map<AccountId, nat>, currency: Currency)
    requires forall a | a in order :: a in payout
    requires Distinct(order)
    ensures var effects := Payments(order, payout, currency);
      forall i, j | 0 <= i < j < |effects| :: effects[i].receiver != effects[j].receiver
  {
  }

  /** A logged payout is refused whatever the price, so the log always comes with the
      buyer's refund. */
  lemma LoggedPayoutRefused(result: PromiseResult<map<AccountId, nat>>, price: nat)
    requires RoyaltyLog(result) != []
    ensures result.Successful? && result.parsed.Some? && !PayoutAcceptable(result.parsed.value, price)
  {
  }

  /** Past the royalty log, a refund is the only effect. */
  lemma RefundAfterLog(result: PromiseResult<map<AccountId, nat>>, refund: MarketEffect)
    ensures forall e | e in RoyaltyLog(result) + [refund] && !e.Log? :: e == refund
  {
  }

  /** The effects of a purchase callback: the payout's payments when the payout is
      acceptable, otherwise one refund of the whole price to the buyer; a reply that
      does not parse panics. */
  method Settle(buyerId: AccountId, price: nat, currency: Currency, result: PromiseResult<map<AccountId, nat>>)
    returns (r: Result<seq<MarketEffect>, MarketError>)
    ensures r.Failure? <==> result == Successful(None)
    ensures r.Failure? ==> r.error == InvalidPayout
    ensures r.Ok? ==> Paid(r.value) <= price
    ensures r.Ok? ==> forall e | e in r.value && !e.Log? :: InCurrency(e, currency)
    ensures r.Ok? ==>
      var accepted := result.Successful? && result.parsed.Some? && PayoutAcceptable(result.parsed.value, price);
      && (!accepted ==> r.value == RoyaltyLog(result) + [Pay(currency, buyerId, price)])
      && (accepted ==>
            var payout := result.parsed.value;
            && |r.value| == |payout|
            && (forall i | 0 <= i < |r.value| ::
                  IsPayment(r.value[i]) && r.value[i].receiver in payout && r.value[i] == Pay(currency, r.value[i].receiver, payout[r.value[i].receiver]))
            && (forall i, j | 0 <= i < j < |r.value| :: r.value[i].receiver != r.value[j].receiver)
            && Receivers(r.value) == payout.Keys
            && Paid(r.value) == Sum(payout)
            && price - Paid(r.value) <= 1)
  {
    var accepted, logs := AcceptedPayout(result, price);
    if accepted.Failure? {
      return Failure(accepted.error);
    }
    if accepted.value.None? {
      var refund := Pay(currency, buyerId, price);
      assert (logs + [refund])[..|logs|] == logs;
      assert logs != [] ==> logs[..0] == [] && Paid(logs) == 0;
      RefundAfterLog(result, refund);
      return Ok(logs + [refund]);
    }
    var effects := Distribute(accepted.value.value, currency);
    return Ok(effects);
  }

  /** `resolve_purchase`: after `nft_transfer_payout`, pay each account of an acceptable
      payout in NEAR, or refund the whole price to the buyer; either way report `price`.
      A successful call whose result does not parse panics before any refund. The
      market's state is not touched. */
  method ResolvePurchase(m: Market, buyerId: AccountId, price: nat, result: PromiseResult<map<AccountId, nat>>)
    returns (r: MarketResult<nat>)
    ensures r.Failure? <==> result == Successful(None)
    ensures r.Failure? ==> r.error == InvalidPayout
    ensures r.Ok? ==> r.value.state == m && r.value.ret == price
    ensures r.Ok? ==> Paid(r.value.effects) <= price && forall e | e in r.value.effects && !e.Log? :: e.Transfer?
    ensures r.Ok? ==>
      var accepted := result.Successful? && result.parsed.Some? && PayoutAcceptable(result.parsed.value, price);
      && (!accepted ==> r.value.effects == RoyaltyLog(result) + [Transfer(buyerId, price)])
      && (accepted ==>
            var payout := result.parsed.value;
            && |r.value.effects| == |payout|
            && (forall i | 0 <= i < |r.value.effects| ::
                  && IsPayment(r.value.effects[i]) && r.value.effects[i].receiver in payout
                  && r.value.effects[i].amount == payout[r.value.effects[i].receiver])
            && (forall i, j | 0 <= i < j < |r.value.effects| :: r.value.effects[i].receiver != r.value.effects[j].receiver)
            && Receivers(r.value.effects) == payout.Keys
            && price - Paid(r.value.effects) <= 1)
  {
    var settled := Settle(buyerId, price, Native, result);
    if settled.Failure? {
      return Failure(settled.error);
    }
    return Ok(Step(m, settled.value, price));
  }

  // ---------------------------------------------------------------------------
  // Round trip and examples

  /** Listing a new token and then cancelling it as its seller restores the sales, the
      deposits and what every index set holds. */
  lemma ListThenCancel(m: Market, sale: Sale)
    requires Consistent(m)
    requires SaleKey(sale.nftContractId, sale.tokenId) !in m.sales.entries
    ensures var r := RemoveSale(ListSale(m, sale), sale.ownerId, 1, sale.nftContractId, sale.tokenId);
      && r.Ok?
      && r.value.state.sales.entries == m.sales.entries
      && r.value.state.storageDeposit == m.storageDeposit
      && (forall a, k :: k in Members(r.value.state.byOwnerId, a) <==> k in Members(m.byOwnerId, a))
      && (forall c, t :: t in Members(r.value.state.byContractId, c) <==> t in Members(m.byContractId, c))
  {
    UnlistedNotIndexed(m, sale);
    ListThenCancelUnindexed(m, sale);
  }

  lemma ListThenCancelUnindexed(m: Market, sale: Sale)
    requires SetsWellFormed(m.byOwnerId) && SetsWellFormed(m.byContractId)
    requires SaleKey(sale.nftContractId, sale.tokenId) !in m.sales.entries
    requires SaleKey(sale.nftContractId, sale.tokenId) !in Members(m.byOwnerId, sale.ownerId)
    requires sale.tokenId !in Members(m.byContractId, sale.nftContractId)
    ensures var r := RemoveSale(ListSale(m, sale), sale.ownerId, 1, sale.nftContractId, sale.tokenId);
      && r.Ok?
      && r.value.state.sales.entries == m.sales.entries
      && r.value.state.storageDeposit == m.storageDeposit
      && (forall a, k :: k in Members(r.value.state.byOwnerId, a) <==> k in Members(m.byOwnerId, a))
      && (forall c, t :: t in Members(r.value.state.byContractId, c) <==> t in Members(m.byContractId, c))
  {
    var key := SaleKey(sale.nftContractId, sale.tokenId);
    CancelListed(m, sale);
    var st := RemoveSale(ListSale(m, sale), sale.ownerId, 1, sale.nftContractId, sale.tokenId).value.state;
    forall a, k
      ensures k in Members(st.byOwnerId, a) <==> k in Members(m.byOwnerId, a)
    {
      InsertThenRemove(m.byOwnerId, sale.ownerId, key);
    }
    forall c, t
      ensures t in Members(st.byContractId, c) <==> t in Members(m.byContractId, c)
    {
      InsertThenRemove(m.byContractId, sale.nftContractId, sale.tokenId);
    }
  }

  /** In a consistent market, a token without a sale is in neither index. */
  lemma UnlistedNotIndexed(m: Market, sale: Sale)
    requires Consistent(m)
    requires SaleKey(sale.nftContractId, sale.tokenId) !in m.sales.entries
    ensures SetsWellFormed(m.byOwnerId) && SetsWellFormed(m.byContractId)
    ensures SaleKey(sale.nftContractId, sale.tokenId) !in Members(m.byOwnerId, sale.ownerId)
    ensures sale.tokenId !in Members(m.byContractId, sale.nftContractId)
  {
  }

  /** Cancelling a fresh listing removes exactly what listing it added. */
  lemma CancelListed(m: Market, sale: Sale)
    requires SaleKey(sale.nftContractId, sale.tokenId) !in m.sales.entries
    ensures var key := SaleKey(sale.nftContractId, sale.tokenId);
      var r := RemoveSale(ListSale(m, sale), sale.ownerId, 1, sale.nftContractId, sale.tokenId);
      && r.Ok?
      && r.value.state.sales.entries == m.sales.entries
      && r.value.state.storageDeposit == m.storageDeposit
      && r.value.state.byOwnerId == IndexRemove(IndexInsert(m.byOwnerId, sale.ownerId, key), sale.ownerId, key)
      && r.value.state.byContractId
         == IndexRemove(IndexInsert(m.byContractId, sale.nftContractId, sale.tokenId), sale.nftContractId, sale.tokenId)
  {
    var key := SaleKey(sale.nftContractId, sale.tokenId);
    var m1 := ListSale(m, sale);
    assert key in m1.sales.entries && m1.sales.entries[key] == sale;
    assert sale.ownerId in m1.byOwnerId && sale.nftContractId in m1.byContractId;
    assert m.sales.entries[key := sale] - {key} == m.sales.entries;
  }

  /** The payout of a 5% and a 3% royalty on a price of 1000 pays 1000 in full and is
      accepted. */
  lemma FullPayoutAccepted(a: AccountId, b: AccountId, o: AccountId)
    requires a != b && a != o && b != o
    ensures PayoutAcceptable(map[a := 50, b := 30, o := 920], 1000)
  {
    var p := map[a := 50, b := 30, o := 920];
    SumOverRemove(p, p.Keys, a);
    assert p.Keys - {a} == {b, o};
    SumOverRemove(p, {b, o}, b);
    assert {b, o} - {b} == {o};
    SumOverSingleton(p, o);
  }

  /** Two royalties of 33.33% on a price of 3 floor to nothing and leave the owner 1:
      the payout falls 2 short and is refused, although the royalty arithmetic produced
      it. */
  lemma FlooredPayoutRefused(a: AccountId, b: AccountId, o: AccountId)
    requires a != b && a != o && b != o
    ensures !PayoutAcceptable(map[a := 0, b := 0, o := 1], 3)
  {
    var p := map[a := 0, b := 0, o := 1];
    SumOverRemove(p, p.Keys, a);
    assert p.Keys - {a} == {b, o};
    SumOverRemove(p, {b, o}, b);
    assert {b, o} - {b} == {o};
    SumOverSingleton(p, o);
  }
}
