/** Listing a token (market-contract/src/nft_callback.rs): an NFT contract calls
    `nft_on_approve` on the market after its owner approved the market, and the market
    records a sale priced by the approval message. */
module MarketNftCallback {
  import opened Near
  import opened Collections
  import opened MarketTypes

  /** `nft_on_approve`, called by the NFT contract `predecessor` in a transaction signed
      by `signer`. The call must come from a contract rather than the signer itself, for
      a token the signer owns, and the signer's deposit must pay for one more listing
      than it has. `msg` is the parsed sale price (`None` when it does not parse). The
      sale is stored under `predecessor + "." + tokenId`, replacing any sale stored under
      that key, and entered into the seller's and the contract's sets. */
  function NftOnApprove(m: Market, predecessor: AccountId, signer: AccountId,
                        tokenId: TokenId, ownerId: AccountId, approvalId: nat, msg: Option<SalePrice>)
    : (r: MarketResult<()>)
    ensures predecessor == signer ==> r == Failure(NotCrossContractCall)
    ensures predecessor != signer && signer != ownerId ==> r == Failure(OwnerNotSigner)
    ensures predecessor != signer && signer == ownerId
            && StorageBalanceOf(m, signer) < (GetSupplyByOwnerId(m, signer) + 1) * STORAGE_PER_SALE
            ==> r == Failure(StorageNotCovered)
    ensures r.Failure? <==>
      || predecessor == signer || signer != ownerId
      || StorageBalanceOf(m, signer) < (GetSupplyByOwnerId(m, signer) + 1) * STORAGE_PER_SALE
      || msg.None?
    ensures r.Ok? ==>
      && r.value.effects == []
      && msg.Some?
      && r.value.state == ListSale(m, Sale(ownerId, approvalId, predecessor, tokenId, msg.value))
    ensures r.Ok? ==>
      var key := SaleKey(predecessor, tokenId);
      && r.value.state.sales.entries == m.sales.entries[key := Sale(ownerId, approvalId, predecessor, tokenId, msg.value)]
      && key in Members(r.value.state.byOwnerId, ownerId)
      && tokenId in Members(r.value.state.byContractId, predecessor)
      && (forall a | a != ownerId :: Members(r.value.state.byOwnerId, a) == Members(m.byOwnerId, a))
      && (forall c | c != predecessor :: Members(r.value.state.byContractId, c) == Members(m.byContractId, c))
      && r.value.state.storageDeposit == m.storageDeposit
    ensures r.Ok? && StorageCovers(m) ==> StorageCovers(r.value.state)
  {
    if predecessor == signer then Failure(NotCrossContractCall)
    else if signer != ownerId then Failure(OwnerNotSigner)
    else if StorageBalanceOf(m, signer) < (GetSupplyByOwnerId(m, signer) + 1) * STORAGE_PER_SALE then Failure(StorageNotCovered)
    else if msg.None? then Failure(InvalidSaleArgs)
    else
      var sale := Sale(ownerId, approvalId, predecessor, tokenId, msg.value);
      ListingKeepsStorageCovered(m, sale);
      ListingIndexed(m, sale);
      Ok(Step(ListSale(m, sale), [], ()))
  }

  /** The state update of a listing: the sale is stored under its key, replacing any
      sale stored there, the key joins the seller's set and the token joins the
      contract's set; nothing else changes. */
  function ListSale(m: Market, sale: Sale): (m': Market)
    ensures m'.sales.entries == m.sales.entries[SaleKey(sale.nftContractId, sale.tokenId) := sale]
    ensures m.sales.Valid() ==> m'.sales.Valid()
    ensures m'.byOwnerId == IndexInsert(m.byOwnerId, sale.ownerId, SaleKey(sale.nftContractId, sale.tokenId))
    ensures m'.byContractId == IndexInsert(m.byContractId, sale.nftContractId, sale.tokenId)
    ensures m'.storageDeposit == m.storageDeposit && m'.ownerId == m.ownerId
  {
    var key := SaleKey(sale.nftContractId, sale.tokenId);
    m.(sales := m.sales.Insert(key, sale),
       byOwnerId := IndexInsert(m.byOwnerId, sale.ownerId, key),
       byContractId := IndexInsert(m.byContractId, sale.nftContractId, sale.tokenId))
  }

  /** A listing enters its key into the seller's set and its token into the contract's
      set, and leaves every other set as it was. */
  lemma ListingIndexed(m: Market, sale: Sale)
    ensures var m' := ListSale(m, sale);
      && SaleKey(sale.nftContractId, sale.tokenId) in Members(m'.byOwnerId, sale.ownerId)
      && sale.tokenId in Members(m'.byContractId, sale.nftContractId)
      && (forall a | a != sale.ownerId :: Members(m'.byOwnerId, a) == Members(m.byOwnerId, a))
      && (forall c | c != sale.nftContractId :: Members(m'.byContractId, c) == Members(m.byContractId, c))
  {
  }

  /** A listing by a seller whose deposit pays for one more listing keeps every listing
      paid for. */
  lemma ListingKeepsStorageCovered(m: Market, sale: Sale)
    requires StorageBalanceOf(m, sale.ownerId) >= (GetSupplyByOwnerId(m, sale.ownerId) + 1) * STORAGE_PER_SALE
    ensures StorageCovers(m) ==> StorageCovers(ListSale(m, sale))
  {
    var m' := ListSale(m, sale);
    var key := SaleKey(sale.nftContractId, sale.tokenId);
    assert |SetInsert(Members(m.byOwnerId, sale.ownerId), key)| <= |Members(m.byOwnerId, sale.ownerId)| + 1;
    InsertKeepsStorageCovered(m, m', sale.ownerId);
  }

  /** Adding at most one listing for an account whose deposit pays for one more keeps
      every listing paid for. */
  lemma InsertKeepsStorageCovered(m: Market, m': Market, seller: AccountId)
    requires StorageBalanceOf(m, seller) >= (|Members(m.byOwnerId, seller)| + 1) * STORAGE_PER_SALE
    requires m'.storageDeposit == m.storageDeposit && m'.byOwnerId.Keys == m.byOwnerId.Keys + {seller}
    requires forall a | a in m.byOwnerId && a != seller :: m'.byOwnerId[a] == m.byOwnerId[a]
    requires |m'.byOwnerId[seller]| <= |Members(m.byOwnerId, seller)| + 1
    ensures StorageCovers(m) ==> StorageCovers(m')
  {
    if StorageCovers(m) {
      forall a | a in m'.byOwnerId
        ensures StorageBalanceOf(m', a) >= |m'.byOwnerId[a]| * STORAGE_PER_SALE
      {
        assert StorageBalanceOf(m', a) == StorageBalanceOf(m, a);
        if a == seller {
          assert |m'.byOwnerId[a]| * STORAGE_PER_SALE <= (|Members(m.byOwnerId, seller)| + 1) * STORAGE_PER_SALE;
        }
      }
    }
  }

  /** A listing under a new key, or a re-listing of the seller's own sale of the same
      contract and token, keeps the sale map and both indices in agreement. */
  lemma ListingKeepsConsistent(m: Market, sale: Sale)
    requires Consistent(m)
    requires var key := SaleKey(sale.nftContractId, sale.tokenId);
      key in m.sales.entries ==>
        && m.sales.entries[key].ownerId == sale.ownerId
        && m.sales.entries[key].nftContractId == sale.nftContractId
        && m.sales.entries[key].tokenId == sale.tokenId
    ensures Consistent(ListSale(m, sale))
  {
    var key := SaleKey(sale.nftContractId, sale.tokenId);
    var m' := ListSale(m, sale);
    InsertKeepsOwnerIndex(m.byOwnerId, m.sales.entries, key, sale);
    InsertKeepsContractIndex(m.byContractId, m.sales.entries, sale);
    InsertKeepsKeyed(m.sales.entries, sale);
  }

  lemma InsertKeepsKeyed(sales: map<string, Sale>, sale: Sale)
    requires SalesKeyed(sales)
    ensures SalesKeyed(sales[SaleKey(sale.nftContractId, sale.tokenId) := sale])
  {
  }

  lemma InsertKeepsOwnerIndex(byOwnerId: map<AccountId, seq<string>>, sales: map<string, Sale>, key: string, sale: Sale)
    requires key in sales ==> sales[key].ownerId == sale.ownerId
    requires SetsWellFormed(byOwnerId) && OwnerIndexSound(byOwnerId, sales) && OwnerIndexComplete(byOwnerId, sales)
    ensures SetsWellFormed(IndexInsert(byOwnerId, sale.ownerId, key))
    ensures OwnerIndexSound(IndexInsert(byOwnerId, sale.ownerId, key), sales[key := sale])
    ensures OwnerIndexComplete(IndexInsert(byOwnerId, sale.ownerId, key), sales[key := sale])
  {
    var seller := sale.ownerId;
    var index' := IndexInsert(byOwnerId, seller, key);
    var sales' := sales[key := sale];
    assert key in index'[seller];
    forall a, k | a in index' && k in index'[a]
      ensures k in sales' && sales'[k].ownerId == a
    {
      if a != seller {
        assert k in byOwnerId[a];
      } else if k != key {
        assert k in Members(byOwnerId, seller);
      }
    }
    forall k | k in sales'
      ensures sales'[k].ownerId in index' && k in index'[sales'[k].ownerId]
    {
      if k != key {
        assert k in byOwnerId[sales[k].ownerId];
      }
    }
  }

  lemma InsertKeepsContractIndex(byContractId: map<AccountId, seq<TokenId>>, sales: map<string, Sale>, sale: Sale)
    requires var key := SaleKey(sale.nftContractId, sale.tokenId);
      key in sales ==> sales[key].nftContractId == sale.nftContractId && sales[key].tokenId == sale.tokenId
    requires SetsWellFormed(byContractId) && ContractIndexSound(byContractId, sales) && ContractIndexComplete(byContractId, sales)
    ensures SetsWellFormed(IndexInsert(byContractId, sale.nftContractId, sale.tokenId))
    ensures ContractIndexSound(IndexInsert(byContractId, sale.nftContractId, sale.tokenId),
                               sales[SaleKey(sale.nftContractId, sale.tokenId) := sale])
    ensures ContractIndexComplete(IndexInsert(byContractId, sale.nftContractId, sale.tokenId),
                                  sales[SaleKey(sale.nftContractId, sale.tokenId) := sale])
  {
    var index' := IndexInsert(byContractId, sale.nftContractId, sale.tokenId);
    assert sale.tokenId in index'[sale.nftContractId];
    InsertKeepsContractSound(byContractId, sales, sale);
    InsertKeepsContractComplete(byContractId, sales, sale);
  }

  lemma InsertKeepsContractSound(byContractId: map<AccountId, seq<TokenId>>, sales: map<string, Sale>, sale: Sale)
    requires var key := SaleKey(sale.nftContractId, sale.tokenId);
      key in sales ==> sales[key].nftContractId == sale.nftContractId && sales[key].tokenId == sale.tokenId
    requires ContractIndexSound(byContractId, sales)
    ensures ContractIndexSound(IndexInsert(byContractId, sale.nftContractId, sale.tokenId),
                               sales[SaleKey(sale.nftContractId, sale.tokenId) := sale])
  {
    var key := SaleKey(sale.nftContractId, sale.tokenId);
    var index' := IndexInsert(byContractId, sale.nftContractId, sale.tokenId);
    var sales' := sales[key := sale];
    forall c, t | c in index' && t in index'[c]
      ensures SaleKey(c, t) in sales' && sales'[SaleKey(c, t)].nftContractId == c && sales'[SaleKey(c, t)].tokenId == t
    {
      if c != sale.nftContractId || t != sale.tokenId {
        assert t in Members(byContractId, c);
        assert SaleKey(c, t) in sales && sales[SaleKey(c, t)].nftContractId == c && sales[SaleKey(c, t)].tokenId == t;
      }
    }
  }

  lemma InsertKeepsContractComplete(byContractId: map<AccountId, seq<TokenId>>, sales: map<string, Sale>, sale: Sale)
    requires ContractIndexComplete(byContractId, sales)
    ensures ContractIndexComplete(IndexInsert(byContractId, sale.nftContractId, sale.tokenId),
                                  sales[SaleKey(sale.nftContractId, sale.tokenId) := sale])
  {
    var key := SaleKey(sale.nftContractId, sale.tokenId);
    var index' := IndexInsert(byContractId, sale.nftContractId, sale.tokenId);
    var sales' := sales[key := sale];
    forall k | k in sales'
      ensures sales'[k].nftContractId in index' && sales'[k].tokenId in index'[sales'[k].nftContractId]
    {
      if k != key {
        assert sales[k].tokenId in byContractId[sales[k].nftContractId];
      }
    }
  }

  /** Re-listing one's own sale of the same contract and token replaces the price and
      approval id and leaves both indices exactly as they were. */
  lemma RelistKeepsIndices(m: Market, sale: Sale)
    requires Consistent(m)
    requires SaleKey(sale.nftContractId, sale.tokenId) in m.sales.entries
    requires m.sales.entries[SaleKey(sale.nftContractId, sale.tokenId)].ownerId == sale.ownerId
    requires m.sales.entries[SaleKey(sale.nftContractId, sale.tokenId)].nftContractId == sale.nftContractId
    ensures ListSale(m, sale).byOwnerId == m.byOwnerId && ListSale(m, sale).byContractId == m.byContractId
  {
    var key := SaleKey(sale.nftContractId, sale.tokenId);
    assert key in m.byOwnerId[sale.ownerId];
    SaleKeyDeterminesToken(sale.nftContractId, m.sales.entries[key].tokenId, sale.tokenId);
    assert sale.tokenId in m.byContractId[sale.nftContractId];
    assert m.byOwnerId[sale.ownerId := m.byOwnerId[sale.ownerId]] == m.byOwnerId;
    assert m.byContractId[sale.nftContractId := m.byContractId[sale.nftContractId]] == m.byContractId;
  }

  /** Re-listing a key that another seller's sale holds overwrites that sale while the
      key stays in the other seller's set: the sale map and indices disagree afterwards. */
  lemma RelistByOtherOwnerBreaksConsistency(m: Market, sale: Sale)
    requires Consistent(m)
    requires SaleKey(sale.nftContractId, sale.tokenId) in m.sales.entries
    requires m.sales.entries[SaleKey(sale.nftContractId, sale.tokenId)].ownerId != sale.ownerId
    ensures !Consistent(ListSale(m, sale))
  {
    var key := SaleKey(sale.nftContractId, sale.tokenId);
    var previous := m.sales.entries[key].ownerId;
    var m' := ListSale(m, sale);
    assert key in m.byOwnerId[previous];
    assert key in Members(m'.byOwnerId, previous);
    assert m'.sales.entries[key].ownerId == sale.ownerId;
  }

  /** Listing a token whose key collides with another contract's sale overwrites that
      sale while its token stays in that contract's set: the sale map and indices
      disagree afterwards. */
  lemma CollidingListingBreaksConsistency(m: Market, sale: Sale)
    requires Consistent(m)
    requires SaleKey(sale.nftContractId, sale.tokenId) in m.sales.entries
    requires m.sales.entries[SaleKey(sale.nftContractId, sale.tokenId)].nftContractId != sale.nftContractId
    ensures !Consistent(ListSale(m, sale))
  {
    var key := SaleKey(sale.nftContractId, sale.tokenId);
    var other := m.sales.entries[key];
    var m' := ListSale(m, sale);
    assert other.tokenId in m.byContractId[other.nftContractId];
    assert other.tokenId in Members(m'.byContractId, other.nftContractId);
    assert SaleKey(other.nftContractId, other.tokenId) == key;
    assert m'.sales.entries[key].nftContractId == sale.nftContractId;
  }
}
