/** Removing a listing (market-contract/src/internal.rs): the sale and both of its index
    entries go, and an index set that empties is dropped. */
module MarketInternal {
  import opened Near
  import opened Collections
  import opened MarketTypes

  /** `internal_remove_sale`: remove the sale stored under the key of `nftContractId`
      and `tokenId`, take that key out of the seller's set and `tokenId` out of the
      contract's set, and return the sale. Panics when the sale, the seller's set or the
      contract's set is missing. */
  function InternalRemoveSale(m: Market, nftContractId: AccountId, tokenId: TokenId): (r: MarketResult<Sale>)
    ensures r.Failure? <==>
      || SaleKey(nftContractId, tokenId) !in m.sales.entries
      || m.sales.entries[SaleKey(nftContractId, tokenId)].ownerId !in m.byOwnerId
      || nftContractId !in m.byContractId
    ensures SaleKey(nftContractId, tokenId) !in m.sales.entries ==> r == Failure(SaleNotFound)
    ensures r.Ok? ==>
      var key := SaleKey(nftContractId, tokenId);
      var m' := r.value.state;
      var seller := r.value.ret.ownerId;
      && key in m.sales.entries
      && r.value.ret == m.sales.entries[key]
      && r.value.effects == []
      && m'.sales.entries == m.sales.entries - {key}
      && (m.sales.Valid() ==> m'.sales.Valid())
      && m'.ownerId == m.ownerId && m'.storageDeposit == m.storageDeposit
      && (forall a | a != seller :: Members(m'.byOwnerId, a) == Members(m.byOwnerId, a))
      && (forall c | c != nftContractId :: Members(m'.byContractId, c) == Members(m.byContractId, c))
      && (SetsWellFormed(m.byOwnerId) ==>
            && SetsWellFormed(m'.byOwnerId)
            && (forall k :: k in Members(m'.byOwnerId, seller) <==> k in m.byOwnerId[seller] && k != key))
      && (SetsWellFormed(m.byContractId) ==>
            && SetsWellFormed(m'.byContractId)
            && (forall t :: t in Members(m'.byContractId, nftContractId) <==> t in m.byContractId[nftContractId] && t != tokenId))
    ensures r.Ok? ==> r.value.state == Unlisted(m, r.value.ret.ownerId, nftContractId, tokenId)
    ensures r.Ok? && StorageCovers(m) ==> StorageCovers(r.value.state)
  {
    var key := SaleKey(nftContractId, tokenId);
    if key !in m.sales.entries then Failure(SaleNotFound)
    else
      var sale := m.sales.entries[key];
      if sale.ownerId !in m.byOwnerId then Failure(OwnerIndexMissing)
      else if nftContractId !in m.byContractId then Failure(ContractIndexMissing)
      else
        var m' := Unlisted(m, sale.ownerId, nftContractId, tokenId);
        RemoveKeepsStorageCovered(m, m', sale.ownerId);
        Ok(Step(m', [], sale))
  }

  /** The market without the sale of `nftContractId` and `tokenId`: its key leaves the
      sale map and `seller`'s set, and the token leaves the contract's set. */
  function Unlisted(m: Market, seller: AccountId, nftContractId: AccountId, tokenId: TokenId): (m': Market)
    requires seller in m.byOwnerId && nftContractId in m.byContractId
    ensures m'.sales.entries == m.sales.entries - {SaleKey(nftContractId, tokenId)}
    ensures m.sales.Valid() ==> m'.sales.Valid()
    ensures m'.byOwnerId == IndexRemove(m.byOwnerId, seller, SaleKey(nftContractId, tokenId))
    ensures m'.byContractId == IndexRemove(m.byContractId, nftContractId, tokenId)
    ensures m'.storageDeposit == m.storageDeposit && m'.ownerId == m.ownerId
  {
    var key := SaleKey(nftContractId, tokenId);
    m.(sales := m.sales.Remove(key),
       byOwnerId := IndexRemove(m.byOwnerId, seller, key),
       byContractId := IndexRemove(m.byContractId, nftContractId, tokenId))
  }

  /** Shrinking one account's set without touching the deposits keeps every listing paid for. */
  lemma RemoveKeepsStorageCovered(m: Market, m': Market, seller: AccountId)
    requires seller in m.byOwnerId
    requires m'.storageDeposit == m.storageDeposit && m'.byOwnerId.Keys <= m.byOwnerId.Keys
    requires forall a | a in m'.byOwnerId && a != seller :: m'.byOwnerId[a] == m.byOwnerId[a]
    requires seller in m'.byOwnerId ==> |m'.byOwnerId[seller]| <= |m.byOwnerId[seller]|
    ensures StorageCovers(m) ==> StorageCovers(m')
  {
    if StorageCovers(m) {
      forall a | a in m'.byOwnerId
        ensures StorageBalanceOf(m', a) >= |m'.byOwnerId[a]| * STORAGE_PER_SALE
      {
        assert StorageBalanceOf(m', a) == StorageBalanceOf(m, a);
        assert |m'.byOwnerId[a]| * STORAGE_PER_SALE <= |m.byOwnerId[a]| * STORAGE_PER_SALE;
      }
    }
  }

  /** Removing a sale through the key of its own contract and token keeps the sale map
      and both indices in agreement. */
  lemma RemoveKeepsConsistent(m: Market, nftContractId: AccountId, tokenId: TokenId)
    requires Consistent(m)
    requires SaleKey(nftContractId, tokenId) in m.sales.entries
    requires m.sales.entries[SaleKey(nftContractId, tokenId)].nftContractId == nftContractId
    requires m.sales.entries[SaleKey(nftContractId, tokenId)].tokenId == tokenId
    ensures InternalRemoveSale(m, nftContractId, tokenId).Ok?
    ensures Consistent(InternalRemoveSale(m, nftContractId, tokenId).value.state)
  {
    var key := SaleKey(nftContractId, tokenId);
    var sale := m.sales.entries[key];
    var r := InternalRemoveSale(m, nftContractId, tokenId);
    var m' := r.value.state;
    RemoveKeepsOwnerIndex(m.byOwnerId, m.sales.entries, key);
    RemoveKeepsContractIndex(m.byContractId, m.sales.entries, nftContractId, tokenId);
  }

  lemma RemoveKeepsOwnerIndex(byOwnerId: map<AccountId, seq<string>>, sales: map<string, Sale>, key: string)
    requires key in sales && sales[key].ownerId in byOwnerId
    requires SetsWellFormed(byOwnerId) && OwnerIndexSound(byOwnerId, sales) && OwnerIndexComplete(byOwnerId, sales)
    ensures OwnerIndexSound(IndexRemove(byOwnerId, sales[key].ownerId, key), sales - {key})
    ensures OwnerIndexComplete(IndexRemove(byOwnerId, sales[key].ownerId, key), sales - {key})
  {
    var seller := sales[key].ownerId;
    var index' := IndexRemove(byOwnerId, seller, key);
    var sales' := sales - {key};
    assert Distinct(byOwnerId[seller]);
    forall a, k | a in index' && k in index'[a]
      ensures k in sales' && sales'[k].ownerId == a
    {
      if a == seller {
        assert k in Members(index', seller);
      } else {
        assert k in byOwnerId[a];
      }
    }
    forall k | k in sales'
      ensures sales'[k].ownerId in index' && k in index'[sales'[k].ownerId]
    {
      var a := sales[k].ownerId;
      assert k in byOwnerId[a];
      if a == seller {
        assert k in Members(index', seller);
      }
    }
  }

  lemma RemoveKeepsContractIndex(byContractId: map<AccountId, seq<TokenId>>, sales: map<string, Sale>,
                                 nftContractId: AccountId, tokenId: TokenId)
    requires SaleKey(nftContractId, tokenId) in sales
    requires sales[SaleKey(nftContractId, tokenId)].nftContractId == nftContractId
    requires sales[SaleKey(nftContractId, tokenId)].tokenId == tokenId
    requires nftContractId in byContractId
    requires SalesKeyed(sales)
    requires SetsWellFormed(byContractId) && ContractIndexSound(byContractId, sales) && ContractIndexComplete(byContractId, sales)
    ensures ContractIndexSound(IndexRemove(byContractId, nftContractId, tokenId), sales - {SaleKey(nftContractId, tokenId)})
    ensures ContractIndexComplete(IndexRemove(byContractId, nftContractId, tokenId), sales - {SaleKey(nftContractId, tokenId)})
  {
    var key := SaleKey(nftContractId, tokenId);
    var index' := IndexRemove(byContractId, nftContractId, tokenId);
    var sales' := sales - {key};
    assert Distinct(byContractId[nftContractId]);
    forall c, t | c in index' && t in index'[c]
      ensures SaleKey(c, t) in sales' && sales'[SaleKey(c, t)].nftContractId == c && sales'[SaleKey(c, t)].tokenId == t
    {
      if c == nftContractId {
        assert t in Members(index', nftContractId);
      } else {
        assert t in byContractId[c];
      }
    }
    forall k | k in sales'
      ensures sales'[k].nftContractId in index' && sales'[k].tokenId in index'[sales'[k].nftContractId]
    {
      var c := sales[k].nftContractId;
      var t := sales[k].tokenId;
      assert t in byContractId[c];
      if c == nftContractId {
        assert t != tokenId;
        assert t in Members(index', nftContractId);
      }
    }
  }

  /** Removing the same listing twice fails the second time. */
  lemma RemoveTwiceFails(m: Market, nftContractId: AccountId, tokenId: TokenId)
    requires InternalRemoveSale(m, nftContractId, tokenId).Ok?
    ensures InternalRemoveSale(InternalRemoveSale(m, nftContractId, tokenId).value.state, nftContractId, tokenId)
      == Failure(SaleNotFound)
  {
  }

  /** The sale key does not determine the contract and token: a contract account and
      one of its sub-accounts produce the same key. */
  lemma SaleKeyNotInjective()
    ensures SaleKey("a.b", "c") == SaleKey("a", "b.c")
  {
    assert SaleKey("a.b", "c") == ['a', '.', 'b', '.', 'c'];
    assert SaleKey("a", "b.c") == ['a', '.', 'b', '.', 'c'];
  }

  /** Removing through a colliding key deletes another contract's sale while its token
      stays in that contract's set, and the sale map and indices disagree afterwards. */
  lemma CollidingRemoveBreaksConsistency(m: Market, nftContractId: AccountId, tokenId: TokenId)
    requires Consistent(m)
    requires SaleKey(nftContractId, tokenId) in m.sales.entries
    requires m.sales.entries[SaleKey(nftContractId, tokenId)].nftContractId != nftContractId
    requires nftContractId in m.byContractId
    ensures InternalRemoveSale(m, nftContractId, tokenId).Ok?
    ensures !Consistent(InternalRemoveSale(m, nftContractId, tokenId).value.state)
  {
    var key := SaleKey(nftContractId, tokenId);
    var sale := m.sales.entries[key];
    var m' := InternalRemoveSale(m, nftContractId, tokenId).value.state;
    assert sale.tokenId in m.byContractId[sale.nftContractId];
    assert sale.tokenId in Members(m'.byContractId, sale.nftContractId);
    assert SaleKey(sale.nftContractId, sale.tokenId) == key;
    assert key !in m'.sales.entries;
  }
}
