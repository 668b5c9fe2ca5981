/** The read-only views of the market (market-contract/src/sale_view.rs): how many sales
    there are in all, per seller and per NFT contract, and pages of them. */
module MarketViews {
  import opened Near
  import opened Collections
  import opened MarketTypes

  /** `get_supply_sales`: the number of sales. */
  function GetSupplySales(m: Market): (r: nat)
    ensures m.sales.Valid() ==> r == |m.sales.entries.Keys|
  {
    KeyVectorCounts(m.sales);
    m.sales.Len()
  }

  /** `get_suppy_by_contract_id`: the size of the contract's token set, 0 when it has
      none. In a consistent market it counts the distinct tokens of that contract on
      sale. */
  function GetSupplyByContractId(m: Market, contractId: AccountId): (r: nat)
    ensures contractId !in m.byContractId ==> r == 0
    ensures Consistent(m) ==>
      r == |set k | k in m.sales.entries && m.sales.entries[k].nftContractId == contractId :: m.sales.entries[k].tokenId|
  {
    ContractSupplyCounts(m, contractId);
    |Members(m.byContractId, contractId)|
  }

  lemma ContractSupplyCounts(m: Market, contractId: AccountId)
    ensures Consistent(m) ==>
      |Members(m.byContractId, contractId)|
      == |set k | k in m.sales.entries && m.sales.entries[k].nftContractId == contractId :: m.sales.entries[k].tokenId|
  {
    if Consistent(m) {
      var tokens := Members(m.byContractId, contractId);
      var listed := set k | k in m.sales.entries && m.sales.entries[k].nftContractId == contractId :: m.sales.entries[k].tokenId;
      forall t | t in tokens
        ensures t in listed
      {
        var k := SaleKey(contractId, t);
        assert k in m.sales.entries && m.sales.entries[k].nftContractId == contractId && m.sales.entries[k].tokenId == t;
      }
      assert Elements(tokens) == listed;
      DistinctSize(tokens);
    }
  }

  /** The sales stored under a list of keys, in order; `sales.get(key).unwrap()` panics
      on a key with no sale. */
  function SalesAt(m: Market, keys: seq<string>): (r: Result<seq<Sale>, MarketError>)
    ensures r.Failure? <==> exists k | k in keys :: k !in m.sales.entries
    ensures r.Failure? ==> r.error == SaleMissing
    ensures r.Ok? ==> |r.value| == |keys| && forall i | 0 <= i < |keys| :: r.value[i] == m.sales.entries[keys[i]]
  {
    if keys == [] then Ok([])
    else if keys[0] !in m.sales.entries then Failure(SaleMissing)
    else
      match SalesAt(m, keys[1..])
      case Failure(e) => Failure(e)
      case Ok(rest) =>
        assert forall i | 1 <= i < |keys| :: keys[i] == keys[1..][i - 1];
        Ok([m.sales.entries[keys[0]]] + rest)
  }

  /** `get_sales`: the sales at positions `from_index ..` of the key vector, at most
      `limit` of them; an omitted limit means none. */
  function GetSales(m: Market, fromIndex: Option<nat>, limit: Option<nat>): (r: seq<Sale>)
    requires m.sales.Valid()
    ensures limit.None? ==> r == []
    ensures |r| <= Count(limit)
    ensures Start(fromIndex) < |m.sales.keys| ==> |r| == Min(Count(limit), |m.sales.keys| - Start(fromIndex))
    ensures Start(fromIndex) >= |m.sales.keys| ==> r == []
    ensures forall i | 0 <= i < |r| ::
      Start(fromIndex) + i < |m.sales.keys| && r[i] == m.sales.entries[m.sales.keys[Start(fromIndex) + i]]
  {
    Page(m.sales.Values(), fromIndex, limit)
  }

  /** One page from the start that is at least as long as the market lists every sale. */
  lemma GetSalesListsAll(m: Market, n: nat)
    requires m.sales.Valid()
    requires |m.sales.entries| <= n < USIZE_MODULUS
    ensures Elements(GetSales(m, None, Some(n))) == m.sales.entries.Values
  {
    KeyVectorCounts(m.sales);
    assert Start(None) == 0 && Count(Some(n)) == n;
    var r := GetSales(m, None, Some(n));
    assert |r| == |m.sales.keys|;
    forall s | s in m.sales.entries.Values
      ensures s in Elements(r)
    {
      var k :| k in m.sales.entries && m.sales.entries[k] == s;
      assert k in m.sales.keys;
      var i :| 0 <= i < |m.sales.keys| && m.sales.keys[i] == k;
      assert r[i] == s;
    }
    forall s | s in Elements(r)
      ensures s in m.sales.entries.Values
    {
      var i :| 0 <= i < |r| && r[i] == s;
      assert m.sales.keys[i] in m.sales.entries;
    }
  }

  /** `get_sales_by_owner_id`: a page of the seller's key set mapped to its sales, or
      nothing when the account has no set. */
  function GetSalesByOwnerId(m: Market, accountId: AccountId, fromIndex: Option<nat>, limit: Option<nat>)
    : (r: Result<seq<Sale>, MarketError>)
    ensures accountId !in m.byOwnerId ==> r == Ok([])
    ensures r.Ok? ==> |r.value| <= Count(limit)
    ensures r.Failure? <==>
      exists k | k in Page(Members(m.byOwnerId, accountId), fromIndex, limit) :: k !in m.sales.entries
    ensures Consistent(m) ==>
      var keys := Page(Members(m.byOwnerId, accountId), fromIndex, limit);
      && r.Ok? && |r.value| == |keys|
      && forall i | 0 <= i < |keys| :: r.value[i] == m.sales.entries[keys[i]] && r.value[i].ownerId == accountId
  {
    if accountId !in m.byOwnerId then Ok([])
    else
      var keys := Page(m.byOwnerId[accountId], fromIndex, limit);
      OwnerKeysListed(m, accountId, keys);
      SalesAt(m, keys)
  }

  /** In a consistent market every key drawn from a seller's set names a sale of that
      seller. */
  lemma OwnerKeysListed(m: Market, accountId: AccountId, keys: seq<string>)
    requires accountId in m.byOwnerId
    requires forall i | 0 <= i < |keys| :: keys[i] in m.byOwnerId[accountId]
    ensures Consistent(m) ==>
      forall k | k in keys :: k in m.sales.entries && m.sales.entries[k].ownerId == accountId
  {
  }

  /** `get_sales_by_contract_id`: a page of the contract's token set, each token mapped to
      the sale under the key rebuilt from the contract and the token, or nothing when the
      contract has no set. */
  function GetSalesByContractId(m: Market, contractId: AccountId, fromIndex: Option<nat>, limit: Option<nat>)
    : (r: Result<seq<Sale>, MarketError>)
    ensures contractId !in m.byContractId ==> r == Ok([])
    ensures r.Ok? ==> |r.value| <= Count(limit)
    ensures r.Failure? <==>
      exists t | t in Page(Members(m.byContractId, contractId), fromIndex, limit) :: SaleKey(contractId, t) !in m.sales.entries
    ensures Consistent(m) ==>
      var tokens := Page(Members(m.byContractId, contractId), fromIndex, limit);
      && r.Ok? && |r.value| == |tokens|
      && forall i | 0 <= i < |tokens| ::
           && r.value[i] == m.sales.entries[SaleKey(contractId, tokens[i])]
           && r.value[i].nftContractId == contractId && r.value[i].tokenId == tokens[i]
  {
    if contractId !in m.byContractId then Ok([])
    else
      var tokens := Page(m.byContractId[contractId], fromIndex, limit);
      var keys := KeysOf(contractId, tokens);
      KeysOfMissing(m, contractId, tokens);
      ContractKeysListed(m, contractId, tokens);
      SalesAt(m, keys)
  }

  /** The sale keys of `tokens` of one NFT contract, in order. */
  function KeysOf(contractId: AccountId, tokens: seq<TokenId>): (keys: seq<string>)
    ensures |keys| == |tokens|
    ensures forall i | 0 <= i < |tokens| :: keys[i] == SaleKey(contractId, tokens[i])
  {
    seq(|tokens|, i requires 0 <= i < |tokens| => SaleKey(contractId, tokens[i]))
  }

  /** A rebuilt key has no sale exactly when one of the tokens has none under its key. */
  lemma KeysOfMissing(m: Market, contractId: AccountId, tokens: seq<TokenId>)
    ensures (exists k | k in KeysOf(contractId, tokens) :: k !in m.sales.entries)
        <==> exists t | t in tokens :: SaleKey(contractId, t) !in m.sales.entries
  {
    var keys := KeysOf(contractId, tokens);
    if t :| t in tokens && SaleKey(contractId, t) !in m.sales.entries {
      var i :| 0 <= i < |tokens| && tokens[i] == t;
      assert keys[i] in keys;
    }
    if k :| k in keys && k !in m.sales.entries {
      var i :| 0 <= i < |keys| && keys[i] == k;
      assert tokens[i] in tokens;
    }
  }

  /** In a consistent market every token drawn from a contract's set has a sale of that
      contract and token under its rebuilt key. */
  lemma ContractKeysListed(m: Market, contractId: AccountId, tokens: seq<TokenId>)
    requires contractId in m.byContractId
    requires forall i | 0 <= i < |tokens| :: tokens[i] in m.byContractId[contractId]
    ensures Consistent(m) ==>
      forall i | 0 <= i < |tokens| ::
        && SaleKey(contractId, tokens[i]) in m.sales.entries
        && m.sales.entries[SaleKey(contractId, tokens[i])].nftContractId == contractId
        && m.sales.entries[SaleKey(contractId, tokens[i])].tokenId == tokens[i]
  {
  }
}
