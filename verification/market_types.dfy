/** The marketplace's state (market-contract/src/lib.rs): sales keyed by
    `nft_contract_id + "." + token_id`, two secondary indices over them, and a ledger of
    storage deposits; the effects its entry points emit; the invariant that ties the
    indices to the sales; and the storage-deposit entry points. */
module MarketTypes {
  import opened Near
  import opened Collections

  type TokenId = string

  /** `env::STORAGE_PRICE_PER_BYTE` of near_sdk 3.x: 10^19 yoctoNEAR per byte. */
  const STORAGE_PRICE_PER_BYTE: nat := 10_000_000_000_000_000_000

  /** A listing pays for 1000 bytes. */
  const STORAGE_PER_SALE: nat := 1000 * STORAGE_PRICE_PER_BYTE

  /** The asking price: an amount of NEAR (`isNative`) or of the NEP-141 token issued by
      `contractId`. `decimals` is carried and never read. */
  datatype SalePrice = SalePrice(isNative: bool, contractId: AccountId, decimals: nat, amount: nat)

  /** A listing of the first storage layout, priced by a bare amount. */
  datatype SaleV1 = SaleV1(ownerId: AccountId, approvalId: nat, nftContractId: AccountId, tokenId: TokenId,
                           saleConditions: nat)

  datatype Sale = Sale(ownerId: AccountId, approvalId: nat, nftContractId: AccountId, tokenId: TokenId,
                       saleConditions: SalePrice)

  /** The first storage layout (`ContractV1`). */
  datatype MarketV1 = MarketV1(
    ownerId: AccountId,
    sales: UnorderedMap<string, SaleV1>,
    byOwnerId: map<AccountId, seq<string>>,
    byContractId: map<AccountId, seq<TokenId>>,
    storageDeposit: map<AccountId, nat>)

  /** The market contract's state: `sales` is an UnorderedMap, `by_owner_id` and
      `by_contract_id` are LookupMaps of UnorderedSets, `storage_deposit` a LookupMap. */
  datatype Market = Market(
    ownerId: AccountId,
    sales: UnorderedMap<string, Sale>,
    byOwnerId: map<AccountId, seq<string>>,
    byContractId: map<AccountId, seq<TokenId>>,
    storageDeposit: map<AccountId, nat>)

  /** The reasons a call panics. */
  datatype MarketError =
    | RequiresOneYocto          // assert_one_yocto
    | DepositBelowMinimum       // storage_deposit below STORAGE_PER_SALE
    | StorageStillRequired      // storage_withdraw would leave listings uncovered
    | NotCrossContractCall      // nft_on_approve called directly by the signer
    | OwnerNotSigner            // nft_on_approve for someone else's token
    | StorageNotCovered         // no deposit for one more listing
    | InvalidSaleArgs           // the message does not parse
    | SaleNotFound              // expect on sales
    | OwnerIndexMissing         // expect on by_owner_id
    | ContractIndexMissing      // expect on by_contract_id
    | NotSaleOwner              // the caller must be the seller
    | RequiresDeposit           // offer with nothing attached
    | BuyerIsSeller             // bid on one's own sale
    | DepositBelowPrice         // offer below the asking price
    | NotNativePrice            // offer on a sale priced in a fungible token
    | WrongFtContract           // tokens from another contract than the price names
    | InvalidPayout             // expect on the payout object
    | SaleMissing               // unwrap of a listed key that has no sale

  /** How a purchase pays: in NEAR, or in the fungible token of a contract. */
  datatype Currency = Native | FungibleToken(contractId: AccountId)

  /** The callback a purchase schedules after `nft_transfer_payout`. */
  datatype PurchaseCallback =
    | ResolvePurchase(buyerId: AccountId, price: nat)
    | FtResolvePurchase(buyerId: AccountId, salePrice: SalePrice)

  /** Promises an entry point emits. */
  datatype MarketEffect =
    | Transfer(receiver: AccountId, amount: nat)
      /** `ft_transfer` on the token contract `ftContractId`, 1 yoctoNEAR attached. */
    | FtTransfer(ftContractId: AccountId, receiver: AccountId, amount: nat)
      /** `nft_transfer_payout` on `nftContractId` with 1 yoctoNEAR, then `callback` here. */
    | NftTransferPayout(nftContractId: AccountId, receiver: AccountId, tokenId: TokenId, approvalId: nat,
                        memo: string, balance: nat, maxLenPayout: nat, callback: PurchaseCallback)
      /** `env::log` of a message. */
    | Log(message: string)

  type MarketResult<R> = Result<Step<Market, MarketEffect, R>, MarketError>

  /** The accounts some effect sends to. */
  function Receivers(effects: seq<MarketEffect>): set<AccountId> {
    set e | e in effects && !e.Log? :: e.receiver
  }

  /** A transfer of NEAR or of a fungible token. */
  predicate IsPayment(e: MarketEffect) {
    e.Transfer? || e.FtTransfer?
  }

  /** A payment made in `currency`: a NEAR transfer, or an `ft_transfer` on the
      currency's token contract. */
  predicate InCurrency(e: MarketEffect, currency: Currency) {
    match currency
    case Native => e.Transfer?
    case FungibleToken(contractId) => e.FtTransfer? && e.ftContractId == contractId
  }

  /** A payment of `amount` to `receiver` in `currency`. */
  function Pay(currency: Currency, receiver: AccountId, amount: nat): (e: MarketEffect)
    ensures IsPayment(e) && InCurrency(e, currency)
    ensures e.receiver == receiver && e.amount == amount
    ensures e.FtTransfer? <==> currency.FungibleToken?
    ensures e.FtTransfer? ==> e.ftContractId == currency.contractId
  {
    match currency
    case Native => Transfer(receiver, amount)
    case FungibleToken(contractId) => FtTransfer(contractId, receiver, amount)
  }

  /** The key of a sale: `format!("{}{}{}", nft_contract_id, ".", token_id)`. */
  function SaleKey(nftContractId: AccountId, tokenId: TokenId): string {
    nftContractId + "." + tokenId
  }

  /** For one contract, the key determines the token. */
  lemma SaleKeyDeterminesToken(nftContractId: AccountId, t1: TokenId, t2: TokenId)
    requires SaleKey(nftContractId, t1) == SaleKey(nftContractId, t2)
    ensures t1 == t2
  {
    assert t1 == SaleKey(nftContractId, t1)[|nftContractId| + 1..];
    assert t2 == SaleKey(nftContractId, t2)[|nftContractId| + 1..];
  }

  // ---------------------------------------------------------------------------
  // The sale map and its indices agree

  /** Every sale is stored under the key of its own contract and token. */
  ghost predicate SalesKeyed(sales: map<string, Sale>) {
    forall k | k in sales :: k == SaleKey(sales[k].nftContractId, sales[k].tokenId)
  }

  /** Every key in a seller's set is a sale of that seller. */
  ghost predicate OwnerIndexSound(byOwnerId: map<AccountId, seq<string>>, sales: map<string, Sale>) {
    forall a, k | a in byOwnerId && k in byOwnerId[a] :: k in sales && sales[k].ownerId == a
  }

  /** Every sale is in its seller's set. */
  ghost predicate OwnerIndexComplete(byOwnerId: map<AccountId, seq<string>>, sales: map<string, Sale>) {
    forall k | k in sales :: sales[k].ownerId in byOwnerId && k in byOwnerId[sales[k].ownerId]
  }

  /** Every token in a contract's set has a sale of that contract and token. */
  ghost predicate ContractIndexSound(byContractId: map<AccountId, seq<TokenId>>, sales: map<string, Sale>) {
    forall c, t | c in byContractId && t in byContractId[c] ::
      SaleKey(c, t) in sales && sales[SaleKey(c, t)].nftContractId == c && sales[SaleKey(c, t)].tokenId == t
  }

  /** Every sale's token is in its contract's set. */
  ghost predicate ContractIndexComplete(byContractId: map<AccountId, seq<TokenId>>, sales: map<string, Sale>) {
    forall k | k in sales ::
      sales[k].nftContractId in byContractId && sales[k].tokenId in byContractId[sales[k].nftContractId]
  }

  /** The sale map and both indices describe the same listings, and no index keeps an
      empty set. */
  ghost predicate Consistent(m: Market) {
    && m.sales.Valid()
    && SalesKeyed(m.sales.entries)
    && SetsWellFormed(m.byOwnerId)
    && SetsWellFormed(m.byContractId)
    && OwnerIndexSound(m.byOwnerId, m.sales.entries)
    && OwnerIndexComplete(m.byOwnerId, m.sales.entries)
    && ContractIndexSound(m.byContractId, m.sales.entries)
    && ContractIndexComplete(m.byContractId, m.sales.entries)
  }

  /** Every account's deposit pays for all of its listings. */
  ghost predicate StorageCovers(m: Market) {
    forall a | a in m.byOwnerId :: StorageBalanceOf(m, a) >= |m.byOwnerId[a]| * STORAGE_PER_SALE
  }

  // ---------------------------------------------------------------------------
  // Initialisation and migration

  /** `new`: no sales, no index sets, no deposits. */
  function New(ownerId: AccountId): (m: Market)
    ensures Consistent(m) && StorageCovers(m)
    ensures m.sales.Len() == 0 && m.sales.entries == map[]
    ensures m.byOwnerId == map[] && m.byContractId == map[] && m.storageDeposit == map[]
    ensures m.ownerId == ownerId
  {
    Market(ownerId, EmptyMap(), map[], map[], map[])
  }

  /** `migrate` (`From<ContractV1>`): the sales of the first layout are dropped, while
      the owner, both indices and the deposits carry over unchanged. */
  function Migrate(v1: MarketV1): (m: Market)
    ensures m.sales.Valid() && m.sales.entries == map[]
    ensures m.ownerId == v1.ownerId && m.byOwnerId == v1.byOwnerId && m.byContractId == v1.byContractId
    ensures m.storageDeposit == v1.storageDeposit
  {
    Market(v1.ownerId, EmptyMap(), v1.byOwnerId, v1.byContractId, v1.storageDeposit)
  }

  /** Migration leaves a consistent market exactly when the first layout had no index
      entries: every key or token an index carries over points at a sale that is gone. */
  lemma MigrationConsistentIff(v1: MarketV1)
    ensures Consistent(Migrate(v1)) <==> v1.byOwnerId == map[] && v1.byContractId == map[]
  {
    var m := Migrate(v1);
    if v1.byOwnerId != map[] {
      var a :| a in v1.byOwnerId;
      if |v1.byOwnerId[a]| > 0 {
        var k := v1.byOwnerId[a][0];
        assert a in m.byOwnerId && k in m.byOwnerId[a] && k !in m.sales.entries;
        assert !OwnerIndexSound(m.byOwnerId, m.sales.entries);
      }
    } else if v1.byContractId != map[] {
      var c :| c in v1.byContractId;
      if |v1.byContractId[c]| > 0 {
        var t := v1.byContractId[c][0];
        assert c in m.byContractId && t in m.byContractId[c] && SaleKey(c, t) !in m.sales.entries;
        assert !ContractIndexSound(m.byContractId, m.sales.entries);
      }
    }
  }

  // ---------------------------------------------------------------------------
  // Storage deposits

  /** `storage_balance_of`: the deposit held for the account, 0 for an unknown one. */
  function StorageBalanceOf(m: Market, accountId: AccountId): (r: nat)
    ensures accountId !in m.storageDeposit ==> r == 0
    ensures accountId in m.storageDeposit ==> r == m.storageDeposit[accountId]
  {
    if accountId in m.storageDeposit then m.storageDeposit[accountId] else 0
  }

  /** `storage_minimum_balance`: the deposit one listing needs, 10^22 yoctoNEAR. */
  function StorageMinimumBalance(): (r: nat)
    ensures r == 10_000_000_000_000_000_000_000
  {
    STORAGE_PER_SALE
  }

  /** `storage_deposit`: at least one listing's worth must be attached; all of it is
      credited to `accountId`, or to the caller when none is named. */
  function StorageDeposit(m: Market, predecessor: AccountId, attached: nat, accountId: Option<AccountId>)
    : (r: MarketResult<()>)
    ensures r.Failure? <==> attached < STORAGE_PER_SALE
    ensures r.Failure? ==> r.error == DepositBelowMinimum
    ensures r.Ok? ==>
      var beneficiary := accountId.GetOr(predecessor);
      && r.value.effects == []
      && StorageBalanceOf(r.value.state, beneficiary) == StorageBalanceOf(m, beneficiary) + attached
      && r.value.state.storageDeposit.Keys == m.storageDeposit.Keys + {beneficiary}
      && (forall a | a != beneficiary :: StorageBalanceOf(r.value.state, a) == StorageBalanceOf(m, a))
      && r.value.state == m.(storageDeposit := r.value.state.storageDeposit)
    ensures r.Ok? && StorageCovers(m) ==> StorageCovers(r.value.state)
  {
    if attached < STORAGE_PER_SALE then Failure(DepositBelowMinimum)
    else
      var beneficiary := accountId.GetOr(predecessor);
      var balance := StorageBalanceOf(m, beneficiary) + attached;
      Ok(Step(m.(storageDeposit := m.storageDeposit[beneficiary := balance]), [], ()))
  }

  /** `get_supply_by_owner_id` (market-contract/src/sale_view.rs), which the storage
      checks use: the size of the account's set, 0 when it has none. In a consistent
      market that is the number of the account's sales. */
  function GetSupplyByOwnerId(m: Market, accountId: AccountId): (r: nat)
    ensures accountId !in m.byOwnerId ==> r == 0
    ensures Consistent(m) ==> r == |set k | k in m.sales.entries && m.sales.entries[k].ownerId == accountId|
  {
    OwnerSupplyCounts(m, accountId);
    |Members(m.byOwnerId, accountId)|
  }

  lemma OwnerSupplyCounts(m: Market, accountId: AccountId)
    ensures Consistent(m) ==>
      |Members(m.byOwnerId, accountId)| == |set k | k in m.sales.entries && m.sales.entries[k].ownerId == accountId|
  {
    if Consistent(m) {
      var listed := Members(m.byOwnerId, accountId);
      if accountId in m.byOwnerId {
        DistinctSize(listed);
      }
      assert (set k | k in listed) == (set k | k in m.sales.entries && m.sales.entries[k].ownerId == accountId);
    }
  }

  /** `storage_withdraw`: with exactly 1 yoctoNEAR, the caller takes back everything
      above what its current listings need; that much stays deposited (nothing when it
      is 0). Panics when the deposit does not cover the listings. */
  function StorageWithdraw(m: Market, predecessor: AccountId, attached: nat): (r: MarketResult<()>)
    ensures r.Failure? <==>
      attached != 1 || StorageBalanceOf(m, predecessor) < GetSupplyByOwnerId(m, predecessor) * STORAGE_PER_SALE
    ensures attached != 1 ==> r == Failure(RequiresOneYocto)
    ensures r.Ok? ==>
      var required := GetSupplyByOwnerId(m, predecessor) * STORAGE_PER_SALE;
      var refund := StorageBalanceOf(m, predecessor) - required;
      && StorageBalanceOf(r.value.state, predecessor) == required
      && (predecessor in r.value.state.storageDeposit <==> required > 0)
      && (forall a | a != predecessor :: StorageBalanceOf(r.value.state, a) == StorageBalanceOf(m, a))
      && r.value.state == m.(storageDeposit := r.value.state.storageDeposit)
      && (refund > 0 ==> r.value.effects == [Transfer(predecessor, refund)])
      && (refund == 0 ==> r.value.effects == [])
    ensures r.Ok? && StorageCovers(m) ==> StorageCovers(r.value.state)
  {
    if attached != ONE_YOCTO then Failure(RequiresOneYocto)
    else
      var amount := StorageBalanceOf(m, predecessor);
      var required := GetSupplyByOwnerId(m, predecessor) * STORAGE_PER_SALE;
      if amount < required then Failure(StorageStillRequired)
      else
        var diff := amount - required;
        var effects := if diff > 0 then [Transfer(predecessor, diff)] else [];
        var deposits := m.storageDeposit - {predecessor};
        var deposits' := if required > 0 then deposits[predecessor := required] else deposits;
        Ok(Step(m.(storageDeposit := deposits'), effects, ()))
  }

  /** A deposit followed by a withdrawal gives an account without listings all of it
      back and leaves no entry for it. */
  lemma DepositThenWithdraw(m: Market, accountId: AccountId, attached: nat)
    requires attached >= STORAGE_PER_SALE
    requires accountId !in m.storageDeposit && accountId !in m.byOwnerId
    ensures var d := StorageDeposit(m, accountId, attached, None);
      && d.Ok?
      && var w := StorageWithdraw(d.value.state, accountId, 1);
      && w.Ok?
      && w.value.effects == [Transfer(accountId, attached)]
      && w.value.state.storageDeposit == m.storageDeposit
  {
    var d := StorageDeposit(m, accountId, attached, None);
    var w := StorageWithdraw(d.value.state, accountId, 1);
    assert GetSupplyByOwnerId(d.value.state, accountId) == 0;
    assert w.value.state.storageDeposit == d.value.state.storageDeposit - {accountId};
  }
}
