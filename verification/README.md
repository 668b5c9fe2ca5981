# NFT contract and marketplace on NEAR, in Dafny

This project models the two smart contracts of the NEAR NFT marketplace tutorial.

The **NFT contract** follows NEP-171, NEP-177, NEP-178, NEP-181 and NEP-199. It:
- mints tokens and stores their metadata;
- keeps a per-owner index of tokens;
- transfers tokens, either plainly or with a call to the receiver and a resolve callback that can roll the transfer back;
- manages per-token approvals with an approval-id counter;
- lists tokens in pages;
- computes royalty payouts in basis points.

The **market contract** does the following:
- takes storage deposits, 10^22 yoctoNEAR per listing;
- lists a token when the NFT contract calls `nft_on_approve`;
- lets the seller cancel or reprice a listing;
- sells a token for NEAR (`offer`) or for a NEP-141 fungible token (`ft_on_transfer`);
- settles each sale in a callback (`resolve_purchase`, `ft_resolve_purchase`). The callback checks the payout returned by `nft_transfer_payout`, then pays every payout account or refunds the buyer.

**How the model is written.** Every entry point is a pure function or a method on an immutable contract state. It returns either a failure, which stands for a panic and leaves the state as it was, or a `Step`. A `Step` holds:
- the new state;
- the promises and logs the call emits, as records;
- the return value.

Cross-contract calls appear only as records. A callback takes the outcome of the promise it waits for as a `PromiseResult`: the call failed, or it returned a value that does or does not parse. The `Settlement` module chains one NEAR purchase across both contracts:
1. `offer` on the market;
2. `nft_transfer_payout` on the NFT contract;
3. `resolve_purchase` on the market.

**Collections.** The near-sdk collections are modelled with the order they iterate in:
- an `UnorderedSet` is a distinct sequence whose removal is swap-remove;
- an `UnorderedMap` is a key vector plus a map;
- pagination is a skip-then-take of that sequence, and `usize` casts truncate to 32 bits.

Rust `HashMap` iteration has no fixed order. Loops over a `HashMap` are methods that choose an arbitrary order, and their contracts hold for every order.

**Where the code departs from its own comments (nft-contract/src/nft_core.rs:17 and :23) or from the NEP standards it implements, or does something a caller may not expect, the model follows the code:**
- `internal_transfer` accepts only the token's owner as sender, although NEP-178 lets an approved account transfer. An approved account cannot transfer a token, even with the right approval id, because the approval id is accepted and ignored. A market purchase therefore reaches the payout only when the market account itself owns the token. Otherwise `nft_transfer_payout` panics and the buyer is refunded, with the sale already removed (`Settlement.Purchase`).
- The comments at nft_core.rs:17 and :23 say that a receiver answering `true` asks for a rollback. In `nft_resolve_transfer`, a receiver answer that parses as a boolean `b` instead returns `!b` and changes nothing. Only a failed call, or an answer that does not parse, rolls the transfer back.
- The payout of `nft_payout` falls short of the balance by up to one yoctoNEAR per royalty account, while the market's check accepts a payout only when it is short by at most one in all. `NftRoyalty.ShortfallExceedsOne` exhibits a shortfall of two. A payout that is short by more than one is refused by the market's check, and the buyer is refunded.
- `nft_is_approved` takes an optional approval id but unwraps it when the account is approved, so an approved account queried without an id panics. For an unapproved account it answers `false` whatever the id.
- `ft_on_transfer` does not check that the sale is priced in a fungible token. It splits or refunds the listed amount, not the amount sent, and `ft_resolve_purchase` always reports 0 tokens unused, although NEP-141 lets a receiver return what it did not use. Whatever the buyer sends beyond the listed amount therefore stays with the market.
- `resolve_purchase` and `ft_resolve_purchase` are not marked private. `process_purchase` is.

## Model

| member | source | states |
|---|---|---|
| `NftTypes.New` | nft-contract/src/lib.rs:58-69 | A new contract has no tokens, no token metadata and no owner sets, keeps the given metadata, and satisfies the owner-index invariant `Valid`. |
| `NftTypes.NewDefaultMetadata` | nft-contract/src/lib.rs:72-84 | Initialises with spec "nft-tutorial-1.0.0", name "VBI NFT Tutorial", symbol "VNFT" and no icon, base URI, reference or hash; the state is valid and empty. |
| `NftTypes.OwnerIndexAgrees` | nft-contract/src/lib.rs:32-42 | In a valid state a token is in an account's owner set exactly when the stored token names that account as owner. |
| `NftTypes.SameOwnersSameIndex` | nft-contract/src/lib.rs:32-42 | Two valid states that store the same tokens with the same owners have owner sets with the same members. |
| `NftTypes.SameOwnersAfterRewrite` | nft-contract/src/lib.rs:32-42 | Rewriting one stored token without changing its owner leaves every owner set's members unchanged. |
| `NftUtils.RefundDeposit` | nft-contract/src/utils.rs:11-26 | Panics exactly when the storage cost exceeds the deposit. Otherwise it refunds the excess to the caller, and emits nothing when the excess is at most 1 yoctoNEAR. |
| `NftUtils.AssertOneYocto` | nft-contract/src/utils.rs:28-31 | Succeeds exactly when exactly 1 yoctoNEAR is attached. |
| `NftInternal.AddTokenToOwner` | nft-contract/src/internal.rs:5-18 | The account's set afterwards holds its old members plus the token, stays distinct, and is created when missing. Every other account's set is unchanged. |
| `NftInternal.RemoveTokenFromOwner` | nft-contract/src/internal.rs:20-29 | Fails exactly when the account has no set. Otherwise the token leaves that set, and a set left empty is removed. Other accounts are unchanged. |
| `NftInternal.InternalTransfer` | nft-contract/src/internal.rs:39-66 | Fails exactly when the token is unknown, the sender is not its owner, the receiver is the owner, or the owner has no set. On success the token changes owner, loses its approvals, keeps its counter and royalty, moves between the owner sets, and keeps `Valid`. Its only effect is the memo log, written exactly when a memo is given. |
| `NftInternal.MoveKeepsIndex` | nft-contract/src/internal.rs:52-59 | Moving a token between owner sets while storing it under its new owner keeps the owner index sound, complete and well formed. |
| `NftMint.NftMint` | nft-contract/src/mint.rs:15-35 | Fails exactly on an existing token id or when the deposit does not cover the storage. On success it stores the token with the receiver as owner, no approvals, counter 0 and no royalty, stores the metadata, adds the token to the receiver's set, and keeps `Valid`. |
| `NftMint.MintKeepsValid` | nft-contract/src/mint.rs:22-30 | Adding a fresh token to the store and to its owner's set keeps the owner-index invariant. |
| `NftMint.NftToken` | nft-contract/src/mint.rs:37-51 | An unknown id gives `None`. A stored token gives its owner, id and metadata. In a valid state the view never panics. |
| `NftMint.MintThenView` | nft-contract/src/mint.rs:15-51 | Minting an unused id with a deposit that covers the storage succeeds in a valid state. Viewing the token afterwards shows the receiver as owner, with the metadata it was minted with. |
| `NftApproval.NftApprove` | nft-contract/src/approval.rs:28-60 | Fails exactly when there is no deposit, the token is unknown, the caller is not the owner, or a new entry's storage is not covered by the deposit. On success the account gets the token's current counter as approval id and the counter is incremented. Other approvals and tokens are unchanged, and validity is kept. The effects are the refund of the deposit minus the storage of a new entry, then, when a message is given, `nft_on_approve` with the issued approval id. Every approval id stays below its token's counter. |
| `NftApproval.ReapproveIsFree` | nft-contract/src/approval.rs:35-47 | The owner re-approving an already approved account succeeds with any deposit of at least 1 yoctoNEAR. No storage is charged: the whole deposit is refunded when it exceeds 1 yoctoNEAR (refunds of 1 or less are not sent). |
| `NftApproval.ApprovalIdsNeverRepeat` | nft-contract/src/approval.rs:35-45 | Two approvals in a row on the same token issue consecutive ids, so an id is never issued twice. |
| `NftApproval.NftIsApproved` | nft-contract/src/approval.rs:63-77 | True exactly when the account holds an approval whose id equals the given one. Panics exactly for an unknown token, or for an approved account when no id is given. An unapproved account gets `false`. |
| `NftApproval.NftRevoke` | nft-contract/src/approval.rs:81-93 | With exactly 1 yoctoNEAR the owner removes one account's approval, and its storage is refunded when it existed. Nothing else changes. |
| `NftApproval.NftRevokeAll` | nft-contract/src/approval.rs:96-109 | With exactly 1 yoctoNEAR the owner clears all approvals and refunds their storage. The counter is kept. |
| `NftCore.NftTransfer` | nft-contract/src/nft_core.rs:50-63 | Fails exactly when the deposit is not 1 yoctoNEAR or the internal transfer fails. On success only that token changes: new owner, no approvals. The receiver's set gains it and the sender's loses it. The effects are exactly the internal transfer's memo log followed by one refund of the old approvals' storage to the sender. |
| `NftCore.TransferThenView` | nft-contract/src/lib.rs:171-178 | In a valid state, after a successful owner transfer with 1 yoctoNEAR, `nft_token` shows the receiver as owner, with the same token id and the unchanged metadata. |
| `NftCore.NftTransferCall` | nft-contract/src/nft_core.rs:66-102 | Transfers as the plain transfer does, then calls the receiver with a resolve scheduled. The effects are exactly the memo log followed by one `nft_on_transfer` call, whose resolve carries the previous owner and approvals. No approval refund is emitted here. |
| `NftCore.NftResolveTransfer` | nft-contract/src/nft_core.rs:107-162 | A parsed answer `b` gives `!b` and no change. Otherwise a token that is gone, or no longer the receiver's, keeps its owner and the old approvals are refunded. Otherwise the token goes back to its previous owner with its old approvals, returns `false`, and keeps `Valid`. |
| `NftCore.FailedTransferCallRollsBack` | nft-contract/src/nft_core.rs:66-162 | In a valid state the owner's transfer-and-call with 1 yoctoNEAR succeeds. When the receiver's call then fails and the resolve runs, every stored token and every owner set is restored exactly, and the resolve reports that no transfer happened. |
| `NftCore.OwnerCanTransfer` | nft-contract/src/nft_core.rs:50-63 | In a valid state the owner can always transfer its token, with 1 yoctoNEAR, to any other account. |
| `NftCore.TransferRewritesOneToken` | nft-contract/src/internal.rs:55-59 | A transfer stores the same token record with the new owner and no approvals, and nothing else in the store changes. |
| `NftCore.TransferThereAndBack` | nft-contract/src/nft_core.rs:50-63 | A transfer and the transfer back both succeed. Every token and every owner set is restored, except that the token's approvals are cleared. |
| `NftCore.MintTransferScenario` | nft-contract/src/lib.rs:150-179 | A fresh contract mints "vbi_nft" to alice, who transfers it to bob. The view then shows bob as owner with the minted metadata. |
| `NftEnumeration.NftTotalSupply` | nft-contract/src/enumeration.rs:6-8 | In a valid state this is the number of stored tokens. |
| `NftEnumeration.NftSupplyForOwner` | nft-contract/src/enumeration.rs:11-18 | 0 for an account without a set. In a valid state it is the number of tokens the account owns. |
| `NftEnumeration.NftTokens` | nft-contract/src/enumeration.rs:21-31 | At most `limit` views, none without a limit. It panics exactly when a paged id has no token or no metadata, which a valid state never allows. Each view is `nft_token` of the metadata key at its position after `from_index`: that token's owner, its id and its stored metadata. |
| `NftEnumeration.NftTokensForOwner` | nft-contract/src/enumeration.rs:34-51 | Empty for an account without a set, at most `limit` views. It panics exactly when a paged id has no token or no metadata. Each view is `nft_token` of the id at its position in the account's set: owner, id and stored metadata. In a valid state it never panics and every view is owned by the account. |
| `NftRoyalty.ComputePayout` | nft-contract/src/royalty.rs:35-47 | Fails when the royalty table is longer than `max_len_payout` (compared as u32), or when the non-owner basis points exceed 10000. Otherwise every non-owner royalty account gets the floor of its share, and the owner gets the floor of the rest. This holds for any iteration order. |
| `NftRoyalty.ShareIsFloor` | nft-contract/src/royalty.rs:40-47 | A share is the exact fraction of the balance rounded down: it is at most the exact amount and less than one yoctoNEAR below it. |
| `NftRoyalty.PayoutReceivers` | nft-contract/src/royalty.rs:37-47 | The payout pays the non-owner royalty accounts and the owner: at least one account, and at most one more than the table has. |
| `NftRoyalty.PayoutWithinBalance` | nft-contract/src/royalty.rs:37-47 | The payout never exceeds the balance, and falls short of it by at most one yoctoNEAR per non-owner royalty account. |
| `NftRoyalty.PayoutExample` | nft-contract/src/royalty.rs:37-47 | Royalty {A: 500, B: 300} on a balance of 1000 pays A 50, B 30 and the owner 920. |
| `NftRoyalty.ShortfallExceedsOne` | nft-contract/src/royalty.rs:37-47 | Royalty {A: 3333, B: 3333} on a balance of 3 pays 1 in all, two short. |
| `NftRoyalty.NftPayout` | nft-contract/src/royalty.rs:25-50 | An unknown token panics. Otherwise the result is the payout of the token's owner and royalty table, and it fails only for an over-long table or over-allocated basis points. |
| `NftRoyalty.NftTransferPayout` | nft-contract/src/royalty.rs:53-98 | Succeeds only with 1 yoctoNEAR and a successful owner transfer. It then changes the state as `nft_transfer` does and returns the payout of the previous owner. A royalty table longer than the caller's limit (its length taken modulo 2^32) fails with too many receivers. Any payout failure undoes the transfer. |
| `MarketTypes.Pay` | market-contract/src/sale.rs:136-145 | A payment of an amount to an account is a NEAR transfer or an `ft_transfer` on the sale's token contract, according to the currency. |
| `MarketTypes.SaleKeyDeterminesToken` | market-contract/src/sale.rs:55 | For one NFT contract, the sale key determines the token id. |
| `MarketTypes.New` | market-contract/src/lib.rs:125-133 | A new market has no sales, indices or deposits. It is consistent and every listing is paid for. |
| `MarketTypes.Migrate` | market-contract/src/lib.rs:93-105 | Migration drops the old sales and keeps the owner, both index maps and the deposits. |
| `MarketTypes.MigrationConsistentIff` | market-contract/src/lib.rs:183-186 | The migrated market is consistent exactly when the old layout had no index entries. |
| `MarketTypes.StorageDeposit` | market-contract/src/lib.rs:136-146 | Fails exactly when less than one listing's storage is attached. Otherwise the whole deposit is added to the named account, or to the caller, and every listing stays paid for. |
| `MarketTypes.StorageWithdraw` | market-contract/src/lib.rs:149-171 | Needs exactly 1 yoctoNEAR. It pays the caller the part of its deposit not needed by its listings, keeps the needed part, and keeps every listing paid for. |
| `MarketTypes.StorageBalanceOf` | market-contract/src/lib.rs:177-179 | The deposit held for the account, 0 for an unknown account. |
| `MarketTypes.StorageMinimumBalance` | market-contract/src/lib.rs:173-175 | One listing's storage: 1000 bytes at 10^19 yoctoNEAR, i.e. 10^22. |
| `MarketTypes.DepositThenWithdraw` | market-contract/src/lib.rs:136-171 | An account without listings that deposits and then withdraws gets the whole deposit back, and the deposit table is as it was before. |
| `MarketTypes.GetSupplyByOwnerId` | market-contract/src/sale_view.rs:11-18 | 0 for an account without a set. In a consistent market it is the number of that seller's sales. |
| `MarketInternal.InternalRemoveSale` | market-contract/src/internal.rs:5-28 | Fails exactly when no sale is under the key, or the seller's or contract's index set is missing. Otherwise the key leaves the sales, the seller's set and the contract's set, the removed sale is returned, and deposits still cover all listings. |
| `MarketInternal.RemoveKeepsConsistent` | market-contract/src/internal.rs:5-28 | Removing a sale through its own contract and token keeps the sale map and both indices consistent. |
| `MarketInternal.RemoveTwiceFails` | market-contract/src/internal.rs:5-28 | Removing the same listing a second time fails. |
| `MarketInternal.SaleKeyNotInjective` | market-contract/src/internal.rs:6 | The key "contract.token" does not determine the pair: ("a.b", "c") and ("a", "b.c") share a key. |
| `MarketInternal.CollidingRemoveBreaksConsistency` | market-contract/src/internal.rs:5-28 | Removing through a colliding key deletes another contract's sale while its token stays indexed, so the market stops being consistent. |
| `MarketNftCallback.NftOnApprove` | market-contract/src/nft_callback.rs:17-69 | Fails when called directly (caller equals signer), when the signer is not the owner, when the message does not parse, or when the owner's deposit does not cover one more listing. Otherwise the sale is stored under its key with the given approval id and price, and indexed for the seller and the contract. Every listing stays paid for. |
| `MarketNftCallback.ListingKeepsConsistent` | market-contract/src/nft_callback.rs:43-68 | A new listing, or a seller re-listing their own sale of the same contract and token, keeps the market consistent. |
| `MarketNftCallback.RelistKeepsIndices` | market-contract/src/nft_callback.rs:43-68 | Re-listing one's own sale changes only the sale record; both indices are unchanged. |
| `MarketNftCallback.RelistByOtherOwnerBreaksConsistency` | market-contract/src/nft_callback.rs:43-68 | A new owner listing a token that is still on sale by its previous owner overwrites the sale. The previous owner's set keeps the key, so the market is no longer consistent. |
| `MarketNftCallback.CollidingListingBreaksConsistency` | market-contract/src/nft_callback.rs:43-68 | Listing a token whose key collides with another contract's sale overwrites that sale, so the market is no longer consistent. |
| `MarketSale.RemoveSale` | market-contract/src/sale.rs:42-49 | Succeeds exactly with 1 yoctoNEAR, an existing sale and the seller as caller, unless the internal removal finds no index set for the seller or for the named contract. It then removes the sale exactly as the internal removal does, and deposits still cover all listings. |
| `MarketSale.UpdatePrice` | market-contract/src/sale.rs:52-62 | Fails exactly without 1 yoctoNEAR, without a sale, or for a caller other than the seller. Otherwise only the sale's price changes; the key order, indices and deposits stay, and consistency is kept. |
| `MarketSale.ProcessPurchase` | market-contract/src/sale.rs:91-112 | Removes the sale and calls `nft_transfer_payout` for the buyer with the sale's approval id, the memo, the balance and at most 10 receivers, with `resolve_purchase` scheduled. |
| `MarketSale.Offer` | market-contract/src/sale.rs:65-88 | Fails exactly without a deposit or a sale, for the seller as buyer, for a deposit below the price, for a price not in NEAR, or when the internal removal finds no index set for the seller or for the named contract. Otherwise its new state is exactly the internal removal's, and it splits the whole deposit, not just the price. |
| `MarketSale.CheckedRemainder` | market-contract/src/sale.rs:122-126 | The `checked_sub` loop gives the price minus the payout's sum exactly when the sum does not exceed the price, whatever the iteration order. |
| `MarketSale.AcceptedPayout` | market-contract/src/sale.rs:115-134 | A result that does not parse panics. A failed call or an unacceptable payout refunds. A payout is accepted exactly when it has 1 to 10 accounts and its sum is the price or 1 less. A parsed payout with no accounts or more than 10 also logs "Cannot have more than 10 royalities". |
| `MarketSale.LoggedPayoutRefused` | market-contract/src/sale.rs:118-120 | A payout that draws the royalty log is refused whatever the price, so the log always comes with the buyer's refund. |
| `MarketSale.Distribute` | market-contract/src/sale.rs:143-145 | Pays every payout account exactly its amount, once each, and nobody else. The amounts paid add up to the payout's sum, for any iteration order. |
| `MarketSale.PaymentsAddUp` | market-contract/src/sale.rs:143-145 | Paying the accounts of an order in turn pays in total the payout's sum over the accounts in that order. |
| `MarketSale.ResolvePurchase` | market-contract/src/sale.rs:114-147 | Returns the price and leaves the market unchanged. When the payout is not accepted it refunds the buyer exactly the price in NEAR, after the royalty log when the payout had a wrong number of accounts. Otherwise it pays each payout account its amount once, paying in all at most the price and at least the price minus 1. |
| `MarketSale.ListThenCancel` | market-contract/src/sale.rs:42-49 | Listing a new sale in a consistent market and then cancelling it as its seller succeeds, and restores the sales, the deposits and both index sets. |
| `MarketSale.FullPayoutAccepted` | market-contract/src/sale.rs:118-133 | The payout {a: 50, b: 30, o: 920} for a price of 1000 is accepted. |
| `MarketSale.FlooredPayoutRefused` | market-contract/src/sale.rs:118-133 | The payout {a: 0, b: 0, o: 1} that a price of 3 with two 33.33% royalties yields is refused. |
| `MarketFtCallback.FtProcessPurchase` | market-contract/src/ft_callback.rs:52-72 | Removes the sale and calls `nft_transfer_payout` with the listed amount as the balance, with `ft_resolve_purchase` scheduled. |
| `MarketFtCallback.FtOnTransfer` | market-contract/src/ft_callback.rs:29-47 | Fails exactly for a message that does not parse, a missing sale, an amount below the listed amount, the seller as sender, a token contract other than the sale's, or when the internal removal finds no index set for the seller or for the named contract. Otherwise its new state is exactly the internal removal's, and it splits the listed amount. |
| `MarketFtCallback.NativeSaleBuyableWithTokens` | market-contract/src/ft_callback.rs:29-47 | A sale priced in NEAR can still be bought through `ft_on_transfer` with the token contract named in its price. |
| `MarketFtCallback.FtResolvePurchase` | market-contract/src/ft_callback.rs:74-123 | Returns 0 and leaves the market unchanged. Every transfer is an `ft_transfer` on the sale's token. It refunds exactly the listed amount when the payout is not accepted, after the royalty log when the payout had a wrong number of accounts; otherwise it pays each payout account once, within 1 of the listed amount. |
| `MarketViews.GetSupplySales` | market-contract/src/sale_view.rs:6-8 | The number of sales. |
| `MarketViews.GetSupplyByContractId` | market-contract/src/sale_view.rs:21-28 | 0 for a contract without a set. In a consistent market it is the number of that contract's tokens on sale. |
| `MarketViews.GetSales` | market-contract/src/sale_view.rs:30-37 | None without a limit, and none from an index past the last sale. Otherwise it returns `limit` sales or all that remain after `from_index`, whichever is fewer. Each is the sale of the key at its position after `from_index`. |
| `MarketViews.GetSalesListsAll` | market-contract/src/sale_view.rs:30-37 | One page from the start, with a limit of at least the number of sales, lists every sale. |
| `MarketViews.GetSalesByOwnerId` | market-contract/src/sale_view.rs:39-54 | Empty for an account without a set, and at most `limit` sales. It panics exactly when a paged key has no sale, which a consistent market never allows. Every sale it returns belongs to the account. |
| `MarketViews.GetSalesByContractId` | market-contract/src/sale_view.rs:56-71 | Empty for a contract without a set, and at most `limit` sales. It panics exactly when a paged token has no sale under its rebuilt key. In a consistent market it never panics, and each sale returned is the stored sale under the key rebuilt from the contract and the token at its position. |
| `Settlement.Purchase` | market-contract/src/sale.rs:65-147 | A NEAR purchase across both contracts fails exactly when `offer` does. It always removes the sale and pays out at most the deposit. While the market does not own the token, the NFT contract is untouched and the buyer gets the whole deposit back. The token changes hands only when the market owned it, and then the buyer owns it. |

## Left out

- Gas, the gas constants, `NO_DEPOSIT`, and the scheduling of promises are left out. Promises are records in the effects of a step.
- Storage use in bytes is a parameter of the calls that charge for it: minting, and the size of an approval entry (`bytes_for_approved_account_id` is not part of this model). The runtime constant `STORAGE_PRICE_PER_BYTE` is taken as 10^19 yoctoNEAR.
- Hashing (`hash_account_id`, SHA-256 storage prefixes), Borsh layout and JSON serialisation are left out. Parsing is an `Option`.
- The NFT contract's log lines (the memo, the rollback notice and the transfer event) are records of the values they format, without the formatted text. The market's one log line is a `Log` record carrying its message.
- `royalty_to_payout` is not part of this model. It is taken as the floor of `bp * balance / 10000`.
- NftRoyalty.ComputePayout: u128 overflow of `bp * balance` is not modelled. The u32 sum of basis points is taken to panic when it exceeds 10000.
- Callbacks take any state of their contract and any promise outcome. Other calls that interleave between a call and its callback are not modelled.
- `resolve_purchase` and `ft_resolve_purchase` can be called directly by anyone, because they are not private. Such calls are modelled like any other call: the model does not tie them to an earlier purchase.
- The `Token` struct literals in the source set only `owner_id`. The model's token always carries all four fields.
- Only the NEAR purchase is chained across both contracts (`Settlement.Purchase`). The fungible-token purchase is modelled one contract call at a time.
- MarketViews.GetSales requires the key vector of the sales map to agree with its entries, which is an invariant of near-sdk's `UnorderedMap`.
- The unit test `test_mint_token` is covered by `NftMint.MintThenView`. The test's gas and deposit set-up is not modelled.
