/** The NFT contract's state (nft-contract/src/lib.rs), the records it stores, the
    effects its entry points emit, and the invariant that ties its owner index to its
    token store. */
module NftTypes {
  import opened Near
  import opened Collections

  type TokenId = string

  /** A stored token. The source's struct literals set only `owner_id`, while other code
      reads the approvals, the approval counter and the royalty table, so the record
      carries all four. Approval ids and royalty basis points are plain numbers. */
  datatype Token = Token(
    ownerId: AccountId,
    approvedAccountIds: map<AccountId, nat>,
    nextApprovalId: nat,
    royalty: map<AccountId, nat>)

  /** Per-token metadata after NEP-177; the contract stores and returns it untouched. */
  datatype TokenMetadata = TokenMetadata(
    title: Option<string>,
    description: Option<string>,
    media: Option<string>,
    mediaHash: Option<string>,
    copies: Option<nat>,
    issuedAt: Option<nat>,
    expiresAt: Option<nat>,
    startsAt: Option<nat>,
    updatedAt: Option<nat>,
    extra: Option<string>,
    reference: Option<string>,
    referenceHash: Option<string>)

  /** Contract-level metadata after NEP-177. */
  datatype NftContractMetadata = NftContractMetadata(
    spec: string,
    name: string,
    symbol: string,
    icon: Option<string>,
    baseUri: Option<string>,
    reference: Option<string>,
    referenceHash: Option<string>)

  /** What `nft_token` returns. */
  datatype JsonToken = JsonToken(ownerId: AccountId, tokenId: TokenId, metadata: TokenMetadata)

  /** The contract state: `tokens_per_owner` is a LookupMap of UnorderedSets,
      `tokens_by_id` a LookupMap, `token_metadata_by_id` an UnorderedMap. */
  datatype Contract = Contract(
    ownerId: AccountId,
    tokensPerOwner: map<AccountId, seq<TokenId>>,
    tokensById: map<TokenId, Token>,
    tokenMetadataById: UnorderedMap<TokenId, TokenMetadata>,
    metadata: Option<NftContractMetadata>)

  /** The reasons a call panics. */
  datatype NftError =
    | RequiresOneYocto          // assert_one_yocto
    | RequiresDeposit           // assert_at_least_one_yocto
    | TokenNotFound             // expect on tokens_by_id
    | SenderNotOwner            // the caller must own the token
    | ReceiverIsOwner           // assert_ne owner / receiver
    | OwnerSetMissing           // expect on tokens_per_owner
    | TokenAlreadyExists        // nft_mint on a known id
    | StorageNotCovered         // refund_deposit: deposit below the storage cost
    | ApprovalIdMissing         // unwrap of an absent approval id
    | TooManyPayoutReceivers    // royalty table longer than max_len_payout
    | RoyaltyOverflow           // 10000 - total_perpetual underflows
    | MetadataMissing           // unwrap on token_metadata_by_id

  /** The arguments `nft_resolve_transfer` is scheduled with. */
  datatype ResolveTransferArgs = ResolveTransferArgs(
    authorizedId: Option<AccountId>,
    ownerId: AccountId,
    receiverId: AccountId,
    tokenId: TokenId,
    approvedAccountIds: map<AccountId, nat>,
    memo: Option<string>)

  /** Logged events; the string formatting is not modelled. */
  datatype NftEvent =
    | Memo(text: string)
    | Rollback(tokenId: TokenId, from: AccountId, to: AccountId)
    | NftTransferLog(authorizedId: Option<AccountId>, oldOwnerId: AccountId, newOwnerId: AccountId,
                  tokenIds: seq<TokenId>, memo: Option<string>)

  /** Promises and logs an entry point emits. */
  datatype NftEffect =
    | Transfer(receiver: AccountId, amount: nat)
      /** `refund_approved_account_ids`: storage refund for these approval entries. */
    | RefundApprovals(receiver: AccountId, accounts: set<AccountId>)
      /** `nft_on_approve` on the approved account. */
    | NftOnApprove(receiver: AccountId, tokenId: TokenId, ownerId: AccountId, approvalId: nat, msg: string)
      /** `nft_on_transfer` on the receiver, then `nft_resolve_transfer` on this contract. */
    | NftOnTransfer(receiver: AccountId, senderId: AccountId, previousOwnerId: AccountId,
                    tokenId: TokenId, msg: string, resolve: ResolveTransferArgs)
    | Log(event: NftEvent)

  type NftResult<R> = Result<Step<Contract, NftEffect, R>, NftError>

  /** Every token in an account's set is stored with that account as owner. */
  ghost predicate IndexSound(tokensPerOwner: map<AccountId, seq<TokenId>>, tokensById: map<TokenId, Token>) {
    forall a, t | a in tokensPerOwner && t in tokensPerOwner[a] :: t in tokensById && tokensById[t].ownerId == a
  }

  /** Every stored token is in its owner's set. */
  ghost predicate IndexComplete(tokensPerOwner: map<AccountId, seq<TokenId>>, tokensById: map<TokenId, Token>) {
    forall t | t in tokensById :: tokensById[t].ownerId in tokensPerOwner && t in tokensPerOwner[tokensById[t].ownerId]
  }

  /** The owner index agrees with the owner fields, holds no empty set, and the
      metadata store has exactly the stored tokens' ids. */
  ghost predicate Valid(c: Contract) {
    && SetsWellFormed(c.tokensPerOwner)
    && IndexSound(c.tokensPerOwner, c.tokensById)
    && IndexComplete(c.tokensPerOwner, c.tokensById)
    && c.tokenMetadataById.Valid()
    && c.tokenMetadataById.entries.Keys == c.tokensById.Keys
  }

  /** In a valid state a token is in an account's set exactly when that account owns it. */
  lemma OwnerIndexAgrees(c: Contract, a: AccountId, t: TokenId)
    requires Valid(c)
    ensures t in Members(c.tokensPerOwner, a) <==> t in c.tokensById && c.tokensById[t].ownerId == a
  {
  }

  /** Two valid states that store the same tokens with the same owners have owner sets
      with the same contents. */
  lemma SameOwnersSameIndex(c: Contract, c': Contract)
    requires Valid(c) && Valid(c') && c.tokensById.Keys == c'.tokensById.Keys
    requires forall t | t in c.tokensById :: c.tokensById[t].ownerId == c'.tokensById[t].ownerId
    ensures forall a, t :: t in Members(c.tokensPerOwner, a) <==> t in Members(c'.tokensPerOwner, a)
  {
    forall a, t ensures t in Members(c.tokensPerOwner, a) <==> t in Members(c'.tokensPerOwner, a) {
      OwnerIndexAgrees(c, a, t);
      OwnerIndexAgrees(c', a, t);
    }
  }

  /** Rewriting one stored token without changing its owner leaves every owner set with
      the same contents. */
  lemma SameOwnersAfterRewrite(c: Contract, c': Contract, tokenId: TokenId, token: Token)
    requires Valid(c) && Valid(c') && tokenId in c.tokensById
    requires c'.tokensById == c.tokensById[tokenId := token] && token.ownerId == c.tokensById[tokenId].ownerId
    ensures forall a, t :: t in Members(c'.tokensPerOwner, a) <==> t in Members(c.tokensPerOwner, a)
  {
    SameOwnersSameIndex(c', c);
  }

  /** Rewriting one stored token without changing its owner keeps the state valid. */
  lemma RewriteKeepsValid(c: Contract, tokenId: TokenId, token: Token)
    requires tokenId in c.tokensById && token.ownerId == c.tokensById[tokenId].ownerId
    ensures Valid(c) ==> Valid(c.(tokensById := c.tokensById[tokenId := token]))
  {
  }

  /** `new`: no tokens, no token metadata, no owner sets; the contract metadata given. */
  function New(ownerId: AccountId, metadata: NftContractMetadata): (c: Contract)
    ensures Valid(c)
    ensures c.tokensById == map[] && c.tokensPerOwner == map[] && c.tokenMetadataById.Len() == 0
    ensures c.metadata == Some(metadata) && c.ownerId == ownerId
  {
    Contract(ownerId, map[], map[], EmptyMap(), Some(metadata))
  }

  /** `new_default_metadata`. */
  function NewDefaultMetadata(ownerId: AccountId): (c: Contract)
    ensures Valid(c) && c.tokensById == map[] && c.ownerId == ownerId
    ensures c.metadata.Some? && c.metadata.value.spec == "nft-tutorial-1.0.0"
    ensures c.metadata.value.name == "VBI NFT Tutorial" && c.metadata.value.symbol == "VNFT"
    ensures c.metadata.value.icon.None? && c.metadata.value.baseUri.None?
    ensures c.metadata.value.reference.None? && c.metadata.value.referenceHash.None?
  {
    New(ownerId, NftContractMetadata("nft-tutorial-1.0.0", "VBI NFT Tutorial", "VNFT", None, None, None, None))
  }
}
