/** The enumeration views of the NFT contract (nft-contract/src/enumeration.rs). */
module NftEnumeration {
  import opened Near
  import opened Collections
  import opened NftTypes
  import opened NftMint

  /** `nft_total_supply`: the number of metadata entries. */
  function NftTotalSupply(c: Contract): (r: nat)
    ensures c.tokenMetadataById.Valid() ==> r == |c.tokenMetadataById.entries.Keys|
    ensures Valid(c) ==> r == |c.tokensById.Keys|
  {
    KeyVectorCounts(c.tokenMetadataById);
    c.tokenMetadataById.Len()
  }

  /** `nft_supply_for_owner`: the size of the account's set, 0 when it has none. */
  function NftSupplyForOwner(c: Contract, accountId: AccountId): (r: nat)
    ensures accountId !in c.tokensPerOwner ==> r == 0
    ensures Valid(c) ==> r == |set t | t in c.tokensById && c.tokensById[t].ownerId == accountId|
  {
    OwnedTokensCount(c, accountId);
    |Members(c.tokensPerOwner, accountId)|
  }

  /** In a valid state an account's set holds exactly the tokens it owns, each once. */
  lemma OwnedTokensCount(c: Contract, accountId: AccountId)
    ensures Valid(c) ==> |Members(c.tokensPerOwner, accountId)| == |set t | t in c.tokensById && c.tokensById[t].ownerId == accountId|
  {
    if Valid(c) {
      var owned := Members(c.tokensPerOwner, accountId);
      forall t ensures t in owned <==> t in c.tokensById && c.tokensById[t].ownerId == accountId {
        OwnerIndexAgrees(c, accountId, t);
      }
      assert (set t | t in owned) == (set t | t in c.tokensById && c.tokensById[t].ownerId == accountId);
      DistinctSize(owned);
    }
  }

  /** The token views of a list of ids, in order; `nft_token(id).unwrap()` panics on an
      id the contract does not store (reported as `TokenNotFound`) or one without
      metadata. */
  function TokenViews(c: Contract, ids: seq<TokenId>): (r: Result<seq<JsonToken>, NftError>)
    ensures r.Failure? <==> exists i | 0 <= i < |ids| :: ids[i] !in c.tokensById || ids[i] !in c.tokenMetadataById.entries
    ensures r.Ok? ==> |r.value| == |ids| && forall i | 0 <= i < |ids| ::
      r.value[i] == JsonToken(c.tokensById[ids[i]].ownerId, ids[i], c.tokenMetadataById.entries[ids[i]])
  {
    if ids == [] then Ok([])
    else
      match NftToken(c, ids[0])
      case Failure(e) => Failure(e)
      case Ok(None) => Failure(TokenNotFound)
      case Ok(Some(token)) =>
        match TokenViews(c, ids[1..])
        case Failure(e) =>
          assert exists i | 0 <= i < |ids[1..]| :: ids[1..][i] !in c.tokensById || ids[1..][i] !in c.tokenMetadataById.entries;
          Failure(e)
        case Ok(rest) =>
          var r := [token] + rest;
          assert forall i | 1 <= i < |ids| :: ids[i] == ids[1..][i - 1];
          Ok(r)
  }

  /** `nft_tokens`: the tokens at positions `from_index ..` of the metadata key vector,
      at most `limit` of them; an omitted limit means none. */
  function NftTokens(c: Contract, fromIndex: Option<nat>, limit: Option<nat>): (r: Result<seq<JsonToken>, NftError>)
    ensures limit.None? ==> r == Ok([])
    ensures r.Ok? ==> |r.value| <= Count(limit)
    ensures r.Ok? ==>
      var ids := Page(c.tokenMetadataById.keys, fromIndex, limit);
      && |r.value| == |ids|
      && forall i | 0 <= i < |ids| ::
           && ids[i] in c.tokensById && ids[i] in c.tokenMetadataById.entries
           && r.value[i] == JsonToken(c.tokensById[ids[i]].ownerId, ids[i], c.tokenMetadataById.entries[ids[i]])
    ensures
      var ids := Page(c.tokenMetadataById.keys, fromIndex, limit);
      r.Failure? <==> exists i | 0 <= i < |ids| :: ids[i] !in c.tokensById || ids[i] !in c.tokenMetadataById.entries
    ensures Valid(c) ==> r.Ok?
  {
    var ids := Page(c.tokenMetadataById.keys, fromIndex, limit);
    StoredIdsViewable(c, ids);
    TokenViews(c, ids)
  }

  /** In a valid state every id drawn from the metadata key vector has a token and
      metadata. */
  lemma StoredIdsViewable(c: Contract, ids: seq<TokenId>)
    requires forall i | 0 <= i < |ids| :: ids[i] in c.tokenMetadataById.keys
    ensures Valid(c) ==> forall i | 0 <= i < |ids| :: ids[i] in c.tokensById && ids[i] in c.tokenMetadataById.entries
  {
  }

  /** `nft_tokens_for_owner`: a page of the account's set, or nothing when it has none. */
  function NftTokensForOwner(c: Contract, accountId: AccountId, fromIndex: Option<nat>, limit: Option<nat>)
    : (r: Result<seq<JsonToken>, NftError>)
    ensures accountId !in c.tokensPerOwner ==> r == Ok([])
    ensures r.Ok? ==> |r.value| <= Count(limit)
    ensures r.Ok? ==>
      var ids := Page(Members(c.tokensPerOwner, accountId), fromIndex, limit);
      && |r.value| == |ids|
      && forall i | 0 <= i < |ids| ::
           && ids[i] in c.tokensById && ids[i] in c.tokenMetadataById.entries
           && r.value[i] == JsonToken(c.tokensById[ids[i]].ownerId, ids[i], c.tokenMetadataById.entries[ids[i]])
    ensures
      var ids := Page(Members(c.tokensPerOwner, accountId), fromIndex, limit);
      r.Failure? <==> exists i | 0 <= i < |ids| :: ids[i] !in c.tokensById || ids[i] !in c.tokenMetadataById.entries
    ensures Valid(c) ==>
      var ids := Page(Members(c.tokensPerOwner, accountId), fromIndex, limit);
      && r.Ok?
      && forall i | 0 <= i < |ids| :: r.value[i].ownerId == accountId
  {
    if accountId !in c.tokensPerOwner then Ok([])
    else
      var ids := Page(c.tokensPerOwner[accountId], fromIndex, limit);
      OwnedIdsViewable(c, accountId, ids);
      TokenViews(c, ids)
  }

  /** In a valid state every id drawn from an account's set is a token that account owns,
      with metadata. */
  lemma OwnedIdsViewable(c: Contract, accountId: AccountId, ids: seq<TokenId>)
    requires accountId in c.tokensPerOwner
    requires forall i | 0 <= i < |ids| :: ids[i] in c.tokensPerOwner[accountId]
    ensures Valid(c) ==>
      forall i | 0 <= i < |ids| ::
        ids[i] in c.tokensById && ids[i] in c.tokenMetadataById.entries && c.tokensById[ids[i]].ownerId == accountId
  {
  }
}
