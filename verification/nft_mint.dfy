/** Minting and the single-token view (nft-contract/src/mint.rs). */
module NftMint {
  import opened Near
  import opened Collections
  import opened NftTypes
  import opened NftInternal
  import opened NftUtils

  /** `nft_mint`: store a new token for `receiverId` with no approvals, counter 0 and
      no royalty, store its metadata, add it to the receiver's set, and charge the
      storage the call used (`storageUsed`, metered by the runtime) to the caller. */
  function NftMint(c: Contract, predecessor: AccountId, attached: nat, storageByteCost: nat, storageUsed: nat,
                   tokenId: TokenId, metadata: TokenMetadata, receiverId: AccountId)
    : (r: NftResult<()>)
    ensures tokenId in c.tokensById ==> r == Failure(TokenAlreadyExists)
    ensures r.Failure? <==> tokenId in c.tokensById || storageByteCost * storageUsed > attached
    ensures r.Ok? ==>
      var c' := r.value.state;
      && c'.tokensById == c.tokensById[tokenId := Token(receiverId, map[], 0, map[])]
      && c'.tokenMetadataById.entries == c.tokenMetadataById.entries[tokenId := metadata]
      && tokenId in Members(c'.tokensPerOwner, receiverId)
      && (forall a | a != receiverId :: Members(c'.tokensPerOwner, a) == Members(c.tokensPerOwner, a))
      && r.value.effects == RefundDeposit(storageUsed, storageByteCost, attached, predecessor).value
    ensures r.Ok? && Valid(c) ==> Valid(r.value.state)
  {
    if tokenId in c.tokensById then Failure(TokenAlreadyExists)
    else
      match RefundDeposit(storageUsed, storageByteCost, attached, predecessor)
      case Failure(e) => Failure(e)
      case Ok(effects) => Ok(Step(Minted(c, tokenId, metadata, receiverId), effects, ()))
  }

  /** The state after minting a fresh token: the store, the metadata and the receiver's
      set gain it, and nothing else changes. */
  function Minted(c: Contract, tokenId: TokenId, metadata: TokenMetadata, receiverId: AccountId): (c': Contract)
    requires tokenId !in c.tokensById
    ensures c'.tokensById == c.tokensById[tokenId := Token(receiverId, map[], 0, map[])]
    ensures forall t | t in c.tokensById :: c'.tokensById[t] == c.tokensById[t]
    ensures c'.tokenMetadataById.entries == c.tokenMetadataById.entries[tokenId := metadata]
    ensures tokenId in Members(c'.tokensPerOwner, receiverId)
    ensures forall a | a != receiverId :: Members(c'.tokensPerOwner, a) == Members(c.tokensPerOwner, a)
    ensures Valid(c) ==> Valid(c')
  {
    var token := Token(receiverId, map[], 0, map[]);
    MintKeepsValid(c, tokenId, token, metadata);
    FreshKeyKeepsEntries(c.tokensById, tokenId, token);
    c.(tokensById := c.tokensById[tokenId := token],
       tokenMetadataById := c.tokenMetadataById.Insert(tokenId, metadata),
       tokensPerOwner := AddTokenToOwner(c.tokensPerOwner, tokenId, receiverId))
  }

  lemma MintKeepsValid(c: Contract, tokenId: TokenId, token: Token, metadata: TokenMetadata)
    requires tokenId !in c.tokensById
    ensures Valid(c) ==> Valid(c.(tokensById := c.tokensById[tokenId := token],
                                  tokenMetadataById := c.tokenMetadataById.Insert(tokenId, metadata),
                                  tokensPerOwner := AddTokenToOwner(c.tokensPerOwner, tokenId, token.ownerId)))
  {
    if Valid(c) {
      AddKeepsSets(c.tokensPerOwner, c.tokensById, tokenId, token);
      AddKeepsSound(c.tokensPerOwner, c.tokensById, tokenId, token);
      AddKeepsComplete(c.tokensPerOwner, c.tokensById, tokenId, token);
    }
  }

  lemma AddKeepsSets(tokensPerOwner: map<AccountId, seq<TokenId>>, tokensById: map<TokenId, Token>, tokenId: TokenId, token: Token)
    requires tokenId !in tokensById
    requires SetsWellFormed(tokensPerOwner) && IndexSound(tokensPerOwner, tokensById)
    ensures SetsWellFormed(AddTokenToOwner(tokensPerOwner, tokenId, token.ownerId))
  {
    var tokensPerOwner' := AddTokenToOwner(tokensPerOwner, tokenId, token.ownerId);
    assert tokenId in tokensPerOwner'[token.ownerId];
  }

  lemma AddKeepsSound(tokensPerOwner: map<AccountId, seq<TokenId>>, tokensById: map<TokenId, Token>, tokenId: TokenId, token: Token)
    requires tokenId !in tokensById
    requires IndexSound(tokensPerOwner, tokensById)
    ensures IndexSound(AddTokenToOwner(tokensPerOwner, tokenId, token.ownerId), tokensById[tokenId := token])
  {
    var owner := token.ownerId;
    var tokensPerOwner' := AddTokenToOwner(tokensPerOwner, tokenId, owner);
    var tokensById' := tokensById[tokenId := token];
    forall a, t | a in tokensPerOwner' && t in tokensPerOwner'[a]
      ensures t in tokensById' && tokensById'[t].ownerId == a
    {
      if a != owner || t != tokenId {
        assert t in tokensPerOwner[a];
      }
    }
  }

  lemma AddKeepsComplete(tokensPerOwner: map<AccountId, seq<TokenId>>, tokensById: map<TokenId, Token>, tokenId: TokenId, token: Token)
    requires tokenId !in tokensById
    requires IndexComplete(tokensPerOwner, tokensById)
    ensures IndexComplete(AddTokenToOwner(tokensPerOwner, tokenId, token.ownerId), tokensById[tokenId := token])
  {
    var owner := token.ownerId;
    var tokensPerOwner' := AddTokenToOwner(tokensPerOwner, tokenId, owner);
    var tokensById' := tokensById[tokenId := token];
    forall t | t in tokensById'
      ensures tokensById'[t].ownerId in tokensPerOwner' && t in tokensPerOwner'[tokensById'[t].ownerId]
    {
      if t != tokenId {
        assert t in tokensPerOwner[tokensById[t].ownerId];
      }
    }
  }

  /** `nft_token`: the owner, id and metadata of a stored token, `None` for an unknown id;
      panics when a stored token has no metadata. */
  function NftToken(c: Contract, tokenId: TokenId): (r: Result<Option<JsonToken>, NftError>)
    ensures tokenId !in c.tokensById ==> r == Ok(None)
    ensures tokenId in c.tokensById && tokenId !in c.tokenMetadataById.entries ==> r == Failure(MetadataMissing)
    ensures r.Ok? && r.value.Some? ==>
      && tokenId in c.tokensById && tokenId in c.tokenMetadataById.entries
      && r.value.value == JsonToken(c.tokensById[tokenId].ownerId, tokenId, c.tokenMetadataById.entries[tokenId])
    ensures Valid(c) ==> r.Ok? && (r.value.None? <==> tokenId !in c.tokensById)
  {
    if tokenId in c.tokensById then
      if tokenId in c.tokenMetadataById.entries then
        Ok(Some(JsonToken(c.tokensById[tokenId].ownerId, tokenId, c.tokenMetadataById.entries[tokenId])))
      else Failure(MetadataMissing)
    else Ok(None)
  }

  /** Minting a fresh id with a deposit that covers the storage succeeds, and viewing the
      token then shows the receiver as owner, the id and the metadata given. */
  lemma MintThenView(c: Contract, predecessor: AccountId, attached: nat, storageByteCost: nat, storageUsed: nat,
                     tokenId: TokenId, metadata: TokenMetadata, receiverId: AccountId)
    requires Valid(c)
    requires tokenId !in c.tokensById && storageByteCost * storageUsed <= attached
    ensures NftMint(c, predecessor, attached, storageByteCost, storageUsed, tokenId, metadata, receiverId).Ok?
    ensures var c' := NftMint(c, predecessor, attached, storageByteCost, storageUsed, tokenId, metadata, receiverId).value.state;
      NftToken(c', tokenId) == Ok(Some(JsonToken(receiverId, tokenId, metadata)))
  {
  }
}
