/** The ownership store's primitives (nft-contract/src/internal.rs): keeping the
    per-owner index, and the owner-only transfer every transferring entry point uses. */
module NftInternal {
  import opened Near
  import opened Collections
  import opened NftTypes

  /** `internal_add_token_to_owner`: put `tokenId` into `accountId`'s set, creating it
      when the account has none. */
  function AddTokenToOwner(tokensPerOwner: map<AccountId, seq<TokenId>>, tokenId: TokenId, accountId: AccountId)
    : (r: map<AccountId, seq<TokenId>>)
    ensures r.Keys == tokensPerOwner.Keys + {accountId}
    ensures forall t :: t in r[accountId] <==> t in Members(tokensPerOwner, accountId) || t == tokenId
    ensures Distinct(Members(tokensPerOwner, accountId)) ==> Distinct(r[accountId])
    ensures forall a | a in tokensPerOwner && a != accountId :: r[a] == tokensPerOwner[a]
    ensures tokenId in Members(r, accountId)
    ensures forall a | a != accountId :: Members(r, a) == Members(tokensPerOwner, a)
  {
    tokensPerOwner[accountId := SetInsert(Members(tokensPerOwner, accountId), tokenId)]
  }

  /** `internal_remove_token_from_owner`: take `tokenId` out of `accountId`'s set and
      drop the set once it is empty; panics when the account has no set. */
  function RemoveTokenFromOwner(tokensPerOwner: map<AccountId, seq<TokenId>>, tokenId: TokenId, accountId: AccountId)
    : (r: Result<map<AccountId, seq<TokenId>>, NftError>)
    ensures r.Failure? <==> accountId !in tokensPerOwner
    ensures r.Failure? ==> r.error == OwnerSetMissing
    ensures r.Ok? ==> r.value.Keys <= tokensPerOwner.Keys
    ensures r.Ok? ==> forall a | a in tokensPerOwner && a != accountId :: a in r.value && r.value[a] == tokensPerOwner[a]
    ensures r.Ok? && Distinct(tokensPerOwner[accountId]) ==>
      && (accountId in r.value <==> |tokensPerOwner[accountId]| > (if tokenId in tokensPerOwner[accountId] then 1 else 0))
      && (accountId in r.value ==> Distinct(r.value[accountId]) && |r.value[accountId]| > 0)
      && forall t :: t in Members(r.value, accountId) <==> t in tokensPerOwner[accountId] && t != tokenId
  {
    if accountId !in tokensPerOwner then Failure(OwnerSetMissing)
    else
      var tokens := SetRemove(tokensPerOwner[accountId], tokenId);
      if |tokens| == 0 then Ok(tokensPerOwner - {accountId})
      else Ok(tokensPerOwner[accountId := tokens])
  }

  /** The log `internal_transfer` writes: the memo, when one is given. */
  function MemoLog(memo: Option<string>): seq<NftEffect> {
    if memo.Some? then [Log(Memo(memo.value))] else []
  }

  /** `internal_transfer`: only the current owner may move a token, and never to itself.
      The stored record gets the receiver as owner and no approvals; the approval counter
      and the royalty table carry over (the source's literal leaves them unset). Returns
      the record as it was before the transfer. */
  function InternalTransfer(c: Contract, senderId: AccountId, receiverId: AccountId, tokenId: TokenId, memo: Option<string>)
    : (r: NftResult<Token>)
    ensures r.Failure? <==>
      || tokenId !in c.tokensById
      || senderId != c.tokensById[tokenId].ownerId
      || receiverId == c.tokensById[tokenId].ownerId
      || c.tokensById[tokenId].ownerId !in c.tokensPerOwner
    ensures tokenId !in c.tokensById ==> r == Failure(TokenNotFound)
    ensures tokenId in c.tokensById && senderId != c.tokensById[tokenId].ownerId ==> r == Failure(SenderNotOwner)
    ensures r.Ok? ==>
      var c' := r.value.state;
      var old_ := c.tokensById[tokenId];
      && r.value.ret == old_
      && c'.tokensById.Keys == c.tokensById.Keys
      && c'.tokensById[tokenId] == Token(receiverId, map[], old_.nextApprovalId, old_.royalty)
      && (forall t | t in c.tokensById && t != tokenId :: c'.tokensById[t] == c.tokensById[t])
      && tokenId in Members(c'.tokensPerOwner, receiverId)
      && (forall a | a != receiverId && a != old_.ownerId :: Members(c'.tokensPerOwner, a) == Members(c.tokensPerOwner, a))
      && c'.tokenMetadataById == c.tokenMetadataById && c'.metadata == c.metadata && c'.ownerId == c.ownerId
    ensures r.Ok? && Valid(c) ==> Valid(r.value.state) && tokenId !in Members(r.value.state.tokensPerOwner, r.value.ret.ownerId)
    ensures r.Ok? ==> r.value.effects == MemoLog(memo)
  {
    if tokenId !in c.tokensById then Failure(TokenNotFound)
    else
      var token := c.tokensById[tokenId];
      if senderId != token.ownerId then Failure(SenderNotOwner)
      else if token.ownerId == receiverId then Failure(ReceiverIsOwner)
      else
        match RemoveTokenFromOwner(c.tokensPerOwner, tokenId, token.ownerId)
        case Failure(e) => Failure(e)
        case Ok(removed) =>
          var tokensPerOwner := AddTokenToOwner(removed, tokenId, receiverId);
          var newToken := Token(receiverId, map[], token.nextApprovalId, token.royalty);
          var c' := c.(tokensPerOwner := tokensPerOwner, tokensById := c.tokensById[tokenId := newToken]);
          MoveKeepsIndex(c.tokensPerOwner, c.tokensById, tokenId, receiverId, newToken, removed);
          Ok(Step(c', MemoLog(memo), token))
  }

  /** Moving a token from its owner's set to another account's set, and storing it
      with that account as owner, keeps the owner index in step with the owner fields. */
  lemma MoveKeepsIndex(tokensPerOwner: map<AccountId, seq<TokenId>>, tokensById: map<TokenId, Token>,
                       tokenId: TokenId, to: AccountId, newToken: Token, removed: map<AccountId, seq<TokenId>>)
    requires tokenId in tokensById && newToken.ownerId == to
    requires RemoveTokenFromOwner(tokensPerOwner, tokenId, tokensById[tokenId].ownerId) == Ok(removed)
    ensures SetsWellFormed(tokensPerOwner) && IndexSound(tokensPerOwner, tokensById) && IndexComplete(tokensPerOwner, tokensById) ==>
      var tokensPerOwner' := AddTokenToOwner(removed, tokenId, to);
      var tokensById' := tokensById[tokenId := newToken];
      && SetsWellFormed(tokensPerOwner')
      && IndexSound(tokensPerOwner', tokensById')
      && IndexComplete(tokensPerOwner', tokensById')
      && (tokensById[tokenId].ownerId != to ==> tokenId !in Members(tokensPerOwner', tokensById[tokenId].ownerId))
  {
    var from := tokensById[tokenId].ownerId;
    var tokensPerOwner' := AddTokenToOwner(removed, tokenId, to);
    var tokensById' := tokensById[tokenId := newToken];
    if SetsWellFormed(tokensPerOwner) && IndexSound(tokensPerOwner, tokensById) && IndexComplete(tokensPerOwner, tokensById) {
      MoveKeepsSets(tokensPerOwner, tokensById, tokenId, to, removed);
      MoveKeepsSound(tokensPerOwner, tokensById, tokenId, to, newToken, removed);
      MoveKeepsComplete(tokensPerOwner, tokensById, tokenId, to, newToken, removed);
    }
  }

  lemma MoveKeepsSets(tokensPerOwner: map<AccountId, seq<TokenId>>, tokensById: map<TokenId, Token>,
                      tokenId: TokenId, to: AccountId, removed: map<AccountId, seq<TokenId>>)
    requires tokenId in tokensById
    requires RemoveTokenFromOwner(tokensPerOwner, tokenId, tokensById[tokenId].ownerId) == Ok(removed)
    requires SetsWellFormed(tokensPerOwner)
    ensures SetsWellFormed(AddTokenToOwner(removed, tokenId, to))
    ensures tokensById[tokenId].ownerId != to ==> tokenId !in Members(AddTokenToOwner(removed, tokenId, to), tokensById[tokenId].ownerId)
  {
    var from := tokensById[tokenId].ownerId;
    var tokensPerOwner' := AddTokenToOwner(removed, tokenId, to);
    assert Distinct(tokensPerOwner[from]);
    if from != to {
      assert Members(removed, to) == Members(tokensPerOwner, to);
      assert Members(tokensPerOwner', from) == Members(removed, from);
    }
    forall a | a in tokensPerOwner'
      ensures Distinct(tokensPerOwner'[a]) && |tokensPerOwner'[a]| > 0
    {
      if a == to {
        assert tokenId in tokensPerOwner'[a];
      } else if a != from {
        assert tokensPerOwner'[a] == tokensPerOwner[a];
      }
    }
  }

  lemma MoveKeepsSound(tokensPerOwner: map<AccountId, seq<TokenId>>, tokensById: map<TokenId, Token>,
                       tokenId: TokenId, to: AccountId, newToken: Token, removed: map<AccountId, seq<TokenId>>)
    requires tokenId in tokensById && newToken.ownerId == to
    requires RemoveTokenFromOwner(tokensPerOwner, tokenId, tokensById[tokenId].ownerId) == Ok(removed)
    requires SetsWellFormed(tokensPerOwner) && IndexSound(tokensPerOwner, tokensById)
    ensures IndexSound(AddTokenToOwner(removed, tokenId, to), tokensById[tokenId := newToken])
  {
    var from := tokensById[tokenId].ownerId;
    var tokensPerOwner' := AddTokenToOwner(removed, tokenId, to);
    var tokensById' := tokensById[tokenId := newToken];
    forall a, t | a in tokensPerOwner' && t in tokensPerOwner'[a]
      ensures t in tokensById' && tokensById'[t].ownerId == a
    {
      if a == to {
        if t != tokenId {
          assert t in Members(removed, to);
          assert t in tokensPerOwner[to];
        }
      } else if a == from {
        assert t in Members(removed, from);
      } else {
        assert t in tokensPerOwner[a];
      }
    }
  }

  lemma MoveKeepsComplete(tokensPerOwner: map<AccountId, seq<TokenId>>, tokensById: map<TokenId, Token>,
                          tokenId: TokenId, to: AccountId, newToken: Token, removed: map<AccountId, seq<TokenId>>)
    requires tokenId in tokensById && newToken.ownerId == to
    requires RemoveTokenFromOwner(tokensPerOwner, tokenId, tokensById[tokenId].ownerId) == Ok(removed)
    requires SetsWellFormed(tokensPerOwner) && IndexComplete(tokensPerOwner, tokensById)
    ensures IndexComplete(AddTokenToOwner(removed, tokenId, to), tokensById[tokenId := newToken])
  {
    var from := tokensById[tokenId].ownerId;
    var tokensPerOwner' := AddTokenToOwner(removed, tokenId, to);
    var tokensById' := tokensById[tokenId := newToken];
    forall t | t in tokensById'
      ensures tokensById'[t].ownerId in tokensPerOwner' && t in tokensPerOwner'[tokensById'[t].ownerId]
    {
      if t != tokenId {
        var a := tokensById[t].ownerId;
        assert t in tokensPerOwner[a];
        if a == from {
          assert t in Members(removed, from);
        }
      }
    }
  }
}
