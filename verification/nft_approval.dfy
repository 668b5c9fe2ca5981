/** NEP-178 approval management (nft-contract/src/approval.rs): a token's owner grants
    accounts numbered approvals drawn from a per-token counter, and revokes them. */
module NftApproval {
  import opened Near
  import opened NftTypes
  import opened NftUtils

  /** Every approval id a token holds was issued before its counter's current value. */
  ghost predicate ApprovalsBelowCounter(c: Contract) {
    forall t, a | t in c.tokensById && a in c.tokensById[t].approvedAccountIds ::
      c.tokensById[t].approvedAccountIds[a] < c.tokensById[t].nextApprovalId
  }

  /** `nft_approve`: with at least 1 yoctoNEAR attached, the owner approves `accountId`
      under the token's next approval id and the counter moves on. A new entry costs
      `entryBytes` bytes of storage (`bytes_for_approved_account_id`, taken as an input);
      re-approving an approved account overwrites its id and costs nothing. With a message,
      the approved account is notified through `nft_on_approve`. */
  function NftApprove(c: Contract, predecessor: AccountId, attached: nat, storageByteCost: nat, entryBytes: nat,
                      tokenId: TokenId, accountId: AccountId, msg: Option<string>)
    : (r: NftResult<()>)
    ensures attached < 1 ==> r == Failure(RequiresDeposit)
    ensures attached >= 1 && tokenId !in c.tokensById ==> r == Failure(TokenNotFound)
    ensures attached >= 1 && tokenId in c.tokensById && predecessor != c.tokensById[tokenId].ownerId ==> r == Failure(SenderNotOwner)
    ensures r.Failure? <==>
      || attached < 1
      || tokenId !in c.tokensById
      || predecessor != c.tokensById[tokenId].ownerId
      || (accountId !in c.tokensById[tokenId].approvedAccountIds && storageByteCost * entryBytes > attached)
    ensures r.Ok? ==> tokenId in c.tokensById && tokenId in r.value.state.tokensById
    ensures r.Ok? ==>
      var token := c.tokensById[tokenId];
      var storageUsed := if accountId in token.approvedAccountIds then 0 else entryBytes;
      r.value.effects
        == RefundDeposit(storageUsed, storageByteCost, attached, predecessor).value
           + (if msg.Some? then [NftOnApprove(accountId, tokenId, token.ownerId, token.nextApprovalId, msg.value)] else [])
    ensures r.Ok? ==>
      var token := c.tokensById[tokenId];
      var token' := r.value.state.tokensById[tokenId];
      var isNew := accountId !in token.approvedAccountIds;
      && attached >= 1 && predecessor == token.ownerId
      && r.value.state.tokensById == c.tokensById[tokenId := token']
      && accountId in token'.approvedAccountIds
      && token'.approvedAccountIds[accountId] == token.nextApprovalId
      && token'.nextApprovalId == token.nextApprovalId + 1
      && (forall a | a != accountId :: (a in token'.approvedAccountIds <==> a in token.approvedAccountIds))
      && (forall a | a in token.approvedAccountIds && a != accountId :: token'.approvedAccountIds[a] == token.approvedAccountIds[a])
      && token'.ownerId == token.ownerId && token'.royalty == token.royalty
      && r.value.state.tokensPerOwner == c.tokensPerOwner
      && r.value.state.tokenMetadataById == c.tokenMetadataById
      && (isNew ==> storageByteCost * entryBytes <= attached)
    ensures r.Ok? && Valid(c) ==> Valid(r.value.state)
    ensures r.Ok? && ApprovalsBelowCounter(c) ==> ApprovalsBelowCounter(r.value.state)
  {
    if attached < 1 then Failure(RequiresDeposit)
    else if tokenId !in c.tokensById then Failure(TokenNotFound)
    else
      var token := c.tokensById[tokenId];
      if predecessor != token.ownerId then Failure(SenderNotOwner)
      else
        var approvalId := token.nextApprovalId;
        var isNew := accountId !in token.approvedAccountIds;
        var storageUsed := if isNew then entryBytes else 0;
        var token' := token.(approvedAccountIds := token.approvedAccountIds[accountId := approvalId],
                             nextApprovalId := approvalId + 1);
        var c' := c.(tokensById := c.tokensById[tokenId := token']);
        RewriteKeepsValid(c, tokenId, token');
        match RefundDeposit(storageUsed, storageByteCost, attached, predecessor)
        case Failure(e) => Failure(e)
        case Ok(refund) =>
          var notify := if msg.Some? then [NftOnApprove(accountId, tokenId, token.ownerId, approvalId, msg.value)] else [];
          Ok(Step(c', refund + notify, ()))
  }

  /** Re-approving an account that is already approved charges no storage: the whole
      deposit above 1 yoctoNEAR is refunded, whatever `entryBytes` is. */
  lemma ReapproveIsFree(c: Contract, predecessor: AccountId, attached: nat, storageByteCost: nat, entryBytes: nat,
                        tokenId: TokenId, accountId: AccountId)
    requires tokenId in c.tokensById && predecessor == c.tokensById[tokenId].ownerId
    requires accountId in c.tokensById[tokenId].approvedAccountIds
    requires attached >= 1
    ensures var r := NftApprove(c, predecessor, attached, storageByteCost, entryBytes, tokenId, accountId, None);
      r.Ok? && r.value.effects == (if attached > 1 then [Transfer(predecessor, attached)] else [])
  {
  }

  /** Two approvals in a row on the same token hand out two different ids, the second
      one larger. */
  lemma ApprovalIdsNeverRepeat(c: Contract, predecessor: AccountId, attached: nat, storageByteCost: nat, entryBytes: nat,
                               tokenId: TokenId, first: AccountId, second: AccountId)
    requires NftApprove(c, predecessor, attached, storageByteCost, entryBytes, tokenId, first, None).Ok?
    ensures var c1 := NftApprove(c, predecessor, attached, storageByteCost, entryBytes, tokenId, first, None).value.state;
      var r2 := NftApprove(c1, predecessor, attached, storageByteCost, entryBytes, tokenId, second, None);
      r2.Ok? ==>
        r2.value.state.tokensById[tokenId].approvedAccountIds[second]
          == c1.tokensById[tokenId].approvedAccountIds[first] + 1
  {
  }

  /** `nft_is_approved`: true exactly when `approvedAccountId` holds the given approval
      id. Panics when the token is unknown, and when the account is approved but no id
      was given (`approval_id.unwrap()`); an unapproved account gets `false` even then. */
  function NftIsApproved(c: Contract, tokenId: TokenId, approvedAccountId: AccountId, approvalId: Option<nat>)
    : (r: Result<bool, NftError>)
    ensures r.Failure? <==>
      || tokenId !in c.tokensById
      || (approvedAccountId in c.tokensById[tokenId].approvedAccountIds && approvalId.None?)
    ensures r == Ok(true) <==>
      && tokenId in c.tokensById
      && approvedAccountId in c.tokensById[tokenId].approvedAccountIds
      && approvalId == Some(c.tokensById[tokenId].approvedAccountIds[approvedAccountId])
  {
    if tokenId !in c.tokensById then Failure(TokenNotFound)
    else
      var approvals := c.tokensById[tokenId].approvedAccountIds;
      if approvedAccountId in approvals then
        if approvalId.None? then Failure(ApprovalIdMissing)
        else Ok(approvals[approvedAccountId] == approvalId.value)
      else Ok(false)
  }

  /** `nft_revoke`: with exactly 1 yoctoNEAR, the owner withdraws one account's approval
      and that entry's storage is refunded to the owner; nothing is written when the
      account was not approved. The counter does not move. */
  function NftRevoke(c: Contract, predecessor: AccountId, attached: nat, tokenId: TokenId, accountId: AccountId)
    : (r: NftResult<()>)
    ensures r.Failure? <==>
      attached != 1 || tokenId !in c.tokensById || predecessor != c.tokensById[tokenId].ownerId
    ensures r.Ok? ==> tokenId in c.tokensById && tokenId in r.value.state.tokensById
    ensures r.Ok? ==>
      var token := c.tokensById[tokenId];
      var token' := r.value.state.tokensById[tokenId];
      && r.value.state.tokensById.Keys == c.tokensById.Keys
      && token'.approvedAccountIds == token.approvedAccountIds - {accountId}
      && token'.nextApprovalId == token.nextApprovalId
      && token'.ownerId == token.ownerId && token'.royalty == token.royalty
      && (forall t | t in c.tokensById && t != tokenId :: r.value.state.tokensById[t] == c.tokensById[t])
      && r.value.state.tokensPerOwner == c.tokensPerOwner
      && r.value.state.tokenMetadataById == c.tokenMetadataById
      && (accountId in token.approvedAccountIds <==> r.value.effects == [RefundApprovals(predecessor, {accountId})])
      && (accountId !in token.approvedAccountIds ==> r.value.state == c && r.value.effects == [])
    ensures r.Ok? && Valid(c) ==> Valid(r.value.state)
    ensures r.Ok? && ApprovalsBelowCounter(c) ==> ApprovalsBelowCounter(r.value.state)
  {
    if AssertOneYocto(attached).Failure? then Failure(AssertOneYocto(attached).error)
    else if tokenId !in c.tokensById then Failure(TokenNotFound)
    else
      var token := c.tokensById[tokenId];
      if predecessor != token.ownerId then Failure(SenderNotOwner)
      else if accountId in token.approvedAccountIds then
        var token' := token.(approvedAccountIds := token.approvedAccountIds - {accountId});
        Ok(Step(c.(tokensById := c.tokensById[tokenId := token']), [RefundApprovals(predecessor, {accountId})], ()))
      else
        assert token.approvedAccountIds - {accountId} == token.approvedAccountIds;
        assert c.tokensById[tokenId := token] == c.tokensById;
        Ok(Step(c, [], ()))
  }

  /** `nft_revoke_all`: with exactly 1 yoctoNEAR, the owner clears every approval; a
      refund to the owner is issued only when there were approvals. */
  function NftRevokeAll(c: Contract, predecessor: AccountId, attached: nat, tokenId: TokenId)
    : (r: NftResult<()>)
    ensures r.Failure? <==>
      attached != 1 || tokenId !in c.tokensById || predecessor != c.tokensById[tokenId].ownerId
    ensures r.Ok? ==> tokenId in c.tokensById && tokenId in r.value.state.tokensById
    ensures r.Ok? ==>
      var token := c.tokensById[tokenId];
      var token' := r.value.state.tokensById[tokenId];
      && r.value.state.tokensById.Keys == c.tokensById.Keys
      && token'.approvedAccountIds == map[]
      && token'.nextApprovalId == token.nextApprovalId
      && token'.ownerId == token.ownerId && token'.royalty == token.royalty
      && (forall t | t in c.tokensById && t != tokenId :: r.value.state.tokensById[t] == c.tokensById[t])
      && r.value.state.tokensPerOwner == c.tokensPerOwner
      && r.value.state.tokenMetadataById == c.tokenMetadataById
      && (r.value.effects != [] <==> |token.approvedAccountIds| > 0)
      && (r.value.effects != [] ==> r.value.effects == [RefundApprovals(predecessor, token.approvedAccountIds.Keys)])
    ensures r.Ok? && Valid(c) ==> Valid(r.value.state)
  {
    if AssertOneYocto(attached).Failure? then Failure(AssertOneYocto(attached).error)
    else if tokenId !in c.tokensById then Failure(TokenNotFound)
    else
      var token := c.tokensById[tokenId];
      if predecessor != token.ownerId then Failure(SenderNotOwner)
      else if |token.approvedAccountIds| > 0 then
        var token' := token.(approvedAccountIds := map[]);
        Ok(Step(c.(tokensById := c.tokensById[tokenId := token']),
                [RefundApprovals(predecessor, token.approvedAccountIds.Keys)], ()))
      else
        assert token.approvedAccountIds == map[];
        assert c.tokensById[tokenId := token] == c.tokensById;
        Ok(Step(c, [], ()))
  }
}
