/** NEP-171 transfers (nft-contract/src/nft_core.rs): the plain transfer, the transfer
    that calls the receiver, and the callback that settles the receiver's answer. */
module NftCore {
  import opened Near
  import opened Collections
  import opened NftTypes
  import opened NftInternal
  import opened NftUtils
  import opened NftMint

  /** `nft_transfer`: with exactly 1 yoctoNEAR, the owner moves the token to
      `receiverId`; the storage of the approvals the token had is refunded to the sender.
      The approval id argument is accepted and ignored. */
  function NftTransfer(c: Contract, predecessor: AccountId, attached: nat, receiverId: AccountId,
                       tokenId: TokenId, approvalId: nat, memo: Option<string>)
    : (r: NftResult<()>)
    ensures attached != 1 ==> r == Failure(RequiresOneYocto)
    ensures r.Failure? <==> attached != 1 || InternalTransfer(c, predecessor, receiverId, tokenId, memo).Failure?
    ensures r.Ok? ==>
      var c' := r.value.state;
      && tokenId in c.tokensById
      && c.tokensById[tokenId].ownerId == predecessor && predecessor != receiverId
      && c'.tokensById.Keys == c.tokensById.Keys
      && c'.tokensById[tokenId].ownerId == receiverId
      && c'.tokensById[tokenId].approvedAccountIds == map[]
      && c'.tokensById[tokenId].royalty == c.tokensById[tokenId].royalty
      && (forall t | t in c.tokensById && t != tokenId :: c'.tokensById[t] == c.tokensById[t])
      && r.value.effects == MemoLog(memo) + [RefundApprovals(predecessor, c.tokensById[tokenId].approvedAccountIds.Keys)]
    ensures r.Ok? && Valid(c) ==>
      && Valid(r.value.state)
      && tokenId in Members(r.value.state.tokensPerOwner, receiverId)
      && tokenId !in Members(r.value.state.tokensPerOwner, predecessor)
  {
    if AssertOneYocto(attached).Failure? then Failure(AssertOneYocto(attached).error)
    else
      match InternalTransfer(c, predecessor, receiverId, tokenId, memo)
      case Failure(e) => Failure(e)
      case Ok(step) =>
        Ok(Step(step.state, step.effects + [RefundApprovals(predecessor, step.ret.approvedAccountIds.Keys)], ()))
  }

  /** The account named as authorised in the resolve arguments: the sender when it is not
      the token's previous owner. */
  function AuthorizedId(senderId: AccountId, previousOwnerId: AccountId): Option<AccountId> {
    if senderId != previousOwnerId then Some(senderId) else None
  }

  /** `nft_transfer_call`: transfers like `nft_transfer`, then calls `nft_on_transfer`
      on the receiver and schedules `nft_resolve_transfer` with the previous owner and
      the approvals the token had. No approval refund happens here: the resolver decides. */
  function NftTransferCall(c: Contract, predecessor: AccountId, attached: nat, receiverId: AccountId,
                           tokenId: TokenId, approvalId: nat, memo: Option<string>, msg: string)
    : (r: NftResult<()>)
    ensures r.Failure? <==> attached != 1 || InternalTransfer(c, predecessor, receiverId, tokenId, memo).Failure?
    ensures r.Ok? ==> |r.value.effects| > 0 && r.value.effects[|r.value.effects| - 1].NftOnTransfer?
    ensures r.Ok? ==>
      var c' := r.value.state;
      var prev := c.tokensById[tokenId];
      && tokenId in c.tokensById
      && c' == InternalTransfer(c, predecessor, receiverId, tokenId, memo).value.state
      && r.value.effects
           == MemoLog(memo)
              + [NftOnTransfer(receiverId, predecessor, prev.ownerId, tokenId, msg,
                               ResolveTransferArgs(None, prev.ownerId, receiverId, tokenId, prev.approvedAccountIds, memo))]
      && (forall e | e in r.value.effects :: !e.RefundApprovals?)
  {
    if AssertOneYocto(attached).Failure? then Failure(AssertOneYocto(attached).error)
    else
      match InternalTransfer(c, predecessor, receiverId, tokenId, memo)
      case Failure(e) => Failure(e)
      case Ok(step) =>
        var prev := step.ret;
        var resolve := ResolveTransferArgs(AuthorizedId(predecessor, prev.ownerId), prev.ownerId, receiverId,
                                           tokenId, prev.approvedAccountIds, memo);
        Ok(Step(step.state, step.effects + [NftOnTransfer(receiverId, predecessor, prev.ownerId, tokenId, msg, resolve)], ()))
  }

  /** `nft_resolve_transfer`: when the receiver answered with a boolean `b`, returns
      `!b` and changes nothing. Otherwise (the call failed, or its answer does not parse)
      the token goes back to `args.ownerId` with its old approvals, unless it is gone or
      the receiver no longer owns it; in that case only the old approvals are refunded.
      Returns whether the token stays with the receiver. */
  function NftResolveTransfer(c: Contract, args: ResolveTransferArgs, result: PromiseResult<bool>)
    : (r: NftResult<bool>)
    ensures result.Successful? && result.parsed.Some? ==> r == Ok(Step(c, [], !result.parsed.value))
    ensures !(result.Successful? && result.parsed.Some?) &&
            (args.tokenId !in c.tokensById || c.tokensById[args.tokenId].ownerId != args.receiverId) ==>
      r == Ok(Step(c, [RefundApprovals(args.ownerId, args.approvedAccountIds.Keys)], true))
    ensures r.Failure? ==> r.error == OwnerSetMissing
    ensures !(result.Successful? && result.parsed.Some?) && r.Ok? &&
            args.tokenId in c.tokensById && c.tokensById[args.tokenId].ownerId == args.receiverId ==>
      var c' := r.value.state;
      var token := c.tokensById[args.tokenId];
      && r.value.ret == false
      && c'.tokensById == c.tokensById[args.tokenId := token.(ownerId := args.ownerId, approvedAccountIds := args.approvedAccountIds)]
      && args.tokenId in Members(c'.tokensPerOwner, args.ownerId)
      && (forall a | a != args.ownerId && a != args.receiverId :: Members(c'.tokensPerOwner, a) == Members(c.tokensPerOwner, a))
      && r.value.effects == [ Log(Rollback(args.tokenId, args.receiverId, args.ownerId))
                            , RefundApprovals(args.receiverId, token.approvedAccountIds.Keys)
                            , Log(NftTransferLog(args.authorizedId, args.receiverId, args.ownerId, [args.tokenId], args.memo)) ]
    ensures Valid(c) ==> r.Ok? && Valid(r.value.state)
  {
    if result.Successful? && result.parsed.Some? then Ok(Step(c, [], !result.parsed.value))
    else if args.tokenId !in c.tokensById || c.tokensById[args.tokenId].ownerId != args.receiverId then
      Ok(Step(c, [RefundApprovals(args.ownerId, args.approvedAccountIds.Keys)], true))
    else
      var token := c.tokensById[args.tokenId];
      match RemoveTokenFromOwner(c.tokensPerOwner, args.tokenId, args.receiverId)
      case Failure(e) => Failure(e)
      case Ok(removed) =>
        var token' := token.(ownerId := args.ownerId, approvedAccountIds := args.approvedAccountIds);
        MoveKeepsIndex(c.tokensPerOwner, c.tokensById, args.tokenId, args.ownerId, token', removed);
        var c' := c.(tokensPerOwner := AddTokenToOwner(removed, args.tokenId, args.ownerId),
                     tokensById := c.tokensById[args.tokenId := token']);
        Ok(Step(c', [ Log(Rollback(args.tokenId, args.receiverId, args.ownerId))
                    , RefundApprovals(args.receiverId, token.approvedAccountIds.Keys)
                    , Log(NftTransferLog(args.authorizedId, args.receiverId, args.ownerId, [args.tokenId], args.memo)) ], false))
  }

  /** The resolve arguments `nft_transfer_call` schedules. */
  function ScheduledResolve(r: NftResult<()>): ResolveTransferArgs
    requires r.Ok? && |r.value.effects| > 0 && r.value.effects[|r.value.effects| - 1].NftOnTransfer?
  {
    r.value.effects[|r.value.effects| - 1].resolve
  }

  /** `nft_transfer_call` followed by the `nft_resolve_transfer` it schedules, run on the
      receiver's reply `result`. */
  function TransferCallResolved(c: Contract, predecessor: AccountId, attached: nat, receiverId: AccountId,
                                tokenId: TokenId, approvalId: nat, memo: Option<string>, msg: string,
                                result: PromiseResult<bool>): NftResult<bool>
    requires NftTransferCall(c, predecessor, attached, receiverId, tokenId, approvalId, memo, msg).Ok?
  {
    var r := NftTransferCall(c, predecessor, attached, receiverId, tokenId, approvalId, memo, msg);
    NftResolveTransfer(r.value.state, ScheduledResolve(r), result)
  }

  /** When the owner of a token in a valid state transfers it with a call and the
      receiver's call fails, the transfer is undone: after the scheduled resolver runs,
      every stored token is exactly as before (owner, approvals, counter, royalty), every
      account's set holds the same tokens, the resolver reports that the transfer did not
      happen, and the (empty) approvals the receiver got are refunded. */
  lemma FailedTransferCallRollsBack(c: Contract, owner: AccountId, receiverId: AccountId, tokenId: TokenId,
                                    approvalId: nat, memo: Option<string>, msg: string, result: PromiseResult<bool>)
    requires Valid(c)
    requires tokenId in c.tokensById && c.tokensById[tokenId].ownerId == owner && receiverId != owner
    requires result.Failed? || result == Successful(None)
    ensures NftTransferCall(c, owner, 1, receiverId, tokenId, approvalId, memo, msg).Ok?
    ensures var back := TransferCallResolved(c, owner, 1, receiverId, tokenId, approvalId, memo, msg, result);
      && back.Ok? && back.value.ret == false
      && back.value.state.tokensById == c.tokensById
      && (forall a, t :: t in Members(back.value.state.tokensPerOwner, a) <==> t in Members(c.tokensPerOwner, a))
      && RefundApprovals(receiverId, {}) in back.value.effects
  {
    OwnerCanTransfer(c, owner, receiverId, tokenId, approvalId, memo);
    TransferCallHandsOver(c, owner, 1, receiverId, tokenId, approvalId, memo, msg);
    var r := NftTransferCall(c, owner, 1, receiverId, tokenId, approvalId, memo, msg);
    ResolveRestores(c, r.value.state, tokenId, receiverId, memo, result);
    SameOwnersSameIndex(TransferCallResolved(c, owner, 1, receiverId, tokenId, approvalId, memo, msg, result).value.state, c);
  }

  /** The resolver, scheduled after the token went from its owner to `receiverId` with
      no approvals, restores every stored token, keeps the state valid and refunds the
      receiver's (empty) approvals when the receiver's call failed. */
  lemma ResolveRestores(c: Contract, c1: Contract, tokenId: TokenId, receiverId: AccountId, memo: Option<string>,
                        result: PromiseResult<bool>)
    requires Valid(c1)
    requires tokenId in c.tokensById && c.tokensById[tokenId].ownerId != receiverId
    requires c1.tokensById
      == c.tokensById[tokenId := Token(receiverId, map[], c.tokensById[tokenId].nextApprovalId, c.tokensById[tokenId].royalty)]
    requires result.Failed? || result == Successful(None)
    ensures var prev := c.tokensById[tokenId];
      var back := NftResolveTransfer(c1, ResolveTransferArgs(None, prev.ownerId, receiverId, tokenId, prev.approvedAccountIds, memo), result);
      && back.Ok? && back.value.ret == false
      && Valid(back.value.state)
      && back.value.state.tokensById == c.tokensById
      && RefundApprovals(receiverId, {}) in back.value.effects
  {
    var prev := c.tokensById[tokenId];
    var held := Token(receiverId, map[], prev.nextApprovalId, prev.royalty);
    var args := ResolveTransferArgs(None, prev.ownerId, receiverId, tokenId, prev.approvedAccountIds, memo);
    assert tokenId in c1.tokensById && c1.tokensById[tokenId] == held;
    var back := NftResolveTransfer(c1, args, result);
    assert held.(ownerId := prev.ownerId, approvedAccountIds := prev.approvedAccountIds) == prev;
    UndoUpdate(c.tokensById, tokenId, held);
    assert held.approvedAccountIds.Keys == {};
  }

  /** After a valid state's transfer-and-call the state is valid, the receiver holds the
      token with no approvals, and the scheduled resolver names the previous owner and
      the approvals the token had. */
  lemma TransferCallHandsOver(c: Contract, predecessor: AccountId, attached: nat, receiverId: AccountId,
                              tokenId: TokenId, approvalId: nat, memo: Option<string>, msg: string)
    requires Valid(c)
    requires NftTransferCall(c, predecessor, attached, receiverId, tokenId, approvalId, memo, msg).Ok?
    ensures tokenId in c.tokensById
    ensures var r := NftTransferCall(c, predecessor, attached, receiverId, tokenId, approvalId, memo, msg);
      var prev := c.tokensById[tokenId];
      && Valid(r.value.state)
      && ScheduledResolve(r) == ResolveTransferArgs(None, prev.ownerId, receiverId, tokenId, prev.approvedAccountIds, memo)
      && r.value.state.tokensById == c.tokensById[tokenId := Token(receiverId, map[], prev.nextApprovalId, prev.royalty)]
  {
    var moved := InternalTransfer(c, predecessor, receiverId, tokenId, memo);
    var c1 := moved.value.state;
    var prev := c.tokensById[tokenId];
    assert c1.tokensById[tokenId] == Token(receiverId, map[], prev.nextApprovalId, prev.royalty);
    OnlyEntryChanged(c.tokensById, c1.tokensById, tokenId);
  }

  /** In a valid state the owner of a token can always transfer it, with exactly 1
      yoctoNEAR, to any other account. */
  lemma OwnerCanTransfer(c: Contract, owner: AccountId, receiverId: AccountId, tokenId: TokenId,
                         approvalId: nat, memo: Option<string>)
    requires Valid(c)
    requires tokenId in c.tokensById && c.tokensById[tokenId].ownerId == owner && receiverId != owner
    ensures NftTransfer(c, owner, 1, receiverId, tokenId, approvalId, memo).Ok?
  {
    OwnerIndexAgrees(c, owner, tokenId);
  }

  /** A successful transfer rewrites exactly one stored token: the same record with the
      receiver as owner and no approvals. */
  lemma TransferRewritesOneToken(c: Contract, predecessor: AccountId, receiverId: AccountId, tokenId: TokenId,
                                 approvalId: nat, memo: Option<string>)
    requires NftTransfer(c, predecessor, 1, receiverId, tokenId, approvalId, memo).Ok?
    ensures tokenId in c.tokensById
    ensures NftTransfer(c, predecessor, 1, receiverId, tokenId, approvalId, memo).value.state.tokensById
      == c.tokensById[tokenId := c.tokensById[tokenId].(ownerId := receiverId, approvedAccountIds := map[])]
  {
    var moved := InternalTransfer(c, predecessor, receiverId, tokenId, memo);
    var c1 := moved.value.state;
    assert c1.tokensById[tokenId] == c.tokensById[tokenId].(ownerId := receiverId, approvedAccountIds := map[]);
    OnlyEntryChanged(c.tokensById, c1.tokensById, tokenId);
  }

  /** The store half of a transfer and the transfer back: both succeed, the state stays
      valid, and the stored records are the originals with the token's approvals cleared. */
  lemma {:induction false} TransferThereAndBackStore(c: Contract, owner: AccountId, other: AccountId, tokenId: TokenId,
                                                    approvalId: nat, memo: Option<string>)
    requires Valid(c)
    requires NftTransfer(c, owner, 1, other, tokenId, approvalId, memo).Ok?
    ensures tokenId in c.tokensById
    ensures var c1 := NftTransfer(c, owner, 1, other, tokenId, approvalId, memo).value.state;
      var r2 := NftTransfer(c1, other, 1, owner, tokenId, approvalId, memo);
      && r2.Ok?
      && Valid(r2.value.state)
      && r2.value.state.tokensById == c.tokensById[tokenId := c.tokensById[tokenId].(approvedAccountIds := map[])]
  {
    var prev := c.tokensById[tokenId];
    TransferRewritesOneToken(c, owner, other, tokenId, approvalId, memo);
    var c1 := NftTransfer(c, owner, 1, other, tokenId, approvalId, memo).value.state;
    assert Valid(c1) && c1.tokensById[tokenId].ownerId == other;
    OwnerCanTransfer(c1, other, owner, tokenId, approvalId, memo);
    TransferRewritesOneToken(c1, other, owner, tokenId, approvalId, memo);
    var held := prev.(ownerId := other, approvedAccountIds := map[]);
    assert c1.tokensById == c.tokensById[tokenId := held];
    assert held.(ownerId := owner, approvedAccountIds := map[]) == prev.(approvedAccountIds := map[]);
    UpdateTwice(c.tokensById, tokenId, held, prev.(approvedAccountIds := map[]));
  }

  /** A transfer followed by the transfer back restores every token's owner and every
      account's set; the only trace left is that the token's approvals are cleared. */
  lemma {:induction false} TransferThereAndBack(c: Contract, owner: AccountId, other: AccountId, tokenId: TokenId,
                                               approvalId: nat, memo: Option<string>)
    requires Valid(c)
    requires NftTransfer(c, owner, 1, other, tokenId, approvalId, memo).Ok?
    ensures var c1 := NftTransfer(c, owner, 1, other, tokenId, approvalId, memo).value.state;
      var r2 := NftTransfer(c1, other, 1, owner, tokenId, approvalId, memo);
      && r2.Ok?
      && r2.value.state.tokensById == c.tokensById[tokenId := c.tokensById[tokenId].(approvedAccountIds := map[])]
      && (forall a, t :: t in Members(r2.value.state.tokensPerOwner, a) <==> t in Members(c.tokensPerOwner, a))
  {
    TransferThereAndBackStore(c, owner, other, tokenId, approvalId, memo);
    var c1 := NftTransfer(c, owner, 1, other, tokenId, approvalId, memo).value.state;
    var c2 := NftTransfer(c1, other, 1, owner, tokenId, approvalId, memo).value.state;
    SameOwnersAfterRewrite(c, c2, tokenId, c.tokensById[tokenId].(approvedAccountIds := map[]));
  }

  /** After the owner transfers a token, viewing it shows the receiver as owner and the
      same id and metadata. */
  lemma TransferThenView(c: Contract, owner: AccountId, receiverId: AccountId, tokenId: TokenId,
                         approvalId: nat, memo: Option<string>)
    requires Valid(c)
    requires NftTransfer(c, owner, 1, receiverId, tokenId, approvalId, memo).Ok?
    ensures var c' := NftTransfer(c, owner, 1, receiverId, tokenId, approvalId, memo).value.state;
      && tokenId in c.tokenMetadataById.entries
      && NftToken(c', tokenId) == Ok(Some(JsonToken(receiverId, tokenId, c.tokenMetadataById.entries[tokenId])))
  {
    var moved := InternalTransfer(c, owner, receiverId, tokenId, memo);
    assert moved.Ok?;
    assert moved.value.state.tokenMetadataById == c.tokenMetadataById;
  }

  /** The unit test `test_transfer_nft`: a fresh contract owned by `alice` mints
      "vbi_nft" to `alice`, who transfers it to `bob` with 1 yoctoNEAR; the token then
      shows `bob` as owner, with the metadata it was minted with. */
  lemma MintTransferScenario(alice: AccountId, bob: AccountId, metadata: TokenMetadata,
                             deposit: nat, storageByteCost: nat, storageUsed: nat)
    requires alice != bob
    requires storageByteCost * storageUsed <= deposit
    ensures var c0 := NewDefaultMetadata(alice);
      var minted := NftMint.NftMint(c0, alice, deposit, storageByteCost, storageUsed, "vbi_nft", metadata, alice);
      && minted.Ok?
      && NftToken(minted.value.state, "vbi_nft") == Ok(Some(JsonToken(alice, "vbi_nft", metadata)))
      && var moved := NftTransfer(minted.value.state, alice, 1, bob, "vbi_nft", 0, None);
      && moved.Ok?
      && NftToken(moved.value.state, "vbi_nft") == Ok(Some(JsonToken(bob, "vbi_nft", metadata)))
  {
    var c0 := NewDefaultMetadata(alice);
    var minted := NftMint.NftMint(c0, alice, deposit, storageByteCost, storageUsed, "vbi_nft", metadata, alice);
    MintThenView(c0, alice, deposit, storageByteCost, storageUsed, "vbi_nft", metadata, alice);
    var c1 := minted.value.state;
    OwnerIndexAgrees(c1, alice, "vbi_nft");
    TransferThenView(c1, alice, bob, "vbi_nft", 0, None);
  }
}
