/** NEP-199 payouts (nft-contract/src/royalty.rs): how a sale balance is split between
    the royalty accounts of a token and its owner. */
module NftRoyalty {
  import opened Near
  import opened Collections
  import opened NftTypes
  import opened NftInternal
  import opened NftUtils

  /** Royalties are in basis points: 10000 is the whole balance. */
  const ROYALTY_DENOMINATOR: nat := 10000

  /** `max_len_payout` and `royalty.len() as u32` are 32-bit. */
  const U32_MODULUS: nat := 0x1_0000_0000

  /** `royalty_to_payout`, taken to be the floor of `bp / 10000` of the balance (the
      helper is not part of this model; u128 overflow of the product is not modelled). */
  function RoyaltyToPayout(bp: nat, balance: nat): nat {
    Quotient(bp * balance)
  }

  /** Floor division by 10000 as repeated subtraction, so that the solver meets a plain
      function term wherever a share is only moved around; `QuotientIsDiv` relates it to
      `/` where a proof does arithmetic on it. */
  function Quotient(x: nat): nat
    decreases x
  {
    if x < ROYALTY_DENOMINATOR then 0 else 1 + Quotient(x - ROYALTY_DENOMINATOR)
  }

  lemma {:induction false} QuotientIsDiv(x: nat)
    ensures Quotient(x) == x / ROYALTY_DENOMINATOR
    decreases x
  {
    if x >= ROYALTY_DENOMINATOR {
      QuotientIsDiv(x - ROYALTY_DENOMINATOR);
    }
  }

  /** A share is the exact fraction of the balance rounded down: it loses less than one. */
  lemma ShareIsFloor(bp: nat, balance: nat)
    ensures ROYALTY_DENOMINATOR * RoyaltyToPayout(bp, balance) <= bp * balance
    ensures bp * balance < ROYALTY_DENOMINATOR * RoyaltyToPayout(bp, balance) + ROYALTY_DENOMINATOR
  {
    QuotientIsDiv(bp * balance);
  }

  /** The royalty accounts that are paid as such: every one except the owner. */
  function Beneficiaries(royalty: map<AccountId, nat>, ownerId: AccountId): set<AccountId> {
    royalty.Keys - {ownerId}
  }

  /** The basis points the beneficiaries take (`total_perpetual`). */
  ghost function UsedBasisPoints(royalty: map<AccountId, nat>, ownerId: AccountId): nat {
    SumOver(royalty, Beneficiaries(royalty, ownerId))
  }

  /** Each beneficiary's share of `balance`. */
  function BeneficiaryShares(royalty: map<AccountId, nat>, ownerId: AccountId, balance: nat): (r: map<AccountId, nat>)
    ensures r.Keys == Beneficiaries(royalty, ownerId)
  {
    map k | k in Beneficiaries(royalty, ownerId) :: RoyaltyToPayout(royalty[k], balance)
  }

  /** The payout NEP-199 asks for: every beneficiary gets its share, the owner gets the
      share of the basis points left over; an owner's own royalty entry plays no part. */
  ghost function ExpectedPayout(royalty: map<AccountId, nat>, ownerId: AccountId, balance: nat): map<AccountId, nat>
    requires UsedBasisPoints(royalty, ownerId) <= ROYALTY_DENOMINATOR
  {
    BeneficiaryShares(royalty, ownerId, balance)[ownerId := RoyaltyToPayout(ROYALTY_DENOMINATOR - UsedBasisPoints(royalty, ownerId), balance)]
  }

  /** The loop both payout entry points run: rejects a royalty table longer than
      `max_len_payout` (compared as u32), then walks the table in whatever order the
      hash map yields and panics when the beneficiaries' basis points exceed 10000
      (the u32 subtraction `10000 - total_perpetual` underflows). */
  method ComputePayout(royalty: map<AccountId, nat>, ownerId: AccountId, balance: nat, maxLenPayout: nat)
    returns (r: Result<map<AccountId, nat>, NftError>)
    ensures |royalty| % U32_MODULUS > maxLenPayout ==> r == Failure(TooManyPayoutReceivers)
    ensures |royalty| % U32_MODULUS <= maxLenPayout && UsedBasisPoints(royalty, ownerId) > ROYALTY_DENOMINATOR ==>
      r == Failure(RoyaltyOverflow)
    ensures r.Failure? ==> |royalty| % U32_MODULUS > maxLenPayout || UsedBasisPoints(royalty, ownerId) > ROYALTY_DENOMINATOR
    ensures r.Ok? ==> UsedBasisPoints(royalty, ownerId) <= ROYALTY_DENOMINATOR && r.value == ExpectedPayout(royalty, ownerId, balance)
  {
    if |royalty| % U32_MODULUS > maxLenPayout {
      return Failure(TooManyPayoutReceivers);
    }
    var shares, totalPerpetual := CollectShares(royalty, ownerId, balance);
    if totalPerpetual > ROYALTY_DENOMINATOR {
      return Failure(RoyaltyOverflow);
    }
    return Ok(shares[ownerId := RoyaltyToPayout(ROYALTY_DENOMINATOR - totalPerpetual, balance)]);
  }

  /** The `for (k, v) in royalty.iter()` loop: every account but the owner gets its
      share, and their basis points are added up. */
  method CollectShares(royalty: map<AccountId, nat>, ownerId: AccountId, balance: nat)
    returns (shares: map<AccountId, nat>, totalPerpetual: nat)
    ensures shares == BeneficiaryShares(royalty, ownerId, balance)
    ensures totalPerpetual == UsedBasisPoints(royalty, ownerId)
  {
    shares := map[];
    totalPerpetual := 0;
    var remaining := royalty.Keys;
    while remaining != {}
      invariant remaining <= royalty.Keys
      invariant shares.Keys == Beneficiaries(royalty, ownerId) - remaining
      invariant forall k | k in shares :: shares[k] == RoyaltyToPayout(royalty[k], balance)
      invariant totalPerpetual == SumOver(royalty, shares.Keys)
      decreases remaining
    {
      var k :| k in remaining;
      if k != ownerId {
        ghost var seen := shares.Keys;
        SumOverAddFresh(royalty, seen, k, royalty[k]);
        assert royalty[k := royalty[k]] == royalty;
        shares := shares[k := RoyaltyToPayout(royalty[k], balance)];
        assert shares.Keys == seen + {k};
        totalPerpetual := totalPerpetual + royalty[k];
      }
      remaining := remaining - {k};
    }
    SharesAre(royalty, ownerId, balance, shares);
  }

  /** A map over the beneficiaries holding each one's share is the share map. */
  lemma SharesAre(royalty: map<AccountId, nat>, ownerId: AccountId, balance: nat, payout: map<AccountId, nat>)
    requires payout.Keys == Beneficiaries(royalty, ownerId)
    requires forall k | k in payout :: payout[k] == RoyaltyToPayout(royalty[k], balance)
    ensures payout == BeneficiaryShares(royalty, ownerId, balance)
  {
  }

  /** The accounts paid are the beneficiaries and the owner: at least one, at most one
      more than the royalty table has. */
  lemma PayoutReceivers(royalty: map<AccountId, nat>, ownerId: AccountId, balance: nat)
    requires UsedBasisPoints(royalty, ownerId) <= ROYALTY_DENOMINATOR
    ensures ExpectedPayout(royalty, ownerId, balance).Keys == Beneficiaries(royalty, ownerId) + {ownerId}
    ensures 1 <= |ExpectedPayout(royalty, ownerId, balance)| <= |royalty| + 1
  {
    var p := ExpectedPayout(royalty, ownerId, balance);
    assert p.Keys == Beneficiaries(royalty, ownerId) + {ownerId};
    assert |Beneficiaries(royalty, ownerId)| <= |royalty.Keys|;
    assert |p.Keys| <= |Beneficiaries(royalty, ownerId)| + |{ownerId}|;
  }

  /** Summed over any set of beneficiaries, the floored shares come to at most the exact
      shares, and lose less than one yoctoNEAR per beneficiary. */
  lemma {:induction false} SharesAgainstExact(royalty: map<AccountId, nat>, ownerId: AccountId, balance: nat, ks: set<AccountId>)
    requires ks <= Beneficiaries(royalty, ownerId)
    ensures var shares := BeneficiaryShares(royalty, ownerId, balance);
      && ROYALTY_DENOMINATOR * SumOver(shares, ks) <= balance * SumOver(royalty, ks)
      && balance * SumOver(royalty, ks) <= ROYALTY_DENOMINATOR * SumOver(shares, ks) + |ks| * (ROYALTY_DENOMINATOR - 1)
    decreases ks
  {
    var shares := BeneficiaryShares(royalty, ownerId, balance);
    if ks != {} {
      var k :| k in ks;
      SumOverRemove(shares, ks, k);
      SumOverRemove(royalty, ks, k);
      SharesAgainstExact(royalty, ownerId, balance, ks - {k});
      var share, bp := shares[k], royalty[k];
      assert share == RoyaltyToPayout(bp, balance);
      ShareIsFloor(bp, balance);
      var restShares, restExact := SumOver(shares, ks - {k}), SumOver(royalty, ks - {k});
      assert SumOver(royalty, ks) == bp + restExact;
      MulDistributes(balance, bp, restExact);
      assert |ks - {k}| == |ks| - 1;
    }
  }

  lemma MulDistributes(a: nat, b: nat, c: nat)
    ensures a * (b + c) == b * a + a * c
  {
  }

  /** With the beneficiaries within 10000 basis points, the payout never exceeds the
      balance, and falls short of it by at most one yoctoNEAR per beneficiary (the
      floors of the owner's share and each beneficiary's share each lose under one). */
  lemma PayoutWithinBalance(royalty: map<AccountId, nat>, ownerId: AccountId, balance: nat)
    requires UsedBasisPoints(royalty, ownerId) <= ROYALTY_DENOMINATOR
    ensures Sum(ExpectedPayout(royalty, ownerId, balance)) <= balance
    ensures balance - Sum(ExpectedPayout(royalty, ownerId, balance)) <= |Beneficiaries(royalty, ownerId)|
  {
    var b := Beneficiaries(royalty, ownerId);
    var shares := BeneficiaryShares(royalty, ownerId, balance);
    var used := UsedBasisPoints(royalty, ownerId);
    var ownerShare := RoyaltyToPayout(ROYALTY_DENOMINATOR - used, balance);
    PayoutSplits(royalty, ownerId, balance);
    SharesAgainstExact(royalty, ownerId, balance, b);
    ShareIsFloor(ROYALTY_DENOMINATOR - used, balance);
    FloorsAddUp(balance, used, ownerShare, SumOver(shares, b), |b|);
  }

  /** The payout adds up to the owner's share plus the beneficiaries' shares. */
  lemma PayoutSplits(royalty: map<AccountId, nat>, ownerId: AccountId, balance: nat)
    requires UsedBasisPoints(royalty, ownerId) <= ROYALTY_DENOMINATOR
    ensures Sum(ExpectedPayout(royalty, ownerId, balance))
      == RoyaltyToPayout(ROYALTY_DENOMINATOR - UsedBasisPoints(royalty, ownerId), balance)
         + SumOver(BeneficiaryShares(royalty, ownerId, balance), Beneficiaries(royalty, ownerId))
  {
    var b := Beneficiaries(royalty, ownerId);
    var shares := BeneficiaryShares(royalty, ownerId, balance);
    var ownerShare := RoyaltyToPayout(ROYALTY_DENOMINATOR - UsedBasisPoints(royalty, ownerId), balance);
    var p := ExpectedPayout(royalty, ownerId, balance);
    assert p == shares[ownerId := ownerShare];
    SumOverRemove(p, p.Keys, ownerId);
    assert p.Keys - {ownerId} == b;
    SumOverAgree(p, shares, b);
  }

  /** The arithmetic of `PayoutWithinBalance`: an owner share that is the floor of the
      rest of the balance, plus beneficiary shares that lose less than one each. */
  lemma FloorsAddUp(balance: nat, used: nat, ownerShare: nat, shares: nat, n: nat)
    requires used <= ROYALTY_DENOMINATOR
    requires ROYALTY_DENOMINATOR * ownerShare <= (ROYALTY_DENOMINATOR - used) * balance
    requires (ROYALTY_DENOMINATOR - used) * balance < ROYALTY_DENOMINATOR * ownerShare + ROYALTY_DENOMINATOR
    requires ROYALTY_DENOMINATOR * shares <= balance * used
    requires balance * used <= ROYALTY_DENOMINATOR * shares + n * (ROYALTY_DENOMINATOR - 1)
    ensures ownerShare + shares <= balance
    ensures balance - (ownerShare + shares) <= n
  {
    assert (ROYALTY_DENOMINATOR - used) * balance + balance * used == ROYALTY_DENOMINATOR * balance;
  }

  /** Royalty {A: 500, B: 300} on a token owned by O, balance 1000: A gets 50, B 30 and
      O the remaining 920. */
  lemma PayoutExample()
    ensures UsedBasisPoints(map["A" := 500, "B" := 300], "O") == 800
    ensures ExpectedPayout(map["A" := 500, "B" := 300], "O", 1000) == map["A" := 50, "B" := 30, "O" := 920]
  {
    var royalty := map["A" := 500, "B" := 300];
    assert Beneficiaries(royalty, "O") == {"A", "B"};
    SumOverRemove(royalty, {"A", "B"}, "A");
    assert {"A", "B"} - {"A"} == {"B"};
    SumOverSingleton(royalty, "B");
    QuotientIsDiv(500 * 1000);
    QuotientIsDiv(300 * 1000);
    QuotientIsDiv(9200 * 1000);
  }

  /** The shortfall can exceed one yoctoNEAR: royalty {A: 3333, B: 3333}, owner O and
      balance 3 pay A and B nothing and O one, two short of the balance. */
  lemma ShortfallExceedsOne()
    ensures UsedBasisPoints(map["A" := 3333, "B" := 3333], "O") == 6666
    ensures ExpectedPayout(map["A" := 3333, "B" := 3333], "O", 3) == map["A" := 0, "B" := 0, "O" := 1]
    ensures Sum(map["A" := 0, "B" := 0, "O" := 1]) == 1
  {
    var royalty := map["A" := 3333, "B" := 3333];
    assert Beneficiaries(royalty, "O") == {"A", "B"};
    SumOverRemove(royalty, {"A", "B"}, "A");
    assert {"A", "B"} - {"A"} == {"B"};
    SumOverSingleton(royalty, "B");
    QuotientIsDiv(3334 * 3);
    var p := map["A" := 0, "B" := 0, "O" := 1];
    SumOverRemove(p, p.Keys, "O");
    assert p.Keys - {"O"} == {"A", "B"};
    SumOverRemove(p, {"A", "B"}, "A");
    SumOverSingleton(p, "B");
  }

  /** `nft_payout`: the payout for the token's current owner and royalty table; the
      contract state is not touched. */
  method NftPayout(c: Contract, tokenId: TokenId, balance: nat, maxLenPayout: nat)
    returns (r: Result<map<AccountId, nat>, NftError>)
    ensures tokenId !in c.tokensById ==> r == Failure(TokenNotFound)
    ensures tokenId in c.tokensById && |c.tokensById[tokenId].royalty| % U32_MODULUS > maxLenPayout ==>
      r == Failure(TooManyPayoutReceivers)
    ensures r.Ok? ==>
      var token := c.tokensById[tokenId];
      && tokenId in c.tokensById
      && UsedBasisPoints(token.royalty, token.ownerId) <= ROYALTY_DENOMINATOR
      && r.value == ExpectedPayout(token.royalty, token.ownerId, balance)
    ensures tokenId in c.tokensById && r.Failure? ==>
      var token := c.tokensById[tokenId];
      |token.royalty| % U32_MODULUS > maxLenPayout || UsedBasisPoints(token.royalty, token.ownerId) > ROYALTY_DENOMINATOR
  {
    if tokenId !in c.tokensById {
      return Failure(TokenNotFound);
    }
    var token := c.tokensById[tokenId];
    r := ComputePayout(token.royalty, token.ownerId, balance, maxLenPayout);
  }

  /** `nft_transfer_payout`: with exactly 1 yoctoNEAR, the owner transfers the token as
      `nft_transfer` does, the previous owner gets the storage of the old approvals back,
      and the payout is computed from the previous owner and the previous royalty table.
      A panic in the payout undoes the transfer. */
  method NftTransferPayout(c: Contract, predecessor: AccountId, attached: nat, receiverId: AccountId,
                           tokenId: TokenId, approvalId: nat, memo: string, balance: nat, maxLenPayout: nat)
    returns (r: NftResult<map<AccountId, nat>>)
    ensures r.Failure? && attached == 1 && InternalTransfer(c, predecessor, receiverId, tokenId, Some(memo)).Ok? ==>
      var prev := c.tokensById[tokenId];
      |prev.royalty| % U32_MODULUS > maxLenPayout || UsedBasisPoints(prev.royalty, prev.ownerId) > ROYALTY_DENOMINATOR
    ensures r.Ok? ==> attached == 1 && InternalTransfer(c, predecessor, receiverId, tokenId, Some(memo)).Ok?
    ensures r.Ok? ==>
      var moved := InternalTransfer(c, predecessor, receiverId, tokenId, Some(memo));
      var prev := c.tokensById[tokenId];
      && prev.ownerId == predecessor
      && r.value.state == moved.value.state
      && r.value.effects == moved.value.effects + [RefundApprovals(prev.ownerId, prev.approvedAccountIds.Keys)]
      && UsedBasisPoints(prev.royalty, prev.ownerId) <= ROYALTY_DENOMINATOR
      && r.value.ret == ExpectedPayout(prev.royalty, prev.ownerId, balance)
    ensures attached == 1 && InternalTransfer(c, predecessor, receiverId, tokenId, Some(memo)).Ok?
              && |c.tokensById[tokenId].royalty| % U32_MODULUS > maxLenPayout ==>
      r == Failure(TooManyPayoutReceivers)
    ensures attached != 1 ==> r == Failure(RequiresOneYocto)
    ensures InternalTransfer(c, predecessor, receiverId, tokenId, Some(memo)).Failure? ==> r.Failure?
  {
    var yocto := AssertOneYocto(attached);
    if yocto.Failure? {
      return Failure(yocto.error);
    }
    var moved := InternalTransfer(c, predecessor, receiverId, tokenId, Some(memo));
    if moved.Failure? {
      return Failure(moved.error);
    }
    var prev := moved.value.ret;
    var effects := moved.value.effects + [RefundApprovals(prev.ownerId, prev.approvedAccountIds.Keys)];
    var payout := ComputePayout(prev.royalty, prev.ownerId, balance, maxLenPayout);
    if payout.Failure? {
      return Failure(payout.error);
    }
    return Ok(Step(moved.value.state, effects, payout.value));
  }
}
