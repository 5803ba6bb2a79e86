/** The transfer engine: seven checks in a fixed order, then the sender's
    and the recipient's balance overwrites and one ledger record. */
module TransferService {
  import opened Wrappers
  import opened Errors
  import opened Accounts
  import Ledger

  /** Both stores the service drives. */
  datatype State = State(users: Accounts.Store, transfers: Ledger.Ledger)

  /** The arguments of `createTransfer`; any of them may be missing. */
  datatype Request = Request(
    fromUserId: Option<int>,
    toUserId: Option<int>,
    amount: Option<int>,
    description: Option<string>)

  /** Largest amount a non-favoured recipient may receive in one transfer. */
  const NonFavouredCeiling: int := 5000

  ghost predicate Valid(s: State) {
    Accounts.Valid(s.users) && Ledger.Valid(s.transfers)
  }

  // The checks of `createTransfer`, each assuming the ones before it passed.

  predicate DataMissing(req: Request) {
    IsFalsyInt(req.fromUserId) || IsFalsyInt(req.toUserId) || IsFalsyInt(req.amount)
  }

  predicate AmountPositive(req: Request)
    requires !DataMissing(req)
  {
    req.amount.value > 0
  }

  predicate Distinct(req: Request)
    requires !DataMissing(req)
  {
    req.fromUserId.value != req.toUserId.value
  }

  ghost predicate BothExist(s: State, req: Request)
    requires !DataMissing(req)
  {
    HasId(s.users, req.fromUserId.value) && HasId(s.users, req.toUserId.value)
  }

  predicate Funded(s: State, req: Request)
    requires !DataMissing(req)
    requires FindById(s.users, req.fromUserId.value).Some?
  {
    FindById(s.users, req.fromUserId.value).value.balance >= req.amount.value
  }

  predicate WithinCeiling(s: State, req: Request)
    requires !DataMissing(req)
    requires FindById(s.users, req.toUserId.value).Some?
  {
    FindById(s.users, req.toUserId.value).value.isFavorecido
    || req.amount.value <= NonFavouredCeiling
  }

  /** Every check passes. */
  ghost predicate Admissible(s: State, req: Request) {
    && !DataMissing(req)
    && AmountPositive(req)
    && Distinct(req)
    && BothExist(s, req)
    && Funded(s, req)
    && WithinCeiling(s, req)
  }

  /** What an admitted transfer does to the two stores: the sender's account
      loses `amount`, the recipient's gains it, no other account changes, and
      the ledger gains `t` at the end. */
  ghost predicate Committed(s: State, from: int, to: int, amount: int,
                            description: Option<string>, s': State, t: Ledger.Transfer)
  {
    var i := IndexOfId(s.users, from);
    var j := IndexOfId(s.users, to);
    && i.Some? && j.Some? && i.value != j.value
    && |s'.users| == |s.users|
    && s'.users[i.value] == s.users[i.value].(balance := s.users[i.value].balance - amount)
    && s'.users[j.value] == s.users[j.value].(balance := s.users[j.value].balance + amount)
    && (forall k :: 0 <= k < |s.users| && k != i.value && k != j.value ==> s'.users[k] == s.users[k])
    && t == Ledger.Transfer(|s.transfers| + 1, from, to, amount, description, Ledger.Completed)
    && s'.transfers == s.transfers + [t]
  }

  /** `createTransfer`. A failure carries no state: every check runs before
      anything is written, so the caller's stores stand as they were. */
  function CreateTransfer(s: State, req: Request): (r: Result<(State, Ledger.Transfer), Error>)
    ensures r == Failure(MissingTransferData) <==> DataMissing(req)
    ensures r == Failure(NonPositiveAmount) <==>
      !DataMissing(req) && req.amount.value < 0
    ensures r == Failure(SelfTransfer) <==>
      !DataMissing(req) && AmountPositive(req) && !Distinct(req)
    ensures r == Failure(SenderNotFound) <==>
      !DataMissing(req) && AmountPositive(req) && Distinct(req)
      && !HasId(s.users, req.fromUserId.value)
    ensures r == Failure(RecipientNotFound) <==>
      !DataMissing(req) && AmountPositive(req) && Distinct(req)
      && HasId(s.users, req.fromUserId.value) && !HasId(s.users, req.toUserId.value)
    ensures r == Failure(InsufficientBalance) <==>
      !DataMissing(req) && AmountPositive(req) && Distinct(req) && BothExist(s, req)
      && !Funded(s, req)
    ensures r == Failure(NonFavouredLimit) <==>
      !DataMissing(req) && AmountPositive(req) && Distinct(req) && BothExist(s, req)
      && Funded(s, req) && !WithinCeiling(s, req)
    ensures r.Success? <==> Admissible(s, req)
    ensures r.Success? ==>
      Committed(s, req.fromUserId.value, req.toUserId.value, req.amount.value,
                req.description, r.value.0, r.value.1)
  {
    if DataMissing(req) then
      Failure(MissingTransferData)
    else
      var from, to, amount := req.fromUserId.value, req.toUserId.value, req.amount.value;
      if amount <= 0 then
        Failure(NonPositiveAmount)
      else if from == to then
        Failure(SelfTransfer)
      else
        var fromUser := FindById(s.users, from);
        var toUser := FindById(s.users, to);
        if fromUser.None? then
          Failure(SenderNotFound)
        else if toUser.None? then
          Failure(RecipientNotFound)
        else if fromUser.value.balance < amount then
          Failure(InsufficientBalance)
        else if !toUser.value.isFavorecido && amount > NonFavouredCeiling then
          Failure(NonFavouredLimit)
        else
          var newFromBalance := fromUser.value.balance - amount;
          var newToBalance := toUser.value.balance + amount;
          var (_, users1) := UpdateBalance(s.users, from, newFromBalance);
          SameIdsSameIndex(s.users, users1, to);
          var (_, users2) := UpdateBalance(users1, to, newToBalance);
          var (transfers', transfer) := Ledger.Create(s.transfers, from, to, amount, req.description);
          Success((State(users2, transfers'), transfer))
  }

  /** Amount 0 counts as missing data: the positive-amount check only ever
      sees negative amounts. */
  lemma ZeroAmountIsMissingData(s: State, from: Option<int>, to: Option<int>,
                                description: Option<string>)
    ensures CreateTransfer(s, Request(from, to, Some(0), description)) == Failure(MissingTransferData)
  {
  }

  /** A sender whose balance equals the amount may send it, and ends at zero. */
  lemma ExactBalanceSuffices(s: State, req: Request)
    requires !DataMissing(req) && AmountPositive(req) && Distinct(req) && BothExist(s, req)
    requires FindById(s.users, req.fromUserId.value).value.balance == req.amount.value
    requires WithinCeiling(s, req)
    ensures CreateTransfer(s, req).Success?
    ensures FindById(CreateTransfer(s, req).value.0.users, req.fromUserId.value)
            == Some(FindById(s.users, req.fromUserId.value).value.(balance := 0))
  {
  }

  /** The ceiling for non-favoured recipients is inclusive: 5000 passes and
      5001 is refused, while a favoured recipient takes any funded amount. */
  lemma CeilingBoundary(s: State, req: Request)
    requires !DataMissing(req) && AmountPositive(req) && Distinct(req) && BothExist(s, req)
    requires Funded(s, req)
    ensures req.amount.value <= 5000 ==> CreateTransfer(s, req).Success?
    ensures FindById(s.users, req.toUserId.value).value.isFavorecido ==> CreateTransfer(s, req).Success?
    ensures !FindById(s.users, req.toUserId.value).value.isFavorecido && req.amount.value == 5001
            ==> CreateTransfer(s, req) == Failure(NonFavouredLimit)
  {
  }

  /** A successful transfer keeps the sum of all balances. */
  lemma TransferConservesTotal(s: State, req: Request)
    requires CreateTransfer(s, req).Success?
    ensures TotalBalance(CreateTransfer(s, req).value.0.users) == TotalBalance(s.users)
  {
    var (s', t) := CreateTransfer(s, req).value;
    CommittedConservesTotal(s, req.fromUserId.value, req.toUserId.value, req.amount.value,
                            req.description, s', t);
  }

  /** Moving `amount` from one account to another keeps the sum of all balances. */
  lemma CommittedConservesTotal(s: State, from: int, to: int, amount: int,
                                description: Option<string>, s': State, t: Ledger.Transfer)
    requires Committed(s, from, to, amount, description, s', t)
    ensures TotalBalance(s'.users) == TotalBalance(s.users)
  {
    var i, j := IndexOfId(s.users, from).value, IndexOfId(s.users, to).value;
    var mid := s.users[i := s.users[i].(balance := s.users[i].balance - amount)];
    CommittedIsTwoOverwrites(s, from, to, amount, description, s', t);
    TotalBalanceAfterOverwrite(s.users, i, s.users[i].balance - amount);
    TotalBalanceAfterOverwrite(mid, j, s.users[j].balance + amount);
  }

  /** A committed transfer leaves the accounts exactly as the sender's
      overwrite followed by the recipient's overwrite would. */
  lemma CommittedIsTwoOverwrites(s: State, from: int, to: int, amount: int,
                                 description: Option<string>, s': State, t: Ledger.Transfer)
    requires Committed(s, from, to, amount, description, s', t)
    ensures var i, j := IndexOfId(s.users, from).value, IndexOfId(s.users, to).value;
            var mid := s.users[i := s.users[i].(balance := s.users[i].balance - amount)];
            s'.users == mid[j := mid[j].(balance := s.users[j].balance + amount)]
  {
    var i, j := IndexOfId(s.users, from).value, IndexOfId(s.users, to).value;
    var mid := s.users[i := s.users[i].(balance := s.users[i].balance - amount)];
    var last := mid[j := mid[j].(balance := s.users[j].balance + amount)];
    forall k | 0 <= k < |s.users|
      ensures s'.users[k] == last[k]
    {
    }
  }

  /** A successful transfer never leaves the sender below zero. */
  lemma TransferNeverOverdraws(s: State, req: Request)
    requires CreateTransfer(s, req).Success?
    ensures FindById(CreateTransfer(s, req).value.0.users, req.fromUserId.value).Some?
    ensures FindById(CreateTransfer(s, req).value.0.users, req.fromUserId.value).value.balance >= 0
  {
  }

  /** A successful transfer keeps both stores valid. */
  lemma TransferPreservesValid(s: State, req: Request)
    requires Valid(s)
    requires CreateTransfer(s, req).Success?
    ensures Valid(CreateTransfer(s, req).value.0)
  {
  }

  /** In a valid state each account's balance moves by exactly what the new
      ledger record says it moves. */
  lemma TransferMatchesLedger(s: State, req: Request, k: nat)
    requires Valid(s)
    requires CreateTransfer(s, req).Success?
    requires k < |s.users|
    ensures var (s', t) := CreateTransfer(s, req).value;
            && k < |s'.users| && s'.users[k].id == s.users[k].id
            && s'.users[k].balance == s.users[k].balance + Ledger.Flow(t, s.users[k].id)
  {
  }

  /** The state reached from `s` by attempting every request in order; a
      request that fails leaves the state as it was. */
  function Run(s: State, reqs: seq<Request>): State
    decreases |reqs|
  {
    if |reqs| == 0 then s
    else
      var before := Run(s, reqs[..|reqs| - 1]);
      match CreateTransfer(before, reqs[|reqs| - 1])
      case Success((after, _)) => after
      case Failure(_) => before
  }

  /** Over any run of requests from a valid state: the state stays valid,
      the accounts keep their ids, the ledger only grows, and each account's
      balance has moved by exactly the net flow of the records the run added. */
  lemma {:induction false} RunMatchesLedger(s: State, reqs: seq<Request>)
    requires Valid(s)
    ensures var s' := Run(s, reqs);
            && Valid(s')
            && |s'.users| == |s.users|
            && |s.transfers| <= |s'.transfers|
            && s'.transfers[..|s.transfers|] == s.transfers
            && forall k :: 0 <= k < |s.users| ==>
                 s'.users[k].balance
                 == s.users[k].balance + Ledger.NetFlow(s'.transfers[|s.transfers|..], s.users[k].id)
    decreases |reqs|
  {
    if |reqs| == 0 {
      assert s.transfers[|s.transfers|..] == [];
    } else {
      var before := Run(s, reqs[..|reqs| - 1]);
      RunMatchesLedger(s, reqs[..|reqs| - 1]);
      var req := reqs[|reqs| - 1];
      var added := before.transfers[|s.transfers|..];
      match CreateTransfer(before, req)
      case Failure(_) =>
      case Success((after, t)) =>
        TransferPreservesValid(before, req);
        assert after.transfers == before.transfers + [t];
        assert after.transfers[|s.transfers|..] == added + [t];
        assert after.transfers[..|s.transfers|] == before.transfers[..|s.transfers|];
        forall k | 0 <= k < |s.users|
          ensures after.users[k].balance
                  == s.users[k].balance + Ledger.NetFlow(after.transfers[|s.transfers|..], s.users[k].id)
        {
          TransferMatchesLedger(before, req, k);
          Ledger.NetFlowConcat(added, [t], s.users[k].id);
          assert s.users[k].id == before.users[k].id == k + 1;
        }
    }
  }

  /** Over any run of requests the sum of all balances stays the same. */
  lemma {:induction false} RunConservesTotal(s: State, reqs: seq<Request>)
    ensures TotalBalance(Run(s, reqs).users) == TotalBalance(s.users)
    decreases |reqs|
  {
    if |reqs| > 0 {
      var before := Run(s, reqs[..|reqs| - 1]);
      RunConservesTotal(s, reqs[..|reqs| - 1]);
      if CreateTransfer(before, reqs[|reqs| - 1]).Success? {
        TransferConservesTotal(before, reqs[|reqs| - 1]);
      }
    }
  }

  /** A successful transfer adds its record to the history of whichever
      of the two participants asks, carrying the request's sender,
      recipient, amount and description. */
  lemma TransferExtendsHistory(s: State, req: Request, userId: int)
    requires CreateTransfer(s, req).Success?
    requires req.fromUserId == Some(userId) || req.toUserId == Some(userId)
    ensures var (s', t) := CreateTransfer(s, req).value;
            && Ledger.GetByUserId(s'.transfers, userId) == Ledger.GetByUserId(s.transfers, userId) + [t]
            && req.fromUserId == Some(t.fromUserId) && req.toUserId == Some(t.toUserId)
            && req.amount == Some(t.amount)
            && t.description == req.description
  {
    var (s', t) := CreateTransfer(s, req).value;
    Ledger.CreateExtendsHistory(s.transfers, req.fromUserId.value, req.toUserId.value,
                                req.amount.value, req.description, userId);
  }

  /** Every request of the run succeeds in the state the ones before it left. */
  ghost predicate AllSucceed(s: State, reqs: seq<Request>)
    decreases |reqs|
  {
    |reqs| > 0 ==>
      && AllSucceed(s, reqs[..|reqs| - 1])
      && CreateTransfer(Run(s, reqs[..|reqs| - 1]), reqs[|reqs| - 1]).Success?
  }

  /** `after` is the history `before` followed by one record per request,
      each carrying that request's sender, recipient, amount and
      description, in order. */
  ghost predicate ExtendsByRequests(before: seq<Ledger.Transfer>, after: seq<Ledger.Transfer>,
                                    reqs: seq<Request>)
  {
    && |after| == |before| + |reqs|
    && after[..|before|] == before
    && forall n :: 0 <= n < |reqs| ==>
         && reqs[n].fromUserId == Some(after[|before| + n].fromUserId)
         && reqs[n].toUserId == Some(after[|before| + n].toUserId)
         && reqs[n].amount == Some(after[|before| + n].amount)
         && reqs[n].description == after[|before| + n].description
  }

  /** After N requests that all succeed and all involve `userId`, the user's
      history has grown by exactly N records, carrying the senders,
      recipients, amounts and descriptions of the requests in order. */
  lemma {:induction false} HistoryGrowsPerTransfer(s: State, reqs: seq<Request>, userId: int)
    requires AllSucceed(s, reqs)
    requires forall n :: 0 <= n < |reqs| ==>
               reqs[n].fromUserId == Some(userId) || reqs[n].toUserId == Some(userId)
    ensures ExtendsByRequests(Ledger.GetByUserId(s.transfers, userId),
                              Ledger.GetByUserId(Run(s, reqs).transfers, userId), reqs)
    decreases |reqs|
  {
    var before := Ledger.GetByUserId(s.transfers, userId);
    if |reqs| == 0 {
      assert Run(s, reqs) == s;
    } else {
      var prefix := reqs[..|reqs| - 1];
      HistoryGrowsPerTransfer(s, prefix, userId);
      var t := HistoryStep(s, reqs, userId);
      ExtendsByOneMore(before, Ledger.GetByUserId(Run(s, prefix).transfers, userId), t, reqs);
    }
  }

  /** The last request of a run that succeeds adds its record `t` to the
      history of either participant. */
  lemma HistoryStep(s: State, reqs: seq<Request>, userId: int) returns (t: Ledger.Transfer)
    requires |reqs| > 0
    requires CreateTransfer(Run(s, reqs[..|reqs| - 1]), reqs[|reqs| - 1]).Success?
    requires reqs[|reqs| - 1].fromUserId == Some(userId) || reqs[|reqs| - 1].toUserId == Some(userId)
    ensures Ledger.GetByUserId(Run(s, reqs).transfers, userId)
            == Ledger.GetByUserId(Run(s, reqs[..|reqs| - 1]).transfers, userId) + [t]
    ensures reqs[|reqs| - 1].fromUserId == Some(t.fromUserId)
    ensures reqs[|reqs| - 1].toUserId == Some(t.toUserId)
    ensures reqs[|reqs| - 1].amount == Some(t.amount)
    ensures reqs[|reqs| - 1].description == t.description
  {
    var m := |reqs| - 1;
    var mid := Run(s, reqs[..m]);
    var step := CreateTransfer(mid, reqs[m]).value;
    t := step.1;
    assert Run(s, reqs) == step.0;
    TransferExtendsHistory(mid, reqs[m], userId);
  }

  /** One more record at the end of the history matches one more request at
      the end of the run. */
  lemma ExtendsByOneMore(before: seq<Ledger.Transfer>, middle: seq<Ledger.Transfer>,
                         t: Ledger.Transfer, reqs: seq<Request>)
    requires |reqs| > 0
    requires ExtendsByRequests(before, middle, reqs[..|reqs| - 1])
    requires reqs[|reqs| - 1].fromUserId == Some(t.fromUserId)
    requires reqs[|reqs| - 1].toUserId == Some(t.toUserId)
    requires reqs[|reqs| - 1].amount == Some(t.amount)
    requires reqs[|reqs| - 1].description == t.description
    ensures ExtendsByRequests(before, middle + [t], reqs)
  {
  }

  /** `getTransfersByUserId` and `getAllTransfers` are the ledger's own
      queries; a failed transfer leaves both answers as they were. */
  function GetTransfersByUserId(s: State, userId: int): seq<Ledger.Transfer> {
    Ledger.GetByUserId(s.transfers, userId)
  }

  function GetAllTransfers(s: State): seq<Ledger.Transfer> {
    Ledger.GetAll(s.transfers)
  }
}
