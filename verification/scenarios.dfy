/** Concrete runs of the transfer engine. `InsufficientBalanceScenario`
    follows the insufficient-balance test in test/risk-based.test.js; the
    other two exercise a single rule of services/transferService.js on
    amounts and ids chosen at its boundary. */
module Scenarios {
  import opened Wrappers
  import opened Errors
  import opened Accounts
  import opened TransferService
  import Ledger

  /** Two non-favoured accounts, the first holding 10000. 5001 to the second
      is refused by the ceiling; 5000 goes through, leaves 5000 on each side
      and records transfer 1. A further 5001 breaks both the funds rule and
      the ceiling, and the funds rule, checked first, is the one reported. */
  lemma CeilingScenario(pa: string, pb: string)
    ensures
      var a := Account(1, "a@x", pa, "A", false, 10000);
      var b := Account(2, "b@x", pb, "B", false, 0);
      var t := Ledger.Transfer(1, 1, 2, 5000, None, Ledger.Completed);
      var after := State([a.(balance := 5000), b.(balance := 5000)], [t]);
      && CreateTransfer(State([a, b], []), Request(Some(1), Some(2), Some(5001), None))
         == Failure(NonFavouredLimit)
      && CreateTransfer(State([a, b], []), Request(Some(1), Some(2), Some(5000), None))
         == Success((after, t))
      && CreateTransfer(after, Request(Some(1), Some(2), Some(5001), None))
         == Failure(InsufficientBalance)
  {
    var a := Account(1, "a@x", pa, "A", false, 10000);
    var b := Account(2, "b@x", pb, "B", false, 0);
    var a', b' := a.(balance := 5000), b.(balance := 5000);
    FindByIdInValidStore([a, b], 1);
    FindByIdInValidStore([a, b], 2);
    assert IndexOfId([a, b], 1) == Some(0) && IndexOfId([a, b], 2) == Some(1);
    var r := CreateTransfer(State([a, b], []), Request(Some(1), Some(2), Some(5000), None));
    assert r.value.0.users == [a', b'];
    FindByIdInValidStore([a', b'], 1);
    FindByIdInValidStore([a', b'], 2);
  }

  /** A sender holding 1000 who asks to send 2000 is refused for
      insufficient balance. */
  lemma InsufficientBalanceScenario(pa: string, pb: string)
    ensures
      var a := Account(1, "a@x", pa, "A", false, 1000);
      var b := Account(2, "b@x", pb, "B", false, 0);
      CreateTransfer(State([a, b], []), Request(Some(1), Some(2), Some(2000), None))
      == Failure(InsufficientBalance)
  {
    var a := Account(1, "a@x", pa, "A", false, 1000);
    var b := Account(2, "b@x", pb, "B", false, 0);
    FindByIdInValidStore([a, b], 1);
    FindByIdInValidStore([a, b], 2);
  }

  /** A transfer to an id no account holds is refused as an unknown
      recipient. */
  lemma UnknownRecipientScenario(pa: string)
    ensures
      var a := Account(1, "a@x", pa, "A", false, 100);
      CreateTransfer(State([a], []), Request(Some(1), Some(999), Some(10), None))
      == Failure(RecipientNotFound)
  {
  }
}
