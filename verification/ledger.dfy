/** The ledger store: the append-only array of completed transfers, with
    the per-participant history and the full listing. */
module Ledger {
  import opened Wrappers
  import Seqs

  /** The only status a stored transfer ever has. */
  const Completed: string := "completed"

  /** One ledger record; the creation timestamp is not modelled. */
  datatype Transfer = Transfer(
    id: int,
    fromUserId: int,
    toUserId: int,
    amount: int,
    description: Option<string>,
    status: string)

  type Ledger = seq<Transfer>

  /** Ids 1..n in insertion order. */
  ghost predicate Valid(ledger: Ledger) {
    forall i :: 0 <= i < |ledger| ==> ledger[i].id == i + 1
  }

  /** `create`: appends a completed record with the next id and returns it.
      Nothing about the sender, recipient or amount is checked here. */
  function Create(ledger: Ledger, fromUserId: int, toUserId: int, amount: int,
                  description: Option<string>): (r: (Ledger, Transfer))
    ensures |r.0| == |ledger| + 1
    ensures r.0[..|ledger|] == ledger
    ensures r.0[|ledger|] == r.1
    ensures r.1.id == |ledger| + 1 && r.1.status == Completed
    ensures r.1.fromUserId == fromUserId && r.1.toUserId == toUserId
    ensures r.1.amount == amount && r.1.description == description
  {
    var transfer := Transfer(|ledger| + 1, fromUserId, toUserId, amount, description, Completed);
    (ledger + [transfer], transfer)
  }

  predicate Involves(t: Transfer, userId: int) {
    t.fromUserId == userId || t.toUserId == userId
  }

  function InvolvesUser(userId: int): Transfer -> bool {
    (t: Transfer) => Involves(t, userId)
  }

  /** `getByUserId`: every record the user sent or received, in insertion order. */
  function GetByUserId(ledger: Ledger, userId: int): (r: seq<Transfer>)
    ensures |r| <= |ledger|
    ensures forall i :: 0 <= i < |r| ==> r[i] in ledger && Involves(r[i], userId)
    ensures forall i :: 0 <= i < |ledger| && Involves(ledger[i], userId) ==> ledger[i] in r
  {
    Seqs.Filter(ledger, InvolvesUser(userId))
  }

  /** `getAll`: the whole ledger in insertion order. */
  function GetAll(ledger: Ledger): seq<Transfer> {
    ledger
  }

  /** Appending records extends each user's history by exactly the appended
      records that involve the user, kept in order behind the old history. */
  lemma GetByUserIdAfterAppend(ledger: Ledger, added: seq<Transfer>, userId: int)
    ensures GetByUserId(ledger + added, userId)
            == GetByUserId(ledger, userId) + GetByUserId(added, userId)
  {
    Seqs.FilterConcat(ledger, added, InvolvesUser(userId));
  }

  /** `create` grows the history of the sender and the recipient by the new
      record, leaves every other user's history alone, and grows the full
      listing by the new record at the end. */
  lemma CreateExtendsHistory(ledger: Ledger, fromUserId: int, toUserId: int, amount: int,
                             description: Option<string>, userId: int)
    ensures var (ledger', t) := Create(ledger, fromUserId, toUserId, amount, description);
            && GetAll(ledger') == GetAll(ledger) + [t]
            && GetByUserId(ledger', userId)
               == GetByUserId(ledger, userId)
                  + (if userId == fromUserId || userId == toUserId then [t] else [])
  {
    var (ledger', t) := Create(ledger, fromUserId, toUserId, amount, description);
    GetByUserIdAfterAppend(ledger, [t], userId);
    assert Seqs.Filter([t], InvolvesUser(userId))
           == (if Involves(t, userId) then [t] else []) + Seqs.Filter([t][1..], InvolvesUser(userId));
  }

  /** `create` keeps ledger ids sequential. */
  lemma CreatePreservesValid(ledger: Ledger, fromUserId: int, toUserId: int, amount: int,
                             description: Option<string>)
    requires Valid(ledger)
    ensures Valid(Create(ledger, fromUserId, toUserId, amount, description).0)
  {
  }

  /** What a record means for one user's balance: plus the amount when the
      user received it, minus the amount when the user sent it. */
  function Flow(t: Transfer, userId: int): int {
    (if t.toUserId == userId then t.amount else 0)
    - (if t.fromUserId == userId then t.amount else 0)
  }

  /** The sum of `Flow` over a run of records. */
  function NetFlow(ledger: Ledger, userId: int): int {
    if |ledger| == 0 then 0 else Flow(ledger[0], userId) + NetFlow(ledger[1..], userId)
  }

  lemma {:induction false} NetFlowConcat(a: Ledger, b: Ledger, userId: int)
    ensures NetFlow(a + b, userId) == NetFlow(a, userId) + NetFlow(b, userId)
  {
    if |a| == 0 {
      assert a + b == b;
    } else {
      assert (a + b)[1..] == a[1..] + b;
      NetFlowConcat(a[1..], b, userId);
    }
  }
}
