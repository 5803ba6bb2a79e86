/** The account store: the in-memory array of user records, with
    registration, lookups, the password-free listing and the balance
    overwrite the transfer engine uses. */
module Accounts {
  import opened Wrappers
  import opened Errors
  import Seqs

  /** One stored account. `password` holds the hash, never the plain text;
      the creation timestamp is not modelled. */
  datatype Account = Account(
    id: int,
    email: string,
    password: string,
    name: string,
    isFavorecido: bool,
    balance: int)

  /** What callers receive for an account: every field but the password. */
  datatype Summary = Summary(
    id: int,
    email: string,
    name: string,
    isFavorecido: bool,
    balance: int)

  type Store = seq<Account>

  function Project(a: Account): Summary {
    Summary(a.id, a.email, a.name, a.isFavorecido, a.balance)
  }

  /** The shape every store built by `Create` has: ids 1..n in order, and
      no email twice. */
  ghost predicate Valid(users: Store) {
    && (forall i :: 0 <= i < |users| ==> users[i].id == i + 1)
    && (forall i, j :: 0 <= i < j < |users| ==> users[i].email != users[j].email)
  }

  ghost predicate HasId(users: Store, id: int) {
    exists k :: 0 <= k < |users| && users[k].id == id
  }

  ghost predicate HasEmail(users: Store, email: string) {
    exists k :: 0 <= k < |users| && users[k].email == email
  }

  function IdIs(id: int): Account -> bool {
    (a: Account) => a.id == id
  }

  function EmailIs(email: string): Account -> bool {
    (a: Account) => a.email == email
  }

  /** Where `users.find(user => user.id === id)` stops. */
  function IndexOfId(users: Store, id: int): (r: Option<nat>)
    ensures r.None? <==> !HasId(users, id)
    ensures r.Some? ==> r.value < |users| && users[r.value].id == id
    ensures r.Some? ==> forall j :: 0 <= j < r.value ==> users[j].id != id
  {
    Seqs.FirstIndex(users, IdIs(id))
  }

  /** `findById`: the first account holding `id`, if any. */
  function FindById(users: Store, id: int): (r: Option<Account>)
    ensures r.None? <==> !HasId(users, id)
    ensures r.Some? ==> exists k :: 0 <= k < |users| && users[k] == r.value && r.value.id == id
                                    && forall j :: 0 <= j < k ==> users[j].id != id
  {
    match IndexOfId(users, id)
    case None => None
    case Some(k) => Some(users[k])
  }

  /** `findByEmail`: the first account holding `email`, if any. */
  function FindByEmail(users: Store, email: string): (r: Option<Account>)
    ensures r.None? <==> !HasEmail(users, email)
    ensures r.Some? ==> exists k :: 0 <= k < |users| && users[k] == r.value && r.value.email == email
                                    && forall j :: 0 <= j < k ==> users[j].email != email
  {
    match Seqs.FirstIndex(users, EmailIs(email))
    case None => None
    case Some(k) => Some(users[k])
  }

  /** `create`: rejects an email already in the store, otherwise appends an
      account with the next id, zero balance and the hashed password.
      `hash` stands for the password hashing library. */
  function Create(users: Store, email: string, password: string, name: string,
                  isFavorecido: Option<bool>, hash: string -> string)
    : (r: Result<(Store, Summary), Error>)
    ensures r.Failure? <==> HasEmail(users, email)
    ensures r.Failure? ==> r.error == UserAlreadyExists
    ensures r.Success? ==>
      var (users', summary) := r.value;
      && |users'| == |users| + 1
      && users'[..|users|] == users
      && users'[|users|].id == |users| + 1
      && users'[|users|].email == email
      && users'[|users|].password == hash(password)
      && users'[|users|].name == name
      && users'[|users|].isFavorecido == (isFavorecido == Some(true))
      && users'[|users|].balance == 0
      && summary == Project(users'[|users|])
  {
    if FindByEmail(users, email).Some? then
      Failure(UserAlreadyExists)
    else
      var favoured := match isFavorecido case None => false case Some(b) => b;
      var user := Account(|users| + 1, email, hash(password), name, favoured, 0);
      Success((users + [user], Project(user)))
  }

  /** `getAll`: one password-free summary per account, in store order. */
  function GetAll(users: Store): (r: seq<Summary>)
    ensures |r| == |users|
    ensures forall i :: 0 <= i < |users| ==> r[i] == Project(users[i])
  {
    seq(|users|, i requires 0 <= i < |users| => Project(users[i]))
  }

  /** `updateBalance`: overwrites the balance of the first account holding
      `id` and reports whether there was one. The new value is not checked. */
  function UpdateBalance(users: Store, id: int, newBalance: int): (r: (bool, Store))
    ensures r.0 <==> HasId(users, id)
    ensures |r.1| == |users|
    ensures !r.0 ==> r.1 == users
    ensures r.0 ==>
      var k := IndexOfId(users, id).value;
      && r.1[k] == users[k].(balance := newBalance)
      && forall j :: 0 <= j < |users| && j != k ==> r.1[j] == users[j]
  {
    match IndexOfId(users, id)
    case None => (false, users)
    case Some(k) => (true, users[k := users[k].(balance := newBalance)])
  }

  /** The sum of all balances. */
  function TotalBalance(users: Store): int {
    if |users| == 0 then 0 else users[0].balance + TotalBalance(users[1..])
  }

  /** Overwriting one balance shifts the total by exactly the difference. */
  lemma {:induction false} TotalBalanceAfterOverwrite(users: Store, k: nat, b: int)
    requires k < |users|
    ensures TotalBalance(users[k := users[k].(balance := b)])
            == TotalBalance(users) - users[k].balance + b
  {
    var users' := users[k := users[k].(balance := b)];
    if k == 0 {
      assert users'[1..] == users[1..];
    } else {
      assert users'[1..] == users[1..][k - 1 := users[k].(balance := b)];
      TotalBalanceAfterOverwrite(users[1..], k - 1, b);
    }
  }

  /** Stores that agree on every id agree on where each id is first found. */
  lemma SameIdsSameIndex(a: Store, b: Store, id: int)
    requires |a| == |b|
    requires forall j :: 0 <= j < |a| ==> a[j].id == b[j].id
    ensures IndexOfId(a, id) == IndexOfId(b, id)
  {
  }

  /** In a valid store the account with id `id` sits at position `id - 1`. */
  lemma FindByIdInValidStore(users: Store, id: int)
    requires Valid(users)
    ensures FindById(users, id).Some? <==> 1 <= id <= |users|
    ensures 1 <= id <= |users| ==> FindById(users, id) == Some(users[id - 1])
  {
    if 1 <= id <= |users| {
      assert users[id - 1].id == id;
    }
  }

  /** In a valid store an email names at most one account. */
  lemma FindByEmailInValidStore(users: Store, email: string, k: nat)
    requires Valid(users)
    requires k < |users| && users[k].email == email
    ensures FindByEmail(users, email) == Some(users[k])
  {
  }

  /** `create` keeps ids sequential and emails distinct. */
  lemma CreatePreservesValid(users: Store, email: string, password: string, name: string,
                             isFavorecido: Option<bool>, hash: string -> string)
    requires Valid(users)
    ensures Create(users, email, password, name, isFavorecido, hash).Success? ==>
              Valid(Create(users, email, password, name, isFavorecido, hash).value.0)
  {
  }

  /** A freshly created account is found again by its email and by its id,
      and the listing gains exactly its summary at the end. */
  lemma CreateThenFind(users: Store, email: string, password: string, name: string,
                       isFavorecido: Option<bool>, hash: string -> string)
    requires Valid(users)
    requires Create(users, email, password, name, isFavorecido, hash).Success?
    ensures var (users', summary) := Create(users, email, password, name, isFavorecido, hash).value;
            && FindByEmail(users', email) == Some(users'[|users|])
            && FindById(users', summary.id) == Some(users'[|users|])
            && GetAll(users') == GetAll(users) + [summary]
  {
  }

  /** After `updateBalance` the account is found with the new balance and
      with everything else as before; the store stays valid. */
  lemma UpdateBalanceThenFind(users: Store, id: int, newBalance: int)
    requires Valid(users)
    requires HasId(users, id)
    ensures var users' := UpdateBalance(users, id, newBalance).1;
            && Valid(users')
            && FindById(users', id) == Some(FindById(users, id).value.(balance := newBalance))
  {
  }
}
