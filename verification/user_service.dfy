/** The user service: registration with required fields, the login check
    chain and the password-free account lookup. */
module UserService {
  import opened Wrappers
  import opened Errors
  import opened Accounts

  predicate RegistrationIncomplete(email: Option<string>, password: Option<string>,
                                   name: Option<string>)
  {
    IsFalsyString(email) || IsFalsyString(password) || IsFalsyString(name)
  }

  /** `register`: refuses a request without email, password or name, and
      otherwise hands it to the account store. `hash` stands for the
      password hashing library. */
  function Register(users: Store, email: Option<string>, password: Option<string>,
                    name: Option<string>, isFavorecido: Option<bool>, hash: string -> string)
    : (r: Result<(Store, Summary), Error>)
    ensures r == Failure(RegistrationFieldsRequired) <==> RegistrationIncomplete(email, password, name)
    ensures r == Failure(UserAlreadyExists) <==>
      !RegistrationIncomplete(email, password, name) && HasEmail(users, email.value)
    ensures r.Success? <==>
      !RegistrationIncomplete(email, password, name) && !HasEmail(users, email.value)
    ensures r.Success? ==>
      var (users', summary) := r.value;
      && |users'| == |users| + 1
      && users'[..|users|] == users
      && users'[|users|] == Account(|users| + 1, email.value, hash(password.value), name.value,
                                    isFavorecido == Some(true), 0)
      && summary == Project(users'[|users|])
  {
    if RegistrationIncomplete(email, password, name) then
      Failure(RegistrationFieldsRequired)
    else
      Create(users, email.value, password.value, name.value, isFavorecido, hash)
  }

  /** `login`, without the token: missing fields first, then an unknown
      email, then a password the stored hash rejects. `matches` stands for
      the hashing library's comparison of a plain password with a hash. */
  function Login(users: Store, email: Option<string>, password: Option<string>,
                 matches: (string, string) -> bool): (r: Result<Summary, Error>)
    ensures r == Failure(LoginFieldsRequired) <==> IsFalsyString(email) || IsFalsyString(password)
    ensures r == Failure(UserNotFound) <==>
      !IsFalsyString(email) && !IsFalsyString(password) && !HasEmail(users, email.value)
    ensures r == Failure(InvalidPassword) <==>
      && !IsFalsyString(email) && !IsFalsyString(password) && HasEmail(users, email.value)
      && !matches(password.value, FindByEmail(users, email.value).value.password)
    ensures r.Success? <==>
      && !IsFalsyString(email) && !IsFalsyString(password) && HasEmail(users, email.value)
      && matches(password.value, FindByEmail(users, email.value).value.password)
    ensures r.Success? ==> r.value == Project(FindByEmail(users, email.value).value)
  {
    if IsFalsyString(email) || IsFalsyString(password) then
      Failure(LoginFieldsRequired)
    else
      match FindByEmail(users, email.value)
      case None => Failure(UserNotFound)
      case Some(user) =>
        if !matches(password.value, user.password) then Failure(InvalidPassword)
        else Success(Project(user))
  }

  /** `getUserById`: the summary of the first account holding `id`, or not-found. */
  function GetUserById(users: Store, id: int): (r: Result<Summary, Error>)
    ensures r.Failure? <==> !HasId(users, id)
    ensures r.Failure? ==> r.error == UserNotFound
    ensures r.Success? ==> r.value == Project(FindById(users, id).value)
    ensures r.Success? ==>
      exists k :: 0 <= k < |users| && users[k].id == id && r.value == Project(users[k])
  {
    match FindById(users, id)
    case None => Failure(UserNotFound)
    case Some(user) => Success(Project(user))
  }

  /** Registering keeps ids sequential and emails distinct. */
  lemma RegisterPreservesValid(users: Store, email: Option<string>, password: Option<string>,
                               name: Option<string>, isFavorecido: Option<bool>,
                               hash: string -> string)
    requires Valid(users)
    requires Register(users, email, password, name, isFavorecido, hash).Success?
    ensures Valid(Register(users, email, password, name, isFavorecido, hash).value.0)
  {
  }

  /** Whoever registers can log in with the same email and password, as
      long as the comparison accepts a password against its own hash, and
      receives the summary registration returned. */
  lemma RegisterThenLogin(users: Store, email: Option<string>, password: Option<string>,
                          name: Option<string>, isFavorecido: Option<bool>,
                          hash: string -> string, matches: (string, string) -> bool)
    requires Valid(users)
    requires Register(users, email, password, name, isFavorecido, hash).Success?
    requires matches(password.value, hash(password.value))
    ensures var (users', summary) := Register(users, email, password, name, isFavorecido, hash).value;
            Login(users', email, password, matches) == Success(summary)
  {
  }

  /** In a valid store the account registration created is found by the id
      in its summary, and ids outside 1..n are not found. */
  lemma RegisterThenGetUserById(users: Store, email: Option<string>, password: Option<string>,
                                name: Option<string>, isFavorecido: Option<bool>,
                                hash: string -> string, id: int)
    requires Valid(users)
    requires Register(users, email, password, name, isFavorecido, hash).Success?
    ensures var (users', summary) := Register(users, email, password, name, isFavorecido, hash).value;
            && GetUserById(users', summary.id) == Success(summary)
            && (GetUserById(users', id).Success? <==> 1 <= id <= |users'|)
  {
    var (users', summary) := Register(users, email, password, name, isFavorecido, hash).value;
    CreateThenFind(users, email.value, password.value, name.value, isFavorecido, hash);
    RegisterPreservesValid(users, email, password, name, isFavorecido, hash);
    FindByIdInValidStore(users', id);
  }
}
