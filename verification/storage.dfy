/** The browser-local persistence layer (services/storage.ts): a registry of
    credentials under one key and one dataset per user under a key derived
    from the e-mail address. `localStorage` is a map from key to stored value;
    JSON encoding is left out, so a value is stored and read back as itself. */
module Storage {
  import opened Wrappers
  import opened Types

  const UsersKey: string := "trackit_users"
  const DataPrefix: string := "trackit_data_"

  /** A registry record. The password is absent when the account was created
      without one. Passwords are stored in plain text, as in services/storage.ts. */
  datatype Credential = Credential(name: string, email: string, password: Option<string>)

  /** A user's expenses and categories, the unit of persistence. */
  datatype Dataset = Dataset(expenses: seq<Expense>, categories: seq<Category>)

  /** What a key of the store holds. */
  datatype Entry = UserList(users: seq<Credential>) | UserData(data: Dataset)

  type Store = map<string, Entry>

  /** The categories every new account starts with. */
  const DefaultCategories: seq<Category> := [
    Category("1", "Food & Dining", 500.0, "#FF6B6B"),
    Category("2", "Transportation", 300.0, "#4ECDC4"),
    Category("3", "Utilities", 200.0, "#45B7D1"),
    Category("4", "Entertainment", 150.0, "#96CEB4"),
    Category("5", "Shopping", 400.0, "#FFEEAD")
  ]

  const DefaultDataset: Dataset := Dataset([], DefaultCategories)

  function DataKey(email: string): string {
    DataPrefix + email
  }

  /** Dataset keys never collide with the registry key or with each other. */
  lemma DataKeyDistinct(email: string, other: string)
    ensures DataKey(email) != UsersKey
    ensures DataKey(email) == DataKey(other) <==> email == other
  {
    assert DataKey(email)[8] == 'd' && UsersKey[8] == 'u';
    if DataKey(email) == DataKey(other) {
      assert email == DataKey(email)[|DataPrefix|..];
      assert other == DataKey(other)[|DataPrefix|..];
    }
  }

  // ---------------------------------------------------------------------------
  // Registry (storage.ts:18-56)
  // ---------------------------------------------------------------------------

  /** The registry; empty when nothing (or something unreadable) is stored. */
  function GetUsers(s: Store): (r: seq<Credential>)
    ensures UsersKey !in s ==> r == []
    ensures UsersKey in s && s[UsersKey].UserList? ==> r == s[UsersKey].users
  {
    if UsersKey in s && s[UsersKey].UserList? then s[UsersKey].users else []
  }

  /** The first record with the given e-mail (`users.find`). */
  function FindUser(users: seq<Credential>, email: string): (r: Option<Credential>)
    ensures r.None? <==> forall i :: 0 <= i < |users| ==> users[i].email != email
    ensures r.Some? ==> r.value in users && r.value.email == email
    ensures r.Some? ==> (exists i :: 0 <= i < |users| && users[i] == r.value &&
                          forall j :: 0 <= j < i ==> users[j].email != email)
    decreases |users|
  {
    if |users| == 0 then None
    else if users[0].email == email then Some(users[0])
    else FindUser(users[1..], email)
  }

  predicate Registered(s: Store, email: string) {
    FindUser(GetUsers(s), email).Some?
  }

  /** Why an account could not be created. */
  datatype CreateError = EmailTaken

  /** Signing up: fails, touching nothing, when the e-mail is already in the
      registry; otherwise appends the credentials and stores a fresh dataset
      for the new account. */
  function CreateUser(s: Store, u: User, password: Option<string>): (r: (Store, Result<User, CreateError>))
    ensures Registered(s, u.email) ==> r == (s, Failure(EmailTaken))
    ensures !Registered(s, u.email) ==>
      && r.1 == Success(u)
      && GetUsers(r.0) == GetUsers(s) + [Credential(u.name, u.email, password)]
      && DataKey(u.email) in r.0 && r.0[DataKey(u.email)] == UserData(DefaultDataset)
      && forall k :: k != UsersKey && k != DataKey(u.email) ==>
           (k in r.0 <==> k in s) && (k in s ==> r.0[k] == s[k])
  {
    var users := GetUsers(s);
    if FindUser(users, u.email).Some? then (s, Failure(EmailTaken))
    else
      DataKeyDistinct(u.email, u.email);
      var s1 := s[UsersKey := UserList(users + [Credential(u.name, u.email, password)])];
      (s1[DataKey(u.email) := UserData(DefaultDataset)], Success(u))
  }

  /** No two registry records share an e-mail address. */
  predicate DistinctEmails(users: seq<Credential>) {
    forall i, j :: 0 <= i < j < |users| ==> users[i].email != users[j].email
  }

  /** Creating accounts keeps the registry's e-mails pairwise distinct. */
  lemma CreateUserKeepsEmailsDistinct(s: Store, u: User, password: Option<string>)
    requires DistinctEmails(GetUsers(s))
    ensures DistinctEmails(GetUsers(CreateUser(s, u, password).0))
  {
  }

  /** Signing up twice with one e-mail: the second attempt fails and leaves
      the store as the first left it. */
  lemma CreateUserTwice(s: Store, u: User, p1: Option<string>, v: User, p2: Option<string>)
    requires v.email == u.email
    ensures var s1 := CreateUser(s, u, p1).0;
      CreateUser(s1, v, p2) == (s1, Failure(EmailTaken))
  {
    var s1 := CreateUser(s, u, p1).0;
    var users := GetUsers(s1);
    if !Registered(s, u.email) {
      assert users[|users| - 1].email == u.email;
    }
  }

  /** The password rule of `verifyCredentials` (services/storage.ts): a supplied password must match the
      stored one; an absent or empty password is not checked at all, which
      stands in for a login through a third-party identity provider. */
  predicate PasswordSupplied(password: Option<string>) {
    password.Some? && password.value != ""
  }

  /** Logging in: the stored name and the queried e-mail when the e-mail is
      registered and the password rule passes, nothing otherwise. */
  function VerifyCredentials(s: Store, email: string, password: Option<string>): (r: Option<User>)
    ensures !Registered(s, email) ==> r == None
    ensures Registered(s, email) && !PasswordSupplied(password) ==>
      r == Some(User(FindUser(GetUsers(s), email).value.name, email))
    ensures Registered(s, email) && PasswordSupplied(password) ==>
      (r.Some? <==> FindUser(GetUsers(s), email).value.password == password)
    ensures r.Some? ==> r == Some(User(FindUser(GetUsers(s), email).value.name, email))
  {
    match FindUser(GetUsers(s), email)
    case None => None
    case Some(c) =>
      if PasswordSupplied(password) && c.password != password then None
      else Some(User(c.name, c.email))
  }

  /** Right after sign-up, the chosen password (when one was given) opens the
      account and yields the user who signed up. */
  lemma SignUpThenLogIn(s: Store, u: User, password: Option<string>)
    requires !Registered(s, u.email)
    ensures VerifyCredentials(CreateUser(s, u, password).0, u.email, password) == Some(u)
  {
    var s1 := CreateUser(s, u, password).0;
    var users := GetUsers(s1);
    assert users[..|users| - 1] == GetUsers(s);
    FindUserAppend(GetUsers(s), Credential(u.name, u.email, password));
  }

  /** Looking up the appended record's e-mail finds it when no earlier record
      carries that e-mail. */
  lemma {:induction false} FindUserAppend(users: seq<Credential>, c: Credential)
    requires FindUser(users, c.email).None?
    ensures FindUser(users + [c], c.email) == Some(c)
    decreases |users|
  {
    if |users| == 0 {
      assert users + [c] == [c];
    } else {
      assert (users + [c])[1..] == users[1..] + [c];
      FindUserAppend(users[1..], c);
    }
  }

  // ---------------------------------------------------------------------------
  // Datasets (storage.ts:61-72)
  // ---------------------------------------------------------------------------

  /** The stored dataset, or empty expenses with the default categories when
      nothing (or something unreadable) is stored for the e-mail. */
  function GetUserData(s: Store, email: string): (d: Dataset)
    ensures DataKey(email) !in s ==> d == DefaultDataset
    ensures DataKey(email) in s && s[DataKey(email)].UserData? ==> d == s[DataKey(email)].data
  {
    if DataKey(email) in s && s[DataKey(email)].UserData? then s[DataKey(email)].data
    else DefaultDataset
  }

  /** Overwrites the e-mail's dataset; nothing else in the store changes. */
  function SaveUserData(s: Store, email: string, es: seq<Expense>, cs: seq<Category>): (r: Store)
    ensures DataKey(email) in r
    ensures forall k :: k != DataKey(email) ==> (k in r <==> k in s) && (k in s ==> r[k] == s[k])
  {
    s[DataKey(email) := UserData(Dataset(es, cs))]
  }

  /** Saving and then loading returns what was saved; other users' datasets
      and the registry are untouched. */
  lemma SaveThenLoad(s: Store, email: string, es: seq<Expense>, cs: seq<Category>, other: string)
    requires other != email
    ensures GetUserData(SaveUserData(s, email, es, cs), email) == Dataset(es, cs)
    ensures GetUserData(SaveUserData(s, email, es, cs), other) == GetUserData(s, other)
    ensures GetUsers(SaveUserData(s, email, es, cs)) == GetUsers(s)
  {
    DataKeyDistinct(email, other);
  }

  /** A new account starts with no expenses and the default categories. */
  lemma NewAccountDataset(s: Store, u: User, password: Option<string>)
    requires !Registered(s, u.email)
    ensures GetUserData(CreateUser(s, u, password).0, u.email) == DefaultDataset
  {
  }
}
