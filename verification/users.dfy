/**
 * The `users` table as the controllers see it: one record per email address,
 * with an auto-incremented id and one optional external id per social provider.
 */
module Users {
  import opened Wrappers

  /** The social providers a user row has an id column for. */
  datatype Provider = Facebook | Google

  /** A row of `users`; `password` holds the bcrypt digest. */
  datatype User = User(
    id: nat,
    name: string,
    email: string,
    password: string,
    facebookId: Option<string>,
    googleId: Option<string>)

  /** The user store, keyed by email (the column `unique:users` and the social lookup query). */
  datatype UserStore = UserStore(byEmail: map<string, User>, nextId: nat)

  /** Every row is filed under its own email and has an id below the next one handed out, and no two rows share an id. */
  ghost predicate Valid(s: UserStore) {
    && (forall e :: e in s.byEmail ==> s.byEmail[e].email == e && s.byEmail[e].id < s.nextId)
    && (forall e1, e2 :: e1 in s.byEmail && e2 in s.byEmail && e1 != e2 ==> s.byEmail[e1].id != s.byEmail[e2].id)
  }

  /** The name of the column `ProviderId` reads for `p`. */
  function Column(p: Provider): string {
    match p
    case Facebook => "facebook_id"
    case Google => "google_id"
  }

  /** The `<provider>_id` column of `u`. */
  function ProviderId(u: User, p: Provider): Option<string> {
    match p
    case Facebook => u.facebookId
    case Google => u.googleId
  }

  /** `$user->{$provider . '_id'} = $id`. */
  function SetProviderId(u: User, p: Provider, id: string): (r: User)
    ensures ProviderId(r, p) == Some(id)
    ensures forall q :: q != p ==> ProviderId(r, q) == ProviderId(u, q)
    ensures r.id == u.id && r.name == u.name && r.email == u.email && r.password == u.password
  {
    match p
    case Facebook => u.(facebookId := Some(id))
    case Google => u.(googleId := Some(id))
  }

  /** PHP falsiness of a nullable string column: null, `""` and `"0"` all read as unset. */
  predicate Unset(o: Option<string>) {
    o.None? || o.value == "" || o.value == "0"
  }

  /** `User::create([...])`: a new row with the next id and no provider ids. */
  function Insert(s: UserStore, name: string, email: string, digest: string): (r: (UserStore, User))
    requires Valid(s)
    requires email !in s.byEmail
    ensures Valid(r.0)
    ensures r.0.byEmail.Keys == s.byEmail.Keys + {email}
    ensures forall e :: e in s.byEmail ==> r.0.byEmail[e] == s.byEmail[e]
    ensures r.0.byEmail[email] == r.1
    ensures r.1.name == name && r.1.email == email && r.1.password == digest
    ensures r.1.facebookId == None && r.1.googleId == None
    ensures forall e :: e in s.byEmail ==> s.byEmail[e].id != r.1.id
  {
    var u := User(s.nextId, name, email, digest, None, None);
    (UserStore(s.byEmail[email := u], s.nextId + 1), u)
  }

  /** `$user->save()` for a row that is already stored under its email. */
  function Save(s: UserStore, u: User): (r: UserStore)
    requires Valid(s)
    requires u.email in s.byEmail && s.byEmail[u.email].id == u.id
    ensures Valid(r)
    ensures r.byEmail.Keys == s.byEmail.Keys && r.nextId == s.nextId
    ensures r.byEmail[u.email] == u
    ensures forall e :: e in s.byEmail && e != u.email ==> r.byEmail[e] == s.byEmail[e]
  {
    UserStore(s.byEmail[u.email := u], s.nextId)
  }
}
