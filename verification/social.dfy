/**
 * The web AuthController's social login: an allow-list guard, then find the
 * user by the provider's email or register one, link the provider id if it
 * is unset, log in and redirect.
 */
module Social {
  import opened Wrappers
  import opened Users
  import opened Registration
  import opened Collaborators

  /** `$providers`. */
  const Providers: seq<string> := ["facebook", "google"]
  /** `$redirectTo`. */
  const RedirectTo := "/home"

  /** What the provider reports about the user; name and email may be missing. */
  datatype SocialProfile = SocialProfile(id: string, name: Option<string>, email: Option<string>)

  datatype Outcome =
    | Aborted                              // exit()
    | ToProvider(provider: Provider)       // Socialite's redirect to the provider
    | ValidationThrown(errors: FieldErrors) // throwValidationException
    | Redirect(target: string)             // redirect($this->redirectPath())

  /** The provider a route segment names, if it is on the allow-list. */
  function ProviderNamed(name: string): (p: Option<Provider>)
    ensures p.Some? <==> name in Providers
    ensures p == Some(Facebook) <==> name == "facebook"
    ensures p == Some(Google) <==> name == "google"
  {
    if name == "facebook" then Some(Facebook)
    else if name == "google" then Some(Google)
    else None
  }

  /** The column the callback writes is the route segment followed by `_id`. */
  lemma ProviderColumn(name: string)
    requires ProviderNamed(name).Some?
    ensures Column(ProviderNamed(name).value) == name + "_id"
  {
  }

  /** PHP falsiness of a route segment. */
  predicate IsFalsy(s: string) {
    s == "" || s == "0"
  }

  /** The guard `!$provider || !in_array($provider, $this->providers)`. */
  predicate Refused(provider: string) {
    IsFalsy(provider) || provider !in Providers
  }

  /** The falsiness test is subsumed by the allow-list: exactly the unknown names are refused. */
  lemma RefusedIffUnknown(provider: string)
    ensures Refused(provider) <==> ProviderNamed(provider).None?
  {
  }

  /** `redirectToProvider`: abort on a refused name, otherwise hand over to that provider. */
  function RedirectToProvider(provider: string): (o: Outcome)
    ensures o == Aborted <==> Refused(provider)
    ensures !Refused(provider) ==> o.ToProvider? && ProviderNamed(provider) == Some(o.provider)
  {
    match ProviderNamed(provider)
    case None => Aborted
    case Some(p) => ToProvider(p)
  }

  /**
   * `User::where('email', '=', $email)->first()`: a null email matches no
   * row; otherwise, in a well-formed store, a row is found exactly when some
   * stored row has that email, and the row found is one of them.
   */
  function FindByEmail(users: UserStore, email: Option<string>): (r: Option<User>)
    ensures r.Some? <==> email.Some? && email.value in users.byEmail
    ensures r.Some? ==> r.value == users.byEmail[email.value]
    ensures r.Some? ==> r.value in users.byEmail.Values
    ensures Valid(users) && r.Some? ==> r.value.email == email.value
    ensures Valid(users) && email.Some? && r.None? ==>
      forall u :: u in users.byEmail.Values ==> u.email != email.value
  {
    if email.Some? && email.value in users.byEmail then Some(users.byEmail[email.value]) else None
  }

  /** The synthesized registration request: the profile's name and email, and one generated password twice. */
  function SocialInput(profile: SocialProfile, password: string): (input: Input)
    ensures "password" in input && "password_confirmation" in input
    ensures input["password"] == password && input["password_confirmation"] == password
    ensures ("name" in input <==> profile.name.Some?) && ("email" in input <==> profile.email.Some?)
    ensures profile.name.Some? ==> input["name"] == profile.name.value
    ensures profile.email.Some? ==> input["email"] == profile.email.value
  {
    var base := map["password" := password, "password_confirmation" := password];
    var withName := if profile.name.Some? then base["name" := profile.name.value] else base;
    if profile.email.Some? then withName["email" := profile.email.value] else withName
  }

  /** `before` with the provider id filled in if it was unset, and nothing else changed. */
  ghost predicate Linked(before: User, after: User, p: Provider, id: string) {
    && after.id == before.id && after.name == before.name
    && after.email == before.email && after.password == before.password
    && ProviderId(after, p) == (if Unset(ProviderId(before, p)) then Some(id) else ProviderId(before, p))
    && (forall q :: q != p ==> ProviderId(after, q) == ProviderId(before, q))
  }

  /** `after` keeps the rows and the id counter of `before`, with `u`'s row linked and every other row as it was. */
  ghost predicate LinkedRow(before: UserStore, after: UserStore, u: User, p: Provider, id: string) {
    && after.byEmail.Keys == before.byEmail.Keys && after.nextId == before.nextId
    && u.email in after.byEmail
    && Linked(u, after.byEmail[u.email], p, id)
    && (forall e :: e in before.byEmail && e != u.email ==> after.byEmail[e] == before.byEmail[e])
  }

  /**
   * `after` is `before` plus one new row for `email`, holding `name`, the
   * password `digest` and only the id of provider `p`; every old row is kept.
   */
  ghost predicate AddedUser(before: UserStore, after: UserStore, email: string, name: string, digest: string,
                            p: Provider, id: string) {
    && email !in before.byEmail
    && after.byEmail.Keys == before.byEmail.Keys + {email}
    && (forall e :: e in before.byEmail ==> after.byEmail[e] == before.byEmail[e])
    && var row := after.byEmail[email];
    && row.email == email && row.name == name && row.password == digest
    && ProviderId(row, p) == Some(id)
    && (forall q :: q != p ==> ProviderId(row, q) == None)
  }

  /** `if (!$user->{$provider . '_id'}) { ...; $user->save(); }`. */
  function Link(users: UserStore, u: User, p: Provider, id: string): (r: (UserStore, User))
    requires Valid(users) && u.email in users.byEmail && users.byEmail[u.email] == u
    ensures Valid(r.0) && Linked(u, r.1, p, id)
    ensures r.0.byEmail.Keys == users.byEmail.Keys && r.0.byEmail[u.email] == r.1
    ensures forall e :: e in users.byEmail && e != u.email ==> r.0.byEmail[e] == users.byEmail[e]
  {
    if Unset(ProviderId(u, p)) then
      var u' := SetProviderId(u, p, id);
      (Save(users, u'), u')
    else (users, u)
  }

  /** Link, log in and redirect. */
  function Complete(w: World, u: User, p: Provider, id: string): (s: Step<Outcome>)
    requires Valid(w.users) && u.email in w.users.byEmail && w.users.byEmail[u.email] == u
    ensures Valid(s.world.users) && s.world.attempts == w.attempts
    ensures s.result == Redirect(RedirectTo) && s.world.guard == Some(u.email)
    ensures LinkedRow(w.users, s.world.users, u, p, id)
  {
    var (users', u') := Link(w.users, u, p, id);
    Step(w.(users := users', guard := Some(u'.email)), Redirect(RedirectTo))
  }

  /**
   * The branch for an unknown email: validate the synthesized request, throw
   * on failure, otherwise create the user and complete the login.
   */
  function SignUp(svc: Services, w: World, p: Provider, profile: SocialProfile, password: string): (s: Step<Outcome>)
    requires Valid(w.users) && FindByEmail(w.users, profile.email).None?
    ensures Valid(s.world.users) && s.world.attempts == w.attempts
    ensures s.result.ValidationThrown? <==> Validate(SocialInput(profile, password), w.users, svc.isEmail) != []
    ensures s.result.ValidationThrown? ==>
      s.world == w && s.result.errors == Validate(SocialInput(profile, password), w.users, svc.isEmail)
    ensures !s.result.ValidationThrown? ==>
      && s.result == Redirect(RedirectTo) && profile.email.Some? && profile.name.Some?
      && s.world.guard == profile.email
      && AddedUser(w.users, s.world.users, profile.email.value, profile.name.value, svc.hash(password), p, profile.id)
  {
    var input := SocialInput(profile, password);
    var errs := Validate(input, w.users, svc.isEmail);
    if errs != [] then Step(w, ValidationThrown(errs))
    else
      assert RulesHold(input, w.users, svc.isEmail);
      ValidatedProfile(profile, password, w.users, svc.isEmail);
      Enrol(svc, w, p, profile, password)
  }

  /** A synthesized request that meets every rule came from a profile with both a name and an email. */
  lemma ValidatedProfile(profile: SocialProfile, password: string, users: UserStore, isEmail: string -> bool)
    requires RulesHold(SocialInput(profile, password), users, isEmail)
    ensures profile.email.Some? && profile.name.Some?
  {
    var input := SocialInput(profile, password);
    assert Filled(input, "name") && Filled(input, "email");
  }

  /** `User::create` on the synthesized request, then link, log in and redirect. */
  function Enrol(svc: Services, w: World, p: Provider, profile: SocialProfile, password: string): (s: Step<Outcome>)
    requires Valid(w.users) && profile.email.Some? && profile.name.Some?
    requires profile.email.value !in w.users.byEmail
    ensures Valid(s.world.users) && s.world.attempts == w.attempts
    ensures s.result == Redirect(RedirectTo) && s.world.guard == profile.email
    ensures AddedUser(w.users, s.world.users, profile.email.value, profile.name.value, svc.hash(password), p, profile.id)
  {
    var (users', u) := Create(w.users, SocialInput(profile, password), svc.hash);
    Complete(w.(users := users'), u, p, profile.id)
  }

  /**
   * The callback once the provider is allowed: link the existing user with
   * the profile's email, or sign one up.
   */
  function Callback(svc: Services, w: World, p: Provider, profile: SocialProfile, password: string): (s: Step<Outcome>)
    requires Valid(w.users)
    ensures Valid(s.world.users) && s.world.attempts == w.attempts
    ensures s.result.ValidationThrown? <==>
      FindByEmail(w.users, profile.email).None? && Validate(SocialInput(profile, password), w.users, svc.isEmail) != []
    ensures s.result.ValidationThrown? ==>
      s.world == w && s.result.errors == Validate(SocialInput(profile, password), w.users, svc.isEmail)
    ensures !s.result.ValidationThrown? ==> s.result == Redirect(RedirectTo)
    ensures FindByEmail(w.users, profile.email).Some? ==>
      var u := FindByEmail(w.users, profile.email).value;
      s.world.guard == Some(u.email) && LinkedRow(w.users, s.world.users, u, p, profile.id)
    ensures s.result.Redirect? && FindByEmail(w.users, profile.email).None? ==>
      && profile.email.Some? && profile.name.Some?
      && s.world.guard == profile.email
      && AddedUser(w.users, s.world.users, profile.email.value, profile.name.value, svc.hash(password), p, profile.id)
  {
    match FindByEmail(w.users, profile.email)
    case Some(u) => Complete(w, u, p, profile.id)
    case None => SignUp(svc, w, p, profile, password)
  }

  /**
   * `handleProviderCallback`. `password` is the generated `bcrypt(uniqid())`
   * value and `profile` what the provider returned.
   */
  function HandleProviderCallback(svc: Services, w: World, provider: string, profile: SocialProfile,
                                  password: string): (s: Step<Outcome>)
    requires Valid(w.users)
    ensures Valid(s.world.users) && s.world.attempts == w.attempts
    ensures Refused(provider) ==> s.world == w && s.result == Aborted
    ensures s.result.ValidationThrown? <==>
      && !Refused(provider) && FindByEmail(w.users, profile.email).None?
      && Validate(SocialInput(profile, password), w.users, svc.isEmail) != []
    ensures s.result.ValidationThrown? ==>
      s.world == w && s.result.errors == Validate(SocialInput(profile, password), w.users, svc.isEmail)
    ensures !Refused(provider) && !s.result.ValidationThrown? ==> s.result == Redirect(RedirectTo)
    ensures !Refused(provider) && FindByEmail(w.users, profile.email).Some? ==>
      var u := FindByEmail(w.users, profile.email).value;
      && s.world.guard == Some(u.email)
      && LinkedRow(w.users, s.world.users, u, ProviderNamed(provider).value, profile.id)
    ensures s.result.Redirect? && FindByEmail(w.users, profile.email).None? ==>
      && profile.email.Some? && profile.name.Some?
      && s.world.guard == profile.email
      && AddedUser(w.users, s.world.users, profile.email.value, profile.name.value, svc.hash(password),
                   ProviderNamed(provider).value, profile.id)
  {
    match ProviderNamed(provider)
    case None => Step(w, Aborted)
    case Some(p) => Callback(svc, w, p, profile, password)
  }

  /** The generated password is its own confirmation, so `confirmed` never fails here. */
  lemma SocialPasswordConfirmed(profile: SocialProfile, password: string)
    ensures Confirmed !in PasswordErrors(SocialInput(profile, password))
  {
  }

  /** When no row has the profile's email, `unique` cannot fail on it either. */
  lemma SocialEmailUnique(svc: Services, users: UserStore, profile: SocialProfile, password: string)
    requires FindByEmail(users, profile.email).None?
    ensures Unique !in EmailErrors(SocialInput(profile, password), users, svc.isEmail)
  {
  }

  /** A bcrypt digest (60 characters, never blank) passes every password rule. */
  lemma SocialPasswordPasses(profile: SocialProfile, password: string)
    requires |password| >= 6 && !IsBlank(password)
    ensures PasswordErrors(SocialInput(profile, password)) == []
  {
  }
}
