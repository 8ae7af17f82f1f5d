/**
 * The API AuthController: login with throttling, registration with
 * automatic login, and logout, each answering with an Api envelope.
 */
module ApiAuth {
  import opened Wrappers
  import opened PhpArray
  import opened Users
  import opened Transformers
  import opened Api
  import opened Registration
  import opened Collaborators

  /** `loginUsername()`: the controller declares no `$username`. */
  const LoginUsername := "email"
  /** `getFailedLoginMessage()` when no `auth.failed` line is translated. */
  const FailedLoginMessage := "These credentials do not match our records."
  /** `redirectPath()`: the controller declares neither `$redirectPath` nor `$redirectTo`. */
  const RedirectPath := "/home"

  /** A login request: the submitted fields and the client address. */
  datatype LoginRequest = LoginRequest(input: Input, ip: string)

  datatype LoginResult =
    | LoginRejected(fields: seq<string>)  // validateLogin threw; the framework answers
    | LockedOut                           // sendLockoutResponse
    | Answered(emitted: Emitted)          // an envelope from this controller

  /** `validateLogin`: the login name and the password are both required. */
  function MissingLoginFields(input: Input): (missing: seq<string>)
    ensures missing == [] <==> Filled(input, LoginUsername) && Filled(input, "password")
  {
    (if Filled(input, LoginUsername) then [] else [LoginUsername])
      + (if Filled(input, "password") then [] else ["password"])
  }

  function LowerChar(ch: char): char {
    if 'A' <= ch <= 'Z' then (ch as int + 32) as char else ch
  }

  /** `x` and `y` are the same character up to the case of an ASCII letter. */
  predicate CaseVariant(x: char, y: char) {
    || x == y
    || ('A' <= x <= 'Z' && y as int == x as int + 32)
    || ('A' <= y <= 'Z' && x as int == y as int + 32)
  }

  /** `a` and `b` spell the same word up to the case of ASCII letters. */
  predicate CaseVariants(a: string, b: string) {
    |a| == |b| && forall i :: 0 <= i < |a| ==> CaseVariant(a[i], b[i])
  }

  /** `mb_strtolower`, for ASCII letters: the same word with no upper-case ASCII letter left. */
  function Lower(s: string): (r: string)
    ensures |r| == |s|
    ensures forall i :: 0 <= i < |s| ==> r[i] == LowerChar(s[i])
    ensures CaseVariants(s, r)
    ensures forall i :: 0 <= i < |r| ==> !('A' <= r[i] <= 'Z')
  {
    seq(|s|, i requires 0 <= i < |s| => LowerChar(s[i]))
  }

  /** Lower-casing twice is lower-casing once. */
  lemma LowerIdempotent(s: string)
    ensures Lower(Lower(s)) == Lower(s)
  {
    var r := Lower(s);
    forall i | 0 <= i < |r|
      ensures Lower(r)[i] == r[i]
    {
      assert !('A' <= r[i] <= 'Z');
    }
  }

  /** Two words lower-case alike exactly when they differ only in the case of ASCII letters. */
  lemma LowerSameIff(a: string, b: string)
    ensures Lower(a) == Lower(b) <==> CaseVariants(a, b)
  {
    if Lower(a) == Lower(b) {
      forall i | 0 <= i < |a|
        ensures CaseVariant(a[i], b[i])
      {
        assert Lower(a)[i] == Lower(b)[i];
      }
    }
    if CaseVariants(a, b) {
      forall i | 0 <= i < |a|
        ensures Lower(a)[i] == Lower(b)[i]
      {
        assert CaseVariant(a[i], b[i]);
      }
    }
  }

  /** The submitted login name, or the empty string when it is absent. */
  function LoginName(input: Input): string {
    if LoginUsername in input then input[LoginUsername] else ""
  }

  /** `getThrottleKey`: the lower-cased login name and the client address. */
  function ThrottleKeyOf(req: LoginRequest): (k: ThrottleKey)
    ensures k.ip == req.ip
    ensures CaseVariants(LoginName(req.input), k.login)
    ensures forall i :: 0 <= i < |k.login| ==> !('A' <= k.login[i] <= 'Z')
  {
    ThrottleKey(Lower(LoginName(req.input)), req.ip)
  }

  /** Two login requests share a throttle counter exactly when they come from one address with the same email up to ASCII case. */
  lemma ThrottleKeyCaseBlind(r1: LoginRequest, r2: LoginRequest)
    ensures ThrottleKeyOf(r1) == ThrottleKeyOf(r2) <==>
      r1.ip == r2.ip && CaseVariants(LoginName(r1.input), LoginName(r2.input))
  {
    LowerSameIff(LoginName(r1.input), LoginName(r2.input));
  }

  /** The guard's `attempt`: a user with that email whose digest matches the password. */
  predicate Authenticates(svc: Services, users: UserStore, input: Input): (ok: bool)
    requires LoginUsername in input && "password" in input
    ensures Valid(users) ==>
      (ok <==> exists u :: u in users.byEmail.Values && u.email == input[LoginUsername]
                           && svc.checkPassword(input["password"], u.password))
  {
    var email := input[LoginUsername];
    email in users.byEmail && svc.checkPassword(input["password"], users.byEmail[email].password)
  }

  /** `$request->has('remember')`: the field is present and not blank. */
  function Remember(input: Input): (r: bool)
    ensures r <==> "remember" in input && !IsBlank(input["remember"])
  {
    Filled(input, "remember")
  }

  /** The custom claims the login token carries: `remember`, and nothing else. */
  function LoginClaims(input: Input): (claims: Dict)
    ensures Keys(claims) == ["remember"]
    ensures Lookup(claims, "remember") == Some(Bool(Remember(input)))
  {
    [("remember", Bool(Remember(input)))]
  }

  /** The success envelope of login, registration and password reset for user `u`. */
  ghost predicate AuthSent(svc: Services, e: Emitted, redirectTo: string, token: string, u: User) {
    && Sent(e, "success", 202, CodeAccepted) && !e.warned
    && Lookup(Fields(e.response), "redirectTo") == Some(Str(redirectTo))
    && Lookup(Fields(e.response), "token") == Some(Str(token))
    && LeftBiased(Fields(e.response),
                  StatusBlock(CodeAccepted, 202, [("redirectTo", Str(redirectTo)), ("token", Str(token))]),
                  svc.toArray(UserTransform(u)))
    && (Distinct(svc.toArray(UserTransform(u))) ==> Distinct(Fields(e.response)))
  }

  /** The 422 envelope carrying the given errors through the ErrorTransformer. */
  ghost predicate ErrorsSent(svc: Services, e: Emitted, errors: Dict) {
    && Sent(e, "error", 422, CodeUnprocessableEntity) && !e.warned
    && LeftBiased(Fields(e.response), StatusBlock(CodeUnprocessableEntity, 422, []),
                  svc.toArray(ErrorTransform(errors)))
    && (Distinct(svc.toArray(ErrorTransform(errors))) ==> Distinct(Fields(e.response)))
  }

  /** The failed-login errors: the login field alone, holding the fixed message. */
  const FailedLoginErrors: Dict := [(LoginUsername, Str(FailedLoginMessage))]

  /** `sendFailedLoginResponse`: 422 `errorAuth` whatever the account. */
  function SendFailedLoginResponse(svc: Services, c: Controller): (e: Emitted)
    ensures ErrorsSent(svc, e, FailedLoginErrors)
  {
    ErrorAuth(c, Item(FailedLoginErrors, ErrorTransform), svc.toArray)
  }

  /** `handleUserWasAuthenticated`: clear the counter and answer with the token and the user. */
  function HandleUserWasAuthenticated(svc: Services, w: World, c: Controller, key: ThrottleKey,
                                      token: string, u: User): (s: Step<LoginResult>)
    ensures s.world == w.(attempts := w.attempts - {key})
    ensures Attempts(s.world, key) == 0
    ensures s.result.Answered? && AuthSent(svc, s.result.emitted, RedirectPath, token, u)
  {
    Step(w.(attempts := w.attempts - {key}),
         Answered(SuccessAuth(c, RedirectPath, token, Item(u, UserTransform), svc.toArray)))
  }

  /** What `login` does to the stores: nothing before the credential attempt, then count a failure or clear the key and log in. */
  function LoginStores(svc: Services, w: World, req: LoginRequest): (w': World)
    ensures MissingLoginFields(req.input) != [] || svc.tooManyAttempts(Attempts(w, ThrottleKeyOf(req))) ==> w' == w
    ensures MissingLoginFields(req.input) == [] && !svc.tooManyAttempts(Attempts(w, ThrottleKeyOf(req)))
            && !Authenticates(svc, w.users, req.input) ==>
      && w'.users == w.users && w'.guard == w.guard
      && w'.attempts == w.attempts[ThrottleKeyOf(req) := Attempts(w, ThrottleKeyOf(req)) + 1]
    ensures MissingLoginFields(req.input) == [] && !svc.tooManyAttempts(Attempts(w, ThrottleKeyOf(req)))
            && Authenticates(svc, w.users, req.input) ==>
      && w'.users == w.users && w'.guard == Some(w.users.byEmail[req.input[LoginUsername]].email)
      && w'.attempts == w.attempts - {ThrottleKeyOf(req)}
  {
    var key := ThrottleKeyOf(req);
    if MissingLoginFields(req.input) != [] || svc.tooManyAttempts(Attempts(w, key)) then w
    else if Authenticates(svc, w.users, req.input) then
      w.(attempts := w.attempts - {key}, guard := Some(w.users.byEmail[req.input[LoginUsername]].email))
    else w.(attempts := w.attempts[key := Attempts(w, key) + 1])
  }

  /**
   * `login`: validation, then the lockout check, then the credential
   * attempt; a failure answers 422 `errorAuth`, a success answers
   * `successAuth` with the token issued for the user.
   */
  function Login(svc: Services, w: World, c: Controller, req: LoginRequest): (s: Step<LoginResult>)
    ensures MissingLoginFields(req.input) != [] ==> s.result == LoginRejected(MissingLoginFields(req.input))
    ensures MissingLoginFields(req.input) == [] && svc.tooManyAttempts(Attempts(w, ThrottleKeyOf(req))) ==>
      s.result == LockedOut
    ensures MissingLoginFields(req.input) == [] && !svc.tooManyAttempts(Attempts(w, ThrottleKeyOf(req)))
            && !Authenticates(svc, w.users, req.input) ==>
      s.result.Answered? && ErrorsSent(svc, s.result.emitted, FailedLoginErrors)
    ensures MissingLoginFields(req.input) == [] && !svc.tooManyAttempts(Attempts(w, ThrottleKeyOf(req)))
            && Authenticates(svc, w.users, req.input) ==>
      var u := w.users.byEmail[req.input[LoginUsername]];
      && s.result.Answered?
      && AuthSent(svc, s.result.emitted, RedirectPath, svc.token(u, LoginClaims(req.input)), u)
  {
    var missing := MissingLoginFields(req.input);
    if missing != [] then Step(w, LoginRejected(missing))
    else
      var key := ThrottleKeyOf(req);
      if svc.tooManyAttempts(Attempts(w, key)) then Step(w, LockedOut)
      else if Authenticates(svc, w.users, req.input) then
        var u := w.users.byEmail[req.input[LoginUsername]];
        var token := svc.token(u, LoginClaims(req.input));
        HandleUserWasAuthenticated(svc, w.(guard := Some(u.email)), c, key, token, u)
      else
        Step(w.(attempts := w.attempts[key := Attempts(w, key) + 1]), Answered(SendFailedLoginResponse(svc, c)))
  }

  /** `login` leaves the stores as `LoginStores` describes. */
  lemma LoginUpdatesStores(svc: Services, w: World, c: Controller, req: LoginRequest)
    ensures Login(svc, w, c, req).world == LoginStores(svc, w, req)
  {
    var key := ThrottleKeyOf(req);
    if MissingLoginFields(req.input) == [] && !svc.tooManyAttempts(Attempts(w, key)) && Authenticates(svc, w.users, req.input) {
      var u := w.users.byEmail[req.input[LoginUsername]];
      var s := HandleUserWasAuthenticated(svc, w.(guard := Some(u.email)), c, key, svc.token(u, LoginClaims(req.input)), u);
      assert s.world == w.(guard := Some(u.email)).(attempts := w.attempts - {key});
    }
  }

  /** The failure answer does not depend on the stores: whether the account exists is not revealed. */
  lemma FailedLoginUniform(svc: Services, w1: World, w2: World, c: Controller, req1: LoginRequest, req2: LoginRequest)
    requires MissingLoginFields(req1.input) == [] && MissingLoginFields(req2.input) == []
    requires !svc.tooManyAttempts(Attempts(w1, ThrottleKeyOf(req1))) && !Authenticates(svc, w1.users, req1.input)
    requires !svc.tooManyAttempts(Attempts(w2, ThrottleKeyOf(req2))) && !Authenticates(svc, w2.users, req2.input)
    ensures Login(svc, w1, c, req1).result == Login(svc, w2, c, req2).result
  {
  }

  /** The world after `n` logins with the same request, each fed the previous world. */
  function Repeat(svc: Services, w: World, req: LoginRequest, n: nat): World
    decreases n
  {
    if n == 0 then w else LoginStores(svc, Repeat(svc, w, req, n - 1), req)
  }

  /** Consecutive failures below the limit count one each and change nothing else. */
  lemma {:induction false} FailuresAccumulate(svc: Services, w: World, req: LoginRequest, n: nat)
    requires MissingLoginFields(req.input) == []
    requires !Authenticates(svc, w.users, req.input)
    requires forall k :: Attempts(w, ThrottleKeyOf(req)) <= k < Attempts(w, ThrottleKeyOf(req)) + n ==> !svc.tooManyAttempts(k)
    ensures Attempts(Repeat(svc, w, req, n), ThrottleKeyOf(req)) == Attempts(w, ThrottleKeyOf(req)) + n
    ensures Repeat(svc, w, req, n).users == w.users && Repeat(svc, w, req, n).guard == w.guard
  {
    if n > 0 {
      var key := ThrottleKeyOf(req);
      FailuresAccumulate(svc, w, req, n - 1);
      var w' := Repeat(svc, w, req, n - 1);
      assert Attempts(w', key) == Attempts(w, key) + (n - 1);
      assert !svc.tooManyAttempts(Attempts(w', key));
      assert !Authenticates(svc, w'.users, req.input);
    }
  }

  /**
   * Once `max` failures have been counted and the limit is reached at `max`,
   * even the correct password for the same key is locked out.
   */
  lemma LockedOutAfterMaxFailures(svc: Services, w: World, c: Controller, bad: LoginRequest,
                                  good: LoginRequest, max: nat)
    requires MissingLoginFields(bad.input) == [] && MissingLoginFields(good.input) == []
    requires ThrottleKeyOf(bad) == ThrottleKeyOf(good) && Attempts(w, ThrottleKeyOf(bad)) == 0
    requires !Authenticates(svc, w.users, bad.input)
    requires forall k :: 0 <= k < max ==> !svc.tooManyAttempts(k)
    requires svc.tooManyAttempts(max)
    ensures Login(svc, Repeat(svc, w, bad, max), c, good).result == LockedOut
  {
    FailuresAccumulate(svc, w, bad, max);
    var w' := Repeat(svc, w, bad, max);
    assert Attempts(w', ThrottleKeyOf(good)) == max;
    assert svc.tooManyAttempts(Attempts(w', ThrottleKeyOf(good)));
  }

  /**
   * `register`: on a validation failure, 422 `errorAuth` with the formatted
   * errors and no change; otherwise exactly one new user, logged in and
   * answered with a token issued for that user.
   */
  function Register(svc: Services, w: World, c: Controller, input: Input): (s: Step<Emitted>)
    requires Valid(w.users)
    ensures Valid(s.world.users)
    ensures Validate(input, w.users, svc.isEmail) != [] ==>
      && s.world == w
      && ErrorsSent(svc, s.result, FormatErrors(Validate(input, w.users, svc.isEmail), svc.message))
    ensures Validate(input, w.users, svc.isEmail) == [] ==>
      var email := input["email"];
      && email !in w.users.byEmail
      && s.world.users.byEmail.Keys == w.users.byEmail.Keys + {email}
      && (forall e :: e in w.users.byEmail ==> s.world.users.byEmail[e] == w.users.byEmail[e])
      && s.world.users.byEmail[email].name == input["name"]
      && s.world.users.byEmail[email].password == svc.hash(input["password"])
      && s.world.attempts == w.attempts
      && s.world.guard == Some(email)
      && AuthSent(svc, s.result, RedirectPath, svc.token(s.world.users.byEmail[email], []),
                  s.world.users.byEmail[email])
  {
    var errs := Validate(input, w.users, svc.isEmail);
    if errs != [] then
      Step(w, ErrorAuth(c, Item(FormatErrors(errs, svc.message), ErrorTransform), svc.toArray))
    else
      ValidatedInput(input, w.users, svc.isEmail);
      Admit(svc, w, c, input)
  }

  /** A request that passes validation carries the three fields `create` reads, under an email not yet taken. */
  lemma ValidatedInput(input: Input, users: UserStore, isEmail: string -> bool)
    requires Validate(input, users, isEmail) == []
    ensures "name" in input && "email" in input && "password" in input
    ensures input["email"] !in users.byEmail
  {
    assert RulesHold(input, users, isEmail);
  }

  /** The success branch of `register`: create the user, log them in, answer 202 with the token. */
  function Admit(svc: Services, w: World, c: Controller, input: Input): (s: Step<Emitted>)
    requires Valid(w.users)
    requires "name" in input && "email" in input && "password" in input
    requires input["email"] !in w.users.byEmail
    ensures Valid(s.world.users)
    ensures var email := input["email"];
      && s.world.users.byEmail.Keys == w.users.byEmail.Keys + {email}
      && (forall e :: e in w.users.byEmail ==> s.world.users.byEmail[e] == w.users.byEmail[e])
      && s.world.users.byEmail[email].name == input["name"]
      && s.world.users.byEmail[email].password == svc.hash(input["password"])
      && s.world.attempts == w.attempts
      && s.world.guard == Some(email)
      && AuthSent(svc, s.result, RedirectPath, svc.token(s.world.users.byEmail[email], []),
                  s.world.users.byEmail[email])
  {
    var (users', u) := Create(w.users, input, svc.hash);
    var w' := w.(users := users', guard := Some(u.email));
    Step(w', SuccessAuth(c, RedirectPath, svc.token(u, []), Item(u, UserTransform), svc.toArray))
  }

  /** `logout`: the guard forgets its user; 202 with `$redirectAfterLogout`, or `/` when the controller has none. */
  function Logout(w: World, c: Controller, redirectAfterLogout: Option<string>): (s: Step<Emitted>)
    ensures s.world == w.(guard := None)
    ensures Sent(s.result, "success", 202, CodeAccepted) && !s.result.warned
    ensures Exactly(s.result, "redirectTo", Str(if redirectAfterLogout.Some? then redirectAfterLogout.value else "/"))
  {
    Step(w.(guard := None), SuccessLogout(c, redirectAfterLogout.GetOr("/")))
  }

  /** Logging out twice answers the same and leaves the same stores. */
  lemma LogoutIdempotent(w: World, c: Controller, redirectAfterLogout: Option<string>)
    ensures var s1 := Logout(w, c, redirectAfterLogout);
            var s2 := Logout(s1.world, s1.result.controller, redirectAfterLogout);
            s2.world == s1.world && s2.result.response == s1.result.response
  {
  }
}
