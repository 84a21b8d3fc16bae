/// Registration and login. The identity framework's pieces that cannot be
/// seen are parameters: the outcome of creating the user, the password
/// check, and the writer that signs a token descriptor. The users table is
/// searched in storage order, comparing user names case-insensitively.
module AuthController {
  import opened Common
  import opened Models
  import opened Data
  import SD

  const UserExistsMessage := "User already exists"
  const InvalidLoginMessage := "Invalid username or password"

  /// `ClaimTypes.Email` and `ClaimTypes.Role`.
  const EmailClaimType := "http://schemas.xmlsoap.org/ws/2005/05/identity/claims/emailaddress"
  const RoleClaimType := "http://schemas.microsoft.com/ws/2008/06/identity/claims/role"

  /// A token is valid for one day, counted in seconds.
  const TokenLifetime := 86400

  datatype RegisterRequest = RegisterRequest(userName: string, name: string, password: string, role: string)

  datatype LoginRequest = LoginRequest(userName: string, password: string)

  /// What `CreateAsync` did: succeeded, reported failure, or threw with a
  /// message.
  datatype CreateOutcome = Succeeded | Failed | Threw(message: string)

  /// The anonymous `{ UserId }` result of a registration.
  datatype Registered = Registered(userId: string)

  datatype Claim = Claim(claimType: string, value: string)

  /// The claims and expiry handed to the token writer; expiry is in seconds
  /// on the same clock as `now`.
  datatype TokenDescriptor = TokenDescriptor(claims: seq<Claim>, expires: int)

  datatype LoginResponse = LoginResponse(email: NString, token: NString)

  /// The comparison both actions use: `a.ToLower() == b.ToLower()`.
  /// Two names match exactly when they have the same length and agree
  /// character by character once lower-cased.
  predicate SameUserName(a: string, b: string): (same: bool)
    ensures same <==> |a| == |b| && forall i :: 0 <= i < |a| ==> LowerChar(a[i]) == LowerChar(b[i])
  {
    ToLower(a) == ToLower(b)
  }

  /// `FirstOrDefault` over the users table: the index of the first user
  /// whose name matches case-insensitively.
  function FindUser(users: seq<ApplicationUser>, userName: string): (r: Option<nat>)
    ensures r.None? <==> forall i :: 0 <= i < |users| ==> !SameUserName(users[i].userName, userName)
    ensures r.Some? ==>
      r.value < |users| && SameUserName(users[r.value].userName, userName) &&
      forall j :: 0 <= j < r.value ==> !SameUserName(users[j].userName, userName)
  {
    if |users| == 0 then None
    else if SameUserName(users[0].userName, userName) then Some(0)
    else
      match FindUser(users[1..], userName)
      case None => None
      case Some(k) => Some(k + 1)
  }

  /// No two users share a name up to case: what the duplicate check keeps.
  ghost predicate UniqueUserNames(users: seq<ApplicationUser>) {
    forall i, j :: 0 <= i < j < |users| ==> !SameUserName(users[i].userName, users[j].userName)
  }

  /// The role a registration asks for: admin exactly when the requested role
  /// is "admin" up to case, customer for anything else.
  function ChosenRole(requested: string): (role: string)
    ensures role == SD.RoleAdmin || role == SD.RoleCustomer
    ensures role == SD.RoleAdmin <==> ToLower(requested) == "admin"
  {
    if ToLower(requested) == ToLower(SD.RoleAdmin) then SD.RoleAdmin else SD.RoleCustomer
  }

  /// The user a registration inserts.
  function NewUser(id: string, model: RegisterRequest): (u: ApplicationUser)
    ensures u.id == id && u.userName == model.userName && u.name == model.name
    ensures u.email == Some(model.userName) && u.normalizedEmail == Some(ToUpper(model.userName))
  {
    ApplicationUser(id, model.userName, Some(model.userName), Some(ToUpper(model.userName)), model.name)
  }

  function CreationFailedMessage(userName: string): string {
    "User creation failed for " + userName + ", please check the data provided"
  }

  /// Upper-casing and lower-casing identify the same characters.
  lemma SameCharCase(c: char, d: char)
    ensures LowerChar(c) == LowerChar(d) <==> UpperChar(c) == UpperChar(d)
  {
  }

  /// The normalised e-mail a registration stores agrees with the duplicate
  /// check: two names match case-insensitively exactly when they normalise
  /// to the same upper-case text.
  lemma {:induction false} NormalizedEmailAgrees(a: string, b: string)
    ensures SameUserName(a, b) <==> ToUpper(a) == ToUpper(b)
  {
    if |a| == |b| {
      forall i | 0 <= i < |a| ensures LowerChar(a[i]) == LowerChar(b[i]) <==> UpperChar(a[i]) == UpperChar(b[i]) {
        SameCharCase(a[i], b[i]);
      }
      if ToLower(a) == ToLower(b) {
        assert forall i :: 0 <= i < |a| ==> ToLower(a)[i] == ToLower(b)[i];
        assert ToUpper(a) == ToUpper(b);
      }
      if ToUpper(a) == ToUpper(b) {
        assert forall i :: 0 <= i < |a| ==> ToUpper(a)[i] == ToUpper(b)[i];
        assert ToLower(a) == ToLower(b);
      }
    } else {
      assert |ToLower(a)| != |ToLower(b)|;
    }
  }

  /// The store after a successful creation: the user appended, both roles
  /// created if the admin role was missing, and the chosen role assigned.
  method InsertUser(db: Db, model: RegisterRequest, newUserId: string)
    requires db.UsersValid()
    requires forall i :: 0 <= i < |db.users| ==> db.users[i].id != newUserId
    modifies db`users, db`roles, db`userRoles
    ensures db.UsersValid()
    ensures db.users == old(db.users) + [NewUser(newUserId, model)]
    ensures db.roles == if SD.RoleAdmin in old(db.roles) then old(db.roles) else old(db.roles) + {SD.RoleAdmin, SD.RoleCustomer}
    ensures db.userRoles == old(db.userRoles)[newUserId := [ChosenRole(model.role)]]
    ensures ChosenRole(model.role) in db.roles
  {
    db.users := db.users + [NewUser(newUserId, model)];
    if SD.RoleAdmin !in db.roles {
      db.roles := db.roles + {SD.RoleAdmin};
      db.roles := db.roles + {SD.RoleCustomer};
    }
    db.userRoles := db.userRoles[newUserId := [ChosenRole(model.role)]];
  }

  /// `Register`: refuse a user name already taken up to case; otherwise
  /// create the user, and on success bootstrap the roles and assign exactly
  /// one. `newUserId` stands for the fresh id the identity framework
  /// generates, and `create` for what creating the user with the password
  /// did.
  method Register(db: Db, model: RegisterRequest, newUserId: string, create: CreateOutcome)
    returns (r: Reply<Registered>)
    requires db.UsersValid()
    requires forall i :: 0 <= i < |db.users| ==> db.users[i].id != newUserId
    modifies db`users, db`roles, db`userRoles
    ensures db.UsersValid()
    ensures UniqueUserNames(old(db.users)) ==> UniqueUserNames(db.users)
    ensures FindUser(old(db.users), model.userName).Some? ==>
      r == Failure(BadRequest, BadRequest, UserExistsMessage) &&
      db.users == old(db.users) && db.roles == old(db.roles) && db.userRoles == old(db.userRoles)
    ensures FindUser(old(db.users), model.userName).None? && create.Succeeded? ==>
      r == Reply(OK, Envelope(Some(OK), None, [], Some(Registered(newUserId)))) &&
      db.users == old(db.users) + [NewUser(newUserId, model)] &&
      db.roles == (if SD.RoleAdmin in old(db.roles) then old(db.roles) else old(db.roles) + {SD.RoleAdmin, SD.RoleCustomer}) &&
      db.userRoles == old(db.userRoles)[newUserId := [ChosenRole(model.role)]] &&
      ChosenRole(model.role) in db.roles
    ensures FindUser(old(db.users), model.userName).None? && create.Failed? ==>
      r == Failure(BadRequest, BadRequest, CreationFailedMessage(model.userName)) &&
      db.users == old(db.users) && db.roles == old(db.roles) && db.userRoles == old(db.userRoles)
    ensures FindUser(old(db.users), model.userName).None? && create.Threw? ==>
      r == Reply(BadRequest, Envelope(Some(BadRequest), Some(false),
                 ["User creation failed for " + model.userName + "\n" + create.message,
                  CreationFailedMessage(model.userName)], None)) &&
      db.users == old(db.users) && db.roles == old(db.roles) && db.userRoles == old(db.userRoles)
  {
    if FindUser(db.users, model.userName).Some? {
      return Failure(BadRequest, BadRequest, UserExistsMessage);
    }
    var errorMessages: seq<string> := [];
    match create {
      case Succeeded =>
        InsertUser(db, model, newUserId);
        return Reply(OK, Envelope(Some(OK), None, [], Some(Registered(newUserId))));
      case Failed =>
      case Threw(message) =>
        errorMessages := errorMessages + ["User creation failed for " + model.userName + "\n" + message];
    }
    errorMessages := errorMessages + [CreationFailedMessage(model.userName)];
    assert create.Failed? ==> errorMessages == [CreationFailedMessage(model.userName)];
    assert create.Threw? ==> errorMessages == ["User creation failed for " + model.userName + "\n" + create.message, CreationFailedMessage(model.userName)];
    r := Reply(BadRequest, Envelope(Some(BadRequest), Some(false), errorMessages, None));
  }

  /// The value of the first claim of the given type, as a token reader
  /// finds it.
  function ClaimValue(claims: seq<Claim>, claimType: string): Option<string> {
    if claims == [] then None
    else if claims[0].claimType == claimType then Some(claims[0].value)
    else ClaimValue(claims[1..], claimType)
  }

  /// When no earlier claim has the type of claim `i`, a lookup of that type
  /// finds claim `i`'s value.
  lemma {:induction false} ClaimValueAt(claims: seq<Claim>, i: nat)
    requires i < |claims|
    requires forall j :: 0 <= j < i ==> claims[j].claimType != claims[i].claimType
    ensures ClaimValue(claims, claims[i].claimType) == Some(claims[i].value)
  {
    if i > 0 {
      ClaimValueAt(claims[1..], i - 1);
    }
  }

  /// The claims of a token: four claims of distinct types carrying the full
  /// name, the id, the user name as e-mail, and the given role.
  function Claims(user: ApplicationUser, role: string): (c: seq<Claim>)
    ensures |c| == 4
    ensures forall i, j :: 0 <= i < j < |c| ==> c[i].claimType != c[j].claimType
    ensures ClaimValue(c, "fullName") == Some(user.name)
    ensures ClaimValue(c, "id") == Some(user.id)
    ensures ClaimValue(c, EmailClaimType) == Some(user.userName)
    ensures ClaimValue(c, RoleClaimType) == Some(role)
  {
    var c := [Claim("fullName", user.name), Claim("id", user.id), Claim(EmailClaimType, user.userName), Claim(RoleClaimType, role)];
    ClaimValueAt(c, 0);
    ClaimValueAt(c, 1);
    ClaimValueAt(c, 2);
    ClaimValueAt(c, 3);
    c
  }

  /// The reply to a failed login: BadRequest with an empty login response.
  const InvalidLogin: Reply<LoginResponse> :=
    Reply(BadRequest, Envelope(Some(BadRequest), Some(false), [InvalidLoginMessage], Some(LoginResponse(None, None))))

  /// `Login`: find the first user whose name matches up to case and check
  /// the password (a missing user fails the check); build the token from the
  /// user's claims and first role, valid for a day from `now`; refuse a user
  /// without an e-mail or an empty token. `descriptor` is what was handed to
  /// the token writer, if anything. Nothing in the store changes.
  method Login(db: Db, model: LoginRequest, checkPassword: (ApplicationUser, string) -> bool,
               writeToken: TokenDescriptor -> string, now: int)
    returns (r: Reply<LoginResponse>, descriptor: Option<TokenDescriptor>)
    ensures FindUser(db.users, model.userName).None? ==> r == InvalidLogin && descriptor == None
    ensures FindUser(db.users, model.userName).Some? ==>
      var user := db.users[FindUser(db.users, model.userName).value];
      var roles := if user.id in db.userRoles then db.userRoles[user.id] else [];
      if !checkPassword(user, model.password) then r == InvalidLogin && descriptor == None
      else if |roles| == 0 then r == Unhandled && descriptor == None
      else
        var d := TokenDescriptor(Claims(user, roles[0]), now + TokenLifetime);
        var token := writeToken(d);
        descriptor == Some(d) &&
        (user.email.None? || token == "" ==> r == InvalidLogin) &&
        (user.email.Some? && token != "" ==>
          r == Reply(OK, Envelope(Some(OK), Some(true), [], Some(LoginResponse(user.email, Some(token))))))
  {
    var found := FindUser(db.users, model.userName);
    if found.None? || !checkPassword(db.users[found.value], model.password) {
      return InvalidLogin, None;
    }
    var userFromDb := db.users[found.value];
    var roles := if userFromDb.id in db.userRoles then db.userRoles[userFromDb.id] else [];
    if |roles| == 0 {
      // `new Claim(ClaimTypes.Role, null)` throws
      return Unhandled, None;
    }
    var tokenDescriptor := TokenDescriptor(Claims(userFromDb, roles[0]), now + TokenLifetime);
    var token := writeToken(tokenDescriptor);
    descriptor := Some(tokenDescriptor);
    if userFromDb.email.None? || token == "" {
      return InvalidLogin, descriptor;
    }
    r := Reply(OK, Envelope(Some(OK), Some(true), [], Some(LoginResponse(userFromDb.email, Some(token)))));
  }

  /// A user who registered and was assigned a role can log in with a
  /// password the check accepts: the token names the user and the role
  /// chosen at registration.
  method RegisterThenLogin(db: Db, model: RegisterRequest, newUserId: string,
                           checkPassword: (ApplicationUser, string) -> bool,
                           writeToken: TokenDescriptor -> string, now: int)
    returns (registered: Reply<Registered>, loggedIn: Reply<LoginResponse>, descriptor: Option<TokenDescriptor>)
    requires db.UsersValid()
    requires forall i :: 0 <= i < |db.users| ==> db.users[i].id != newUserId
    requires FindUser(db.users, model.userName).None?
    requires checkPassword(NewUser(newUserId, model), model.password)
    modifies db`users, db`roles, db`userRoles
    ensures registered == Reply(OK, Envelope(Some(OK), None, [], Some(Registered(newUserId))))
    ensures descriptor == Some(TokenDescriptor(Claims(NewUser(newUserId, model), ChosenRole(model.role)), now + TokenLifetime))
    ensures var token := writeToken(descriptor.value);
      (token == "" ==> loggedIn == InvalidLogin) &&
      (token != "" ==>
         loggedIn == Reply(OK, Envelope(Some(OK), Some(true), [], Some(LoginResponse(Some(model.userName), Some(token))))))
  {
    registered := Register(db, model, newUserId, Succeeded);
    FindUserAppended(db.users[..|db.users| - 1], NewUser(newUserId, model), model.userName);
    assert db.users[..|db.users| - 1] == old(db.users);
    loggedIn, descriptor := Login(db, LoginRequest(model.userName, model.password), checkPassword, writeToken, now);
  }

  /// Appending a user whose name no earlier user matches makes it the
  /// one a lookup of that name finds.
  lemma FindUserAppended(users: seq<ApplicationUser>, u: ApplicationUser, userName: string)
    requires FindUser(users, userName).None? && SameUserName(u.userName, userName)
    ensures FindUser(users + [u], userName) == Some(|users|)
  {
    var all := users + [u];
    assert SameUserName(all[|users|].userName, userName);
    assert forall j :: 0 <= j < |users| ==> all[j] == users[j];
  }
}
