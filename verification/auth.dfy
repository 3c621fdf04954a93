/** Users, the role gate and the register/login decisions (app.py). The token's roles
    claim is the value the claims loader put into it when the token was issued. */
module Auth {
  import opened Records

  /** A werkzeug password hash, modelled as an ideal one: the salt is an input, and
      the check accepts exactly the password that was hashed. */
  datatype PasswordHash = PasswordHash(salt: nat, secret: string)

  /** generate_password_hash */
  function HashPassword(password: string, salt: nat): PasswordHash {
    PasswordHash(salt, password)
  }

  /** check_password_hash */
  predicate CheckPassword(h: PasswordHash, password: string) {
    h.secret == password
  }

  /** A hash accepts the password it was made from and no other, whatever the salt. */
  lemma CheckHashed(password: string, attempt: string, salt: nat)
    ensures CheckPassword(HashPassword(password, salt), attempt) <==> attempt == password
  {
  }

  /** A user document: the hash and the stored roles (None for a null value). */
  datatype User = User(password: PasswordHash, roles: Option<seq<string>>)

  /** What create_access_token issues: the identity and the roles claim. */
  datatype AccessToken = AccessToken(identity: string, roles: Option<seq<string>>)

  /** add_claims_to_access_token: the user's roles (null stays null), or [] for an
      unknown user. */
  function ClaimedRoles(user: Option<User>): (r: Option<seq<string>>)
    ensures user.Some? ==> r == user.value.roles
    ensures user.None? ==> r == Some([])
  {
    if user.Some? then user.value.roles else Some([])
  }

  /** The roles key of a token's claims, as get_jwt() returns them. */
  function RolesClaim(t: AccessToken): Field<seq<string>> {
    if t.roles.Some? then Present(t.roles.value) else Null
  }

  // ---------------------------------------------------------------------------------
  // role_required
  // ---------------------------------------------------------------------------------

  /** The three ways the role gate ends: the handler runs, 403, or the TypeError that
      `role in None` raises (an unhandled 500). */
  datatype Gate = Allowed | Denied | GateCrash

  const PermissionDenied := "Permission denied: Insufficient role"

  predicate HasAnyRole(required: seq<string>, roles: seq<string>) {
    exists i :: 0 <= i < |required| && required[i] in roles
  }

  /** role_required: claims.get('roles', []), then any(role in user_roles ...). */
  function RoleGate(required: seq<string>, roles: Field<seq<string>>): (g: Gate)
    ensures g == Allowed <==> roles.GetOrDefault([]).Some? && HasAnyRole(required, roles.GetOrDefault([]).value)
    ensures g == GateCrash <==> roles.GetOrDefault([]).None? && required != []
  {
    match roles.GetOrDefault([])
    case None => if required == [] then Denied else GateCrash
    case Some(rs) => if HasAnyRole(required, rs) then Allowed else Denied
  }

  /** The role lists of the routes. */
  const StaffRoles := ["doctor", "nurse", "admin"]
  const ClinicianRoles := ["doctor", "admin"]

  /** A token without a roles claim, or with an empty list, is refused everywhere. */
  lemma NoRolesDenied(required: seq<string>)
    ensures RoleGate(required, Absent) == Denied
    ensures RoleGate(required, Present([])) == Denied
  {
  }

  /** A token issued for a username with no user document carries an empty roles
      list, which no gate accepts. */
  lemma UnknownUserRefused(identity: string, required: seq<string>)
    ensures RoleGate(required, RolesClaim(AccessToken(identity, ClaimedRoles(None)))) == Denied
  {
  }

  /** Every role that passes the doctor/admin gate passes the staff gate; a nurse
      passes the staff gate only. */
  lemma GateInclusion(roles: seq<string>)
    ensures RoleGate(ClinicianRoles, Present(roles)) == Allowed ==> RoleGate(StaffRoles, Present(roles)) == Allowed
    ensures RoleGate(StaffRoles, Present(["nurse"])) == Allowed
    ensures RoleGate(ClinicianRoles, Present(["nurse"])) == Denied
  {
    if RoleGate(ClinicianRoles, Present(roles)) == Allowed {
      var i :| 0 <= i < |ClinicianRoles| && ClinicianRoles[i] in roles;
      assert StaffRoles[if i == 0 then 0 else 2] in roles;
    }
    assert StaffRoles[1] in ["nurse"];
    assert !HasAnyRole(ClinicianRoles, ["nurse"]) by {
      assert ClinicianRoles[0] != "nurse" && ClinicianRoles[1] != "nurse";
    }
  }

  // ---------------------------------------------------------------------------------
  // register and login
  // ---------------------------------------------------------------------------------

  /** A JSON body with username, password and (for register) roles. */
  datatype Credentials = Credentials(username: Field<string>, password: Field<string>, roles: Field<seq<string>>)

  /** `not value`: a missing key, null and the empty string are all falsy. */
  predicate Falsy(f: Field<string>) {
    f.Get().None? || f.Get().value == ""
  }

  const CredentialsRequired := "Username and password are required"
  const UserExists := "User already exists"
  const Registered := "User registered successfully"
  const BadCredentials := "Bad username or password"

  datatype RegisterOutcome = RegisterRejected(status: int, msg: string) | RegisterAccepted(username: string, user: User)

  /** register's decision: 400 for a missing field (before the lookup), 409 for a known
      username, otherwise the user to insert, with roles defaulting to ["nurse"]. */
  function Register(users: map<string, User>, body: Credentials, salt: nat): (r: RegisterOutcome)
    ensures r.RegisterRejected? && r.status == 400 <==> Falsy(body.username) || Falsy(body.password)
    ensures r.RegisterRejected? && r.status == 409 <==> !Falsy(body.username) && !Falsy(body.password) && body.username.value in users
    ensures r.RegisterAccepted? <==> !Falsy(body.username) && !Falsy(body.password) && body.username.value !in users
    ensures r.RegisterRejected? ==> r.status in {400, 409}
    ensures r.RegisterAccepted? ==>
      && r.username == body.username.value && r.username !in users
      && CheckPassword(r.user.password, body.password.value)
      && r.user.roles == body.roles.GetOrDefault(["nurse"])
  {
    if Falsy(body.username) || Falsy(body.password) then RegisterRejected(400, CredentialsRequired)
    else if body.username.value in users then RegisterRejected(409, UserExists)
    else RegisterAccepted(body.username.value, User(HashPassword(body.password.value, salt), body.roles.GetOrDefault(["nurse"])))
  }

  datatype LoginOutcome = LoginRejected(status: int, msg: string) | LoginAccepted(token: AccessToken)

  /** login's decision: 400 for a missing field, a token for a known user whose password
      checks, 401 otherwise. */
  function Login(users: map<string, User>, body: Credentials): (r: LoginOutcome)
    ensures r.LoginRejected? && r.status == 400 <==> Falsy(body.username) || Falsy(body.password)
    ensures r.LoginAccepted? <==>
      && !Falsy(body.username) && !Falsy(body.password)
      && body.username.value in users && CheckPassword(users[body.username.value].password, body.password.value)
    ensures r.LoginAccepted? ==> r.token == AccessToken(body.username.value, users[body.username.value].roles)
    ensures r.LoginRejected? ==> r.status in {400, 401}
  {
    if Falsy(body.username) || Falsy(body.password) then LoginRejected(400, CredentialsRequired)
    else
      var name := body.username.value;
      if name in users && CheckPassword(users[name].password, body.password.value) then
        LoginAccepted(AccessToken(name, ClaimedRoles(Some(users[name]))))
      else LoginRejected(401, BadCredentials)
  }

  /** Registering and then logging in with the same credentials yields a token whose
      roles claim is the registered roles; without roles in the body it carries
      ["nurse"], which the staff routes accept and the doctor/admin routes refuse. */
  lemma RegisterThenLogin(users: map<string, User>, body: Credentials, salt: nat)
    requires Register(users, body, salt).RegisterAccepted?
    ensures var r := Register(users, body, salt);
      var users' := users[r.username := r.user];
      var t := AccessToken(r.username, body.roles.GetOrDefault(["nurse"]));
      && Login(users', body) == LoginAccepted(t)
      && (body.roles == Absent ==>
            RoleGate(StaffRoles, RolesClaim(t)) == Allowed && RoleGate(ClinicianRoles, RolesClaim(t)) == Denied)
      && (body.roles == Null ==> RoleGate(StaffRoles, RolesClaim(t)) == GateCrash)
  {
    GateInclusion([]);
  }
}
