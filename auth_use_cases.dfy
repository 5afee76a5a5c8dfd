/** The authentication use cases: register, log in and fetch the signed-in user. Password
    hashing, password comparison and token signing are foreign code and come in as
    functions. */
module AuthUseCases {
  import opened Common
  import opened Results
  import opened DomainErrors
  import opened Seqs
  import opened Strings
  import opened UserEntity
  import opened UserRepo

  const REGISTER_REQUIRED_MESSAGE: string := "Email, contraseña y nombre son requeridos"
  const PASSWORD_LENGTH_MESSAGE: string := "La contraseña debe tener al menos 8 caracteres"
  const LOGIN_REQUIRED_MESSAGE: string := "Email y contraseña son requeridos"
  const MIN_PASSWORD_LENGTH: nat := 8

  datatype RegisterUserDto = RegisterUserDto(email: string, password: string, name: string)
  datatype LoginUserDto = LoginUserDto(email: string, password: string)

  /** The user part of `AuthResponseDto`. */
  datatype AuthUser = AuthUser(id: Id, email: string, name: string)
  datatype AuthResponse = AuthResponse(user: AuthUser, token: string)

  /** How registration can fail: with a domain error the use case returns, or with the
      store's unique e-mail constraint rejecting the insert (an exception the use case does
      not catch). */
  datatype RegisterError = Refused(error: DomainError) | EmailConstraintViolation

  /** `email.toLowerCase().trim()`. */
  function NormalisedEmail(email: string): (r: string)
    ensures |r| <= |email|
  {
    Trim(ToLower(email))
  }

  /** The response for a user: id, e-mail and name from the password-free view, and a
      token for the id. */
  function Respond(u: User, token: Id -> string): (r: AuthResponse)
    ensures r.user.id == u.id && r.user.email == u.email && r.user.name == u.name && r.token == token(u.id)
  {
    var view := ToUserWithoutPassword(u);
    AuthResponse(AuthUser(view.id, view.email, view.name), token(u.id))
  }

  /** The record registration stores: the normalised e-mail, the hash of the password
      (never the password itself) and the trimmed name. */
  function RegisterInput(dto: RegisterUserDto, hash: string -> string): (data: CreateUserInput)
    ensures data.email == NormalisedEmail(dto.email) && data.password == hash(dto.password)
    ensures data.name == Trim(dto.name)
  {
    CreateUserInput(NormalisedEmail(dto.email), hash(dto.password), Trim(dto.name))
  }

  /** The input checks registration makes before touching the store, in order. */
  function RegisterCheck(dto: RegisterUserDto): (r: Option<DomainError>)
    ensures r.None? <==> dto.email != [] && dto.password != [] && dto.name != [] && |dto.password| >= MIN_PASSWORD_LENGTH
    ensures dto.email == [] || dto.password == [] || dto.name == [] ==> r == Some(Validation(REGISTER_REQUIRED_MESSAGE))
    ensures dto.email != [] && dto.password != [] && dto.name != [] && |dto.password| < MIN_PASSWORD_LENGTH ==>
              r == Some(Validation(PASSWORD_LENGTH_MESSAGE))
  {
    if dto.email == [] || dto.password == [] || dto.name == [] then Some(Validation(REGISTER_REQUIRED_MESSAGE))
    else if |dto.password| < MIN_PASSWORD_LENGTH then Some(Validation(PASSWORD_LENGTH_MESSAGE))
    else None
  }

  /** `RegisterUserUseCase.execute`, at `now`, as written: the duplicate look-up uses the
      e-mail as given (lower-cased by the store, not trimmed), while the stored e-mail is
      lower-cased and trimmed. An address that differs from a registered one only by
      surrounding whitespace passes the look-up and is rejected by the store's unique
      constraint instead (see PaddedDuplicateReachesStore). */
  method RegisterUser(users: UserRepository, dto: RegisterUserDto, hash: string -> string, token: Id -> string, now: Instant)
    returns (r: Result<AuthResponse, RegisterError>)
    requires users.Valid()
    modifies users
    ensures users.Valid()
    ensures r.Failure? ==> users.users == old(users.users) && users.nextId == old(users.nextId)
    ensures RegisterCheck(dto).Some? ==> r == Failure(Refused(RegisterCheck(dto).value))
    ensures RegisterCheck(dto).None? && old(users.FindByEmail(dto.email)).Some? ==>
              r == Failure(Refused(EmailAlreadyExists(dto.email)))
    ensures (RegisterCheck(dto).None? && old(users.FindByEmail(dto.email)).None?
             && old(users.FindByEmail(NormalisedEmail(dto.email))).Some?) ==> r == Failure(EmailConstraintViolation)
    ensures (RegisterCheck(dto).None? && old(users.FindByEmail(dto.email)).None?
             && old(users.FindByEmail(NormalisedEmail(dto.email))).None?) ==>
              var u := NewUser(old(users.nextId), RegisterInput(dto, hash), now);
              users.users == old(users.users) + [u] && r == Success(Respond(u, token))
  {
    var invalid := RegisterCheck(dto);
    if invalid.Some? {
      return Failure(Refused(invalid.value));
    }
    var existing := users.FindByEmail(dto.email);
    if existing.Some? {
      return Failure(Refused(EmailAlreadyExists(dto.email)));
    }
    var created := users.Create(RegisterInput(dto, hash), now);
    if created.None? {
      return Failure(EmailConstraintViolation);
    }
    r := Success(Respond(created.value, token));
  }

  /** The gap for any stored address `e` that is lower-case and has no surrounding
      whitespace: the same address padded with a leading space is not found by the
      duplicate look-up, but its normalised form is. */
  lemma PaddedAddressReachesStore(users: UserRepository, u: User, e: string)
    requires users.users == [u] && u.email == e
    requires e != [] && !IsWhitespace(e[0]) && !IsWhitespace(e[|e| - 1])
    requires forall k :: 0 <= k < |e| ==> !('A' <= e[k] <= 'Z')
    ensures users.FindByEmail([' '] + e).None?
    ensures users.FindByEmail(NormalisedEmail([' '] + e)).Some?
  {
    var padded := [' '] + e;
    assert forall k :: 0 <= k < |padded| ==> !('A' <= padded[k] <= 'Z') by {
      forall k | 0 <= k < |padded| ensures !('A' <= padded[k] <= 'Z') {
        if k > 0 { assert padded[k] == e[k - 1]; }
      }
    }
    LowerWithoutCapitals(padded);
    LowerWithoutCapitals(e);
    TrimPadded(e);
    assert padded != e by { assert |padded| != |e|; }
    assert u in users.users;
  }

  /** A concrete case of the gap: with "a@x.co" registered, " a@x.co" is not found by the
      duplicate look-up, but its normalised form "a@x.co" is, so the insert hits the unique
      constraint. The route's schema refuses the padded address before the use case runs,
      so only a caller that skips the schema gets here. */
  lemma PaddedDuplicateReachesStore(users: UserRepository, u: User)
    requires users.users == [u] && u.email == "a@x.co"
    ensures users.FindByEmail(" a@x.co").None?
    ensures users.FindByEmail(NormalisedEmail(" a@x.co")).Some?
  {
    var e := "a@x.co";
    assert [' '] + e == " a@x.co";
    PaddedAddressReachesStore(users, u, e);
  }

  /** The padded registration of the example passes the use case's own checks, so nothing
      before the look-up stops it. */
  lemma PaddedPassesChecks()
    ensures RegisterCheck(RegisterUserDto(" a@x.co", "password", "Ana")).None?
  {
  }

  /** Registration with the duplicate look-up made on the address that is stored: every
      duplicate, padded or not, is reported as EmailAlreadyExists and the store's
      constraint is never what rejects it. */
  method RegisterUserNormalised(users: UserRepository, dto: RegisterUserDto, hash: string -> string, token: Id -> string,
                                now: Instant)
    returns (r: Result<AuthResponse, RegisterError>)
    requires users.Valid()
    modifies users
    ensures users.Valid()
    ensures r.Failure? ==> r.error.Refused? && users.users == old(users.users) && users.nextId == old(users.nextId)
    ensures RegisterCheck(dto).Some? ==> r == Failure(Refused(RegisterCheck(dto).value))
    ensures RegisterCheck(dto).None? && old(users.FindByEmail(NormalisedEmail(dto.email))).Some? ==>
              r == Failure(Refused(EmailAlreadyExists(dto.email)))
    ensures RegisterCheck(dto).None? && old(users.FindByEmail(NormalisedEmail(dto.email))).None? ==>
              var u := NewUser(old(users.nextId), RegisterInput(dto, hash), now);
              users.users == old(users.users) + [u] && r == Success(Respond(u, token))
    ensures r.Success? ==> users.FindByEmail(NormalisedEmail(dto.email)) == Some(users.users[|users.users| - 1])
  {
    var invalid := RegisterCheck(dto);
    if invalid.Some? {
      return Failure(Refused(invalid.value));
    }
    var existing := users.FindByEmail(NormalisedEmail(dto.email));
    if existing.Some? {
      return Failure(Refused(EmailAlreadyExists(dto.email)));
    }
    var created := users.Create(RegisterInput(dto, hash), now);
    if created.None? {
      assert false;
    }
    r := Success(Respond(created.value, token));
  }

  /** `LoginUserUseCase.execute`. Missing credentials are a validation error; an unknown
      e-mail and a wrong password give the same InvalidCredentials, so a caller cannot tell
      which one it was. The look-up uses the lower-cased, trimmed e-mail. */
  function LoginUser(users: UserRepository, dto: LoginUserDto, compare: (string, string) -> bool, token: Id -> string)
    : (r: Result<AuthResponse, DomainError>)
    reads users
    ensures dto.email == [] || dto.password == [] ==> r == Failure(Validation(LOGIN_REQUIRED_MESSAGE))
    ensures dto.email != [] && dto.password != [] && r.Failure? ==> r.error == InvalidCredentials
    ensures dto.email != [] && dto.password != [] && users.FindByEmail(NormalisedEmail(dto.email)).None? ==>
              r == Failure(InvalidCredentials)
    ensures r.Success? <==>
              dto.email != [] && dto.password != [] && users.FindByEmail(NormalisedEmail(dto.email)).Some?
              && compare(dto.password, users.FindByEmail(NormalisedEmail(dto.email)).value.password)
    ensures r.Success? ==> var u := users.FindByEmail(NormalisedEmail(dto.email)).value;
              u in users.users && u.email == ToLower(NormalisedEmail(dto.email)) && r.value == Respond(u, token)
  {
    if dto.email == [] || dto.password == [] then Failure(Validation(LOGIN_REQUIRED_MESSAGE))
    else match users.FindByEmail(NormalisedEmail(dto.email))
      case None => Failure(InvalidCredentials)
      case Some(u) =>
        if !compare(dto.password, u.password) then Failure(InvalidCredentials)
        else Success(Respond(u, token))
  }

  /** A stored user whose address matches the normalised e-mail, and whose password hash
      the comparer accepts, logs in as that very user: addresses are unique, so the
      look-up cannot find anyone else. */
  lemma RegisteredUserCanLogIn(users: UserRepository, dto: LoginUserDto, compare: (string, string) -> bool,
                               token: Id -> string, u: User)
    requires users.Valid() && u in users.users
    requires dto.email != [] && dto.password != []
    requires u.email == ToLower(NormalisedEmail(dto.email)) && compare(dto.password, u.password)
    ensures LoginUser(users, dto, compare, token) == Success(Respond(u, token))
  {
    var found := users.FindByEmail(NormalisedEmail(dto.email));
    assert found.Some?;
    var i :| 0 <= i < |users.users| && users.users[i] == u;
    var j :| 0 <= j < |users.users| && users.users[j] == found.value;
    assert EmailOf(users.users[i]) == EmailOf(users.users[j]);
    assert i == j;
  }

  /** `GetCurrentUserUseCase.execute`: the password-free view of the user with that id,
      or UserNotFound. */
  function GetCurrentUser(users: UserRepository, userId: Id): (r: Result<UserWithoutPassword, DomainError>)
    reads users
    ensures r.Failure? <==> forall u :: u in users.users ==> u.id != userId
    ensures r.Failure? ==> r.error == UserNotFound
    ensures r.Success? ==> r.value.id == userId
                           && exists u :: u in users.users && u.id == userId && r.value == ToUserWithoutPassword(u)
  {
    match users.FindById(userId)
    case None => Failure(UserNotFound)
    case Some(u) => Success(ToUserWithoutPassword(u))
  }
}
