/** The typed domain errors: every kind carries a fixed machine-readable code and an HTTP
    status, and serialises to `{code, message, name}`. */
module DomainErrors {
  import Strings

  datatype DomainError =
    | InvalidCredentials
    | EmailAlreadyExists(email: string)
    | UserNotFound
    | InvalidToken
    | TimeBudgetNotFound
    | TimeBudgetAlreadyExists
    | InsufficientTime(available: int, requested: int)
    | ActivityNotFound
    | InvalidActivityDuration
    | CategoryNotFound
    | PriorityNotFound
    | MaxPrioritiesExceeded
    | CalendarBlockNotFound
    | CalendarBlockOverlap
    | WeeklyReviewNotFound
    | WeeklyReviewAlreadyCompleted
    | Validation(message: string)
  {
    /** One of the seven "not found" errors. */
    predicate IsNotFound() {
      UserNotFound? || TimeBudgetNotFound? || ActivityNotFound? || CategoryNotFound? ||
      PriorityNotFound? || CalendarBlockNotFound? || WeeklyReviewNotFound?
    }

    function Code(): (r: string)
      ensures |r| > 0
    {
      match this
      case InvalidCredentials => "AUTH_INVALID_CREDENTIALS"
      case EmailAlreadyExists(_) => "AUTH_EMAIL_EXISTS"
      case UserNotFound => "AUTH_USER_NOT_FOUND"
      case InvalidToken => "AUTH_INVALID_TOKEN"
      case TimeBudgetNotFound => "BUDGET_NOT_FOUND"
      case TimeBudgetAlreadyExists => "BUDGET_ALREADY_EXISTS"
      case InsufficientTime(_, _) => "BUDGET_INSUFFICIENT_TIME"
      case ActivityNotFound => "ACTIVITY_NOT_FOUND"
      case InvalidActivityDuration => "ACTIVITY_INVALID_DURATION"
      case CategoryNotFound => "CATEGORY_NOT_FOUND"
      case PriorityNotFound => "PRIORITY_NOT_FOUND"
      case MaxPrioritiesExceeded => "PRIORITY_MAX_EXCEEDED"
      case CalendarBlockNotFound => "CALENDAR_BLOCK_NOT_FOUND"
      case CalendarBlockOverlap => "CALENDAR_BLOCK_OVERLAP"
      case WeeklyReviewNotFound => "WEEKLY_REVIEW_NOT_FOUND"
      case WeeklyReviewAlreadyCompleted => "WEEKLY_REVIEW_ALREADY_COMPLETED"
      case Validation(_) => "VALIDATION_ERROR"
    }

    /** The HTTP status: 401 for bad credentials or token, 409 for the two "already
        exists" conflicts, 404 for every "not found", and 400 for everything else. */
    function StatusCode(): (r: int)
      ensures r == 401 <==> InvalidCredentials? || InvalidToken?
      ensures r == 409 <==> EmailAlreadyExists? || TimeBudgetAlreadyExists?
      ensures r == 404 <==> IsNotFound()
      ensures r == 400 <==> !(InvalidCredentials? || InvalidToken? || EmailAlreadyExists? ||
                              TimeBudgetAlreadyExists? || IsNotFound())
    {
      match this
      case InvalidCredentials => 401
      case EmailAlreadyExists(_) => 409
      case UserNotFound => 404
      case InvalidToken => 401
      case TimeBudgetNotFound => 404
      case TimeBudgetAlreadyExists => 409
      case InsufficientTime(_, _) => 400
      case ActivityNotFound => 404
      case InvalidActivityDuration => 400
      case CategoryNotFound => 404
      case PriorityNotFound => 404
      case MaxPrioritiesExceeded => 400
      case CalendarBlockNotFound => 404
      case CalendarBlockOverlap => 400
      case WeeklyReviewNotFound => 404
      case WeeklyReviewAlreadyCompleted => 400
      case Validation(_) => 400
    }

    /** The error's `name`: the name of its class, the kind followed by "Error". */
    function Name(): (r: string)
      ensures |r| > 5 && r[|r| - 5..] == "Error"
    {
      Kind() + "Error"
    }

    /** The kind part of the class name. */
    function Kind(): string {
      match this
      case InvalidCredentials => "InvalidCredentials"
      case EmailAlreadyExists(_) => "EmailAlreadyExists"
      case UserNotFound => "UserNotFound"
      case InvalidToken => "InvalidToken"
      case TimeBudgetNotFound => "TimeBudgetNotFound"
      case TimeBudgetAlreadyExists => "TimeBudgetAlreadyExists"
      case InsufficientTime(_, _) => "InsufficientTime"
      case ActivityNotFound => "ActivityNotFound"
      case InvalidActivityDuration => "InvalidActivityDuration"
      case CategoryNotFound => "CategoryNotFound"
      case PriorityNotFound => "PriorityNotFound"
      case MaxPrioritiesExceeded => "MaxPrioritiesExceeded"
      case CalendarBlockNotFound => "CalendarBlockNotFound"
      case CalendarBlockOverlap => "CalendarBlockOverlap"
      case WeeklyReviewNotFound => "WeeklyReviewNotFound"
      case WeeklyReviewAlreadyCompleted => "WeeklyReviewAlreadyCompleted"
      case Validation(_) => "Validation"
    }

    /** The human-readable (Spanish) message; the two parameterised ones embed their
        arguments, and a validation error carries the caller's message verbatim. */
    function Message(): (r: string)
      ensures Validation? ==> r == message
      ensures !Validation? ==> |r| > 0
    {
      match this
      case InvalidCredentials => "Credenciales inválidas"
      case EmailAlreadyExists(email) =>
        "El email " + email + " ya está registrado"
      case UserNotFound => "Usuario no encontrado"
      case InvalidToken => "Token inválido o expirado"
      case TimeBudgetNotFound => "Presupuesto de tiempo no encontrado"
      case TimeBudgetAlreadyExists => "Ya existe un presupuesto para esta semana"
      case InsufficientTime(available, requested) =>
        "Tiempo insuficiente. Disponible: " + Strings.IntToString(available) +
        " min, Solicitado: " + Strings.IntToString(requested) + " min"
      case ActivityNotFound => "Actividad no encontrada"
      case InvalidActivityDuration => "La duración de la actividad debe ser mayor a 0"
      case CategoryNotFound => "Categoría no encontrada"
      case PriorityNotFound => "Prioridad no encontrada"
      case MaxPrioritiesExceeded => "No puedes tener más de 4 prioridades vitales"
      case CalendarBlockNotFound => "Bloque de calendario no encontrado"
      case CalendarBlockOverlap => "El bloque se superpone con otro existente"
      case WeeklyReviewNotFound => "Revisión semanal no encontrada"
      case WeeklyReviewAlreadyCompleted => "La revisión semanal ya fue completada"
      case Validation(message) => message
    }

    /** The serialised form sent to clients. */
    function ToJson(): (r: ErrorJson)
      ensures r.code == Code() && r.message == Message() && r.name == Name()
    {
      ErrorJson(Code(), Message(), Name())
    }
  }

  /** The three fields `toJSON` exposes, and nothing else (no stack, no status). */
  datatype ErrorJson = ErrorJson(code: string, message: string, name: string)

  /** The error's kind, ignoring its parameters: two errors have the same kind when they
      are built by the same constructor. */
  predicate SameKind(a: DomainError, b: DomainError) {
    a.Kind() == b.Kind()
  }

  /** Codes are pairwise distinct across kinds: the code identifies the error class. */
  lemma CodeIdentifiesKind(a: DomainError, b: DomainError)
    ensures a.Code() == b.Code() <==> SameKind(a, b)
  {
    if a.Code() == b.Code() {
      SameCodeSameKind(a, b);
    }
    if SameKind(a, b) {
      SameKindSameCode(a, b);
    }
  }

  /** Equal codes come from the same constructor: no two codes agree on their length and
      their first two letters. */
  lemma SameCodeSameKind(a: DomainError, b: DomainError)
    requires a.Code() == b.Code()
    ensures SameKind(a, b)
  {
    var ca, cb := a.Code(), b.Code();
    assert |ca| == |cb| && ca[0] == cb[0] && ca[1] == cb[1];
  }

  /** Equal kind names come from the same constructor, which has one code. */
  lemma SameKindSameCode(a: DomainError, b: DomainError)
    requires SameKind(a, b)
    ensures a.Code() == b.Code()
  {
    var ka, kb := a.Kind(), b.Kind();
    assert |ka| == |kb| && ka[0] == kb[0] && ka[1] == kb[1] && ka[|ka| - 1] == kb[|kb| - 1];
  }

  /** Serialisation loses nothing the client needs: two errors with the same JSON are of
      the same kind and carry the same message. */
  lemma ToJsonInjectiveOnKind(a: DomainError, b: DomainError)
    ensures a.ToJson() == b.ToJson() ==> SameKind(a, b) && a.Message() == b.Message()
  {
  }
}
