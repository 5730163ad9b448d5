/**
  The application errors of lib/utils/error-handling.ts: `AppError` and its four
  subclasses, each with a fixed status and code, the normalisation `handleError` and the
  `is*` class tests. The class hierarchy becomes a tag (`kind`) on one error value;
  `instanceof AppError` holds for every kind, `instanceof` a subclass only for that kind.
*/
module ErrorHandling {
  import opened Common

  datatype Kind = App | Database | Authentication | Authorization | Validation

  /** An `AppError` instance: its class, message, status, code and `name`. */
  datatype AppError = AppError(kind: Kind, message: string, statusCode: int, code: string, name: string)

  /** `new AppError(message, statusCode = 500, code = 'INTERNAL_SERVER_ERROR')`; an
      absent argument takes its default. */
  function NewAppError(message: string, statusCode: Option<int>, code: Option<string>): (e: AppError)
    ensures e.kind == App && e.message == message && e.name == "AppError"
    ensures e.statusCode == (if statusCode.Some? then statusCode.value else 500)
    ensures e.code == (if code.Some? then code.value else "INTERNAL_SERVER_ERROR")
  {
    AppError(App, message, if statusCode.Some? then statusCode.value else 500,
             if code.Some? then code.value else "INTERNAL_SERVER_ERROR", "AppError")
  }

  /** `new DatabaseError(error)`: the database error's message, 500, DATABASE_ERROR. */
  function NewDatabaseError(postgrestMessage: string): (e: AppError)
    ensures e.kind == Database && e.message == postgrestMessage && e.name == "DatabaseError"
    ensures e.statusCode == StatusOf(Database) && e.code == CodeOf(Database)
  {
    var base := NewAppError(postgrestMessage, Some(500), Some("DATABASE_ERROR"));
    base.(kind := Database, name := "DatabaseError")
  }

  /** `new AuthenticationError(message = 'Not authenticated')`: 401, UNAUTHENTICATED. */
  function NewAuthenticationError(message: Option<string>): (e: AppError)
    ensures e.kind == Authentication && e.name == "AuthenticationError"
    ensures e.message == (if message.Some? then message.value else "Not authenticated")
    ensures e.statusCode == StatusOf(Authentication) && e.code == CodeOf(Authentication)
  {
    var base := NewAppError(if message.Some? then message.value else "Not authenticated", Some(401), Some("UNAUTHENTICATED"));
    base.(kind := Authentication, name := "AuthenticationError")
  }

  /** `new AuthorizationError(message = 'Not authorized')`: 403, UNAUTHORIZED. */
  function NewAuthorizationError(message: Option<string>): (e: AppError)
    ensures e.kind == Authorization && e.name == "AuthorizationError"
    ensures e.message == (if message.Some? then message.value else "Not authorized")
    ensures e.statusCode == StatusOf(Authorization) && e.code == CodeOf(Authorization)
  {
    var base := NewAppError(if message.Some? then message.value else "Not authorized", Some(403), Some("UNAUTHORIZED"));
    base.(kind := Authorization, name := "AuthorizationError")
  }

  /** `new ValidationError(message)`: 400, VALIDATION_ERROR. */
  function NewValidationError(message: string): (e: AppError)
    ensures e.kind == Validation && e.message == message && e.name == "ValidationError"
    ensures e.statusCode == StatusOf(Validation) && e.code == CodeOf(Validation)
  {
    var base := NewAppError(message, Some(400), Some("VALIDATION_ERROR"));
    base.(kind := Validation, name := "ValidationError")
  }

  /** The status and code that go with each kind, as the constructors fix them. */
  function StatusOf(kind: Kind): int
  {
    match kind
    case App => 500
    case Database => 500
    case Authentication => 401
    case Authorization => 403
    case Validation => 400
  }

  function CodeOf(kind: Kind): string
  {
    match kind
    case App => "INTERNAL_SERVER_ERROR"
    case Database => "DATABASE_ERROR"
    case Authentication => "UNAUTHENTICATED"
    case Authorization => "UNAUTHORIZED"
    case Validation => "VALIDATION_ERROR"
  }

  /** A bare `AppError` with no status or code gets the same defaults as its table
      entry, and different kinds have different codes, so the code names the class. */
  lemma CodesDistinct(m: string)
    ensures var e := NewAppError(m, None, None);
      e.statusCode == StatusOf(App) && e.code == CodeOf(App)
    ensures forall k1, k2 :: k1 != k2 ==> CodeOf(k1) != CodeOf(k2)
  {
  }

  /** What can be thrown and caught as `unknown`: an `AppError` (of any kind), a
      `PostgrestError`, another `Error`, or any other value. */
  datatype Thrown =
    | ThrownApp(error: AppError)
    | ThrownPostgrest(postgrestMessage: string)
    | ThrownError(errorMessage: string)
    | ThrownOther

  const UnexpectedMessage: string := "An unexpected error occurred"

  /** `handleError`. */
  function HandleError(x: Thrown): (e: AppError)
    ensures x.ThrownApp? ==> e == x.error
    ensures x.ThrownPostgrest? ==> e == NewDatabaseError(x.postgrestMessage)
    ensures x.ThrownError? ==> e == NewAppError(x.errorMessage, None, None)
    ensures x.ThrownOther? ==> e == NewAppError(UnexpectedMessage, None, None)
  {
    match x
    case ThrownApp(err) => err
    case ThrownPostgrest(m) => NewDatabaseError(m)
    case ThrownError(m) => NewAppError(m, None, None)
    case ThrownOther => NewAppError(UnexpectedMessage, None, None)
  }

  /** Normalising twice is normalising once, and the message of any error survives it. */
  lemma HandleErrorIdempotent(x: Thrown)
    ensures HandleError(ThrownApp(HandleError(x))) == HandleError(x)
    ensures x.ThrownPostgrest? ==> HandleError(x).message == x.postgrestMessage && HandleError(x).kind == Database
    ensures x.ThrownError? ==> HandleError(x).message == x.errorMessage && HandleError(x).statusCode == 500
  {
  }

  /** `isAppError`: an `AppError` passes through `handleError` unchanged; anything
      else comes back as a new plain `AppError` or `DatabaseError`. */
  function IsAppError(x: Thrown): (b: bool)
    ensures b ==> x.ThrownApp? && HandleError(x) == x.error
    ensures !b ==> HandleError(x).kind == App || HandleError(x).kind == Database
  {
    x.ThrownApp?
  }

  /** The four subclass tests: an instance of a subclass is an `AppError`, and
      `handleError` hands it back as that subclass. */
  function IsDatabaseError(x: Thrown): (b: bool)
    ensures b ==> IsAppError(x) && HandleError(x).kind == Database
  {
    x.ThrownApp? && x.error.kind == Database
  }

  function IsAuthenticationError(x: Thrown): (b: bool)
    ensures b ==> IsAppError(x) && HandleError(x).kind == Authentication
  {
    x.ThrownApp? && x.error.kind == Authentication
  }

  function IsAuthorizationError(x: Thrown): (b: bool)
    ensures b ==> IsAppError(x) && HandleError(x).kind == Authorization
  {
    x.ThrownApp? && x.error.kind == Authorization
  }

  function IsValidationError(x: Thrown): (b: bool)
    ensures b ==> IsAppError(x) && HandleError(x).kind == Validation
  {
    x.ThrownApp? && x.error.kind == Validation
  }

  /** `isAppError` holds for an instance of every subclass; each subclass test holds
      for its own class only; and whatever `handleError` returns passes `isAppError`. */
  lemma ClassTests(x: Thrown, m: string, given: Option<string>)
    ensures IsAppError(ThrownApp(NewDatabaseError(m))) && IsAppError(ThrownApp(NewAuthenticationError(given)))
            && IsAppError(ThrownApp(NewAuthorizationError(given))) && IsAppError(ThrownApp(NewValidationError(m)))
    ensures IsDatabaseError(x) ==> !IsAuthenticationError(x) && !IsAuthorizationError(x) && !IsValidationError(x)
    ensures IsAuthenticationError(x) ==> !IsAuthorizationError(x) && !IsValidationError(x)
    ensures IsAuthorizationError(x) ==> !IsValidationError(x)
    ensures IsDatabaseError(ThrownApp(NewDatabaseError(m))) && !IsDatabaseError(ThrownApp(NewValidationError(m)))
    ensures !IsDatabaseError(ThrownApp(NewAppError(m, None, None)))
    ensures IsAppError(ThrownApp(HandleError(x)))
    ensures IsDatabaseError(ThrownApp(HandleError(x))) <==> IsDatabaseError(x) || x.ThrownPostgrest?
  {
  }
}
