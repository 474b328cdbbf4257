/**
 * The API's error taxonomy (backend/exceptions.py): nine exception classes,
 * each answered with a fixed HTTP status, a fixed slug in the body's
 * "error" field and a message in its "message" field.
 */
module Errors {
  import Decimal

  datatype ApiError =
    | ModelDNE(model: string, id: int)
    | DuplicateModel(model: string, field: string, value: string)
    | ChatMembershipError(accountId: int, chatId: int)
    | ChatOwnerRemovalError
    | InvalidCredentials
    | AuthenticationRequiredError
    | ExpiredAccessTokenError
    | InvalidAccessTokenError
    | AccessDeniedError(model: string)

  /** The exception class of an error, forgetting its arguments. */
  datatype ErrorKind =
    | EntityNotFound
    | DuplicateEntityValue
    | ChatMembershipRequired
    | ChatOwnerRemoval
    | BadCredentials
    | AuthenticationRequired
    | ExpiredAccessToken
    | InvalidAccessToken
    | AccessDenied

  /** What an operation returns: its value, or the exception it raises. */
  datatype Outcome<T> = Ok(value: T) | Err(error: ApiError)

  /** The JSON response an exception handler sends. */
  datatype ErrorResponse = ErrorResponse(status: int, error: string, message: string)

  function Kind(e: ApiError): ErrorKind {
    match e
    case ModelDNE(_, _) => EntityNotFound
    case DuplicateModel(_, _, _) => DuplicateEntityValue
    case ChatMembershipError(_, _) => ChatMembershipRequired
    case ChatOwnerRemovalError => ChatOwnerRemoval
    case InvalidCredentials => BadCredentials
    case AuthenticationRequiredError => AuthenticationRequired
    case ExpiredAccessTokenError => ExpiredAccessToken
    case InvalidAccessTokenError => InvalidAccessToken
    case AccessDeniedError(_) => AccessDenied
  }

  function Status(k: ErrorKind): int {
    match k
    case EntityNotFound => 404
    case DuplicateEntityValue => 422
    case ChatMembershipRequired => 422
    case ChatOwnerRemoval => 422
    case BadCredentials => 401
    case AuthenticationRequired => 403
    case ExpiredAccessToken => 403
    case InvalidAccessToken => 403
    case AccessDenied => 403
  }

  function Slug(k: ErrorKind): string {
    match k
    case EntityNotFound => "entity_not_found"
    case DuplicateEntityValue => "duplicate_entity_value"
    case ChatMembershipRequired => "chat_membership_required"
    case ChatOwnerRemoval => "chat_owner_removal"
    case BadCredentials => "invalid_credentials"
    case AuthenticationRequired => "authentication_required"
    case ExpiredAccessToken => "expired_access_token"
    case InvalidAccessToken => "invalid_access_token"
    case AccessDenied => "access_denied"
  }

  function Message(e: ApiError): string {
    match e
    case ModelDNE(model, id) =>
      "Unable to find " + model + " with id=" + Decimal.Show(id)
    case DuplicateModel(model, field, value) =>
      "Duplicate value: " + model + " with " + field + "=" + value + " already exists"
    case ChatMembershipError(accountId, chatId) =>
      "Account with id=" + Decimal.Show(accountId) + " must be a member of chat with id=" + Decimal.Show(chatId)
    case ChatOwnerRemovalError => "Unable to remove the owner of a chat"
    case InvalidCredentials => "Authentication failed: invalid username or password"
    case AuthenticationRequiredError => "Not authenticated"
    case ExpiredAccessTokenError => "Authentication failed: expired access token"
    case InvalidAccessTokenError => "Authentication failed: invalid access token"
    case AccessDeniedError(model) => "Cannot create " + model + " on behalf of different account"
  }

  /** `exc.response()`: status and slug depend only on the class, the message on the arguments. */
  function Response(e: ApiError): (r: ErrorResponse)
    ensures r.status == Status(Kind(e)) && r.error == Slug(Kind(e)) && r.message == Message(e)
    ensures r.status in {401, 403, 404, 422}
  {
    ErrorResponse(Status(Kind(e)), Slug(Kind(e)), Message(e))
  }

  /** The status partitions the classes: 404 not found, 422 integrity, 401 login, 403 session/access. */
  lemma StatusClasses(e: ApiError)
    ensures Status(Kind(e)) == 404 <==> e.ModelDNE?
    ensures Status(Kind(e)) == 422 <==> e.DuplicateModel? || e.ChatMembershipError? || e.ChatOwnerRemovalError?
    ensures Status(Kind(e)) == 401 <==> e.InvalidCredentials?
    ensures Status(Kind(e)) == 403 <==>
      e.AuthenticationRequiredError? || e.ExpiredAccessTokenError? || e.InvalidAccessTokenError? || e.AccessDeniedError?
  {
  }

  /** The nine slugs are pairwise distinct, so a body's "error" field names the class. */
  lemma SlugsDistinct(k1: ErrorKind, k2: ErrorKind)
    ensures Slug(k1) == Slug(k2) <==> k1 == k2
  {
    if k1 != k2 {
      // Slugs of equal length differ at a position found by case analysis.
      match (k1, k2)
      case (ExpiredAccessToken, InvalidAccessToken) => assert Slug(k1)[0] != Slug(k2)[0];
      case (InvalidAccessToken, ExpiredAccessToken) => assert Slug(k1)[0] != Slug(k2)[0];
      case _ =>
    }
  }

  /** A client can tell the exception class from a response body's "error" field alone. */
  lemma ResponseNamesClass(e1: ApiError, e2: ApiError)
    ensures Response(e1).error == Response(e2).error <==> Kind(e1) == Kind(e2)
    ensures Response(e1).error == Response(e2).error ==> Response(e1).status == Response(e2).status
  {
    SlugsDistinct(Kind(e1), Kind(e2));
  }

  /** A not-found message determines the id it reports, for a given entity name. */
  lemma NotFoundMessageNamesId(model: string, i: int, j: int)
    ensures Message(ModelDNE(model, i)) == Message(ModelDNE(model, j)) <==> i == j
  {
    var prefix := "Unable to find " + model + " with id=";
    if Message(ModelDNE(model, i)) == Message(ModelDNE(model, j)) {
      assert (prefix + Decimal.Show(i))[|prefix|..] == Decimal.Show(i);
      assert (prefix + Decimal.Show(j))[|prefix|..] == Decimal.Show(j);
      Decimal.ShowInjective(i, j);
    }
  }
}
