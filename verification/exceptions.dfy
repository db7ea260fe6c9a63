/**
 * The exceptions the core throws, as values. Each variant stands for one
 * Java exception class (or, for `Runtime` and `Checked`, a family of them)
 * so that the boundary handler can dispatch on the class hierarchy.
 */
module Exceptions {
  import opened Wrappers

  /** One rejected request field and the constraint's default message. */
  datatype FieldError = FieldError(field: string, message: string)

  /** The concrete class of a `RuntimeException` that is neither
      `BadCredentialsException` nor `UsernameNotFoundException`. */
  datatype RuntimeKind =
    | Plain                   // new RuntimeException(message) in the services
    | MalformedJwt            // io.jsonwebtoken.MalformedJwtException
    | InvalidSignature        // io.jsonwebtoken.security.SignatureException
    | ExpiredJwt              // io.jsonwebtoken.ExpiredJwtException
    | NullPointer             // NullPointerException
    | ClassCast               // ClassCastException
    | DataIntegrityViolation  // a unique or not-null column rejected a save
    | IncorrectResultSize     // a single-result query matched several rows

  /** An exception's `getMessage()`: null, a text the code spells out, or
      the non-null text a library composes for its exception (for instance
      "JWT expired at ..."), which the model does not spell out. */
  datatype Message = NoMessage | Literal(text: string) | LibraryDetail(kind: RuntimeKind)

  datatype Exc =
    | MethodArgumentNotValid(errors: seq<FieldError>)
    | BadCredentials
    | UsernameNotFound(text: string)
    | OAuth2Failure(errorCode: string)   // OAuth2AuthenticationException(errorCode): null message
    | Runtime(kind: RuntimeKind, message: Message)
    | Checked(message: Message)

  /** A `RuntimeException` thrown by a library, with the library's own
      (non-null) message. */
  function LibraryFault(kind: RuntimeKind): Exc {
    Runtime(kind, LibraryDetail(kind))
  }
}
