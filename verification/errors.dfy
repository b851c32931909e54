/**
 * The client's exception hierarchy: `DymoAPIError` extends PHP's `Exception`,
 * and `AuthenticationError`, `RateLimitError`, `BadRequestError` and `APIError`
 * extend `DymoAPIError` without overriding its constructor.
 */
module Errors {

  /** The exception classes; `Exception` is PHP's built-in root class. */
  datatype ErrorClass =
    | Exception
    | DymoAPIError
    | AuthenticationError
    | RateLimitError
    | BadRequestError
    | APIError

  /** How far below `Exception` a class sits. */
  function Depth(c: ErrorClass): nat {
    match c
    case Exception => 0
    case DymoAPIError => 1
    case _ => 2
  }

  /** The class that `c` extends; the root is its own parent. */
  function Parent(c: ErrorClass): (p: ErrorClass)
    ensures c != Exception ==> Depth(p) + 1 == Depth(c)
  {
    match c
    case Exception => Exception
    case DymoAPIError => Exception
    case _ => DymoAPIError
  }

  /** `$e instanceof ancestor` for an error of class `c`: what a `catch (ancestor $e)` clause catches. */
  predicate InstanceOf(c: ErrorClass, ancestor: ErrorClass)
    decreases Depth(c)
  {
    c == ancestor || (c != Exception && InstanceOf(Parent(c), ancestor))
  }

  /** Which handlers catch which errors: a handler for `Exception` catches all,
      one for `DymoAPIError` catches every class but `Exception`, and the four
      subclasses catch only themselves. */
  lemma HandlerCoverage(c: ErrorClass, handler: ErrorClass)
    ensures InstanceOf(c, handler) <==>
              c == handler || handler == Exception || (handler == DymoAPIError && c != Exception)
  {
    match c
    case Exception =>
    case DymoAPIError =>
      assert InstanceOf(c, handler) <==> c == handler || InstanceOf(Exception, handler);
    case _ =>
      assert InstanceOf(c, handler) <==> c == handler || InstanceOf(DymoAPIError, handler);
      assert InstanceOf(DymoAPIError, handler) <==> DymoAPIError == handler || InstanceOf(Exception, handler);
  }

  /** The text every error message starts with. */
  const Prefix := "[Dymo API] "

  /** An error as the caller sees it: its class and `getMessage()`. */
  datatype DymoError = DymoError(kind: ErrorClass, message: string)

  predicate HasPrefix(message: string) {
    |Prefix| <= |message| && message[..|Prefix|] == Prefix
  }

  /** The text that was passed to the constructor of an error with this message. */
  function Supplied(message: string): string
    requires HasPrefix(message)
  {
    message[|Prefix|..]
  }

  /**
   * `new C($message)` for `DymoAPIError` or one of its four subclasses: all of them
   * run the one constructor, which stores the prefixed text as the message.
   */
  function NewError(kind: ErrorClass, supplied: string): (e: DymoError)
    requires InstanceOf(kind, DymoAPIError)
    ensures e.kind == kind
    ensures HasPrefix(e.message) && Supplied(e.message) == supplied
    ensures |e.message| == |Prefix| + |supplied|
  {
    DymoError(kind, Prefix + supplied)
  }

  /** Two errors of one class are equal exactly when they were built from the same text. */
  lemma NewErrorInjective(kind: ErrorClass, a: string, b: string)
    requires InstanceOf(kind, DymoAPIError)
    ensures NewError(kind, a) == NewError(kind, b) <==> a == b
  {
    if NewError(kind, a) == NewError(kind, b) {
      assert a == Supplied(NewError(kind, a).message);
    }
  }

  function BadRequest(message: string): (e: DymoError)
    ensures e.kind == BadRequestError && e.message == Prefix + message
  {
    NewError(BadRequestError, message)
  }

  function Authentication(message: string): (e: DymoError)
    ensures e.kind == AuthenticationError && e.message == Prefix + message
  {
    NewError(AuthenticationError, message)
  }

  /** The outcome of a check that either returns a value or throws one of the client's errors. */
  datatype Result<+T> = Ok(value: T) | Err(error: DymoError)
}
