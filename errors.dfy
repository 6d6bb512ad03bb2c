/** Optional values and the two exceptions the services throw. */
module Errors {

  /** A value that may be absent: Java's nullable references and `Optional`. */
  datatype Option<+T> = None | Some(value: T)

  /** The exceptions raised by the services, each with the message it carries. */
  datatype Error =
    | IllegalArgument(message: string)   // java.lang.IllegalArgumentException
    | ResourceNotFound(message: string)  // ResourceNotFoundException

  /** Either the value a service method returns or the exception it throws. */
  datatype Result<+T> = Ok(value: T) | Err(error: Error)

  const CustomerNotFoundPrefix := "Customer not found with ID: "

  /** `"Customer not found with ID: " + id`: the fixed prefix followed by the id as written. */
  function CustomerNotFoundMessage(shownId: string): (m: string)
    ensures |m| == |CustomerNotFoundPrefix| + |shownId|
    ensures m[..|CustomerNotFoundPrefix|] == CustomerNotFoundPrefix
    ensures m[|CustomerNotFoundPrefix|..] == shownId
  {
    CustomerNotFoundPrefix + shownId
  }

  /** The message names the id it was made for: different ids give different messages. */
  lemma CustomerNotFoundMessageInjective(a: string, b: string)
    ensures CustomerNotFoundMessage(a) == CustomerNotFoundMessage(b) ==> a == b
  {
  }
}
