/** Failure-carrying values shared by every module of the model.

    The client is written in JavaScript, where a missing value is `undefined`
    and a failure is a thrown exception. `Option` stands for "a value or
    undefined", `Outcome` for "a value or an exception", and `Fault` names
    the exceptions the client can raise. */
module Outcomes {

  datatype Option<+T> = None | Some(value: T)

  /** The exceptions the client raises, by the JavaScript error they are. */
  datatype Fault =
    | TypeError(what: string)     // a property of undefined/null, a non-string URL, a missing method
    | SyntaxError                 // JSON.parse of a body that is not JSON
    | ReferenceError(name: string)  // a variable that was never declared
    | OpensslFailure(command: string)
    | FileNotFound(path: string)
    | InvalidConfig               // "Invalid config, email missing"
    | Interrupted                 // the process was stopped from outside while it waited

  datatype Outcome<+T> = Ok(value: T) | Threw(fault: Fault)
}
