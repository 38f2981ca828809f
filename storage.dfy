/**
 * Storage failures. Every SQL statement a page runs may throw a PDOException;
 * the model receives the failure as an input: the index, in execution order,
 * of the statement that throws, and the exception's message.
 */
module Storage {

  datatype Fault = NoFault | FailAt(step: nat, message: string)

  /** Does the statement with index `step` throw? */
  predicate Fails(f: Fault, step: nat) {
    f.FailAt? && f.step == step
  }
}
