/** Failure-carrying datatypes shared by the circuit builders. */
module Wrappers {

  /** An optional value; the builders use it for Qiskit's `ancilla_qubits=None`. */
  datatype Option<+T> = None | Some(value: T)

  /** One constructor per `raise ValueError` site of the builders. */
  datatype BuildError =
    | MarkLengthMismatch          // oracle: len(mark_state_str) != n_search_qubits
    | NoOracleAncilla             // oracle: num_oracle_ancillas < 1
    | DiffuserQubitsNotPositive   // diffuser: n_qubits < 1
    | GroverQubitsNotPositive     // grover: n_qubits < 1
    | NegativeIterations          // grover: iterations < 0
    | SearchWiderThanOracle       // grover: n_qubits > oracle_circuit.num_qubits

  /** The outcome of a builder: a value, or the error it raised. */
  datatype Result<+T> = Ok(value: T) | Err(error: BuildError)
}
