/** The status codes that runtime managers and stores answer with. */
module StatusCodes {
  datatype Code =
    | SUCCESS | INSTANCE_HAS_BEEN_DEPLOYED | ERR_PARAM_INVALID | FUNC_AGENT_NOT_REGISTERED
    | ERR_INNER_COMMUNICATION | FILE_NOT_FOUND | BP_DATASYSTEM_ERROR
    | GRPC_CANCELLED | GRPC_DEADLINE_EXCEEDED | GRPC_UNAVAILABLE | GRPC_NOT_FOUND
    | ERR_INSTANCE_NOT_FOUND | RUNTIME_PROCESS_NOT_FOUND | RUNTIME_NOT_FOUND
    | OtherCode(n: int)

  /** The runtime is stopped, or there was none. */
  predicate StopConfirmed(code: Code) {
    code == SUCCESS || code == GRPC_NOT_FOUND || code == ERR_INSTANCE_NOT_FOUND
    || code == RUNTIME_PROCESS_NOT_FOUND || code == RUNTIME_NOT_FOUND
  }

  /** It is not known whether the call had an effect. */
  predicate ResultUnknown(code: Code) {
    code == GRPC_CANCELLED || code == GRPC_DEADLINE_EXCEEDED || code == GRPC_UNAVAILABLE
  }
}
