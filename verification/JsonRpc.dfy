/** Request ids (section 4 of the JSON-RPC 2.0 specification). */
module JsonRpc {
  datatype RequestId = StringId(s: string) | IntegerId(n: int)
}
