/** The resource-provider RPC surface (package `lumirpc`): the request and response messages
    exchanged between the orchestrator and a provider plugin, and the client the orchestrator
    holds. */
module LumiRpc {
  import opened Wrappers
  import opened Resource

  /** The wire form of a property bag (a protobuf Struct). */
  type Struct = PropertyMap

  /** A failure as it travels in a CheckResponse. */
  datatype WireFailure = WireFailure(property: string, reason: string)

  datatype CheckRequest = CheckRequest(resourceType: string, properties: Struct, unknowns: map<string, bool>)
  datatype CheckResponse = CheckResponse(failures: seq<WireFailure>)

  datatype NameRequest = NameRequest(resourceType: string, properties: Struct, unknowns: map<string, bool>)
  datatype NameResponse = NameResponse(name: string)

  datatype CreateRequest = CreateRequest(resourceType: string, properties: Struct)
  datatype CreateResponse = CreateResponse(id: string)

  datatype GetRequest = GetRequest(id: string, resourceType: string)
  datatype GetResponse = GetResponse(properties: Struct)

  datatype InspectChangeRequest = InspectChangeRequest(
    id: string, resourceType: string, olds: Struct, news: Struct, unknowns: map<string, bool>)
  datatype InspectChangeResponse = InspectChangeResponse(replaceKeys: seq<string>, changes: Struct)

  datatype UpdateRequest = UpdateRequest(id: string, resourceType: string, olds: Struct, news: Struct)

  datatype DeleteRequest = DeleteRequest(id: string, resourceType: string)

  /** The empty message Update and Delete answer with. */
  datatype Empty = Empty

  /** ResourceProviderClient: one remote call per lifecycle operation, each answering with a
      response or a transport error. What the far side does is left open. */
  datatype Client = Client(
    check: CheckRequest -> Result<CheckResponse, Error>,
    name: NameRequest -> Result<NameResponse, Error>,
    create: CreateRequest -> Result<CreateResponse, Error>,
    get: GetRequest -> Result<GetResponse, Error>,
    inspectChange: InspectChangeRequest -> Result<InspectChangeResponse, Error>,
    update: UpdateRequest -> Result<Empty, Error>,
    delete: DeleteRequest -> Result<Empty, Error>)

  /** A Go map lookup of a boolean flag: a missing key reads as false. */
  function Flag(m: map<string, bool>, key: string): bool
  {
    key in m && m[key]
  }
}
