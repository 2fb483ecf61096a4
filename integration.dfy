/** The provider-independent shapes the processors return. */
module Integration {
  import opened Json

  /** An `IntegrationItem`. Each field holds the decoded value the processor
      passed for it; `JNull` is an omitted (None) field. */
  datatype Item = Item(
    id: Json,
    itemType: Json,
    name: Json,
    creationTime: Json,
    lastModifiedTime: Json,
    parentId: Json)

  /** A provider listing response: its status code and decoded body. */
  datatype Response = Response(status: int, body: Json)
}
