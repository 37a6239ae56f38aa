/**
 * Jackson's `ObjectMapper`, as the gateway uses it. Parsing and serialising are supplied
 * functions: `None` stands for a `JsonProcessingException`.
 */
module Jackson {
  import opened JavaLang
  import opened Json
  import opened ErrorResponses

  datatype ObjectMapper = ObjectMapper(
    readTree: string -> Option<Json>,             // readTree(text)
    writeTree: Json -> Option<string>,            // writeValueAsString(node)
    writeEnvelope: ErrorResponse -> Option<string>) // writeValueAsBytes(errorResponse), decoded

  /**
   * A mapper that serialises every tree to non-empty text parsing back to that tree; the
   * properties that speak of a body read back after an edit assume it.
   */
  ghost predicate Faithful(mapper: ObjectMapper)
  {
    forall t :: mapper.writeTree(t).Some? &&
      mapper.writeTree(t).value != [] && mapper.readTree(mapper.writeTree(t).value) == Some(t)
  }
}
