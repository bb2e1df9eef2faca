/** The responses the two backends send: a status code and a body. */
module Http {
  import opened Store

  /** Response bodies, by the shape of the JSON (or text) sent. */
  datatype Body =
    | RowList(rows: seq<Row>)                   // a JSON array of POI objects
    | RowObject(row: Row)                       // a single POI object
    | Flag(success: bool)                       // `{success}`
    | FlagMessage(success: bool, message: string) // `{success, message}`
    | FlagError(success: bool, error: string)   // `{success, error}`
    | Detail(detail: string)                    // FastAPI's `{detail}` for an HTTPException
    | ValidationErrors                          // FastAPI's 422 body listing the failed fields
    | PlainText(text: string)                   // a text/plain body
    | NoContent                                 // an empty body

  datatype Response = Response(status: int, body: Body)
}
