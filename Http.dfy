/** The request and response shapes shared by the two serverless handlers. */
module Http {

  datatype Option<+T> = None | Some(value: T)

  /** A string-valued member of a JSON object, as Python's `dict.get` sees it:
      the key may be missing, present with `null`, or present with a string. */
  datatype Field = Absent | Null | Text(text: string)

  /** Python truthiness of a string-valued field: `None` and `''` are falsy. */
  predicate Truthy(f: Field)
  {
    f.Text? && f.text != ""
  }

  /** `event.get('httpMethod', 'GET')`: a missing method reads as GET,
      an explicit null stays null (and so matches no method name). */
  function EffectiveMethod(httpMethod: Field): Field
  {
    if httpMethod.Absent? then Text("GET") else httpMethod
  }

  /** A handler's reply: the status code, the `Access-Control-Allow-Methods`
      header when the reply carries one, and the body as a payload value. */
  datatype Response<+P> = Response(status: int, allowMethods: Option<string>, body: P)
}
