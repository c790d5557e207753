/**
 * The shape of the field list the language model returns for a prompt: a
 * list of `{field_key, field_value, intent}` objects, where a value or an
 * intent is either one string or a list of strings, and any member may be
 * missing.
 */
module LlmFields {
  import opened Wrappers

  datatype FieldValue = Scalar(text: string) | List(items: seq<string>)

  datatype LlmField = LlmField(key: Option<string>, value: Option<FieldValue>, intent: Option<FieldValue>)

  /** `if ( !is_array( $v ) ) { $v = [ $v ]; }` */
  function AsList(v: FieldValue): (r: seq<string>)
    ensures v.Scalar? ==> r == [v.text]
    ensures v.List? ==> r == v.items
  {
    match v
    case Scalar(s) => [s]
    case List(items) => items
  }
}
