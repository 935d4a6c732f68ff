/** The shape of a rejected request body and the framework's stock messages for it. */
module FieldErrors {
  import opened Text

  /** Field name to messages, the shape of a ValidationError response. */
  type Errors = map<string, seq<string>>

  /** The messages of one field, or nothing when it has none. */
  function Field(name: string, messages: seq<string>): (e: Errors)
    ensures e.Keys == if messages == [] then {} else {name}
    ensures name in e ==> e[name] == messages
  {
    if messages == [] then map[] else map[name := messages]
  }

  const BlankMessage := "This field may not be blank."

  function MaxLengthMessage(maxLength: nat): string {
    "Ensure this field has no more than " + Decimal(maxLength) + " characters."
  }

  /** The message of a unique column (`<model> with this <field> already exists.`). */
  function UniqueMessage(model: string, field: string): string {
    model + " with this " + field + " already exists."
  }

  /** The message for a foreign key naming no row. */
  function MissingRowMessage(pk: nat): string {
    "Invalid pk \"" + Decimal(pk) + "\" - object does not exist."
  }

  /** A text column's own checks: not blank unless blank is allowed, then the length bound. */
  function ColumnErrors(value: string, maxLength: nat, blankAllowed: bool): (m: seq<string>)
    ensures m == [] <==> (blankAllowed || value != "") && |value| <= maxLength
  {
    if value == "" && !blankAllowed then [BlankMessage]
    else if |value| > maxLength then [MaxLengthMessage(maxLength)]
    else []
  }
}
