/** Values shared by the mailing models: optional values, the way Python
    tests and formats an optional text field, and the account that owns a
    sending. */
module Common {

  datatype Option<T> = None | Some(value: T)

  /** Python truthiness of a nullable text column: `None` and `""` are false. */
  predicate Truthy(field: Option<string>) {
    field.Some? && field.value != ""
  }

  /** What an f-string inserts for a nullable text column: `None` prints as
      the four letters "None", any text prints as itself. */
  function Formatted(field: Option<string>): string
  {
    match field
    case None => "None"
    case Some(text) => text
  }

  /** A primary key issued by the database's auto-increment column, which
      starts at 1, so a stored key is never falsy. */
  type Key = k: nat | k > 0 witness 1

  /** The account a sending belongs to (the `company` foreign key): its
      primary key and the address used as Reply-To. */
  datatype Company = Company(id: Key, email: string)

  /** The account passed to `save` as `user=`: only the company it
      resolves to matters here. */
  datatype User = User(email: string, company: Company)
}
