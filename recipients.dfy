/** The recipient of a mailing (the `Recipient` model) and its display
    text (`Recipient.__str__`). */
module Recipients {
  import opened Common

  /** A recipient row. `email` is unique; the name parts and the comment
      are nullable text columns; `owner` is the nullable primary key of the
      account that created it. */
  datatype Recipient = Recipient(
    email: string,
    firstName: Option<string>,
    lastName: Option<string>,
    middleName: Option<string>,
    comment: Option<string>,
    owner: Option<Key>)

  /** A list of recipient rows as a query returns it: `email` is unique,
      so no address occurs twice. The order itself is whatever the
      database's collation makes of `ordering = ["email", "comment"]`. */
  ghost predicate UniqueEmails(rs: seq<Recipient>) {
    forall i, j :: 0 <= i < j < |rs| ==> rs[i].email != rs[j].email
  }

  /** The five `return` statements of `__str__`, named after what they
      print. */
  datatype Layout =
    | NameAndLast     // "first last: email"
    | NameAndMiddle   // "first middle: email"
    | NameOnly        // "first: email"
    | FullName        // "first middle last: email"
    | EmailOnly       // "email"

  /** Which `return` the nested conditionals of `__str__` reach. The
      "first middle: email" return is guarded by a falsy middle name being
      excluded twice over, so it is never reached. */
  function LayoutOf(r: Recipient): (l: Layout)
    ensures l != NameAndMiddle
    ensures l == EmailOnly <==> !Truthy(r.firstName)
    ensures l == NameAndLast <==> Truthy(r.firstName) && !Truthy(r.middleName)
    ensures l == NameOnly <==> Truthy(r.firstName) && Truthy(r.middleName) && Truthy(r.lastName)
    ensures l == FullName <==> Truthy(r.firstName) && Truthy(r.middleName) && !Truthy(r.lastName)
  {
    if Truthy(r.firstName) then
      if !Truthy(r.middleName) || Truthy(r.lastName) then
        if !Truthy(r.middleName) then NameAndLast
        else if !Truthy(r.lastName) then NameAndMiddle
        else NameOnly
      else FullName
    else EmailOnly
  }

  /** `Recipient.__str__`: the text printed by the reached `return`. */
  function Display(r: Recipient): (s: string)
    ensures !Truthy(r.firstName) ==> s == r.email
    ensures Truthy(r.firstName) && !Truthy(r.middleName) ==>
      s == r.firstName.value + " " + Formatted(r.lastName) + ": " + r.email
    ensures Truthy(r.firstName) && Truthy(r.middleName) && Truthy(r.lastName) ==>
      s == r.firstName.value + ": " + r.email
    ensures Truthy(r.firstName) && Truthy(r.middleName) && !Truthy(r.lastName) ==>
      s == r.firstName.value + " " + r.middleName.value + " " + Formatted(r.lastName) + ": " + r.email
  {
    var first, middle, last := Formatted(r.firstName), Formatted(r.middleName), Formatted(r.lastName);
    match LayoutOf(r)
    case NameAndLast => first + " " + last + ": " + r.email
    case NameAndMiddle => first + " " + middle + ": " + r.email
    case NameOnly => first + ": " + r.email
    case FullName => first + " " + middle + " " + last + ": " + r.email
    case EmailOnly => r.email
  }

  /** Whatever the name parts, the display text ends with the address, and
      it is longer than the address exactly when there is a first name. */
  lemma DisplayEndsWithEmail(r: Recipient)
    ensures |r.email| <= |Display(r)|
    ensures Display(r)[|Display(r)| - |r.email|..] == r.email
    ensures |Display(r)| > |r.email| <==> Truthy(r.firstName)
  {
    var s := Display(r);
    if Truthy(r.firstName) {
      var prefix := s[..|s| - |r.email|];
      assert s == prefix + r.email;
    }
  }

  /** Next to a first name, a null last name prints as the word "None"
      before the colon, with or without a middle name, since the f-string
      formats Python's `None`. */
  lemma MissingLastNamePrintsNone(r: Recipient)
    requires Truthy(r.firstName) && r.lastName.None?
    ensures Display(r) == r.firstName.value + (if Truthy(r.middleName) then " " + r.middleName.value else "")
                          + " None: " + r.email
  {
  }
}
