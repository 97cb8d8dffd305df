/** The two validation middlewares of `api/server.js`: each reports the first check that fails. */
module ServerValidation {
  import opened Wrappers
  import opened Strings
  import opened EmailFormat
  import opened Domain

  /** A body field is truthy in JavaScript: present and not the empty string. */
  predicate Truthy(v: Option<string>) {
    v.Some? && v.value != ""
  }

  datatype InputError = MissingCredentials | MalformedEmail | ShortPassword

  function InputErrorMessage(e: InputError): string {
    match e
    case MissingCredentials => "Email and password are required"
    case MalformedEmail => "Please enter a valid email format"
    case ShortPassword => "Password must be at least 6 characters long"
  }

  /** `validateInput`: `None` lets the request through to its handler; every error is a 400. */
  function ValidateInput(email: Option<string>, password: Option<string>): (r: Option<InputError>)
    ensures r.None? <==>
      Truthy(email) && Truthy(password) && MatchesEmailRegex(email.value) && Utf16Length(password.value) >= 6
    ensures r == Some(MissingCredentials) <==> !Truthy(email) || !Truthy(password)
    ensures r == Some(MalformedEmail) <==>
      Truthy(email) && Truthy(password) && !MatchesEmailRegex(email.value)
    ensures r == Some(ShortPassword) <==>
      Truthy(email) && Truthy(password) && MatchesEmailRegex(email.value) && Utf16Length(password.value) < 6
  {
    if !Truthy(email) || !Truthy(password) then Some(MissingCredentials)
    else if !MatchesEmailRegex(email.value) then Some(MalformedEmail)
    else if Utf16Length(password.value) < 6 then Some(ShortPassword)
    else None
  }

  /** Three emoji make a password of six code units, which passes the length check. */
  lemma EmojiPasswordPasses()
    ensures ValidateInput(Some("a@b.co"), Some("\U{1F600}\U{1F600}\U{1F600}")).None?
  {
    var e := "a@b.co";
    assert AllPlain(e[..1]) && AllPlain(e[2..3]) && AllPlain(e[4..]) by {
      assert e[..1] == "a" && e[2..3] == "b" && e[4..] == "co";
      assert Plain('a') && Plain('b') && Plain('c') && Plain('o');
    }
    assert e[1] == '@' && e[3] == '.';
    assert SplitsAt(e, 1, 3);
    SurrogatePairsCountTwice();
  }

  /** The fields of a `POST /api/transactions` body; `amount` is a number (in cents), the rest strings. */
  datatype TxBody = TxBody(
    amount: Option<int>,
    category: Option<string>,
    kind: Option<string>,
    description: Option<string>,
    date: Option<string>)

  datatype TxError = MissingFields | NonPositiveAmount | UnknownCategory | UnknownType | BlankDescription

  function TxErrorMessage(e: TxError): string {
    match e
    case MissingFields => "Amount, category, type, description, and date are required"
    case NonPositiveAmount => "Amount must be greater than 0"
    case UnknownCategory => "Invalid category"
    case UnknownType => "Type must be either income or expense"
    case BlankDescription => "Description cannot be empty"
  }

  /** A body that passed validation, with its category and type parsed. */
  datatype ValidTx = ValidTx(amount: int, category: Category, kind: TxType, description: string, dateText: string)

  /** `!amount || !category || !type || !description || !date` is false: every field is truthy. */
  predicate AllFieldsGiven(b: TxBody) {
    b.amount.Some? && b.amount.value != 0
    && Truthy(b.category) && Truthy(b.kind) && Truthy(b.description) && Truthy(b.date)
  }

  /**
   * `validateTransaction`. It checks the category and the type separately and never
   * checks that they agree.
   */
  function ValidateTransaction(b: TxBody): (r: Result<ValidTx, TxError>)
    ensures r.Ok? <==>
      && AllFieldsGiven(b) && b.amount.value > 0
      && ParseCategory(b.category.value).Some? && ParseType(b.kind.value).Some?
      && !IsBlank(b.description.value)
    ensures r.Ok? ==>
      && r.value.amount == b.amount.value
      && CategoryLabel(r.value.category) == b.category.value
      && TypeLabel(r.value.kind) == b.kind.value
      && r.value.description == b.description.value
      && r.value.dateText == b.date.value
    ensures r == Err(MissingFields) <==> !AllFieldsGiven(b)
    ensures r == Err(NonPositiveAmount) <==> AllFieldsGiven(b) && b.amount.value < 0
    ensures r == Err(UnknownCategory) <==>
      AllFieldsGiven(b) && b.amount.value > 0 && ParseCategory(b.category.value).None?
    ensures r == Err(UnknownType) <==>
      AllFieldsGiven(b) && b.amount.value > 0 && ParseCategory(b.category.value).Some?
      && ParseType(b.kind.value).None?
    ensures r == Err(BlankDescription) <==>
      AllFieldsGiven(b) && b.amount.value > 0 && ParseCategory(b.category.value).Some?
      && ParseType(b.kind.value).Some? && IsBlank(b.description.value)
  {
    if !AllFieldsGiven(b) then Err(MissingFields)
    else if b.amount.value <= 0 then Err(NonPositiveAmount)
    else match ParseCategory(b.category.value)
      case None => Err(UnknownCategory)
      case Some(c) =>
        match ParseType(b.kind.value)
        case None => Err(UnknownType)
        case Some(t) =>
          if Trim(b.description.value) == "" then Err(BlankDescription)
          else Ok(ValidTx(b.amount.value, c, t, b.description.value, b.date.value))
  }

  /** An income transaction filed under an expense category passes validation. */
  lemma NoCategoryTypeAgreementCheck()
    ensures ValidateTransaction(TxBody(Some(100), Some("rent"), Some("income"), Some("June rent"), Some("2024-06-01")))
      == Ok(ValidTx(100, Rent, Income, "June rent", "2024-06-01"))
  {
  }
}
