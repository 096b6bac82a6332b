/** The user statements of the gateway: lookup by email, lookup by id, and
    insertion. Each is a fixed SQL literal; what varies is the parameter list. */
module Users {
  import opened Values
  import opened Statements

  /** The fields `addUser` reads from its argument. The password is stored as
      given: this layer does no hashing. */
  datatype User = User(name: string, email: string, password: string)

  /** The columns of `INSERT INTO users (name, email, password)`. */
  datatype UserColumn = Name | Email | Password

  const InsertUserColumns: seq<UserColumn> := [Name, Email, Password]

  /** `SELECT * FROM users WHERE email IN ($1, $2) ;` */
  const UserWithEmailText: seq<Piece> :=
    [Sql("SELECT * FROM users WHERE email IN ("), Tuple(1, 2), Sql(") ;")]

  /** `SELECT * FROM users WHERE id = $1 ;` */
  const UserWithIdText: seq<Piece> :=
    [Sql("SELECT * FROM users"), Sql(" WHERE id = "), Slot(1), Sql(" ;")]

  /** `INSERT INTO users (name, email, password) VALUES ($1, $2, $3) RETURNING * ;` */
  const AddUserText: seq<Piece> :=
    [Sql("INSERT INTO users (name, email, password) VALUES ("), Tuple(1, 3), Sql(") RETURNING * ;")]

  /** The value that belongs in column `c`, chosen by name. */
  function UserField(u: User, c: UserColumn): Param {
    match c
    case Name => PText(u.name)
    case Email => PText(u.email)
    case Password => PText(u.password)
  }

  /** `[email.toLowerCase(), email.toUpperCase()]`, one value for each
      placeholder of the text. Both values are case variants of the input:
      the first is all lower-case, the second all upper-case, and both fold
      to the input's lower-case form. */
  function UserWithEmailParams(email: string): (r: seq<Param>)
    ensures |r| == 2 && TextAligned(UserWithEmailText, r)
    ensures forall i :: 0 <= i < |r| ==> r[i].PText? && Lower(r[i].s) == Lower(email)
    ensures Lower(r[0].s) == r[0].s && Upper(r[1].s) == r[1].s
  {
    LowerIdempotent(email);
    LowerOfUpper(email);
    UpperIdempotent(email);
    ValuesTextSlots(UserWithEmailText[0].text, 2, UserWithEmailText[2].text);
    [PText(Lower(email)), PText(Upper(email))]
  }

  /** `[id]`: the text cites exactly the one value bound, and the id
      comparison is bound to the id. */
  function UserWithIdParams(id: Param): (r: seq<Param>)
    ensures TextAligned(UserWithIdText, r)
    ensures Cites(r, SlotAfter(UserWithIdText, " WHERE id = "), id)
  {
    assert Slots(UserWithIdText) == [1] == Positions(1);
    [id]
  }

  /** `[user.name, user.email, user.password]`: one value for each
      placeholder of `VALUES ($1, $2, $3)`, position i carrying the field
      named by column i of the INSERT column list. */
  function AddUserParams(u: User): (r: seq<Param>)
    ensures |r| == |InsertUserColumns| && TextAligned(AddUserText, r)
    ensures forall i :: 0 <= i < |r| ==> r[i] == UserField(u, InsertUserColumns[i])
  {
    ValuesTextSlots(AddUserText[0].text, 3, AddUserText[2].text);
    [PText(u.name), PText(u.email), PText(u.password)]
  }

  /** The user a VALUES tuple describes, reading each position as the column
      the INSERT column list puts there; `None` when the tuple does not fit
      the column list. */
  function UserFromValues(values: seq<Param>): (r: Option<User>)
    ensures r.Some? ==> |values| == |InsertUserColumns|
    ensures r.Some? ==> forall i :: 0 <= i < |values| ==> values[i] == UserField(r.value, InsertUserColumns[i])
  {
    if |values| == 3 && values[0].PText? && values[1].PText? && values[2].PText?
    then Some(User(values[0].s, values[1].s, values[2].s))
    else None
  }

  /** Decoding the bound VALUES tuple through the INSERT column list yields
      the user that was added: every field reaches the column of its own name. */
  lemma AddUserRoundTrip(u: User)
    ensures UserFromValues(AddUserParams(u)) == Some(u)
  {
  }

  // Email matching. The store compares text exactly, so `WHERE email IN ($1, $2)`
  // selects the rows whose stored email equals one of the two bound values.

  /** Whether the lookup of `email` selects a user stored with email `stored`,
      as the statement is written: exactly when the stored email is the
      all-lower-case or the all-upper-case form of the input. */
  predicate MatchesAsWritten(stored: string, email: string)
    ensures MatchesAsWritten(stored, email) <==> stored == Lower(email) || stored == Upper(email)
  {
    PText(stored) in UserWithEmailParams(email)
  }

  /** The lookup misses a user whose stored email mixes cases, even when the
      caller types that email exactly as stored: any email holding both an
      upper-case and a lower-case letter, wherever they stand. */
  lemma MixedCaseEmailMissed(e: string, i: nat, j: nat)
    requires i < |e| && 'A' <= e[i] <= 'Z'
    requires j < |e| && 'a' <= e[j] <= 'z'
    ensures !MatchesAsWritten(e, e)
  {
    assert Lower(e)[i] == LowerChar(e[i]) != e[i];
    assert Upper(e)[j] == UpperChar(e[j]) != e[j];
  }

  /** A concrete such email. */
  lemma AnnIsNotFound()
    ensures !MatchesAsWritten("Ann@example.com", "Ann@example.com")
  {
    MixedCaseEmailMissed("Ann@example.com", 0, 1);
  }

  /** The evidently intended statement folds both sides:
      `WHERE lower(email) = $1` bound to `[email.toLowerCase()]`. */
  function FoldedUserWithEmailParams(email: string): (r: seq<Param>)
    ensures |r| == 1 && r[0].PText? && Lower(r[0].s) == r[0].s
  {
    LowerIdempotent(email);
    [PText(Lower(email))]
  }

  /** Whether the folded lookup of `email` selects a user stored with `stored`. */
  predicate MatchesFolded(stored: string, email: string) {
    PText(Lower(stored)) in FoldedUserWithEmailParams(email)
  }

  /** The folded lookup is a true case-insensitive match: it selects exactly the
      users whose email equals the input up to case, always finds a user by the
      email as stored, and finds every user the written lookup finds. */
  lemma FoldedMatchIsCaseInsensitive(stored: string, email: string)
    ensures MatchesFolded(stored, email) <==> Lower(stored) == Lower(email)
    ensures MatchesFolded(email, email)
    ensures MatchesAsWritten(stored, email) ==> MatchesFolded(stored, email)
  {
    if MatchesAsWritten(stored, email) {
      var ps := UserWithEmailParams(email);
      assert PText(stored) == ps[0] || PText(stored) == ps[1];
      assert Lower(stored) == Lower(email);
    }
  }
}
