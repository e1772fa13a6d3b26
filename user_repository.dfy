/** The user table of infrastructure/usermanagement/sqlite_repository.go,
    over an abstract table: the rows in insertion (rowid) order and the
    AUTOINCREMENT counter.  SQL execution, bcrypt and the clock are not
    modelled: a hash is passed in (None when hashing fails), the comparison
    of a stored hash with a password is a predicate parameter, the time is
    a parameter, and every query takes `answers`, whether the database
    answers that query. */
module UserRepository {
  import opened Outcomes
  import opened UserDomain

  datatype RepoError = HashFailed | QueryFailed | UsernameTaken | NoFieldsToUpdate

  // ---------------------------------------------------------------------
  // The UPDATE statement
  // ---------------------------------------------------------------------

  /** A value bound to a `?` placeholder. */
  datatype Arg = Text(s: string) | Flag(b: bool) | Instant(t: int) | Key(id: int)

  datatype Column = UsernameColumn | PasswordColumn | IsActiveColumn | UpdatedAtColumn

  function ColumnName(c: Column): string {
    match c
    case UsernameColumn => "username"
    case PasswordColumn => "password"
    case IsActiveColumn => "is_active"
    case UpdatedAtColumn => "updated_at"
  }

  function SetPart(c: Column): string {
    ColumnName(c) + " = ?"
  }

  /** The columns an update request names, in the order the builder
      visits them: a non-empty username, a non-empty password, a present
      `isActive`. */
  function RequestedColumns(req: UpdateUserRequest): (cols: seq<Column>)
    ensures UsernameColumn in cols <==> req.username != ""
    ensures PasswordColumn in cols <==> req.password != ""
    ensures IsActiveColumn in cols <==> req.isActive.Some?
    ensures UpdatedAtColumn !in cols
  {
    (if req.username != "" then [UsernameColumn] else [])
    + (if req.password != "" then [PasswordColumn] else [])
    + (if req.isActive.Some? then [IsActiveColumn] else [])
  }

  /** The value a column is set to. */
  function ValueOf(c: Column, req: UpdateUserRequest, hash: string, now: int): (a: Arg)
    ensures !a.Key?
  {
    match c
    case UsernameColumn => Text(req.username)
    case PasswordColumn => Text(hash)
    case IsActiveColumn => Flag(if req.isActive.Some? then req.isActive.value else false)
    case UpdatedAtColumn => Instant(now)
  }

  /** Part i sets column i to argument i. */
  ghost predicate Aligned(parts: seq<string>, args: seq<Arg>, cols: seq<Column>, req: UpdateUserRequest, hash: string, now: int) {
    && |parts| == |cols| && |args| == |cols|
    && forall i | 0 <= i < |cols| :: parts[i] == SetPart(cols[i]) && args[i] == ValueOf(cols[i], req, hash, now)
  }

  lemma AlignedSnoc(parts: seq<string>, args: seq<Arg>, cols: seq<Column>, c: Column, req: UpdateUserRequest, hash: string, now: int)
    requires Aligned(parts, args, cols, req, hash, now)
    ensures Aligned(parts + [SetPart(c)], args + [ValueOf(c, req, hash, now)], cols + [c], req, hash, now)
  {
  }

  /** The set parts and arguments of the columns a request names, in the
      builder's order; a password whose hashing fails stops the build. */
  method RequestedClauses(req: UpdateUserRequest, hashed: Option<string>, now: int)
    returns (r: Result<(seq<string>, seq<Arg>), RepoError>)
    ensures r.Err? <==> req.password != "" && hashed.None?
    ensures r.Err? ==> r.error == HashFailed
    ensures r.Ok? ==> Aligned(r.value.0, r.value.1, RequestedColumns(req), req, if hashed.Some? then hashed.value else "", now)
  {
    ghost var hash := if hashed.Some? then hashed.value else "";
    ghost var named := if req.username != "" then [UsernameColumn] else [];
    ghost var hashedToo := named + (if req.password != "" then [PasswordColumn] else []);
    ghost var cols: seq<Column> := [];
    var setParts: seq<string> := [];
    var args: seq<Arg> := [];
    if req.username != "" {
      AlignedSnoc(setParts, args, cols, UsernameColumn, req, hash, now);
      setParts := setParts + [SetPart(UsernameColumn)];
      args := args + [Text(req.username)];
      cols := cols + [UsernameColumn];
    }
    assert cols == named;
    if req.password != "" {
      if hashed.None? {
        return Err(HashFailed);
      }
      AlignedSnoc(setParts, args, cols, PasswordColumn, req, hash, now);
      setParts := setParts + [SetPart(PasswordColumn)];
      args := args + [Text(hashed.value)];
      cols := cols + [PasswordColumn];
    }
    assert cols == hashedToo;
    if req.isActive.Some? {
      AlignedSnoc(setParts, args, cols, IsActiveColumn, req, hash, now);
      setParts := setParts + [SetPart(IsActiveColumn)];
      args := args + [Flag(req.isActive.value)];
      cols := cols + [IsActiveColumn];
    }
    assert cols == RequestedColumns(req);
    r := Ok((setParts, args));
  }

  /** `Update`'s set parts and arguments: one part per requested column,
      then `updated_at = ?`; one argument per part, in the same order, then
      the id.  A password whose hashing fails stops the build; a request
      naming no column is refused. */
  method SetClauses(id: int, req: UpdateUserRequest, hashed: Option<string>, now: int)
    returns (r: Result<(seq<string>, seq<Arg>), RepoError>)
    ensures req.password != "" && hashed.None? ==> r == Err(HashFailed)
    ensures (req.password == "" || hashed.Some?) && RequestedColumns(req) == [] ==> r == Err(NoFieldsToUpdate)
    ensures r.Ok? <==> (req.password == "" || hashed.Some?) && RequestedColumns(req) != []
    ensures r.Ok? ==>
      var cols := RequestedColumns(req) + [UpdatedAtColumn];
      var hash := if hashed.Some? then hashed.value else "";
      var (parts, args) := r.value;
      && |args| == |parts| + 1
      && Aligned(parts, args[..|args| - 1], cols, req, hash, now)
      && args[|args| - 1] == Key(id)
  {
    ghost var hash := if hashed.Some? then hashed.value else "";
    var requested := RequestedClauses(req, hashed, now);
    if requested.Err? {
      return Err(requested.error);
    }
    var (setParts, args) := requested.value;
    if |setParts| == 0 {
      return Err(NoFieldsToUpdate);
    }
    AlignedSnoc(setParts, args, RequestedColumns(req), UpdatedAtColumn, req, hash, now);
    setParts := setParts + [SetPart(UpdatedAtColumn)];
    args := args + [Instant(now)];
    assert (args + [Key(id)])[..|args|] == args;
    args := args + [Key(id)];
    r := Ok((setParts, args));
  }

  /** The parts joined by ", ". */
  function Join(parts: seq<string>): string
    requires parts != []
    decreases |parts|
  {
    if |parts| == 1 then parts[0] else Join(parts[..|parts| - 1]) + ", " + parts[|parts| - 1]
  }

  /** ", " followed by each part in turn. */
  function Trailer(parts: seq<string>): string
    decreases |parts|
  {
    if parts == [] then "" else Trailer(parts[..|parts| - 1]) + ", " + parts[|parts| - 1]
  }

  /** The statement the evident intent describes: every set part in the SET
      clause, then the WHERE clause. */
  function UpdateQuery(parts: seq<string>): string
    requires parts != []
  {
    "UPDATE users SET " + Join(parts) + " WHERE id = ?"
  }

  /** The statement as the source builds it: the first part, the WHERE
      clause, and then every later part appended after the WHERE. */
  function AsWrittenQuery(parts: seq<string>): string
    requires parts != []
  {
    "UPDATE users SET " + parts[0] + " WHERE id = ?" + Trailer(parts[1..])
  }

  /** The source's loop: `query = fmt.Sprintf("%s, %s", query, setParts[i])`
      after the WHERE clause is already in place. */
  method QueryAsWritten(parts: seq<string>) returns (query: string)
    requires parts != []
    ensures query == AsWrittenQuery(parts)
  {
    query := "UPDATE users SET " + parts[0] + " WHERE id = ?";
    for i := 1 to |parts|
      invariant query == "UPDATE users SET " + parts[0] + " WHERE id = ?" + Trailer(parts[1..i])
    {
      assert parts[1..i + 1][..i - 1] == parts[1..i];
      query := query + ", " + parts[i];
    }
    assert parts[1..|parts|] == parts[1..];
  }

  /** The corrected builder: the same loop over the parts, closing the
      statement with the WHERE clause only after the last part. */
  method Query(parts: seq<string>) returns (query: string)
    requires parts != []
    ensures query == UpdateQuery(parts)
  {
    var clause := parts[0];
    for i := 1 to |parts|
      invariant clause == Join(parts[..i])
    {
      assert parts[..i + 1][..i] == parts[..i];
      clause := clause + ", " + parts[i];
    }
    assert parts[..|parts|] == parts;
    query := "UPDATE users SET " + clause + " WHERE id = ?";
  }

  /** The number of `?` placeholders in a statement. */
  function Marks(s: string): nat
    decreases |s|
  {
    if s == [] then 0 else Marks(s[..|s| - 1]) + (if s[|s| - 1] == '?' then 1 else 0)
  }

  lemma {:induction false} MarksAppend(a: string, b: string)
    ensures Marks(a + b) == Marks(a) + Marks(b)
    decreases |b|
  {
    if b != [] {
      var b' := b[..|b| - 1];
      assert (a + b)[..|a + b| - 1] == a + b';
      MarksAppend(a, b');
    } else {
      assert a + b == a;
    }
  }

  lemma {:induction false} MarksJoin(parts: seq<string>)
    requires parts != []
    requires forall p | p in parts :: Marks(p) == 1
    ensures Marks(Join(parts)) == |parts|
    decreases |parts|
  {
    if |parts| > 1 {
      var init := parts[..|parts| - 1];
      assert forall p | p in init :: p in parts;
      MarksJoin(init);
      MarksAppend(Join(init), ", ");
      MarksAppend(Join(init) + ", ", parts[|parts| - 1]);
    }
  }

  /** Joining is the first part followed by the trailer of the others. */
  lemma {:induction false} JoinIsHeadAndTrailer(parts: seq<string>)
    requires parts != []
    ensures Join(parts) == parts[0] + Trailer(parts[1..])
    decreases |parts|
  {
    if |parts| > 1 {
      var init := parts[..|parts| - 1];
      JoinIsHeadAndTrailer(init);
      assert init[1..] == parts[1..][..|parts[1..]| - 1];
    } else {
      assert parts[1..] == [];
    }
  }

  /** A text without `?` has no placeholder. */
  lemma {:induction false} NoMarks(s: string)
    requires '?' !in s
    ensures Marks(s) == 0
    decreases |s|
  {
    if s != [] {
      assert forall x | x in s[..|s| - 1] :: x in s;
      NoMarks(s[..|s| - 1]);
    }
  }

  /** A text without `?` followed by one `?` has one placeholder. */
  lemma OneMark(s: string)
    requires '?' !in s
    ensures Marks(s + "?") == 1
  {
    NoMarks(s);
    assert (s + "?")[..|s|] == s;
  }

  lemma WhereMarks()
    ensures Marks(" WHERE id = ?") == 1
    ensures Marks("UPDATE users SET ") == 0
  {
    assert " WHERE id = ?" == " WHERE id = " + "?";
    OneMark(" WHERE id = ");
    NoMarks("UPDATE users SET ");
  }

  /** In the corrected statement the SET clause holds one placeholder per
      set part, in the parts' order, and the WHERE clause holds the last:
      with SetClauses' arguments, every column is bound to its own value and
      the id to the WHERE clause. */
  lemma QueryBindsIdLast(parts: seq<string>)
    requires parts != []
    requires forall p | p in parts :: Marks(p) == 1
    ensures UpdateQuery(parts) == ("UPDATE users SET " + Join(parts)) + " WHERE id = ?"
    ensures Marks("UPDATE users SET " + Join(parts)) == |parts|
    ensures Marks(UpdateQuery(parts)) == |parts| + 1
  {
    WhereMarks();
    MarksJoin(parts);
    MarksAppend("UPDATE users SET ", Join(parts));
    MarksAppend("UPDATE users SET " + Join(parts), " WHERE id = ?");
  }

  lemma SetPartMarks(c: Column)
    ensures Marks(SetPart(c)) == 1
  {
    assert SetPart(c) == (ColumnName(c) + " = ") + "?";
    OneMark(ColumnName(c) + " = ");
  }

  /** A comma somewhere after the WHERE keyword.  In these statements the
      WHERE expression is `id = ?`, which holds no comma, and SQLite's UPDATE
      grammar lets nothing but RETURNING, ORDER BY or LIMIT follow it, so a
      statement of this shape is a syntax error: `Exec` fails before any row
      changes. */
  predicate CommaAfterWhere(q: string) {
    exists i, j | 0 <= i && i + 7 <= j < |q| :: WhereAt(q, i) && q[j] == ','
  }

  /** The WHERE keyword, with its surrounding blanks, starts at position i. */
  predicate WhereAt(q: string, i: int)
    requires 0 <= i && i + 7 <= |q|
  {
    q[i..i + 7] == " WHERE "
  }

  /** With two or more set parts -- every successful build has, since
      `updated_at = ?` is always appended -- the statement as written
      continues the SET list after the WHERE clause, which makes it a syntax
      error; its first two placeholders are the SET one and the WHERE one,
      and it differs from the intended statement. */
  lemma AsWrittenMalformed(parts: seq<string>)
    requires |parts| >= 2
    requires forall p | p in parts :: Marks(p) == 1
    ensures CommaAfterWhere(AsWrittenQuery(parts))
    ensures Marks("UPDATE users SET " + parts[0] + " WHERE id = ?") == 2
    ensures AsWrittenQuery(parts) != UpdateQuery(parts)
  {
    WhereMarks();
    assert parts[0] in parts;
    MarksAppend("UPDATE users SET ", parts[0]);
    MarksAppend("UPDATE users SET " + parts[0], " WHERE id = ?");
    JoinIsHeadAndTrailer(parts);
    var tail := parts[1..];
    var init := tail[..|tail| - 1];
    assert Trailer(tail) == Trailer(init) + ", " + tail[|tail| - 1];
    var k := |"UPDATE users SET " + parts[0]|;
    var t := Trailer(tail);
    assert |t| >= 2;
    assert t[0] == ',' by {
      TrailerStartsWithComma(tail);
    }
    var q := AsWrittenQuery(parts);
    assert q == ("UPDATE users SET " + parts[0]) + " WHERE id = ?" + t;
    assert WhereAt(q, k) && q[k + 13] == ',';
    assert q[k] == ' ';
    assert UpdateQuery(parts) == "UPDATE users SET " + parts[0] + t + " WHERE id = ?";
    assert UpdateQuery(parts)[k] == ',';
  }

  lemma {:induction false} TrailerStartsWithComma(parts: seq<string>)
    requires parts != []
    ensures |Trailer(parts)| >= 2 && Trailer(parts)[0] == ','
    decreases |parts|
  {
    var init := parts[..|parts| - 1];
    if init != [] {
      TrailerStartsWithComma(init);
    }
  }

  /** A request that changes only the username: the statement as written
      and the statement intended. */
  lemma AsWrittenExample()
    ensures AsWrittenQuery(["username = ?", "updated_at = ?"])
         == "UPDATE users SET " + "username = ?" + " WHERE id = ?" + ", " + "updated_at = ?"
    ensures UpdateQuery(["username = ?", "updated_at = ?"])
         == "UPDATE users SET " + "username = ?" + ", " + "updated_at = ?" + " WHERE id = ?"
  {
    var parts := ["username = ?", "updated_at = ?"];
    var tail := ["updated_at = ?"];
    assert parts[1..] == tail;
    assert tail[..0] == [];
    assert Trailer(tail) == "" + ", " + "updated_at = ?";
    assert parts[..1] == ["username = ?"];
    assert Join(parts) == "username = ?" + ", " + "updated_at = ?";
  }

  // ---------------------------------------------------------------------
  // Rows
  // ---------------------------------------------------------------------

  /** The last row that matches, if any: the one lookup both `SELECT ...
      WHERE id = ?` and `SELECT ... WHERE username = ?` make, each column
      being unique. */
  function Find(rows: seq<User>, matches: User -> bool): (r: Option<User>)
    ensures r.None? <==> forall i | 0 <= i < |rows| :: !matches(rows[i])
    ensures r.Some? ==> r.value in rows && matches(r.value)
    decreases |rows|
  {
    if rows == [] then None
    else if matches(rows[|rows| - 1]) then Some(rows[|rows| - 1])
    else Find(rows[..|rows| - 1], matches)
  }

  /** The row with the given id, if any. */
  function FindID(rows: seq<User>, id: int): (r: Option<User>)
    ensures r.None? <==> forall i | 0 <= i < |rows| :: rows[i].id != id
    ensures r.Some? ==> r.value in rows && r.value.id == id
  {
    Find(rows, (u: User) => u.id == id)
  }

  /** The row with the given username, if any. */
  function FindUsername(rows: seq<User>, username: string): (r: Option<User>)
    ensures r.None? <==> forall i | 0 <= i < |rows| :: rows[i].username != username
    ensures r.Some? ==> r.value in rows && r.value.username == username
  {
    Find(rows, (u: User) => u.username == username)
  }

  /** Creation time, newest first. */
  predicate NewestFirst(us: seq<User>) {
    forall i, j | 0 <= i < j < |us| :: us[i].createdAt >= us[j].createdAt
  }

  /** Inserts u into a newest-first sequence. */
  function InsertByCreated(u: User, us: seq<User>): (r: seq<User>)
    requires NewestFirst(us)
    ensures NewestFirst(r)
    ensures forall x | x in r :: x in us || x == u
    ensures multiset(r) == multiset(us) + multiset{u}
    decreases |us|
  {
    if us == [] || u.createdAt >= us[0].createdAt then [u] + us
    else
      var rest := InsertByCreated(u, us[1..]);
      InsertBehind(u, us, rest);
      [us[0]] + rest
  }

  /** Keeping the newest row in front of a newest-first insertion into
      the others. */
  lemma InsertBehind(u: User, us: seq<User>, rest: seq<User>)
    requires NewestFirst(us) && us != [] && u.createdAt < us[0].createdAt
    requires NewestFirst(rest)
    requires forall x | x in rest :: x in us[1..] || x == u
    requires multiset(rest) == multiset(us[1..]) + multiset{u}
    ensures NewestFirst([us[0]] + rest)
    ensures forall x | x in [us[0]] + rest :: x in us || x == u
    ensures multiset([us[0]] + rest) == multiset(us) + multiset{u}
  {
    assert us == [us[0]] + us[1..];
    assert multiset([us[0]] + rest) == multiset{us[0]} + multiset(rest);
    assert multiset(us) == multiset{us[0]} + multiset(us[1..]);
    assert forall x | x in us[1..] :: x.createdAt <= us[0].createdAt;
    assert forall k | 0 <= k < |rest| :: rest[k].createdAt <= us[0].createdAt by {
      forall k | 0 <= k < |rest|
        ensures rest[k].createdAt <= us[0].createdAt
      {
        assert rest[k] in rest;
      }
    }
  }

  /** `ORDER BY created_at DESC`; rows with equal times come in reverse
      table order, since each row is inserted in front of the earlier rows
      that share its time. */
  function SortNewestFirst(us: seq<User>): (r: seq<User>)
    ensures NewestFirst(r)
    ensures multiset(r) == multiset(us)
    decreases |us|
  {
    if us == [] then []
    else
      assert us == us[..|us| - 1] + [us[|us| - 1]];
      InsertByCreated(us[|us| - 1], SortNewestFirst(us[..|us| - 1]))
  }

  /** `WHERE is_active = TRUE`, in table order. */
  function ActiveRows(us: seq<User>): (r: seq<User>)
    ensures forall u :: u in r <==> u in us && u.isActive
    ensures |r| <= |us|
    decreases |us|
  {
    if us == [] then []
    else
      var last := us[|us| - 1];
      ActiveRows(us[..|us| - 1]) + (if last.isActive then [last] else [])
  }

  /** The rows other than the one with the given id. */
  function WithoutID(us: seq<User>, id: int): (r: seq<User>)
    ensures forall u :: u in r <==> u in us && u.id != id
    ensures |r| <= |us|
    decreases |us|
  {
    if us == [] then []
    else
      var last := us[|us| - 1];
      WithoutID(us[..|us| - 1], id) + (if last.id != id then [last] else [])
  }

  /** The row after an update statement set the requested columns. */
  function Updated(u: User, req: UpdateUserRequest, hash: string, now: int): (v: User)
    ensures v.id == u.id && v.createdAt == u.createdAt && v.updatedAt == now
    ensures v.username == (if req.username != "" then req.username else u.username)
    ensures v.password == (if req.password != "" then hash else u.password)
    ensures v.isActive == (if req.isActive.Some? then req.isActive.value else u.isActive)
  {
    u.(username := if req.username != "" then req.username else u.username,
       password := if req.password != "" then hash else u.password,
       isActive := if req.isActive.Some? then req.isActive.value else u.isActive,
       updatedAt := now)
  }

  /** The rows after an update statement: the row with the id, if any,
      updated, every other row as it was. */
  function Rewritten(rows: seq<User>, id: int, req: UpdateUserRequest, hash: string, now: int): (r: seq<User>)
    ensures |r| == |rows|
    ensures forall i | 0 <= i < |rows| ::
      r[i] == if rows[i].id == id then Updated(rows[i], req, hash, now) else rows[i]
  {
    seq(|rows|, i requires 0 <= i < |rows| =>
      if rows[i].id == id then Updated(rows[i], req, hash, now) else rows[i])
  }

  /** A username change that lands on another row's username violates the
      UNIQUE constraint; with no row to update there is nothing to violate. */
  predicate Clashes(rows: seq<User>, id: int, username: string) {
    FindID(rows, id).Some? && TakenByOther(rows, id, username)
  }

  /** An update that does not clash keeps ids increasing and usernames
      unique. */
  lemma RewriteKeepsWellFormed(rows: seq<User>, lastID: int, id: int, req: UpdateUserRequest, hash: string, now: int)
    requires WellFormedRows(rows, lastID)
    requires !(req.username != "" && Clashes(rows, id, req.username))
    ensures WellFormedRows(Rewritten(rows, id, req, hash, now), lastID)
  {
    var r := Rewritten(rows, id, req, hash, now);
    forall i, j | 0 <= i < j < |r|
      ensures r[i].username != r[j].username
    {
      assert rows[i].id != rows[j].id;
      if req.username != "" && (rows[i].id == id || rows[j].id == id) {
        assert FindID(rows, id).Some?;
      }
    }
  }

  /** Deleting a row keeps ids increasing and usernames unique. */
  lemma {:induction false} WithoutKeepsWellFormed(rows: seq<User>, lastID: int, id: int)
    requires WellFormedRows(rows, lastID)
    ensures WellFormedRows(WithoutID(rows, id), lastID)
    decreases |rows|
  {
    if rows != [] {
      var init := rows[..|rows| - 1];
      var last := rows[|rows| - 1];
      assert WellFormedRows(init, lastID);
      WithoutKeepsWellFormed(init, lastID, id);
      var kept := WithoutID(init, id);
      if last.id != id {
        EarlierRows(rows, lastID, kept);
        AppendKeepsWellFormed(kept, last, lastID);
      }
    }
  }

  /** Rows taken from all but the last row come before it. */
  lemma EarlierRows(rows: seq<User>, lastID: int, kept: seq<User>)
    requires WellFormedRows(rows, lastID) && rows != []
    requires forall x | x in kept :: x in rows[..|rows| - 1]
    ensures forall x | x in kept :: x.id < rows[|rows| - 1].id && x.username != rows[|rows| - 1].username
  {
    forall x | x in kept
      ensures x.id < rows[|rows| - 1].id && x.username != rows[|rows| - 1].username
    {
      var k :| 0 <= k < |rows| - 1 && rows[..|rows| - 1][k] == x;
      assert rows[k] == x;
    }
  }

  /** A row newer than, and named unlike, every row of a well-formed table
      can follow them. */
  lemma AppendKeepsWellFormed(rows: seq<User>, last: User, lastID: int)
    requires WellFormedRows(rows, lastID) && 0 < last.id <= lastID
    requires forall x | x in rows :: x.id < last.id && x.username != last.username
    ensures WellFormedRows(rows + [last], lastID)
  {
    var r := rows + [last];
    forall i, j | 0 <= i < j < |r|
      ensures r[i].id < r[j].id && r[i].username != r[j].username
    {
      assert r[i] == rows[i];
      if j == |r| - 1 {
        assert rows[i] in rows;
      } else {
        assert r[j] == rows[j];
      }
    }
  }

  /** Ids, increasing in table order, identify rows; usernames are
      unique, as the UNIQUE constraint demands. */
  ghost predicate WellFormedRows(rows: seq<User>, lastID: int) {
    && 0 <= lastID
    && (forall i | 0 <= i < |rows| :: 0 < rows[i].id <= lastID)
    && (forall i, j | 0 <= i < j < |rows| :: rows[i].id < rows[j].id)
    && (forall i, j | 0 <= i < j < |rows| :: rows[i].username != rows[j].username)
  }

  /** A username held by a row other than the one with the given id. */
  predicate TakenByOther(rows: seq<User>, id: int, username: string) {
    exists i | 0 <= i < |rows| :: rows[i].id != id && rows[i].username == username
  }

  class UserTable {
    var rows: seq<User>
    var lastID: int

    ghost predicate Valid()
      reads this
    {
      WellFormedRows(rows, lastID)
    }

    /** An empty table, freshly migrated. */
    constructor ()
      ensures Valid() && rows == [] && lastID == 0
    {
      rows := [];
      lastID := 0;
    }

    /** `GetByID`: the row, `Ok(None)` when there is none (the source's nil,
        nil), an error when the query fails. */
    function GetByID(id: int, answers: bool): (r: Result<Option<User>, RepoError>)
      reads this
      ensures !answers <==> r == Err(QueryFailed)
      ensures r == Ok(None) <==> answers && forall i | 0 <= i < |rows| :: rows[i].id != id
      ensures r.Ok? && r.value.Some? ==> r.value.value in rows && r.value.value.id == id
    {
      if !answers then Err(QueryFailed) else Ok(FindID(rows, id))
    }

    /** `GetByUsername`: as GetByID, by username. */
    function GetByUsername(username: string, answers: bool): (r: Result<Option<User>, RepoError>)
      reads this
      ensures !answers <==> r == Err(QueryFailed)
      ensures r == Ok(None) <==> answers && forall i | 0 <= i < |rows| :: rows[i].username != username
      ensures r.Ok? && r.value.Some? ==> r.value.value in rows && r.value.value.username == username
    {
      if !answers then Err(QueryFailed) else Ok(FindUsername(rows, username))
    }

    /** `GetAll`: every row, newest first. */
    function GetAll(answers: bool): (r: Result<seq<User>, RepoError>)
      reads this
      ensures !answers <==> r.Err?
      ensures r.Ok? ==> multiset(r.value) == multiset(rows) && NewestFirst(r.value)
    {
      if !answers then Err(QueryFailed) else Ok(SortNewestFirst(rows))
    }

    /** `GetActiveUsers`: the active rows. */
    function GetActiveUsers(answers: bool): (r: Result<seq<User>, RepoError>)
      reads this
      ensures !answers <==> r.Err?
      ensures r.Ok? ==> forall u :: u in r.value <==> u in rows && u.isActive
    {
      if !answers then Err(QueryFailed) else Ok(ActiveRows(rows))
    }

    /** `ValidateCredentials`: false when the lookup fails, when there is no
        such user and when the user is inactive, all before the hash is
        compared; otherwise whether the stored hash matches the password. */
    function ValidateCredentials(username: string, password: string, answers: bool, matches: (string, string) -> bool): (ok: bool)
      requires Valid()
      reads this
      ensures ok <==> answers && exists i | 0 <= i < |rows| ::
        rows[i].username == username && rows[i].isActive && matches(rows[i].password, password)
    {
      var r := GetByUsername(username, answers);
      if r.Err? || r.value.None? || !r.value.value.isActive then
        assert r.Ok? && r.value.Some? ==> forall i | 0 <= i < |rows| && rows[i].username == username :: !rows[i].isActive by {
          if r.Ok? && r.value.Some? {
            UniqueUsername(r.value.value, username);
          }
        }
        false
      else
        UniqueUsername(r.value.value, username);
        matches(r.value.value.password, password)
    }

    /** The row found for a username is the only row with that username. */
    lemma UniqueUsername(u: User, username: string)
      requires Valid()
      requires u in rows && u.username == username
      ensures forall i | 0 <= i < |rows| && rows[i].username == username :: rows[i] == u
    {
    }

    /** `Create`: hashes the password, inserts the row with the next id and
        the same creation and update time, and hands back the caller's
        record with the id and times filled in (its password is still the
        one the caller gave). */
    method Create(username: string, password: string, isActive: bool, hashed: Option<string>, now: int, answers: bool)
      returns (r: Result<User, RepoError>)
      requires Valid()
      modifies this
      ensures Valid()
      ensures hashed.None? ==> r == Err(HashFailed)
      ensures hashed.Some? && !answers ==> r == Err(QueryFailed)
      ensures hashed.Some? && answers && FindUsername(old(rows), username).Some? ==> r == Err(UsernameTaken)
      ensures r.Ok? <==> hashed.Some? && answers && FindUsername(old(rows), username).None?
      ensures r.Err? ==> rows == old(rows) && lastID == old(lastID)
      ensures r.Ok? ==>
        && r.value == User(old(lastID) + 1, username, password, isActive, now, now)
        && lastID == old(lastID) + 1
        && rows == old(rows) + [r.value.(password := hashed.value)]
    {
      if hashed.None? {
        return Err(HashFailed);
      }
      if !answers {
        return Err(QueryFailed);
      }
      if FindUsername(rows, username).Some? {
        return Err(UsernameTaken);
      }
      lastID := lastID + 1;
      var user := User(lastID, username, password, isActive, now, now);
      rows := rows + [user.(password := hashed.value)];
      r := Ok(user);
    }

    /** `Update`: builds the statement (refusing a request with nothing to
        set, or whose password cannot be hashed) and executes it: the row
        with the id, if any, gets the requested columns and the new update
        time.  A username held by another row violates UNIQUE. */
    method Update(id: int, req: UpdateUserRequest, hashed: Option<string>, now: int, answers: bool) returns (err: Option<RepoError>)
      requires Valid()
      modifies this
      ensures Valid()
      ensures lastID == old(lastID)
      ensures RequestedColumns(req) == [] ==> err == Some(NoFieldsToUpdate)
      ensures req.password != "" && hashed.None? ==> err == Some(HashFailed)
      ensures err.Some? ==> rows == old(rows)
      ensures err.None? <==>
        && RequestedColumns(req) != [] && (req.password == "" || hashed.Some?)
        && answers && !(req.username != "" && Clashes(old(rows), id, req.username))
      ensures err.None? ==> rows == Rewritten(old(rows), id, req, if hashed.Some? then hashed.value else "", now)
    {
      var built := SetClauses(id, req, hashed, now);
      if built.Err? {
        return Some(built.error);
      }
      var (parts, args) := built.value;
      var query := Query(parts);
      if !answers {
        return Some(QueryFailed);
      }
      if req.username != "" && Clashes(rows, id, req.username) {
        return Some(UsernameTaken);
      }
      var hash := if hashed.Some? then hashed.value else "";
      RewriteKeepsWellFormed(rows, lastID, id, req, hash, now);
      rows := Rewritten(rows, id, req, hash, now);
      err := None;
    }

    /** `Update` with the statement as the source builds it: a request with
        nothing to set, or whose password cannot be hashed, is refused as
        before, and every other request reaches `Exec` with a statement that
        continues the SET list after the WHERE clause, which fails, so no
        request ever changes a row. */
    method UpdateAsWritten(id: int, req: UpdateUserRequest, hashed: Option<string>, now: int, answers: bool) returns (err: Option<RepoError>)
      requires Valid()
      modifies this
      ensures Valid()
      ensures rows == old(rows) && lastID == old(lastID)
      ensures RequestedColumns(req) == [] ==> err == Some(NoFieldsToUpdate)
      ensures req.password != "" && hashed.None? ==> err == Some(HashFailed)
      ensures RequestedColumns(req) != [] && (req.password == "" || hashed.Some?) ==> err == Some(QueryFailed)
    {
      var built := SetClauses(id, req, hashed, now);
      if built.Err? {
        return Some(built.error);
      }
      var (parts, args) := built.value;
      var query := QueryAsWritten(parts);
      forall p | p in parts
        ensures Marks(p) == 1
      {
        var i :| 0 <= i < |parts| && parts[i] == p;
        SetPartMarks((RequestedColumns(req) + [UpdatedAtColumn])[i]);
      }
      AsWrittenMalformed(parts);
      if !answers || CommaAfterWhere(query) {
        return Some(QueryFailed);
      }
      err := None;
    }

    /** `Delete`: removes the row with the id; deleting a missing id is not
        an error. */
    method Delete(id: int, answers: bool) returns (err: Option<RepoError>)
      requires Valid()
      modifies this
      ensures Valid()
      ensures lastID == old(lastID)
      ensures err.Some? <==> !answers
      ensures err.Some? ==> err.value == QueryFailed
      ensures err.Some? ==> rows == old(rows)
      ensures err.None? ==> rows == WithoutID(old(rows), id)
    {
      if !answers {
        return Some(QueryFailed);
      }
      var kept := WithoutID(rows, id);
      WithoutKeepsWellFormed(rows, lastID, id);
      rows := kept;
      err := None;
    }

  }
}
