/**
 * The admin API: a dependency that lets only admins through, and three
 * update endpoints that look a record up by id (404 when missing) and
 * assign every payload key the record has as an attribute, silently
 * skipping the others.
 *
 * Records are seen here as Python objects: a map from attribute name to
 * value, whose keys are exactly the names `hasattr` answers true for.
 */
module AdminRouter {
  import opened Wrappers
  import opened Http
  import opened JsonValues
  import Crud

  /** A record as an attribute dictionary. */
  type Row = map<string, Json>

  const AdminRequired := HttpError(Forbidden, "You do not have admin privileges")
  const UserNotFound := HttpError(NotFound, "User not found")
  const ArticleNotFound := HttpError(NotFound, "Article not found")
  const StatementNotFound := HttpError(NotFound, "Statement not found")

  /** `get_admin_user`: the current user when an admin, else 403. */
  function GetAdminUser(current: Crud.User): (r: Result<Crud.User, HttpError>)
    ensures r.Ok? <==> current.isAdmin
    ensures r.Ok? ==> r.value == current
    ensures r.Err? ==> r.error == AdminRequired
  {
    if !current.isAdmin then Err(AdminRequired) else Ok(current)
  }

  /**
   * The record an update leaves: every attribute named in the payload takes
   * the payload's value, every other attribute keeps its value, and payload
   * keys that are not attributes add nothing.
   */
  function Overlay(row: Row, payload: map<string, Json>): Row {
    map k | k in row :: if k in payload then payload[k] else row[k]
  }

  /** The attribute filter and the frame of the admin updates. */
  lemma OverlayFilterAndFrame(row: Row, payload: map<string, Json>)
    ensures Overlay(row, payload).Keys == row.Keys
    ensures forall k :: k in row && k in payload ==> Overlay(row, payload)[k] == payload[k]
    ensures forall k :: k in row && k !in payload ==> Overlay(row, payload)[k] == row[k]
    ensures forall k :: k in payload && k !in row ==> k !in Overlay(row, payload)
  {
  }

  /** Applying the same payload twice changes nothing more. */
  lemma OverlayIdempotent(row: Row, payload: map<string, Json>)
    ensures Overlay(Overlay(row, payload), payload) == Overlay(row, payload)
  {
  }

  /** Every row sits under the id its own `id` attribute holds. */
  predicate Keyed(rows: map<int, Row>) {
    forall k :: k in rows ==> "id" in rows[k] && rows[k]["id"] == JNum(k)
  }

  /** The range of a PostgreSQL `integer` column, which the ids are. */
  predicate IsInt32(n: int) {
    -0x8000_0000 <= n < 0x8000_0000
  }

  /**
   * Where the commit puts an updated row: under the integer its `id`
   * attribute now holds, or nowhere (`None`) when the commit fails. A
   * changed id fails when it is not an integer, is the key of another row,
   * is outside the `integer` range, or when the old id is `referenced`: a
   * foreign key of another table holds it, and none of them cascades on
   * update.
   */
  function Target(rows: map<int, Row>, id: int, row: Row, referenced: set<int>): (t: Option<int>)
    requires "id" in row
    ensures t.Some? <==>
      row["id"].JNum? && (row["id"].n == id || (row["id"].n !in rows && IsInt32(row["id"].n) && id !in referenced))
    ensures t.Some? ==> t.value == row["id"].n
  {
    match row["id"]
    case JNum(n) =>
      if n == id then Some(n)
      else if n in rows || !IsInt32(n) || id in referenced then None
      else Some(n)
    case _ => None
  }

  /**
   * What an admin update of record `id` with `payload` leaves: the answer
   * `r` and the rows `after`. The overlaid record is committed under the id
   * it carries, or the commit fails and the rows stay as they were.
   * `referenced` holds the ids of this table that other tables' foreign
   * keys hold.
   */
  predicate Committed(rows: map<int, Row>, referenced: set<int>, id: int, payload: map<string, Json>,
                      r: Result<Row, HttpError>, after: map<int, Row>)
    requires id in rows
  {
    var row := Overlay(rows[id], payload);
    && "id" in row
    && (Target(rows, id, row, referenced).None? ==> r == Err(ServerError) && after == rows)
    && (Target(rows, id, row, referenced).Some? ==>
          r == Ok(row) && after == (rows - {id})[Target(rows, id, row, referenced).value := row])
  }

  /** A payload that does not name `id` leaves the record under its key. */
  lemma OverlayKeepsKey(rows: map<int, Row>, referenced: set<int>, id: int, payload: map<string, Json>)
    requires Keyed(rows) && id in rows && "id" !in payload
    ensures "id" in Overlay(rows[id], payload)
    ensures Target(rows, id, Overlay(rows[id], payload), referenced) == Some(id)
  {
  }

  /** The loop of the update endpoints: `setattr` on the fetched record for each payload key that `hasattr` accepts. */
  method AssignAttributes(row: Row, payload: map<string, Json>) returns (r: Row)
    ensures r == Overlay(row, payload)
  {
    r := row;
    var pending := payload.Keys;
    while pending != {}
      invariant pending <= payload.Keys
      invariant r.Keys == row.Keys
      invariant forall k :: k in r ==> r[k] == (if k in payload && k !in pending then payload[k] else row[k])
      decreases |pending|
    {
      var key :| key in pending;
      if key in r {
        r := r[key := payload[key]];
      }
      pending := pending - {key};
    }
  }

  /** A table of records keyed by id. */
  class Table {
    var rows: map<int, Row>

    predicate Valid()
      reads this
    {
      Keyed(rows)
    }

    constructor (rows: map<int, Row>)
      requires Keyed(rows)
      ensures Valid() && this.rows == rows
    {
      this.rows := rows;
    }

    /**
     * The commit after the loop. The record is written back under the id
     * it now carries, so a changed `id` moves it; when `Target` finds no
     * place the commit fails, which the endpoint does not catch, and
     * nothing changes.
     */
    method Commit(id: int, row: Row, referenced: set<int>) returns (r: Result<Row, HttpError>)
      requires Valid() && id in rows && "id" in row
      modifies this
      ensures Valid()
      ensures Target(old(rows), id, row, referenced).None? ==> r == Err(ServerError) && rows == old(rows)
      ensures Target(old(rows), id, row, referenced).Some? ==>
        r == Ok(row) && rows == (old(rows) - {id})[Target(old(rows), id, row, referenced).value := row]
    {
      var target := Target(rows, id, row, referenced);
      if target.None? {
        return Err(ServerError);
      }
      rows := (rows - {id})[target.value := row];
      r := Ok(row);
    }
  }

  /**
   * One admin update endpoint: 403 for a non-admin (the dependency runs
   * first), 404 for an unknown id, else the record with the payload's
   * attributes assigned, committed under the id it then carries.
   * `referenced` holds the ids of the table that foreign keys of other
   * tables hold: users by articles and statements, articles by statements
   * and references, statements by references.
   */
  method UpdateRecordAdmin(admin: Crud.User, table: Table, referenced: set<int>, id: int, payload: map<string, Json>,
                           notFound: HttpError)
    returns (r: Result<Row, HttpError>)
    requires table.Valid()
    modifies table
    ensures table.Valid()
    ensures !admin.isAdmin ==> r == Err(AdminRequired) && unchanged(table)
    ensures admin.isAdmin && id !in old(table.rows) ==> r == Err(notFound) && unchanged(table)
    ensures admin.isAdmin && id in old(table.rows) ==> Committed(old(table.rows), referenced, id, payload, r, table.rows)
  {
    var who := GetAdminUser(admin);
    if who.Err? {
      return Err(who.error);
    }
    if id !in table.rows {
      return Err(notFound);
    }
    var row := AssignAttributes(table.rows[id], payload);
    r := table.Commit(id, row, referenced);
  }

  /** `update_user_admin`. */
  method UpdateUserAdmin(admin: Crud.User, users: Table, referenced: set<int>, userId: int, userData: map<string, Json>)
    returns (r: Result<Row, HttpError>)
    requires users.Valid()
    modifies users
    ensures users.Valid()
    ensures !admin.isAdmin ==> r == Err(AdminRequired) && unchanged(users)
    ensures admin.isAdmin && userId !in old(users.rows) ==> r == Err(UserNotFound) && unchanged(users)
    ensures admin.isAdmin && userId in old(users.rows) ==> Committed(old(users.rows), referenced, userId, userData, r, users.rows)
    ensures admin.isAdmin && userId in old(users.rows) && "id" !in userData ==>
      r == Ok(Overlay(old(users.rows)[userId], userData)) && users.rows == old(users.rows)[userId := r.value]
  {
    r := UpdateRecordAdmin(admin, users, referenced, userId, userData, UserNotFound);
    if admin.isAdmin && userId in old(users.rows) && "id" !in userData {
      OverlayKeepsKey(old(users.rows), referenced, userId, userData);
    }
  }

  /** `update_article_admin`. */
  method UpdateArticleAdmin(admin: Crud.User, articles: Table, referenced: set<int>, articleId: int, articleData: map<string, Json>)
    returns (r: Result<Row, HttpError>)
    requires articles.Valid()
    modifies articles
    ensures articles.Valid()
    ensures !admin.isAdmin ==> r == Err(AdminRequired) && unchanged(articles)
    ensures admin.isAdmin && articleId !in old(articles.rows) ==> r == Err(ArticleNotFound) && unchanged(articles)
    ensures admin.isAdmin && articleId in old(articles.rows) ==> Committed(old(articles.rows), referenced, articleId, articleData, r, articles.rows)
    ensures admin.isAdmin && articleId in old(articles.rows) && "id" !in articleData ==>
      r == Ok(Overlay(old(articles.rows)[articleId], articleData)) && articles.rows == old(articles.rows)[articleId := r.value]
  {
    r := UpdateRecordAdmin(admin, articles, referenced, articleId, articleData, ArticleNotFound);
    if admin.isAdmin && articleId in old(articles.rows) && "id" !in articleData {
      OverlayKeepsKey(old(articles.rows), referenced, articleId, articleData);
    }
  }

  /** `update_statement_admin`. */
  method UpdateStatementAdmin(admin: Crud.User, statements: Table, referenced: set<int>, statementId: int, statementData: map<string, Json>)
    returns (r: Result<Row, HttpError>)
    requires statements.Valid()
    modifies statements
    ensures statements.Valid()
    ensures !admin.isAdmin ==> r == Err(AdminRequired) && unchanged(statements)
    ensures admin.isAdmin && statementId !in old(statements.rows) ==> r == Err(StatementNotFound) && unchanged(statements)
    ensures admin.isAdmin && statementId in old(statements.rows) ==> Committed(old(statements.rows), referenced, statementId, statementData, r, statements.rows)
    ensures admin.isAdmin && statementId in old(statements.rows) && "id" !in statementData ==>
      r == Ok(Overlay(old(statements.rows)[statementId], statementData))
      && statements.rows == old(statements.rows)[statementId := r.value]
  {
    r := UpdateRecordAdmin(admin, statements, referenced, statementId, statementData, StatementNotFound);
    if admin.isAdmin && statementId in old(statements.rows) && "id" !in statementData {
      OverlayKeepsKey(old(statements.rows), referenced, statementId, statementData);
    }
  }
}
