/**
 * The article and statement routes: each handler looks the record up,
 * answers 404 when it is missing and 403 when the caller does not own it,
 * in that order, and otherwise delegates to the store.
 */
module ArticlesRouter {
  import opened Wrappers
  import opened Http
  import opened Crud

  /** The body of a successful delete, `{"ok": True}`. */
  datatype Deleted = Deleted(ok: bool)

  const ArticleNotFound := HttpError(NotFound, "Article not found")
  const StatementNotFound := HttpError(NotFound, "Statement not found")

  function NotAuthorized(action: string, entity: string): HttpError {
    HttpError(Forbidden, "Not authorized to " + action + " this " + entity)
  }

  // ---------------------------------------------------------------------
  // Guards
  // ---------------------------------------------------------------------

  /** The guard of the article update and delete routes: the article must exist, then belong to the caller. */
  function OwnedArticle(article: Option<Article>, callerId: nat, action: string): (r: Result<Article, HttpError>)
    ensures r == Err(ArticleNotFound) <==> article.None?
    ensures r == Err(NotAuthorized(action, "article")) <==> article.Some? && article.value.userId != callerId
    ensures r.Ok? <==> article.Some? && article.value.userId == callerId
    ensures r.Ok? ==> r.value == article.value
  {
    if article.None? then Err(ArticleNotFound)
    else if article.value.userId != callerId then Err(NotAuthorized(action, "article"))
    else Ok(article.value)
  }

  /**
   * The guard of the statement update and delete routes: the statement must
   * exist and belong to the article in the path, then have the caller as author.
   */
  function AuthoredStatement(statement: Option<Statement>, articleId: nat, callerId: nat, action: string)
    : (r: Result<Statement, HttpError>)
    ensures r == Err(StatementNotFound) <==> statement.None? || statement.value.articleId != Some(articleId)
    ensures r == Err(NotAuthorized(action, "statement")) <==>
      statement.Some? && statement.value.articleId == Some(articleId) && statement.value.userId != Some(callerId)
    ensures r.Ok? <==>
      statement.Some? && statement.value.articleId == Some(articleId) && statement.value.userId == Some(callerId)
    ensures r.Ok? ==> r.value == statement.value
  {
    if statement.None? || statement.value.articleId != Some(articleId) then Err(StatementNotFound)
    else if statement.value.userId != Some(callerId) then Err(NotAuthorized(action, "statement"))
    else Ok(statement.value)
  }

  // ---------------------------------------------------------------------
  // Handlers
  // ---------------------------------------------------------------------

  /** `read_article`: the stored article, or 404. */
  function ReadArticle(db: Store, articleId: nat): (r: Result<Article, HttpError>)
    requires db.Valid()
    reads db
    ensures r.Err? <==> articleId !in db.articles
    ensures r.Err? ==> r.error == ArticleNotFound
    ensures r.Ok? ==> r.value == db.articles[articleId] && r.value.id == articleId
  {
    match db.GetArticle(articleId)
    case None => Err(ArticleNotFound)
    case Some(a) => Ok(a)
  }

  /**
   * `update_existing_article`: 404, else 403, else the supplied fields are
   * set; a value too long for its column is an uncaught error, so a 500
   * with no change.
   */
  method UpdateExistingArticle(db: Store, articleId: nat, update: ArticleUpdate, callerId: nat, dumps: seq<string> -> string)
    returns (r: Result<Article, HttpError>)
    requires db.Valid()
    modifies db
    ensures db.Valid()
    ensures var guard := OwnedArticle(old(db.GetArticle(articleId)), callerId, "update");
      if guard.Err? then r == Err(guard.error) && unchanged(db)
      else
        var a := UpdatedArticle(guard.value, update, dumps);
        && (!FitsColumns(a) ==> r == Err(ServerError) && db.articles == old(db.articles))
        && (FitsColumns(a) ==> r == Ok(a) && db.articles == old(db.articles)[articleId := a])
        && db.users == old(db.users) && db.statements == old(db.statements)
  {
    var guard := OwnedArticle(db.GetArticle(articleId), callerId, "update");
    if guard.Err? {
      return Err(guard.error);
    }
    var a := db.UpdateArticle(articleId, update, dumps);
    UpdateArticleSetsSuppliedFields(guard.value, update, dumps);
    if a.Err? {
      return Err(ServerError);
    }
    r := Ok(a.value);
  }

  /** `delete_existing_article`: 404, else 403, else the article is gone and its statements lose their article. */
  method DeleteExistingArticle(db: Store, articleId: nat, callerId: nat) returns (r: Result<Deleted, HttpError>)
    requires db.Valid()
    modifies db
    ensures db.Valid()
    ensures var guard := OwnedArticle(old(db.GetArticle(articleId)), callerId, "delete");
      if guard.Err? then r == Err(guard.error) && unchanged(db)
      else
        && r == Ok(Deleted(true))
        && db.articles == old(db.articles) - {articleId}
        && articleId !in db.articles
        && db.statements == Detached(old(db.statements), articleId)
        && db.users == old(db.users)
  {
    var guard := OwnedArticle(db.GetArticle(articleId), callerId, "delete");
    if guard.Err? {
      return Err(guard.error);
    }
    db.DeleteArticle(articleId);
    r := Ok(Deleted(true));
  }

  /** The attributes of a `StatementCreate` request body; pydantic refuses to assign any other. */
  const StatementCreateFields: set<string> := {"content", "verdict", "explanation"}

  /** The attributes of a `Statement` row object. */
  const StatementAttributes: set<string> :=
    {"id", "content", "verdict", "explanation", "created_at", "article_id", "user_id", "article", "references"}

  /** Assigning attribute `name` on an object whose attributes are `fields`: an uncaught `ValueError` unless it has it. */
  function AssignAttribute(fields: set<string>, name: string): (r: Result<(), HttpError>)
    ensures r.Ok? <==> name in fields
    ensures r.Err? ==> r.error == ServerError
  {
    if name in fields then Ok(()) else Err(ServerError)
  }

  /**
   * `create_statement` applied to an object with attributes `fields`: it
   * stamps `article_id` and `user_id` on it and inserts it, or fails on the
   * first stamp the object refuses.
   */
  method CreateStatementOn(db: Store, fields: set<string>, body: StatementCreate, articleId: nat, callerId: nat, now: Time)
    returns (r: Result<Statement, HttpError>)
    requires db.Valid()
    modifies db
    ensures db.Valid()
    ensures !("article_id" in fields && "user_id" in fields) ==> r == Err(ServerError) && unchanged(db)
    ensures "article_id" in fields && "user_id" in fields ==>
      && r.Ok?
      && r.value.articleId == Some(articleId) && r.value.userId == Some(callerId)
      && r.value.content == body.content && r.value.verdict == body.verdict && r.value.explanation == body.explanation
      && db.statements == old(db.statements)[r.value.id := r.value]
      && r.value.id !in old(db.statements)
      && db.articles == old(db.articles) && db.users == old(db.users)
  {
    var stamp := AssignAttribute(fields, "article_id");
    if stamp.Err? {
      return Err(stamp.error);
    }
    stamp := AssignAttribute(fields, "user_id");
    if stamp.Err? {
      return Err(stamp.error);
    }
    var s := db.CreateStatement(body, articleId, callerId, now);
    r := Ok(s);
  }

  /**
   * `create_article_statement` as the route intends it: the body becomes a
   * `Statement` row object first. Any caller may add a statement to an
   * existing article; the new statement carries the article and the caller as author.
   */
  method CreateArticleStatement(db: Store, articleId: nat, body: StatementCreate, callerId: nat, now: Time)
    returns (r: Result<Statement, HttpError>)
    requires db.Valid()
    modifies db
    ensures db.Valid()
    ensures articleId !in old(db.articles) ==> r == Err(ArticleNotFound) && unchanged(db)
    ensures articleId in old(db.articles) ==>
      && r.Ok?
      && r.value.articleId == Some(articleId) && r.value.userId == Some(callerId)
      && r.value.content == body.content && r.value.verdict == body.verdict && r.value.explanation == body.explanation
      && db.statements == old(db.statements)[r.value.id := r.value]
      && r.value.id !in old(db.statements)
      && db.articles == old(db.articles) && db.users == old(db.users)
  {
    if db.GetArticle(articleId).None? {
      return Err(ArticleNotFound);
    }
    r := CreateStatementOn(db, StatementAttributes, body, articleId, callerId, now);
  }

  /** `create_article_statement` as written: the request body itself is handed to `create_statement`. */
  method CreateArticleStatementAsWritten(db: Store, articleId: nat, body: StatementCreate, callerId: nat, now: Time)
    returns (r: Result<Statement, HttpError>)
    requires db.Valid()
    modifies db
    ensures db.Valid()
    ensures r == (if articleId in old(db.articles) then Err(ServerError) else Err(ArticleNotFound))
    ensures unchanged(db)
  {
    if db.GetArticle(articleId).None? {
      return Err(ArticleNotFound);
    }
    AsWrittenStampFails();
    r := CreateStatementOn(db, StatementCreateFields, body, articleId, callerId, now);
  }

  /** The request body has no `article_id` attribute, so the first stamp of `create_statement` always fails on it. */
  lemma AsWrittenStampFails()
    ensures AssignAttribute(StatementCreateFields, "article_id") == Err(ServerError)
  {
    assert "article_id" !in StatementCreateFields by {
      assert "article_id" != "content" && "article_id" != "verdict" && "article_id" != "explanation";
    }
  }

  /** `read_article_statements`: 404 for a missing article, else exactly its statements. */
  function ReadArticleStatements(db: Store, articleId: nat): (r: Result<seq<Statement>, HttpError>)
    requires db.Valid()
    reads db
    ensures r.Err? <==> articleId !in db.articles
    ensures r.Err? ==> r.error == ArticleNotFound
    ensures r.Ok? ==> forall i :: 0 <= i < |r.value| ==> r.value[i].articleId == Some(articleId) && r.value[i].id in db.statements
    ensures r.Ok? ==> forall id :: id in db.statements && db.statements[id].articleId == Some(articleId) ==> db.statements[id] in r.value
    ensures r.Ok? ==> forall i :: 0 <= i < |r.value| ==> db.statements[r.value[i].id] == r.value[i]
    ensures r.Ok? ==> forall i, j :: 0 <= i < j < |r.value| ==> r.value[i].id < r.value[j].id
  {
    if db.GetArticle(articleId).None? then Err(ArticleNotFound) else Ok(db.GetArticleStatements(articleId))
  }

  /**
   * `update_article_statement` as intended: 404, else 403, else verdict and
   * explanation set, with the references the statement already has.
   */
  method UpdateArticleStatement(db: Store, articleId: nat, statementId: nat, verdict: string, explanation: string, callerId: nat)
    returns (r: Result<Statement, HttpError>)
    requires db.Valid()
    modifies db
    ensures db.Valid()
    ensures var guard := AuthoredStatement(old(db.GetStatement(statementId)), articleId, callerId, "update");
      if guard.Err? then r == Err(guard.error) && unchanged(db)
      else
        && r == Ok(guard.value.(verdict := Some(verdict), explanation := Some(explanation)))
        && db.statements == old(db.statements)[statementId := r.value]
        && db.articles == old(db.articles) && db.users == old(db.users)
  {
    var guard := AuthoredStatement(db.GetStatement(statementId), articleId, callerId, "update");
    if guard.Err? {
      return Err(guard.error);
    }
    var s := db.UpdateStatement(statementId, verdict, explanation, None);
    r := Ok(s);
  }

  /**
   * `update_article_statement` as written: past the guards, `update_statement`
   * is called without references and raises on the `None` it assigns, so
   * the route answers 500 and stores nothing.
   */
  method UpdateArticleStatementAsWritten(db: Store, articleId: nat, statementId: nat, verdict: string, explanation: string, callerId: nat)
    returns (r: Result<Statement, HttpError>)
    requires db.Valid()
    modifies db
    ensures db.Valid()
    ensures var guard := AuthoredStatement(old(db.GetStatement(statementId)), articleId, callerId, "update");
      r == (if guard.Err? then Err(guard.error) else Err(ServerError))
    ensures unchanged(db)
  {
    var guard := AuthoredStatement(db.GetStatement(statementId), articleId, callerId, "update");
    if guard.Err? {
      return Err(guard.error);
    }
    var s := db.UpdateStatementAsWritten(statementId, verdict, explanation, None);
    assert s == Err(TypeError(NoneNotListLike));
    // The `TypeError` is not caught, so the server answers 500.
    r := Err(ServerError);
  }

  /** `delete_article_statement`: 404, else 403, else the statement is gone. */
  method DeleteArticleStatement(db: Store, articleId: nat, statementId: nat, callerId: nat)
    returns (r: Result<Deleted, HttpError>)
    requires db.Valid()
    modifies db
    ensures db.Valid()
    ensures var guard := AuthoredStatement(old(db.GetStatement(statementId)), articleId, callerId, "delete");
      if guard.Err? then r == Err(guard.error) && unchanged(db)
      else
        && r == Ok(Deleted(true))
        && db.statements == old(db.statements) - {statementId}
        && statementId !in db.statements
        && db.articles == old(db.articles) && db.users == old(db.users)
  {
    var guard := AuthoredStatement(db.GetStatement(statementId), articleId, callerId, "delete");
    if guard.Err? {
      return Err(guard.error);
    }
    db.DeleteStatement(statementId);
    r := Ok(Deleted(true));
  }

  /** A missing article answers 404 whoever asks: the existence check comes before the ownership check. */
  lemma NotFoundBeforeForbidden(callerId: nat, action: string, articleId: nat, statementCallerId: nat)
    ensures OwnedArticle(None, callerId, action) == Err(ArticleNotFound)
    ensures AuthoredStatement(None, articleId, statementCallerId, action) == Err(StatementNotFound)
  {
  }

  /** A statement reached through another article's path answers 404, even to its author. */
  lemma WrongArticleIsNotFound(s: Statement, articleId: nat, action: string)
    requires s.articleId != Some(articleId) && s.userId.Some?
    ensures AuthoredStatement(Some(s), articleId, s.userId.value, action) == Err(StatementNotFound)
  {
  }
}
