/**
 * The user, article and statement store: three tables keyed by their
 * serial ids, with the create, read, update and delete operations of the
 * service. Password hashing, `json.dumps` and the clock are parameters.
 * Listings come in ascending id order.
 */
module Crud {
  import opened Wrappers

  /** A timestamp (`datetime`), abstracted to a number. */
  type Time = nat

  datatype User = User(
    id: nat,
    username: string,
    email: string,
    hashedPassword: string,
    isActive: bool,
    isAdmin: bool,
    createdAt: Time)

  datatype Reference = Reference(url: string, title: Option<string>, content: string, context: Option<string>)

  datatype Statement = Statement(
    id: nat,
    content: string,
    verdict: Option<string>,
    explanation: Option<string>,
    createdAt: Time,
    articleId: Option<nat>,
    userId: Option<nat>,
    references: seq<Reference>)

  datatype Article = Article(
    id: nat,
    title: string,
    text: string,
    date: Time,
    userId: nat,
    isApproved: bool,
    domain: Option<string>,
    /** The links, stored as a JSON string. */
    links: Option<string>,
    authors: Option<string>,
    publicationDate: Option<Time>,
    extractionDate: Time,
    isActive: bool)

  /** The request bodies. */
  datatype UserCreate = UserCreate(username: string, email: string, password: string)

  /** A partial user update: a field is `Some` exactly when the request set it. */
  datatype UserUpdate = UserUpdate(username: Option<string>, email: Option<string>, password: Option<string>)

  datatype ArticleCreate = ArticleCreate(
    title: string,
    text: string,
    domain: Option<string>,
    authors: Option<string>,
    publicationDate: Option<Time>,
    links: Option<seq<string>>)

  /**
   * A partial article update: the outer `Option` says whether the request
   * set the field, the inner one (for nullable fields) whether it set it to null.
   */
  datatype ArticleUpdate = ArticleUpdate(
    title: Option<string>,
    text: Option<string>,
    domain: Option<Option<string>>,
    authors: Option<Option<string>>,
    publicationDate: Option<Option<Time>>,
    isApproved: Option<bool>,
    links: Option<Option<seq<string>>>)

  datatype StatementCreate = StatementCreate(content: string, verdict: Option<string>, explanation: Option<string>)

  datatype DbError =
    | IntegrityError(constraint: string)
    | MultipleResultsFound
    | ValueError(message: string)
    | NegativeOffset
    | NegativeLimit
    | TypeError(message: string)
    /** A value longer than its `VARCHAR(width)` column. */
    | DataError(width: nat)

  /** The unique index on `user.email`. */
  const UserEmailKey := "user_email_key"

  /** The foreign keys that refer to a user: an article's owner and a statement's author. */
  const ArticleUserKey := "article_user_id_fkey"
  const StatementUserKey := "statement_user_id_fkey"

  /** What SQLAlchemy raises when `None` is assigned to a list relationship. */
  const NoneNotListLike := "Incompatible collection type: None is not list-like"

  /** The widths of the article's `VARCHAR` columns. */
  const TitleWidth := 200
  const DomainWidth := 500
  const AuthorsWidth := 1000

  /** An optional string fits a column of `width` characters. */
  predicate FitsWidth(v: Option<string>, width: nat) {
    v.None? || |v.value| <= width
  }

  /** Every value of the article fits its column. */
  predicate FitsColumns(a: Article) {
    |a.title| <= TitleWidth && FitsWidth(a.domain, DomainWidth) && FitsWidth(a.authors, AuthorsWidth)
  }

  /**
   * The error PostgreSQL raises when writing `a`: the width of the first
   * column, in table order, whose value is too long.
   */
  function ColumnsError(a: Article): (r: Option<DbError>)
    ensures r.None? <==> FitsColumns(a)
    ensures r.Some? ==> r.value.DataError? && r.value.width in {TitleWidth, DomainWidth, AuthorsWidth}
    ensures |a.title| > TitleWidth ==> r == Some(DataError(TitleWidth))
    ensures r == Some(DataError(DomainWidth)) ==> |a.title| <= TitleWidth && !FitsWidth(a.domain, DomainWidth)
    ensures r == Some(DataError(AuthorsWidth)) ==>
      |a.title| <= TitleWidth && FitsWidth(a.domain, DomainWidth) && !FitsWidth(a.authors, AuthorsWidth)
  {
    if |a.title| > TitleWidth then Some(DataError(TitleWidth))
    else if !FitsWidth(a.domain, DomainWidth) then Some(DataError(DomainWidth))
    else if !FitsWidth(a.authors, AuthorsWidth) then Some(DataError(AuthorsWidth))
    else None
  }

  /** What `json.dumps(None)` writes. */
  const JsonNull := "null"

  /** The links stored for an article created without links. */
  const NoLinks := "[]"

  function DuplicateDomainMessage(domain: string): string {
    "An article with domain '" + domain + "' already exists"
  }

  /** Python truthiness of an optional string: present and non-empty. */
  predicate Truthy(s: Option<string>) {
    s.Some? && s.value != []
  }

  // ---------------------------------------------------------------------
  // Rows in id order
  // ---------------------------------------------------------------------

  predicate Increasing(s: seq<nat>) {
    forall i, j :: 0 <= i < j < |s| ==> s[i] < s[j]
  }

  /** The keys in `[lo, hi)`, ascending: the order a table scan returns rows in. */
  function IdsBetween(keys: set<nat>, lo: nat, hi: nat): (r: seq<nat>)
    ensures forall i :: 0 <= i < |r| ==> r[i] in keys && lo <= r[i] < hi
    ensures forall id :: id in keys && lo <= id < hi ==> id in r
    ensures Increasing(r)
    decreases hi - lo
  {
    if lo >= hi then []
    else
      var rest := IdsBetween(keys, lo + 1, hi);
      if lo in keys then [lo] + rest else rest
  }

  /**
   * `OFFSET skip LIMIT limit` over `rows`: an error for a negative offset or
   * limit, else at most `limit` rows starting `skip` rows in.
   */
  function Page<T>(rows: seq<T>, skip: int, limit: int): (r: Result<seq<T>, DbError>)
    ensures r.Ok? <==> skip >= 0 && limit >= 0
    ensures skip < 0 ==> r == Err(NegativeOffset)
    ensures skip >= 0 && limit < 0 ==> r == Err(NegativeLimit)
    ensures r.Ok? ==> |r.value| <= limit
    ensures r.Ok? ==> |r.value| == (if skip >= |rows| then 0 else if |rows| - skip < limit then |rows| - skip else limit)
    ensures r.Ok? ==> forall i :: 0 <= i < |r.value| ==> r.value[i] == rows[skip + i]
  {
    if skip < 0 then Err(NegativeOffset)
    else if limit < 0 then Err(NegativeLimit)
    else
      var rest := if skip >= |rows| then [] else rows[skip..];
      Ok(if |rest| <= limit then rest else rest[..limit])
  }

  /** The rows stored under `ids`, in that order. */
  function Select<T>(m: map<nat, T>, ids: seq<nat>): (r: seq<T>)
    requires forall i :: 0 <= i < |ids| ==> ids[i] in m
    ensures |r| == |ids|
    ensures forall i :: 0 <= i < |ids| ==> r[i] == m[ids[i]]
  {
    seq(|ids|, i requires 0 <= i < |ids| => m[ids[i]])
  }

  /** The ids, kept in order, whose rows satisfy `keep`: a `WHERE` clause. */
  function Matching<T>(m: map<nat, T>, ids: seq<nat>, keep: T -> bool): (r: seq<nat>)
    requires forall i :: 0 <= i < |ids| ==> ids[i] in m
    ensures |r| <= |ids|
    ensures forall i :: 0 <= i < |r| ==> r[i] in ids && r[i] in m && keep(m[r[i]])
    ensures forall i :: 0 <= i < |ids| && keep(m[ids[i]]) ==> ids[i] in r
    ensures Increasing(ids) ==> Increasing(r)
    decreases |ids|
  {
    if ids == [] then []
    else
      var rest := Matching(m, ids[1..], keep);
      assert forall i :: 0 <= i < |rest| ==> rest[i] in ids[1..];
      if keep(m[ids[0]]) then [ids[0]] + rest else rest
  }

  lemma SelectHas<T>(m: map<nat, T>, ids: seq<nat>, id: nat)
    requires forall i :: 0 <= i < |ids| ==> ids[i] in m
    requires id in ids
    ensures m[id] in Select(m, ids)
  {
    var k :| 0 <= k < |ids| && ids[k] == id;
    assert Select(m, ids)[k] == m[id];
  }

  lemma MatchingHas<T>(m: map<nat, T>, ids: seq<nat>, keep: T -> bool, id: nat)
    requires forall i :: 0 <= i < |ids| ==> ids[i] in m
    requires id in ids && id in m && keep(m[id])
    ensures id in Matching(m, ids, keep)
  {
    var k :| 0 <= k < |ids| && ids[k] == id;
  }

  // ---------------------------------------------------------------------
  // The partial updates, as the items `setattr` is applied to
  // ---------------------------------------------------------------------

  datatype UserKey = Username | Email | Password

  /** `user_update.dict(exclude_unset=True).items()`, in declaration order. */
  function UserItems(u: UserUpdate): seq<(UserKey, string)> {
    (if u.username.Some? then [(Username, u.username.value)] else [])
    + (if u.email.Some? then [(Email, u.email.value)] else [])
    + (if u.password.Some? then [(Password, u.password.value)] else [])
  }

  /** One iteration of `update_user`'s loop: a password is stored as its hash. */
  function SetUserItem(u: User, item: (UserKey, string), hash: string -> string): User {
    match item.0
    case Username => u.(username := item.1)
    case Email => u.(email := item.1)
    case Password => u.(hashedPassword := hash(item.1))
  }

  function ApplyUserItems(u: User, items: seq<(UserKey, string)>, hash: string -> string): User
    decreases |items|
  {
    if items == [] then u else ApplyUserItems(SetUserItem(u, items[0], hash), items[1..], hash)
  }

  /** The user an update leaves: each supplied field replaced, the password only through its hash, the rest kept. */
  function UpdatedUser(u: User, upd: UserUpdate, hash: string -> string): User {
    u.(username := if upd.username.Some? then upd.username.value else u.username,
       email := if upd.email.Some? then upd.email.value else u.email,
       hashedPassword := if upd.password.Some? then hash(upd.password.value) else u.hashedPassword)
  }

  datatype ArticleItem =
    | SetTitle(title: string)
    | SetText(text: string)
    | SetDomain(domain: Option<string>)
    | SetAuthors(authors: Option<string>)
    | SetPublicationDate(publicationDate: Option<Time>)
    | SetIsApproved(isApproved: bool)
    | SetLinks(json: string)

  /** `update_data` of `update_article`: the set fields in declaration order, links already encoded. */
  function ArticleItems(u: ArticleUpdate, dumps: seq<string> -> string): seq<ArticleItem> {
    ItemIf(u.title.Some?, SetTitle(Pick(u.title, [])))
    + (ItemIf(u.text.Some?, SetText(Pick(u.text, [])))
    + (ItemIf(u.domain.Some?, SetDomain(Pick(u.domain, None)))
    + (ItemIf(u.authors.Some?, SetAuthors(Pick(u.authors, None)))
    + LaterItems(u, dumps))))
  }

  /** The item of a field, if the request set it. */
  function ItemIf(present: bool, item: ArticleItem): seq<ArticleItem> {
    if present then [item] else []
  }

  /** `json.dumps` of a link list, or of `None`. */
  function EncodeLinks(links: Option<seq<string>>, dumps: seq<string> -> string): string {
    if links.Some? then dumps(links.value) else JsonNull
  }

  /** One iteration of `update_article`'s loop: `setattr` of one field; the id is not among the fields. */
  function SetArticleItem(a: Article, item: ArticleItem): (r: Article)
    ensures r.id == a.id && r.userId == a.userId && r.isActive == a.isActive
  {
    match item
    case SetTitle(v) => a.(title := v)
    case SetText(v) => a.(text := v)
    case SetDomain(v) => a.(domain := v)
    case SetAuthors(v) => a.(authors := v)
    case SetPublicationDate(v) => a.(publicationDate := v)
    case SetIsApproved(v) => a.(isApproved := v)
    case SetLinks(v) => a.(links := Some(v))
  }

  function ApplyArticleItems(a: Article, items: seq<ArticleItem>): Article
    decreases |items|
  {
    if items == [] then a else ApplyArticleItems(SetArticleItem(a, items[0]), items[1..])
  }

  /** The loop of `update_article`: `setattr` of each item in turn on the article. */
  method SetArticleItems(article: Article, items: seq<ArticleItem>) returns (r: Article)
    ensures r == ApplyArticleItems(article, items)
    ensures r.id == article.id && r.userId == article.userId && r.isActive == article.isActive
  {
    r := article;
    var i := 0;
    while i < |items|
      invariant 0 <= i <= |items|
      invariant r.id == article.id && r.userId == article.userId && r.isActive == article.isActive
      invariant ApplyArticleItems(r, items[i..]) == ApplyArticleItems(article, items)
    {
      assert items[i..] == [items[i]] + items[i + 1..];
      r := SetArticleItem(r, items[i]);
      i := i + 1;
    }
    assert items[i..] == [];
  }

  function Pick<T>(update: Option<T>, current: T): T {
    if update.Some? then update.value else current
  }

  /** The article an update leaves: each supplied field replaced, links re-encoded, the rest kept. */
  function UpdatedArticle(a: Article, u: ArticleUpdate, dumps: seq<string> -> string): Article {
    a.(title := Pick(u.title, a.title),
       text := Pick(u.text, a.text),
       domain := Pick(u.domain, a.domain),
       authors := Pick(u.authors, a.authors),
       publicationDate := Pick(u.publicationDate, a.publicationDate),
       isApproved := Pick(u.isApproved, a.isApproved),
       links := if u.links.Some? then Some(EncodeLinks(u.links.value, dumps)) else a.links)
  }

  /** The row `create_article` inserts. */
  function NewArticle(id: nat, a: ArticleCreate, userId: nat, dumps: seq<string> -> string, now: Time): Article {
    Article(id, a.title, a.text, now, userId, false, a.domain,
            Some(if a.links.Some? && a.links.value != [] then dumps(a.links.value) else NoLinks),
            a.authors, a.publicationDate, now, true)
  }

  /** `email` is used by a user other than `id`. */
  predicate EmailTaken(users: map<nat, User>, email: string, except: Option<nat>) {
    exists id :: id in users && users[id].email == email && Some(id) != except
  }

  /** The answer of `check_domain_exists` given the ids of the articles with that domain. */
  function DomainOutcome(domain: Option<string>, matches: seq<nat>): (r: Result<bool, DbError>)
    ensures !Truthy(domain) ==> r == Ok(false)
    ensures Truthy(domain) ==> (r == Ok(false) <==> |matches| == 0)
    ensures Truthy(domain) ==> (r == Ok(true) <==> |matches| == 1)
    ensures Truthy(domain) ==> (r == Err(MultipleResultsFound) <==> |matches| >= 2)
  {
    if !Truthy(domain) then Ok(false)
    else if |matches| == 0 then Ok(false)
    else if |matches| == 1 then Ok(true)
    else Err(MultipleResultsFound)
  }

  // ---------------------------------------------------------------------
  // The store
  // ---------------------------------------------------------------------

  /**
   * The statements once article `articleId` is deleted: each statement of
   * that article loses its `article_id`, and every other statement is kept.
   */
  function Detached(statements: map<nat, Statement>, articleId: nat): (r: map<nat, Statement>)
    ensures r.Keys == statements.Keys
    ensures forall k :: k in r ==> r[k].articleId != Some(articleId)
    ensures forall k :: k in r && statements[k].articleId != Some(articleId) ==> r[k] == statements[k]
    ensures forall k :: k in r ==> r[k] == statements[k].(articleId := r[k].articleId)
  {
    map k | k in statements :: if statements[k].articleId == Some(articleId) then statements[k].(articleId := None) else statements[k]
  }

  class Store {
    var users: map<nat, User>
    var articles: map<nat, Article>
    var statements: map<nat, Statement>
    /** The next values of the three id sequences; a sequence value is never reused. */
    var nextUserId: nat
    var nextArticleId: nat
    var nextStatementId: nat

    /** Every row sits under its own id, below its sequence, and no two users share an email. */
    predicate Valid()
      reads this
    {
      && 0 < nextUserId && 0 < nextArticleId && 0 < nextStatementId
      && (forall id :: id in users ==> 0 < id < nextUserId && users[id].id == id)
      && (forall id :: id in articles ==> 0 < id < nextArticleId && articles[id].id == id)
      && (forall id :: id in statements ==> 0 < id < nextStatementId && statements[id].id == id)
      && (forall i, j :: i in users && j in users && users[i].email == users[j].email ==> i == j)
    }

    constructor ()
      ensures Valid()
      ensures users == map[] && articles == map[] && statements == map[]
      ensures nextUserId == 1 && nextArticleId == 1 && nextStatementId == 1
    {
      users := map[];
      articles := map[];
      statements := map[];
      nextUserId := 1;
      nextArticleId := 1;
      nextStatementId := 1;
    }

    function UserIds(): seq<nat>
      reads this
    {
      IdsBetween(users.Keys, 0, nextUserId)
    }

    function ArticleIds(): seq<nat>
      reads this
    {
      IdsBetween(articles.Keys, 0, nextArticleId)
    }

    function StatementIds(): seq<nat>
      reads this
    {
      IdsBetween(statements.Keys, 0, nextStatementId)
    }

    // -- users --------------------------------------------------------

    /** `create_user`: stores the hash of the password, never the password; a used email violates the unique index. */
    method CreateUser(user: UserCreate, hash: string -> string, now: Time) returns (r: Result<User, DbError>)
      requires Valid()
      modifies this`users, this`nextUserId
      ensures Valid()
      ensures nextUserId == old(nextUserId) + 1
      ensures EmailTaken(old(users), user.email, None) ==>
        r == Err(IntegrityError(UserEmailKey)) && users == old(users)
      ensures !EmailTaken(old(users), user.email, None) ==>
        && r == Ok(User(old(nextUserId), user.username, user.email, hash(user.password), true, false, now))
        && users == old(users)[old(nextUserId) := r.value]
    {
      var id := nextUserId;
      nextUserId := nextUserId + 1;
      if EmailTaken(users, user.email, None) {
        return Err(IntegrityError(UserEmailKey));
      }
      var u := User(id, user.username, user.email, hash(user.password), true, false, now);
      assert id !in users;
      users := users[id := u];
      r := Ok(u);
    }

    function GetUser(id: nat): (r: Option<User>)
      requires Valid()
      reads this
      ensures r.Some? <==> id in users
      ensures r.Some? ==> r.value.id == id && r.value == users[id]
    {
      if id in users then Some(users[id]) else None
    }

    /** `get_users`: at most `limit` users, skipping `skip`, in ascending id order. */
    function GetUsers(skip: int, limit: int): (r: Result<seq<User>, DbError>)
      requires Valid()
      reads this
      ensures r.Ok? <==> skip >= 0 && limit >= 0
      ensures r.Ok? ==> |r.value| <= limit
      ensures r.Ok? ==> |r.value| == (if skip >= |UserIds()| then 0 else if |UserIds()| - skip < limit then |UserIds()| - skip else limit)
      ensures r.Ok? ==> forall i :: 0 <= i < |r.value| ==> skip + i < |UserIds()| && r.value[i] == users[UserIds()[skip + i]]
      ensures r.Ok? ==> forall i, j :: 0 <= i < j < |r.value| ==> r.value[i].id < r.value[j].id
    {
      match Page(UserIds(), skip, limit)
      case Err(e) => Err(e)
      case Ok(ids) => Ok(Select(users, ids))
    }

    /** `update_user`: each supplied field set in turn, a password through its hash; a clashing email is rolled back. */
    method UpdateUser(id: nat, update: UserUpdate, hash: string -> string) returns (r: Result<User, DbError>)
      requires Valid() && id in users
      modifies this`users
      ensures Valid()
      ensures var u := ApplyUserItems(old(users)[id], UserItems(update), hash);
        if EmailTaken(old(users), u.email, Some(id)) then r == Err(IntegrityError(UserEmailKey)) && users == old(users)
        else r == Ok(u) && users == old(users)[id := u]
    {
      var user := users[id];
      var items := UserItems(update);
      var i := 0;
      while i < |items|
        invariant 0 <= i <= |items|
        invariant user.id == id
        invariant ApplyUserItems(user, items[i..], hash) == ApplyUserItems(users[id], items, hash)
      {
        var (key, value) := items[i];
        match key {
          case Password => user := user.(hashedPassword := hash(value));
          case Username => user := user.(username := value);
          case Email => user := user.(email := value);
        }
        i := i + 1;
      }
      assert items[i..] == [];
      if EmailTaken(users, user.email, Some(id)) {
        return Err(IntegrityError(UserEmailKey));
      }
      users := users[id := user];
      r := Ok(user);
    }

    /** Some article is owned by user `id`. */
    predicate OwnsArticle(id: nat)
      reads this
    {
      exists k :: k in articles && articles[k].userId == id
    }

    /** Some statement is authored by user `id`. */
    predicate AuthorsStatement(id: nat)
      reads this
    {
      exists k :: k in statements && statements[k].userId == Some(id)
    }

    /**
     * `delete_user`: the user is gone, unless an article or a statement
     * still refers to it, in which case the commit violates that foreign
     * key and nothing changes.
     */
    method DeleteUser(id: nat) returns (r: Result<(), DbError>)
      requires Valid() && id in users
      modifies this`users
      ensures Valid()
      ensures OwnsArticle(id) ==> r == Err(IntegrityError(ArticleUserKey)) && users == old(users)
      ensures !OwnsArticle(id) && AuthorsStatement(id) ==> r == Err(IntegrityError(StatementUserKey)) && users == old(users)
      ensures !OwnsArticle(id) && !AuthorsStatement(id) ==> r == Ok(()) && users == old(users) - {id}
    {
      if OwnsArticle(id) {
        return Err(IntegrityError(ArticleUserKey));
      }
      if AuthorsStatement(id) {
        return Err(IntegrityError(StatementUserKey));
      }
      users := users - {id};
      r := Ok(());
    }

    // -- articles -----------------------------------------------------

    /**
     * `check_domain_exists`: false for an absent or empty domain; otherwise
     * whether one article has it, and an error when several do.
     */
    function CheckDomainExists(domain: Option<string>): (r: Result<bool, DbError>)
      reads this
      ensures !Truthy(domain) ==> r == Ok(false)
    {
      DomainOutcome(domain, Matching(articles, ArticleIds(), (a: Article) => a.domain == domain))
    }

    /** The articles whose domain is `domain`. */
    function ArticlesWithDomain(domain: string): set<nat>
      reads this
    {
      set id | id in articles && articles[id].domain == Some(domain)
    }

    /**
     * `create_article`: refused when the domain is set and already used,
     * otherwise stored as a new active, unapproved article of `userId`
     * with its links encoded (`"[]"` when there are none). A value too long
     * for its column fails the insert, which is not caught; the id
     * sequence has then already advanced, since its default is computed
     * before the values are fitted to their columns.
     */
    method CreateArticle(article: ArticleCreate, userId: nat, dumps: seq<string> -> string, now: Time)
      returns (r: Result<Article, DbError>)
      requires Valid()
      modifies this`articles, this`nextArticleId
      ensures Valid()
      ensures Truthy(article.domain) && old(CheckDomainExists(article.domain)).Err? ==>
        r == Err(old(CheckDomainExists(article.domain)).error) && unchanged(this)
      ensures Truthy(article.domain) && old(CheckDomainExists(article.domain)) == Ok(true) ==>
        r == Err(ValueError(DuplicateDomainMessage(article.domain.value))) && unchanged(this)
      ensures (!Truthy(article.domain) || old(CheckDomainExists(article.domain)) == Ok(false)) ==>
        var a := NewArticle(old(nextArticleId), article, userId, dumps, now);
        && nextArticleId == old(nextArticleId) + 1
        && (!FitsColumns(a) ==> r == Err(ColumnsError(a).value) && articles == old(articles))
        && (FitsColumns(a) ==> r == Ok(a) && articles == old(articles)[old(nextArticleId) := a])
    {
      if Truthy(article.domain) {
        var found := CheckDomainExists(article.domain);
        if found.Err? {
          return Err(found.error);
        }
        if found.value {
          return Err(ValueError(DuplicateDomainMessage(article.domain.value)));
        }
      }
      var a := NewArticle(nextArticleId, article, userId, dumps, now);
      var id := nextArticleId;
      nextArticleId := nextArticleId + 1;
      var error := ColumnsError(a);
      if error.Some? {
        return Err(error.value);
      }
      assert id !in articles;
      articles := articles[id := a];
      r := Ok(a);
    }

    function GetArticle(id: nat): (r: Option<Article>)
      requires Valid()
      reads this
      ensures r.Some? <==> id in articles
      ensures r.Some? ==> r.value.id == id && r.value == articles[id]
    {
      if id in articles then Some(articles[id]) else None
    }

    /** `get_articles`: at most `limit` articles, skipping `skip`, in ascending id order. */
    function GetArticles(skip: int, limit: int): (r: Result<seq<Article>, DbError>)
      requires Valid()
      reads this
      ensures r.Ok? <==> skip >= 0 && limit >= 0
      ensures r.Ok? ==> |r.value| <= limit
      ensures r.Ok? ==> |r.value| == (if skip >= |ArticleIds()| then 0 else if |ArticleIds()| - skip < limit then |ArticleIds()| - skip else limit)
      ensures r.Ok? ==> forall i :: 0 <= i < |r.value| ==> skip + i < |ArticleIds()| && r.value[i] == articles[ArticleIds()[skip + i]]
      ensures r.Ok? ==> forall i, j :: 0 <= i < j < |r.value| ==> r.value[i].id < r.value[j].id
    {
      match Page(ArticleIds(), skip, limit)
      case Err(e) => Err(e)
      case Ok(ids) => Ok(Select(articles, ids))
    }

    /**
     * `update_article`: each supplied field set in turn, links re-encoded;
     * there is no domain check. A value too long for its column fails the
     * commit, which is not caught, and the stored article stays as it was.
     */
    method UpdateArticle(id: nat, update: ArticleUpdate, dumps: seq<string> -> string) returns (r: Result<Article, DbError>)
      requires Valid() && id in articles
      modifies this`articles
      ensures Valid()
      ensures var a := ApplyArticleItems(old(articles)[id], ArticleItems(update, dumps));
        && (!FitsColumns(a) ==> r == Err(ColumnsError(a).value) && articles == old(articles))
        && (FitsColumns(a) ==> r == Ok(a) && articles == old(articles)[id := a])
    {
      var a := SetArticleItems(articles[id], ArticleItems(update, dumps));
      var error := ColumnsError(a);
      if error.Some? {
        return Err(error.value);
      }
      articles := articles[id := a];
      r := Ok(a);
    }

    /**
     * `delete_article`: the article is gone, and its statements stay with
     * their `article_id` set to null, as the ORM does for a relationship
     * without a delete cascade.
     */
    method DeleteArticle(id: nat)
      requires Valid() && id in articles
      modifies this`articles, this`statements
      ensures Valid()
      ensures articles == old(articles) - {id}
      ensures statements == Detached(old(statements), id)
    {
      articles := articles - {id};
      statements := Detached(statements, id);
    }

    // -- statements ---------------------------------------------------

    /** `create_statement`: the new statement is stamped with the article and the author given. */
    method CreateStatement(statement: StatementCreate, articleId: nat, userId: nat, now: Time) returns (r: Statement)
      requires Valid()
      modifies this`statements, this`nextStatementId
      ensures Valid()
      ensures r == Statement(old(nextStatementId), statement.content, statement.verdict, statement.explanation,
                             now, Some(articleId), Some(userId), [])
      ensures statements == old(statements)[old(nextStatementId) := r]
      ensures nextStatementId == old(nextStatementId) + 1
    {
      r := Statement(nextStatementId, statement.content, statement.verdict, statement.explanation,
                     now, Some(articleId), Some(userId), []);
      assert nextStatementId !in statements;
      statements := statements[nextStatementId := r];
      nextStatementId := nextStatementId + 1;
    }

    function GetStatement(id: nat): (r: Option<Statement>)
      requires Valid()
      reads this
      ensures r.Some? <==> id in statements
      ensures r.Some? ==> r.value.id == id && r.value == statements[id]
    {
      if id in statements then Some(statements[id]) else None
    }

    /** `get_statements`: at most `limit` statements, skipping `skip`, in ascending id order. */
    function GetStatements(skip: int, limit: int): (r: Result<seq<Statement>, DbError>)
      requires Valid()
      reads this
      ensures r.Ok? <==> skip >= 0 && limit >= 0
      ensures r.Ok? ==> |r.value| <= limit
      ensures r.Ok? ==> |r.value| == (if skip >= |StatementIds()| then 0 else if |StatementIds()| - skip < limit then |StatementIds()| - skip else limit)
      ensures r.Ok? ==> forall i :: 0 <= i < |r.value| ==> skip + i < |StatementIds()| && r.value[i] == statements[StatementIds()[skip + i]]
      ensures r.Ok? ==> forall i, j :: 0 <= i < j < |r.value| ==> r.value[i].id < r.value[j].id
    {
      match Page(StatementIds(), skip, limit)
      case Err(e) => Err(e)
      case Ok(ids) => Ok(Select(statements, ids))
    }

    /** `get_article_statements`: exactly the stored statements of the article, in ascending id order. */
    function GetArticleStatements(articleId: nat): (r: seq<Statement>)
      requires Valid()
      reads this
      ensures forall i :: 0 <= i < |r| ==> r[i].articleId == Some(articleId) && r[i].id in statements && statements[r[i].id] == r[i]
      ensures forall id :: id in statements && statements[id].articleId == Some(articleId) ==> statements[id] in r
      ensures forall i, j :: 0 <= i < j < |r| ==> r[i].id < r[j].id
    {
      var ids := Matching(statements, StatementIds(), (s: Statement) => s.articleId == Some(articleId));
      var r := Select(statements, ids);
      assert forall id :: id in statements && statements[id].articleId == Some(articleId) ==> statements[id] in r by {
        forall id | id in statements && statements[id].articleId == Some(articleId) ensures statements[id] in r {
          assert id in StatementIds();
          MatchingHas(statements, StatementIds(), (s: Statement) => s.articleId == Some(articleId), id);
          SelectHas(statements, ids, id);
        }
      }
      r
    }

    /**
     * `update_statement` as intended: verdict and explanation overwritten,
     * references replaced when given and kept when omitted.
     */
    method UpdateStatement(id: nat, verdict: string, explanation: string, references: Option<seq<Reference>>)
      returns (r: Statement)
      requires Valid() && id in statements
      modifies this`statements
      ensures Valid()
      ensures r.verdict == Some(verdict) && r.explanation == Some(explanation)
      ensures references.Some? ==> r.references == references.value
      ensures references.None? ==> r.references == old(statements)[id].references
      ensures r == old(statements)[id].(verdict := r.verdict, explanation := r.explanation, references := r.references)
      ensures statements == old(statements)[id := r]
    {
      var refs := if references.Some? then references.value else statements[id].references;
      r := statements[id].(verdict := Some(verdict), explanation := Some(explanation), references := refs);
      statements := statements[id := r];
    }

    /**
     * `update_statement` as written: omitted references are `None`, and
     * assigning `None` to the list relationship raises before the commit,
     * so nothing is stored.
     */
    method UpdateStatementAsWritten(id: nat, verdict: string, explanation: string, references: Option<seq<Reference>>)
      returns (r: Result<Statement, DbError>)
      requires Valid() && id in statements
      modifies this`statements
      ensures Valid()
      ensures references.None? ==> r == Err(TypeError(NoneNotListLike)) && statements == old(statements)
      ensures references.Some? ==>
        && r.Ok?
        && r.value == old(statements)[id].(verdict := Some(verdict), explanation := Some(explanation), references := references.value)
        && statements == old(statements)[id := r.value]
    {
      if references.None? {
        return Err(TypeError(NoneNotListLike));
      }
      var s := UpdateStatement(id, verdict, explanation, references);
      r := Ok(s);
    }

    method DeleteStatement(id: nat)
      requires Valid() && id in statements
      modifies this`statements
      ensures Valid()
      ensures statements == old(statements) - {id}
    {
      statements := statements - {id};
    }
  }

  // ---------------------------------------------------------------------
  // Properties of the update and create rules
  // ---------------------------------------------------------------------

  lemma {:induction false} ApplyUserItemsAppend(u: User, a: seq<(UserKey, string)>, b: seq<(UserKey, string)>, hash: string -> string)
    ensures ApplyUserItems(u, a + b, hash) == ApplyUserItems(ApplyUserItems(u, a, hash), b, hash)
    decreases |a|
  {
    if a == [] {
      assert a + b == b;
    } else {
      assert (a + b)[1..] == a[1..] + b;
      ApplyUserItemsAppend(SetUserItem(u, a[0], hash), a[1..], b, hash);
    }
  }

  /**
   * `update_user` sets exactly the supplied fields, and a supplied password
   * reaches the record only as its hash; id, activity, admin flag and
   * creation time never change.
   */
  lemma {:induction false} UpdateUserSetsSuppliedFields(u: User, upd: UserUpdate, hash: string -> string)
    ensures ApplyUserItems(u, UserItems(upd), hash) == UpdatedUser(u, upd, hash)
  {
    var a := if upd.username.Some? then [(Username, upd.username.value)] else [];
    var b := if upd.email.Some? then [(Email, upd.email.value)] else [];
    var c := if upd.password.Some? then [(Password, upd.password.value)] else [];
    assert UserItems(upd) == a + b + c;
    ApplyUserItemsAppend(u, a + b, c, hash);
    ApplyUserItemsAppend(u, a, b, hash);
  }

  /** Applying an optional first item, then the rest. */
  lemma ApplyItemIf(x: Article, present: bool, item: ArticleItem, rest: seq<ArticleItem>, y: Article)
    requires y == if present then SetArticleItem(x, item) else x
    ensures ApplyArticleItems(x, ItemIf(present, item) + rest) == ApplyArticleItems(y, rest)
  {
    if present {
      assert ([item] + rest)[1..] == rest;
    } else {
      assert [] + rest == rest;
    }
  }

  /**
   * `update_article` sets exactly the supplied fields, links re-encoded with
   * `json.dumps`; id, owner, creation and extraction dates and the active
   * flag never change.
   */
  lemma {:induction false} UpdateArticleSetsSuppliedFields(x: Article, u: ArticleUpdate, dumps: seq<string> -> string)
    ensures ApplyArticleItems(x, ArticleItems(u, dumps)) == UpdatedArticle(x, u, dumps)
  {
    var r5 := LaterItems(u, dumps);
    var r4 := ItemIf(u.authors.Some?, SetAuthors(Pick(u.authors, None))) + r5;
    var r3 := ItemIf(u.domain.Some?, SetDomain(Pick(u.domain, None))) + r4;
    var r2 := ItemIf(u.text.Some?, SetText(Pick(u.text, []))) + r3;
    var a1 := x.(title := Pick(u.title, x.title));
    var a2 := a1.(text := Pick(u.text, x.text));
    var a3 := a2.(domain := Pick(u.domain, x.domain));
    var a4 := a3.(authors := Pick(u.authors, x.authors));
    ApplyItemIf(x, u.title.Some?, SetTitle(Pick(u.title, [])), r2, a1);
    ApplyItemIf(a1, u.text.Some?, SetText(Pick(u.text, [])), r3, a2);
    ApplyItemIf(a2, u.domain.Some?, SetDomain(Pick(u.domain, None)), r4, a3);
    ApplyItemIf(a3, u.authors.Some?, SetAuthors(Pick(u.authors, None)), r5, a4);
    ApplyLaterItems(a4, u, dumps);
  }

  /** The items for the publication date, the approval flag and the links. */
  function LaterItems(u: ArticleUpdate, dumps: seq<string> -> string): seq<ArticleItem> {
    ItemIf(u.publicationDate.Some?, SetPublicationDate(Pick(u.publicationDate, None)))
    + (ItemIf(u.isApproved.Some?, SetIsApproved(Pick(u.isApproved, false)))
    + ItemIf(u.links.Some?, SetLinks(EncodeLinks(Pick(u.links, None), dumps))))
  }

  lemma ApplyLaterItems(y: Article, u: ArticleUpdate, dumps: seq<string> -> string)
    ensures ApplyArticleItems(y, LaterItems(u, dumps))
         == y.(publicationDate := Pick(u.publicationDate, y.publicationDate),
               isApproved := Pick(u.isApproved, y.isApproved),
               links := if u.links.Some? then Some(EncodeLinks(u.links.value, dumps)) else y.links)
  {
    var p7 := ItemIf(u.links.Some?, SetLinks(EncodeLinks(Pick(u.links, None), dumps)));
    var r6 := ItemIf(u.isApproved.Some?, SetIsApproved(Pick(u.isApproved, false))) + p7;
    var a5 := y.(publicationDate := Pick(u.publicationDate, y.publicationDate));
    var a6 := a5.(isApproved := Pick(u.isApproved, y.isApproved));
    var a7 := a6.(links := if u.links.Some? then Some(EncodeLinks(u.links.value, dumps)) else y.links);
    ApplyItemIf(y, u.publicationDate.Some?, SetPublicationDate(Pick(u.publicationDate, None)), r6, a5);
    ApplyItemIf(a5, u.isApproved.Some?, SetIsApproved(Pick(u.isApproved, false)), p7, a6);
    ApplyItemIf(a6, u.links.Some?, SetLinks(EncodeLinks(Pick(u.links, None), dumps)), [], a7);
    assert p7 + [] == p7;
  }

  /** A new article is active, unapproved, owned by the caller, and has `"[]"` as links when none (or an empty list) were given. */
  lemma NewArticleDefaults(id: nat, a: ArticleCreate, userId: nat, dumps: seq<string> -> string, now: Time)
    ensures var x := NewArticle(id, a, userId, dumps, now);
      && x.isActive && !x.isApproved && x.userId == userId && x.id == id
      && x.title == a.title && x.text == a.text && x.domain == a.domain
      && (a.links.None? || a.links == Some([]) ==> x.links == Some(NoLinks))
      && (a.links.Some? && a.links.value != [] ==> x.links == Some(dumps(a.links.value)))
  {
  }

  /**
   * `check_domain_exists` against a table: an absent or empty domain never
   * conflicts; otherwise the answer is false exactly when no article has
   * the domain, true when one does, an error when several do.
   */
  lemma CheckDomainExistsCounts(s: Store, domain: Option<string>)
    requires s.Valid()
    ensures !Truthy(domain) ==> s.CheckDomainExists(domain) == Ok(false)
    ensures Truthy(domain) ==> (s.CheckDomainExists(domain) == Ok(false) <==> s.ArticlesWithDomain(domain.value) == {})
    ensures Truthy(domain) && s.CheckDomainExists(domain) == Ok(true) ==> |s.ArticlesWithDomain(domain.value)| == 1
    ensures Truthy(domain) && s.CheckDomainExists(domain).Err? ==> |s.ArticlesWithDomain(domain.value)| >= 2
  {
    if Truthy(domain) {
      var ids := Matching(s.articles, s.ArticleIds(), (a: Article) => a.domain == domain);
      var set_ := s.ArticlesWithDomain(domain.value);
      assert forall id :: id in set_ <==> id in ids by {
        forall id ensures id in set_ <==> id in ids {
          if id in set_ {
            assert id in s.ArticleIds();
          }
        }
      }
      DistinctCount(ids, set_);
    }
  }

  /** An increasing sequence has as many elements as the set of its elements. */
  lemma {:induction false} DistinctCount(ids: seq<nat>, s: set<nat>)
    requires Increasing(ids)
    requires forall id :: id in s <==> id in ids
    ensures |s| == |ids|
    decreases |ids|
  {
    if ids == [] {
      assert s == {};
    } else {
      var rest := s - {ids[0]};
      assert forall id :: id in rest <==> id in ids[1..] by {
        forall id ensures id in rest <==> id in ids[1..] {
          if id in ids[1..] {
            var k :| 0 <= k < |ids[1..]| && ids[1..][k] == id;
            assert ids[k + 1] == id && ids[0] < ids[k + 1];
          }
        }
      }
      DistinctCount(ids[1..], rest);
    }
  }
}
