/** The article routes of rbac-backend/src/routes/articleRoutes.js: an
    in-memory article list behind `authenticate` and checkPermission, read by
    GET, appended to by POST and filtered by DELETE. */
module ArticleRoutes {
  import opened Common
  import opened UserService
  import opened Http
  import opened ActivityService
  import opened RbacMiddleware
  import opened AuthMiddleware

  datatype Article = Article(id: string, title: string, content: string, author: string, createdAt: Option<string>)

  datatype ArticleBody = ArticleBody(title: Option<string>, content: Option<string>)

  /** The `data` of a successful GET. */
  datatype Listing = Listing(email: string, roles: Option<seq<string>>, articles: seq<Article>)

  /** The outcome of the middleware chain `authenticate, checkPermission(p)`. */
  datatype Gate = Admitted(user: PublicUser) | Refused(halt: Halt)

  /** The chain admits a request when `authenticate` attaches an identity and
      one of its roles grants `p`. A refused request gets authenticate's answer
      or, for an authenticated caller, checkPermission's 403. */
  function Admission(header: Option<string>, users: seq<User>, verify: string -> VerifyOutcome,
                     rolesFile: Option<RoleMapping>, p: Permission): (g: Gate)
    ensures g.Admitted? ==> Authentication(header, users, verify) == Authenticated(g.user)
    ensures g.Admitted? <==>
      Authentication(header, users, verify).Authenticated? &&
      exists r :: r in RolesOf(Authentication(header, users, verify).user) && Grants(LoadRoles(rolesFile), r, p)
    ensures g.Refused? ==>
      match Authentication(header, users, verify)
      case Rejected(h) => g.halt == h
      case Authenticated(u) => Stop(g.halt) == PermissionDecision(Some(u), LoadRoles(rolesFile), p)
  {
    match Authentication(header, users, verify)
    case Rejected(h) => Refused(h)
    case Authenticated(u) =>
      EffectiveIffGranted(RolesOf(u), LoadRoles(rolesFile), p);
      match PermissionDecision(Some(u), LoadRoles(rolesFile), p)
      case Next => Admitted(u)
      case Stop(h) => Refused(h)
  }

  method Admit(req: Request, users: UserStore, verify: string -> VerifyOutcome,
               rolesFile: Option<RoleMapping>, p: Permission) returns (g: Gate)
    modifies req`user
    ensures g == Admission(req.authorization, users.AllUsers(), verify, rolesFile, p)
    ensures g.Admitted? ==> req.user == Some(g.user)
  {
    var d := Authenticate(req, users, verify);
    if d.Stop? {
      return Refused(d.halt);
    }
    d := CheckPermission(req.user, rolesFile, p);
    if d.Stop? {
      return Refused(d.halt);
    }
    g := Admitted(req.user.value);
  }

  function HasArticleId(id: string): Article -> bool { (a: Article) => a.id == id }
  function LacksArticleId(id: string): Article -> bool { (a: Article) => a.id != id }

  /** `articles.filter(article => article.id !== id)`. */
  function WithoutArticle(articles: seq<Article>, id: string): (r: seq<Article>)
    ensures forall a: Article :: a in r <==> a in articles && a.id != id
    ensures IsSubsequence(r, articles)
    ensures forall a: Article :: a.id != id ==> multiset(r)[a] == multiset(articles)[a]
  {
    Filter(articles, LacksArticleId(id))
  }

  /** Deleting an id that is present shortens the list; deleting it again
      changes nothing. */
  lemma {:induction false} WithoutArticleShrinks(articles: seq<Article>, id: string)
    requires FindIndex(articles, HasArticleId(id)) != -1
    ensures |WithoutArticle(articles, id)| < |articles|
    ensures WithoutArticle(WithoutArticle(articles, id), id) == WithoutArticle(articles, id)
  {
    var i := FindIndex(articles, HasArticleId(id));
    FilterDrops(articles, LacksArticleId(id), i);
    FilterIdempotent(articles, LacksArticleId(id));
  }

  function InitialArticles(): seq<Article> {
    [Article("1", "First Article", "Sample content", "System", None),
     Article("2", "Second Article", "More content", "System", None)]
  }

  /** The router module and its `let articles`. */
  class ArticleRouter {
    var articles: seq<Article>

    constructor ()
      ensures articles == InitialArticles()
    {
      articles := InitialArticles();
    }

    /** GET /api/articles, behind `read:articles`: records VIEW_ARTICLES and
        answers with the caller's email and roles and every article. */
    method List(req: Request, users: UserStore, verify: string -> VerifyOutcome,
                rolesFile: Option<RoleMapping>, log: ActivityLog, stamp: Stamp)
      returns (res: Response<Listing>)
      modifies req`user, log`file
      ensures var g := Admission(old(req.authorization), users.AllUsers(), verify, rolesFile, "read:articles");
        (g.Refused? ==> res == Refusal(g.halt) && log.file == old(log.file)) &&
        (g.Admitted? ==>
          res == Success(200, "Articles fetched successfully", Listing(g.user.email, g.user.roles, articles)) &&
          log.file == Logged(old(log.file), log.writable,
                             LogEntry(stamp.id, g.user.id, g.user.name, "VIEW_ARTICLES",
                                      map["count" := Count(|articles|)], stamp.timestamp)))
    {
      var g := Admit(req, users, verify, rolesFile, "read:articles");
      if g.Refused? {
        return Refusal(g.halt);
      }
      var me := g.user;
      var _ := log.AddLog(me.id, me.name, "VIEW_ARTICLES", Some(map["count" := Count(|articles|)]), stamp);
      res := Success(200, "Articles fetched successfully", Listing(me.email, me.roles, articles));
    }

    /** POST /api/articles, behind `write:articles`: 400 without a title and
        content; otherwise appends the article, authored by the caller's email,
        records CREATE_ARTICLE and answers 201 with it. */
    method Create(req: Request, users: UserStore, verify: string -> VerifyOutcome,
                  rolesFile: Option<RoleMapping>, log: ActivityLog, body: ArticleBody,
                  newId: string, now: string, stamp: Stamp)
      returns (res: Response<Article>)
      modifies this, req`user, log`file
      ensures var g := Admission(old(req.authorization), users.AllUsers(), verify, rolesFile, "write:articles");
        (g.Refused? ==> res == Refusal(g.halt) && articles == old(articles) && log.file == old(log.file)) &&
        (g.Admitted? && !(Provided(body.title) && Provided(body.content)) ==>
          res == Failure(400, "Title and content are required") &&
          articles == old(articles) && log.file == old(log.file)) &&
        (g.Admitted? && Provided(body.title) && Provided(body.content) ==>
          var a := Article(newId, body.title.value, body.content.value, g.user.email, Some(now));
          articles == old(articles) + [a] &&
          res == Success(201, "Article created successfully", a) &&
          log.file == Logged(old(log.file), log.writable,
                             LogEntry(stamp.id, g.user.id, g.user.name, "CREATE_ARTICLE",
                                      map["articleId" := Text(a.id), "title" := Text(a.title)], stamp.timestamp)))
    {
      var g := Admit(req, users, verify, rolesFile, "write:articles");
      if g.Refused? {
        return Refusal(g.halt);
      }
      var me := g.user;
      if !Provided(body.title) || !Provided(body.content) {
        return Failure(400, "Title and content are required");
      }
      var newArticle := Article(newId, body.title.value, body.content.value, me.email, Some(now));
      articles := articles + [newArticle];
      var _ := log.AddLog(me.id, me.name, "CREATE_ARTICLE",
                          Some(map["articleId" := Text(newArticle.id), "title" := Text(newArticle.title)]), stamp);
      res := Success(201, "Article created successfully", newArticle);
    }

    /** DELETE /api/articles/:id, behind `delete:articles`: 404 when no article
        has the id; otherwise removes every article with it, records
        DELETE_ARTICLE and answers with the first one removed. */
    method Delete(req: Request, users: UserStore, verify: string -> VerifyOutcome,
                  rolesFile: Option<RoleMapping>, log: ActivityLog, id: string, stamp: Stamp)
      returns (res: Response<Article>)
      modifies this, req`user, log`file
      ensures var g := Admission(old(req.authorization), users.AllUsers(), verify, rolesFile, "delete:articles");
        var i := FindIndex(old(articles), HasArticleId(id));
        (g.Refused? ==> res == Refusal(g.halt) && articles == old(articles) && log.file == old(log.file)) &&
        (g.Admitted? && i == -1 ==>
          res == Failure(404, "Article not found") && articles == old(articles) && log.file == old(log.file)) &&
        (g.Admitted? && i != -1 ==>
          var a := old(articles)[i];
          articles == WithoutArticle(old(articles), id) &&
          res == Success(200, "Article deleted successfully", a) &&
          log.file == Logged(old(log.file), log.writable,
                             LogEntry(stamp.id, g.user.id, g.user.name, "DELETE_ARTICLE",
                                      map["articleId" := Text(a.id), "title" := Text(a.title)], stamp.timestamp)))
    {
      var g := Admit(req, users, verify, rolesFile, "delete:articles");
      if g.Refused? {
        return Refusal(g.halt);
      }
      var me := g.user;
      var articleIndex := FindIndex(articles, HasArticleId(id));
      if articleIndex == -1 {
        return Failure(404, "Article not found");
      }
      var deletedArticle := articles[articleIndex];
      articles := WithoutArticle(articles, id);
      var _ := log.AddLog(me.id, me.name, "DELETE_ARTICLE",
                          Some(map["articleId" := Text(deletedArticle.id), "title" := Text(deletedArticle.title)]), stamp);
      res := Success(200, "Article deleted successfully", deletedArticle);
    }
  }
}
