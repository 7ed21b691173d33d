/** The form that writes a knowledge-base article
    (src/components/Knowledge/CreateArticleModal.tsx): title, content,
    category (chosen among the categories of the existing articles or typed),
    a comma-separated tag field and the public flag. */
module CreateArticle {
  import opened Common
  import opened Domain
  import CreateTicket
  import KnowledgeBase

  datatype ArticleForm = ArticleForm(title: string, content: string, category: string, tags: string, isPublic: bool)

  /** The form as it starts and as a submit leaves it: empty and public. */
  function BlankArticleForm(): ArticleForm
  {
    ArticleForm("", "", "", "", true)
  }

  const MissingFields := "Por favor completa todos los campos obligatorios"

  // The category choices, `[...new Set(knowledgeArticles.map(article =>
  // article.category))]`, are the list the knowledge-base page offers:
  // `KnowledgeBase.Categories`.

  /** `handleSubmit` up to the call of `createKnowledgeArticle`; the store
      sets the id, the timestamps and the counters, so the article carries
      "" and 0 there. */
  function SubmitArticle(f: ArticleForm, user: Option<User>): (r: Result<Article>)
    ensures r.Err? <==> f.title == "" || f.content == "" || f.category == ""
    ensures r.Err? ==> r.message == MissingFields
    ensures r.Ok? ==>
      (r.value.title == f.title && r.value.content == f.content && r.value.category == f.category
       && r.value.isPublic == f.isPublic && r.value.createdBy == CreateTicket.CreatedBy(user))
    ensures r.Ok? ==> r.value.tags == ParseCommaList(f.tags)
  {
    if f.title == "" || f.content == "" || f.category == "" then Err(MissingFields)
    else
      Ok(Article("", f.title, f.content, f.category, ParseCommaList(f.tags), CreateTicket.CreatedBy(user), 0, 0, 0, 0,
                 0, f.isPublic))
  }

  /** The form after a submit: blank and public when the article was
      created, unchanged when it was refused. */
  function FormAfterSubmit(f: ArticleForm, user: Option<User>): (g: ArticleForm)
    ensures SubmitArticle(f, user).Ok? ==> g == BlankArticleForm()
    ensures SubmitArticle(f, user).Err? ==> g == f
  {
    if SubmitArticle(f, user).Ok? then BlankArticleForm() else f
  }

  /** Tags written as the entries joined with ", " come back as those
      entries, when each is non-empty, trimmed and free of commas. */
  lemma TagsRoundTrip(f: ArticleForm, user: Option<User>, tags: seq<string>)
    requires f.title != "" && f.content != "" && f.category != ""
    requires forall k :: 0 <= k < |tags| ==> tags[k] != [] && Trimmed(tags[k]) && ',' !in tags[k]
    ensures SubmitArticle(f.(tags := Join(tags, ", ")), user).value.tags == tags
  {
    JoinThenParse(tags);
  }

  /** A new article's category is offered among the choices once the store
      holds it. */
  lemma NewCategoryOffered(f: ArticleForm, user: Option<User>, articles: seq<Article>)
    requires SubmitArticle(f, user).Ok?
    ensures f.category in KnowledgeBase.Categories([SubmitArticle(f, user).value] + articles)
  {
    var all := [SubmitArticle(f, user).value] + articles;
    assert all[0].category == f.category;
  }
}
