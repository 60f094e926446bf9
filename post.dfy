/**
 * `get_post_content`: one post page turned into records, the post's own
 * record first and then the records of its comment tree.
 */
module Post {
  import opened Wrappers
  import opened Text
  import opened Html
  import opened Fetch
  import opened Comments

  /**
   * The post's own fields can be read without raising: there is a title
   * link, an author div whose first link has an `href`, and a post body.
   */
  predicate PostReadable(doc: Document) {
    && |doc.titles| >= 1
    && doc.authorLinks.Some? && |doc.authorLinks.value| >= 1 && doc.authorLinks.value[0].href.Some?
    && doc.postContent.Some?
  }

  /** The record of the post itself, for a page whose fields can be read. */
  function PostRecord(postId: string, doc: Document): (r: Record)
    requires PostReadable(doc)
    ensures r.kind == PostKind && r.id == Some(postId) && r.parentId == None
    ensures '/' !in r.author && '\n' !in r.content
  {
    Record(PostKind, Some(postId), None, Some(Strip(doc.titles[0].text)),
           LastSegment(doc.authorLinks.value[0].href.value), Normalise(doc.postContent.value))
  }

  /**
   * The records `get_post_content` returns for the parsed page `doc` of post
   * `postId`: the post record, then, when the page has a comment container,
   * the flattened comments with the post id as the top-level parent. Any
   * missing element of the post or of a comment raises.
   */
  function PostContent(postId: string, doc: Document): (r: Outcome<seq<Record>>)
    ensures r.Raised? ==> r.error == MissingElement
    ensures r.Returned? ==> |r.value| >= 1 && r.value[0].kind == PostKind
    ensures r.Returned? ==> PostReadable(doc) && r.value[0] == PostRecord(postId, doc)
  {
    if !PostReadable(doc) then Raised(MissingElement)
    else
      var post := PostRecord(postId, doc);
      match doc.comments
      case None => Returned([post])
      case Some(cs) =>
        if AllExtractable(cs) then Returned([post] + Flatten(cs, Some(postId))) else Raised(MissingElement)
  }

  /** The comments below the post: those of the container, or none when there is no container. */
  function TopComments(doc: Document): seq<Node> {
    if doc.comments.Some? then doc.comments.value else []
  }

  /**
   * The page yields records exactly when the post and every comment can be
   * read; then they are the post record followed by the flattened comments,
   * one record per comment, so 1 + the number of comments in all.
   */
  lemma PostContentShape(postId: string, doc: Document)
    ensures var r := PostContent(postId, doc);
      && (r.Returned? <==> PostReadable(doc) && AllExtractable(TopComments(doc)))
      && (r.Returned? ==>
            && r.value == [PostRecord(postId, doc)] + Flatten(TopComments(doc), Some(postId))
            && |r.value| == 1 + CountNodes(TopComments(doc)))
  {
    if PostReadable(doc) && doc.comments.None? {
      assert [PostRecord(postId, doc)] + [] == [PostRecord(postId, doc)];
    }
  }

  /** A page without a comment container gives the post record alone. */
  lemma NoCommentsSingleton(postId: string, doc: Document)
    requires PostReadable(doc) && doc.comments.None?
    ensures PostContent(postId, doc) == Returned([PostRecord(postId, doc)])
  {
  }

  /** An empty comment container gives the post record alone too. */
  lemma EmptyCommentsSingleton(postId: string, doc: Document)
    requires PostReadable(doc) && doc.comments == Some([])
    ensures PostContent(postId, doc) == Returned([PostRecord(postId, doc)])
  {
    assert [PostRecord(postId, doc)] + [] == [PostRecord(postId, doc)];
  }

  /**
   * Every record after the first is a comment, each one is the record of a
   * comment of the page built with its parent's id (the post id at the top
   * level), and every comment of the page has its record there.
   */
  lemma PostContentLinkage(postId: string, doc: Document)
    requires PostContent(postId, doc).Returned?
    ensures var rs := PostContent(postId, doc).value;
      && (forall k :: 1 <= k < |rs| ==> rs[k].kind == CommentKind)
      && (forall r :: r in rs[1..] <==> LinkedUnder(TopComments(doc), Some(postId), r))
  {
    PostContentShape(postId, doc);
    var rs := PostContent(postId, doc).value;
    var tail := Flatten(TopComments(doc), Some(postId));
    assert rs[1..] == tail;
    FlattenRecordsAreComments(TopComments(doc), Some(postId));
    FlattenMembers(TopComments(doc), Some(postId));
    forall k | 1 <= k < |rs| ensures rs[k].kind == CommentKind {
      assert rs[k] == tail[k - 1];
    }
  }

  /** No author in the output contains a '/', and no content contains a newline. */
  lemma PostContentText(postId: string, doc: Document)
    requires PostContent(postId, doc).Returned?
    ensures forall r :: r in PostContent(postId, doc).value ==> '/' !in r.author && '\n' !in r.content
  {
    PostContentShape(postId, doc);
    FlattenRecordsAreComments(TopComments(doc), Some(postId));
  }

  /** The path `get_post_content` fetches for a post. */
  function PostPath(postId: string): string {
    "/post/" + postId
  }

  /**
   * `get_post_content` with its fetch: a fetch that raises propagates;
   * otherwise the response, whatever its status, is parsed and returned
   * with the records read from it.
   */
  function PostContentRun(baseUrl: string, cookies: Cookies, postId: string, script: seq<Attempt>)
    : (r: Run<(Response, seq<Record>)>)
    ensures r.rest == Get(baseUrl + PostPath(postId), cookies, script).rest
    ensures r.events == Get(baseUrl + PostPath(postId), cookies, script).events
  {
    var g := Get(baseUrl + PostPath(postId), cookies, script);
    match g.result
    case Raised(e) => Run(Raised(e), g.rest, g.events)
    case Returned(response) =>
      match PostContent(postId, response.doc)
      case Raised(e) => Run(Raised(e), g.rest, g.events)
      case Returned(data) => Run(Returned((response, data)), g.rest, g.events)
  }

  /**
   * The run raises UnboundResponse exactly when both fetch attempts fail;
   * otherwise it returns the received response together with the page's
   * records, or raises MissingElement when the page lacks an element.
   */
  lemma PostContentRunOutcome(baseUrl: string, cookies: Cookies, postId: string, script: seq<Attempt>)
    ensures var r := PostContentRun(baseUrl, cookies, postId, script);
      var g := Get(baseUrl + PostPath(postId), cookies, script);
      && (r.result == Raised(UnboundResponse) <==> AttemptAt(script, 0).Failed? && AttemptAt(script, 1).Failed?)
      && (g.result.Returned? ==>
            match PostContent(postId, g.result.value.doc)
            case Returned(data) => r.result == Returned((g.result.value, data))
            case Raised(e) => r.result == Raised(MissingElement))
  {
    GetAttempts(baseUrl + PostPath(postId), cookies, script);
  }
}
