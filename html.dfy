/**
 * What the scraper reads from a parsed page. The HTML parser is not modelled:
 * each field below is the answer to one query the scraper makes of it.
 */
module Html {
  import opened Wrappers

  /** An `<a>` element: its `href` attribute (absent attributes read as `None`) and its text. */
  datatype Anchor = Anchor(href: Option<string>, text: string)

  /**
   * One `<div class="comment">` element:
   * - `id`: its `id` attribute;
   * - `username`: the first `<a class="username">` anywhere inside it, its
   *   replies included, if any;
   * - `body`: the text of the first `<div class="commentBody">` anywhere
   *   inside it, its replies included, if any;
   * - `children`: its direct child comment divs, in document order.
   */
  datatype Node = Node(id: Option<string>, username: Option<Anchor>, body: Option<string>, children: seq<Node>)

  /**
   * A parsed page:
   * - `titles`: every `<a class="title">`, in document order;
   * - `next`: the first `<a class="next">`, if any;
   * - `authorLinks`: the anchors of the first `<div class="author">`, if there is one;
   * - `postContent`: the text of the first `<div class="postContent">`, if any;
   * - `comments`: when there is a `<div class="postComments">`, its direct child comment divs.
   */
  datatype Document = Document(
    titles: seq<Anchor>,
    next: Option<Anchor>,
    authorLinks: Option<seq<Anchor>>,
    postContent: Option<string>,
    comments: Option<seq<Node>>)

  /** A received HTTP response: its status code and its parsed body. */
  datatype Response = Response(status: int, doc: Document)
}
