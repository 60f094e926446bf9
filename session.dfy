/**
 * The scraping session: an object holding the site address, the cookie jar
 * and the transport, whose methods fetch pages and turn them into post ids
 * and records. Each method is proved to do what the functions of Fetch,
 * Crawl and Post say, and to leave behind the state and the requests and
 * waits those functions give.
 */
module Session {
  import opened Wrappers
  import opened Seqs
  import opened Text
  import opened Html
  import opened Fetch
  import opened Listing
  import opened Comments
  import opened Crawl
  import opened Post

  /** The onion address every path is appended to. */
  const DreadOnion: string := "http://dreadytofatroptsdj6io7l3xptbet6onoyno2yv7jicoxknyazubrad.onion"

  /** The list of record dictionaries that the comment extraction appends to in place. */
  class RecordList {
    var records: seq<Record>

    constructor(initial: seq<Record>)
      ensures records == initial
    {
      records := initial;
    }

    /** `data.append(record)`. */
    method Append(r: Record)
      modifies this
      ensures records == old(records) + [r]
    {
      records := records + [r];
    }
  }

  class DreadSession {
    const baseUrl: string
    var cookies: Cookies
    /** The outcomes the transport's remaining attempts will have. */
    var script: seq<Attempt>
    /** The requests and waits made so far. */
    ghost var trace: seq<Event>

    /** A session with the given cookie jar, over a transport that will behave as `script` says. */
    constructor(cookies: Cookies, script: seq<Attempt>)
      ensures baseUrl == DreadOnion && this.cookies == cookies && this.script == script && trace == []
    {
      baseUrl := DreadOnion;
      this.cookies := cookies;
      this.script := script;
      trace := [];
    }

    /** One attempt of the underlying transport's GET of `url`, with the session's cookies. */
    method Send(url: string) returns (a: Attempt)
      modifies this`script, this`trace
      ensures (a, script) == Pop(old(script))
      ensures trace == old(trace) + [Request(url, cookies)]
    {
      a := if script == [] then Failed else script[0];
      script := if script == [] then [] else script[1..];
      trace := trace + [Request(url, cookies)];
    }

    /** `sleep(seconds)`: only recorded. */
    method Sleep(seconds: nat)
      modifies this`trace
      ensures trace == old(trace) + [Wait(seconds)]
    {
      trace := trace + [Wait(seconds)];
    }

    /** `get(path)`: an attempt, and after a failure a cooldown and one more attempt. */
    method Get(path: string) returns (r: Outcome<Response>)
      modifies this`script, this`trace
      ensures var g := Fetch.Get(baseUrl + path, cookies, old(script));
        r == g.result && script == g.rest && trace == old(trace) + g.events
    {
      var a := Send(baseUrl + path);
      if a.Received? {
        r := Returned(a.response);
      } else {
        Sleep(RetryCooldown);
        a := Send(baseUrl + path);
        if a.Received? {
          r := Returned(a.response);
        } else {
          r := Raised(UnboundResponse);
        }
      }
    }

    /** `get_subpage(subpage)`: `get` of "/d/" followed by `subpage`. */
    method GetSubpage(subpage: string) returns (r: Outcome<Response>)
      modifies this`script, this`trace
      ensures var g := Fetch.Get(SubpageUrl(baseUrl, subpage), cookies, old(script));
        r == g.result && script == g.rest && trace == old(trace) + g.events
    {
      assert baseUrl + ("/d/" + subpage) == SubpageUrl(baseUrl, subpage);
      r := Get("/d/" + subpage);
    }

    /**
     * `get_post_ids`: fetch the first listing page, then collect the ids of
     * each page and follow its "next" link while pagination is on. The
     * outcome, the transport left and the requests made are those of
     * PostIds; a page whose status is not 200 ends the loop (see Findings).
     */
    method GetPostIds(subpage: string, startFrom: int := 1, sort: string := "new", pagination: bool := false)
      returns (r: Outcome<seq<string>>)
      modifies this`script, this`trace
      ensures var run := PostIds(Config(baseUrl, cookies, subpage, pagination), startFrom, sort, old(script));
        r == run.result && script == run.rest && trace == old(trace) + run.events
    {
      ghost var cfg := Config(baseUrl, cookies, subpage, pagination);
      ghost var trace0 := trace;
      ghost var g := Fetch.Get(SubpageUrl(baseUrl, subpage + "?p=" + Decimal(startFrom) + "&sort=" + sort), cookies, script);
      var first := GetSubpage(subpage + "?p=" + Decimal(startFrom) + "&sort=" + sort);
      if first.Raised? {
        r := Raised(first.error);
        return;
      }
      var response := first.value;
      var postIds: seq<string> := [];
      ghost var target := RunAfter(cfg, Loop(response, [], script), trace);
      AppendAssoc(trace0, g.events, RunLoop(cfg, Loop(response, [], script)).events);
      while true
        invariant RunAfter(cfg, Loop(response, postIds, script), trace) == target
        decreases |script|
      {
        ghost var s := Loop(response, postIds, script);
        ghost var traceAtHead := trace;
        if response.status != 200 {
          LastPass(cfg, s, trace);
          break;
        }
        postIds := CollectPostIds(postIds, response.doc.titles);
        var nextPage := response.doc.next;
        var nextArgs := if nextPage.Some? then nextPage.value.href else None;
        if !(nextPage.Some? && pagination) || !(nextArgs.Some? && nextArgs.value != "") {
          LastPass(cfg, s, trace);
          break;
        }
        FollowPass(cfg, s, trace);
        ghost var url := SubpageUrl(baseUrl, subpage + nextArgs.value);
        GetProgress(url, cookies, s.script);
        GetProgress(url, cookies, Fetch.Get(url, cookies, s.script).rest);
        var got := FetchNextPage(subpage, nextArgs.value);
        if got.Raised? {
          break;
        }
        response := got.value;
      }
      r := Returned(postIds);
    }

    /**
     * The inner loop of `get_post_ids` over a page's title links: the id of
     * each link into /post/ is appended to `postIds`, in document order.
     */
    method CollectPostIds(postIds: seq<string>, titles: seq<Anchor>) returns (ids: seq<string>)
      ensures ids == postIds + ExtractIds(titles)
    {
      ids := postIds;
      var i := 0;
      while i < |titles|
        invariant 0 <= i <= |titles|
        invariant ids == postIds + ExtractIds(titles[..i])
      {
        var postUrl := titles[i].href;
        if postUrl.Some? && StartsWith(postUrl.value, "/post/") {
          ids := ids + [LastSegment(postUrl.value)];
        }
        assert titles[..i + 1][..i] == titles[..i];
        i := i + 1;
      }
      assert titles[..|titles|] == titles;
    }

    /**
     * The advance of `get_post_ids` to the page `subpage + next`: a pause of
     * one second and a fetch; when that raises, a cooldown and one more
     * fetch, whose failure gives up the crawl.
     */
    method FetchNextPage(subpage: string, next: string) returns (r: Outcome<Response>)
      modifies this`script, this`trace
      ensures var url := SubpageUrl(baseUrl, subpage + next);
        var g1 := Fetch.Get(url, cookies, old(script));
        var g2 := Fetch.Get(url, cookies, g1.rest);
        && (g1.result.Returned? ==>
              r == g1.result && script == g1.rest && trace == old(trace) + [Wait(PageDelay)] + g1.events)
        && (g1.result.Raised? ==>
              r == g2.result && script == g2.rest
              && trace == old(trace) + [Wait(PageDelay)] + g1.events + [Wait(RetryCooldown)] + g2.events)
    {
      Sleep(PageDelay);
      r := GetSubpage(subpage + next);
      if r.Raised? {
        Sleep(RetryCooldown);
        r := GetSubpage(subpage + next);
      }
    }

    /**
     * `__extract_comment_data(nodes, parent_id, data)`: each comment in turn
     * is extracted into `data`. It returns the list when every comment can be
     * read, the list then holding Flatten's records after what it held
     * before; any comment that cannot be read raises, with what was appended
     * left in place.
     */
    method ExtractCommentData(nodes: seq<Node>, parentId: Option<string>, data: RecordList)
      returns (r: Outcome<seq<Record>>)
      modifies data
      decreases nodes, 1
      ensures r.Returned? <==> AllExtractable(nodes)
      ensures r.Returned? ==> r.value == data.records == old(data.records) + Flatten(nodes, parentId)
      ensures r.Raised? ==> r.error == MissingElement && old(data.records) <= data.records
    {
      ghost var before := data.records;
      var i := 0;
      while i < |nodes|
        invariant 0 <= i <= |nodes|
        invariant AllExtractable(nodes[..i])
        invariant data.records == before + Flatten(nodes[..i], parentId)
      {
        FlattenNext(nodes, i, parentId);
        AllExtractableNext(nodes, i);
        AllExtractableAt(nodes, i);
        ghost var done := Flatten(nodes[..i], parentId);
        var one := ExtractComment(nodes, i, parentId, data);
        if one.Raised? {
          r := Raised(one.error);
          return;
        }
        AppendAssoc4(before, done, Flatten(nodes[i].children, nodes[i].id), [one.value]);
        i := i + 1;
      }
      assert nodes[..|nodes|] == nodes;
      r := Returned(data.records);
    }

    /**
     * The body of the loop of `__extract_comment_data` for the comment
     * `nodes[i]`: read its author and body, extract its replies (when it has
     * any) with its own id as their parent, then append its record, which is
     * returned. Nothing is appended for the comment itself when it cannot be
     * read, and a failure among its replies raises.
     */
    method ExtractComment(nodes: seq<Node>, i: int, parentId: Option<string>, data: RecordList)
      returns (r: Outcome<Record>)
      requires 0 <= i < |nodes|
      modifies data
      decreases nodes, 0
      ensures r.Returned? <==> Extractable(nodes[i]) && AllExtractable(nodes[i].children)
      ensures r.Returned? ==>
        r.value == CommentRecord(nodes[i], parentId)
        && data.records == old(data.records) + Flatten(nodes[i].children, nodes[i].id) + [r.value]
      ensures r.Raised? ==> r.error == MissingElement && old(data.records) <= data.records
    {
      var comment := nodes[i];
      if !(comment.username.Some? && comment.username.value.href.Some? && comment.body.Some?) {
        r := Raised(MissingElement);
        return;
      }
      var commentAuthor := LastSegment(comment.username.value.href.value);
      var commentContent := Normalise(comment.body.value);
      if |comment.children| > 0 {
        var nested := ExtractCommentData(comment.children, comment.id, data);
        if nested.Raised? {
          r := Raised(nested.error);
          return;
        }
      } else {
        AppendEmpty(data.records);
      }
      var record := Record(CommentKind, comment.id, parentId, None, commentAuthor, commentContent);
      data.Append(record);
      r := Returned(record);
    }

    /**
     * `get_post_content(post_id, Verbrose)`: fetch the post page, read the
     * post's fields, and extract the comments when there is a comment
     * container. The branches on `verbose` only change what is printed: the
     * outcome is PostContentRun's whatever `verbose` is.
     */
    method GetPostContent(postId: string, verbose: bool := false) returns (r: Outcome<(Response, seq<Record>)>)
      modifies this`script, this`trace
      ensures var run := PostContentRun(baseUrl, cookies, postId, old(script));
        r == run.result && script == run.rest && trace == old(trace) + run.events
    {
      var got := Get(PostPath(postId));
      if got.Raised? {
        r := Raised(got.error);
        return;
      }
      var response := got.value;
      var doc := response.doc;
      if |doc.titles| == 0 {
        r := Raised(MissingElement);
        return;
      }
      var postTitle := Strip(doc.titles[0].text);
      if doc.authorLinks.None? || |doc.authorLinks.value| == 0 || doc.authorLinks.value[0].href.None? {
        r := Raised(MissingElement);
        return;
      }
      var postAuthor := LastSegment(doc.authorLinks.value[0].href.value);
      if doc.postContent.None? {
        r := Raised(MissingElement);
        return;
      }
      var postContent := Normalise(doc.postContent.value);
      var data := new RecordList([Record(PostKind, Some(postId), None, Some(postTitle), postAuthor, postContent)]);
      var commentsDiv := doc.comments;
      var extracted: Outcome<seq<Record>> := Returned(data.records);
      if verbose && commentsDiv.None? {
      } else if verbose {
        extracted := ExtractCommentData(commentsDiv.value, Some(postId), data);
      } else if commentsDiv.Some? {
        extracted := ExtractCommentData(commentsDiv.value, Some(postId), data);
      }
      match extracted
      case Raised(e) => r := Raised(e);
      case Returned(records) => r := Returned((response, records));
    }
  }
}
