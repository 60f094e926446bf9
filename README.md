# DreadSession: a verified model of the Dread scraper core

This project models the scraping core of `DreadSession`, a client for the
Dread forum's onion site that fetches pages through Tor with the user's
cookies. Four operations make up that core:

- `get` fetches one path. When the transport raises, it waits five seconds
  and tries once more.
- `get_subpage` fetches a subsection page under `/d/`.
- `get_post_ids` reads a subsection's listing pages. It collects the ids of
  the post links and follows each page's "next" link while pagination is on.
- `get_post_content` reads one post page. It returns the post record followed
  by the records of its comment tree, which `__extract_comment_data` builds
  depth first: each comment's record comes right after the records of its
  replies.

The model is split into modules:

- `Text` holds the string operations the scraper applies: `split('/')` and
  `split('/')[-1]`, `startswith`, `strip()` with Python's white-space set,
  `replace("\n", " ")`, and the rendering of `start_from` in
  `f"?p={start_from}"`.
- `Html` is the view of a parsed page: the answers to the queries the
  scraper puts to its HTML parser.
- `Listing` extracts the post ids from one listing page.
- `Fetch` is the transport and the retrying fetch. The transport is a script,
  a finite sequence of attempt outcomes consumed one per attempt. Once the
  script is used up, every attempt fails.
- `Crawl` is the pagination loop, as a function of the configuration and the
  loop state. It comes twice: as written, and corrected (see Findings).
- `Comments` holds the comment records and the flattening of a comment tree.
- `Post` is the post page turned into records.
- `Session` has the class `DreadSession`. Its fields are the base URL, the
  cookie jar, the transport script and a ghost trace of the requests and
  waits made. Its methods update that state in place; `GetPostIds`,
  `CollectPostIds` and `ExtractCommentData` are the loops. Each method is
  proved to return and to leave exactly what the functions of
  `Fetch`, `Crawl` and `Post` prescribe. `RecordList` is the list of records
  that comment extraction appends to in place.
- `Seqs` and `Wrappers` are small helpers.

Four behaviours of the code that a reader might not expect are modelled as
written:

- `comment.find('a', class_='username')` and
  `comment.find('div', class_='commentBody')` search every descendant of the
  comment, its replies included. So a comment with no username link or body
  of its own takes the first such link or body among its replies, in
  document order. A comment raises (an AttributeError) only when neither it nor any of its replies has one, or
  when the username link found has no `href`. Then nothing is returned for
  that post: the record is not degraded. The model takes the answers of these
  queries as given (`Html.Node`), so it covers both cases.
- A post page is parsed whatever its status code. A non-200 page fails only
  when an element is missing from it.
- When both attempts of `get` fail, the call raises: `return response` reads
  a variable that was never assigned (an UnboundLocalError).
- A listing page whose status is not 200 never ends the crawl: the test of
  the status has no `else`, so the loop runs forever (see Findings). Only
  `Crawl.IterationAsWritten`, `Crawl.StepsAsWritten` and
  `Crawl.AsWrittenSpinsOnNon200` model the loop as written. Every other
  member of `Crawl`, and `Session.DreadSession.GetPostIds`, models the
  corrected loop, which returns the ids gathered so far at such a page. On
  pages with status 200 the two loops take the same steps. The rows of
  those members start with "corrected loop:".

## Model

All source paths are in `explainer_env/DreadScraper.py`.

| member | source | states |
|---|---|---|
| Text.Split | explainer_env/DreadScraper.py:177 | `split('/')` gives at least one segment, no segment contains '/', and joining the segments with '/' gives the input back |
| Text.StartsWith | explainer_env/DreadScraper.py:175 | `startswith` holds exactly when the second string is a prefix of the first |
| Text.Decimal | explainer_env/DreadScraper.py:165 | `f"{start_from}"`: a '-' exactly for a negative number, then decimal digits without a leading zero, and reading the text back gives the number |
| Text.LastSegment | explainer_env/DreadScraper.py:177 | `split('/')[-1]` is no longer than its input and contains no '/' |
| Text.LastSegmentSpec | explainer_env/DreadScraper.py:177 | the id taken from a link is a suffix of it that follows the last '/' or is the whole string, so it is the longest suffix without '/' |
| Text.LastSegmentIsLastOfSplit | explainer_env/DreadScraper.py:177 | LastSegment equals the last element of `split('/')` |
| Text.LastSegmentOfPath | explainer_env/DreadScraper.py:231 | the handle read from a path ending in "/<seg>" is `seg` |
| Text.StripLeftSpec | explainer_env/DreadScraper.py:230 | left stripping removes a white-space prefix and leaves a result that does not start with white space |
| Text.StripRightSpec | explainer_env/DreadScraper.py:230 | right stripping removes a white-space suffix and leaves a result that does not end with white space |
| Text.StripSpec | explainer_env/DreadScraper.py:230 | `strip()` returns a slice of its input with only white space around it, and white space at neither end |
| Text.ReplaceNewlinesSpec | explainer_env/DreadScraper.py:232 | the replacement keeps the length, turns each '\n' into ' ', and leaves every other character alone |
| Text.Normalise | explainer_env/DreadScraper.py:232 | normalised content is one line with no white space at either end, as long as the stripped text |
| Text.NormaliseKeepsTrimmedLine | explainer_env/DreadScraper.py:232 | text that is already one trimmed line is unchanged |
| Listing.ExtractIdsAppend | explainer_env/DreadScraper.py:173-178 | ids come out in document order: extraction distributes over concatenation of the title links |
| Listing.ExtractIdsMembers | explainer_env/DreadScraper.py:174-178 | an id is extracted if and only if some title link has an `href` that is present, has "/post/" as a prefix, and has that id as its last segment |
| Listing.ExtractIds | explainer_env/DreadScraper.py:172-178 | at most one id per title link, and no id contains '/' |
| Listing.ExtractIdOfPostLink | explainer_env/DreadScraper.py:175-178 | the link "/post/<id>" yields exactly `[id]` |
| Listing.DuplicatesKept | explainer_env/DreadScraper.py:178 | a link listed twice yields its id twice |
| Fetch.Get | explainer_env/DreadScraper.py:106-138 | `get` raises exactly when both attempts fail, and then with UnboundResponse |
| Fetch.GetAttempts | explainer_env/DreadScraper.py:107-113 | one request, or two with the 5-second cooldown between them, all to the same URL with the session cookies; one script entry used per attempt; raises exactly when both attempts fail, and then with UnboundResponse |
| Fetch.GetReturnsReceived | explainer_env/DreadScraper.py:109-113 | a received response is returned unchanged whatever its status: the first attempt's, otherwise the second's |
| Fetch.GetProgress | explainer_env/DreadScraper.py:109-113 | a fetch never grows the script, and a fetch that returns has used at least one entry |
| Crawl.Iteration | explainer_env/DreadScraper.py:167-206 | corrected loop: one pass only appends to the ids, and a pass that goes round again has fetched a page, so it has used part of the script |
| Crawl.StepsAsWritten | explainer_env/DreadScraper.py:167-206 | loop as written, over any number of passes: the ids only grow, and the script never does |
| Crawl.NextLinkFollowed | explainer_env/DreadScraper.py:181-190 | on a 200-status page with pagination on, the pass stops at once with no event exactly when there is no next link with a present, non-empty `href`; otherwise it waits one second and then requests the subsection URL with that `href` appended |
| Crawl.IterationAsWritten | explainer_env/DreadScraper.py:167-206 | loop as written: a pass only appends to the ids; one that goes round again has fetched a page, using up script, or has left the state unchanged, which happens only on a non-200 page and with no event |
| Crawl.RunLoop | explainer_env/DreadScraper.py:167-206 | corrected loop: the loop never raises, returns within the script's length, and never grows the script |
| Crawl.PostIds | explainer_env/DreadScraper.py:152-211 | corrected loop: `get_post_ids` raises exactly when both attempts of the first fetch fail, and then with UnboundResponse |
| Crawl.RunLoopKeepsIds | explainer_env/DreadScraper.py:167-211 | corrected loop: the loop never raises, and its result extends the ids gathered before it, so partial results are never discarded |
| Crawl.Non200Stops | explainer_env/DreadScraper.py:169 | corrected loop: a non-200 page ends the loop with the ids so far, with no request and no wait |
| Crawl.AsWrittenSpinsOnNon200 | explainer_env/DreadScraper.py:167-169 | loop as written: on a non-200 page, any number of passes leaves the state unchanged, with no request and no wait |
| Crawl.NoPaginationFirstPageOnly | explainer_env/DreadScraper.py:181-206 | corrected loop: with pagination off, the loop returns the ids so far plus the current page's, and fetches nothing |
| Crawl.PostIdsWithoutPagination | explainer_env/DreadScraper.py:164-165 | corrected loop: `get_post_ids` without pagination: a failing first fetch raises; otherwise the first page's ids (none if its status is not 200, where the loop as written spins), and only the first fetch's attempts are used |
| Crawl.LastPass | explainer_env/DreadScraper.py:181-206 | corrected loop: a page with no usable next link, or with pagination off, ends the loop with its ids added |
| Crawl.FollowPass | explainer_env/DreadScraper.py:182-201 | corrected loop: following a next link: a one-second pause and a fetch; if that raises, a 5-second cooldown and one more fetch; the loop continues from the page fetched, or returns the ids so far when both fetches raise |
| Crawl.ChainStep | explainer_env/DreadScraper.py:188-201 | corrected loop: a linked page whose next page arrives after at most three failed attempts goes on from that page with its ids added |
| Crawl.GetAfterFails | explainer_env/DreadScraper.py:109-113 | a page that arrives after at most one failed attempt is returned by `get` itself; after two or three, `get` raises and the loop's retry returns it; either way the rest of the script is left |
| Crawl.ChainWalk | explainer_env/DreadScraper.py:167-206 | corrected loop: over a chain of linked 200-status pages, each served after at most three failed attempts, the loop reaches the last page having gathered every earlier page's ids, in page order |
| Crawl.ChainEndsAtLastPage | explainer_env/DreadScraper.py:188-206 | corrected loop: a chain whose pages each arrive after at most three failed attempts, and whose last page has no next link, gives the concatenation of all the pages' ids and uses no more of the script |
| Crawl.PostIdsOverChain | explainer_env/DreadScraper.py:164-206 | corrected loop: `get_post_ids` with pagination on, over such a chain whose first page arrives on the first attempt or on `get`'s retry, returns the ids of every page in page order and uses no more of the script |
| Crawl.FailedNextStops | explainer_env/DreadScraper.py:196-201 | corrected loop: when the fetch of the next page and its retry both raise, the loop returns the ids gathered including the current page's |
| Crawl.ChainEndsAtFailedFetch | explainer_env/DreadScraper.py:188-201 | corrected loop: a chain whose pages each arrive after at most three failed attempts, and whose next page then cannot be fetched, still returns the ids of every page read |
| Comments.CommentRecord | explainer_env/DreadScraper.py:271-272 | a comment record has kind comment and no title, carries the comment's id and the given parent id, its author contains no '/' and its content no newline |
| Comments.AllExtractableAt | explainer_env/DreadScraper.py:269-279 | in a readable forest, every sibling and all its replies are readable |
| Comments.Flatten | explainer_env/DreadScraper.py:269-291 | one record per comment node, at every depth |
| Comments.FlattenAppend | explainer_env/DreadScraper.py:269 | siblings are processed left to right: flattening distributes over concatenation |
| Comments.FlattenSingle | explainer_env/DreadScraper.py:277-291 | a comment gives its replies' records (with its id as their parent), then its own record last |
| Comments.FlattenAround | explainer_env/DreadScraper.py:269-291 | each sibling's records sit after the earlier siblings' records and before the later ones' |
| Comments.FlattenRecordsAreComments | explainer_env/DreadScraper.py:284-291 | every flattened record is a comment with no title, a slash-free author and one-line content |
| Comments.FlattenMembers | explainer_env/DreadScraper.py:277-291 | a record is in the flattening if and only if it is the record of some comment in the tree, built with the id of that comment's parent |
| Comments.FlattenLeaf | explainer_env/DreadScraper.py:277-291 | a comment without replies gives its own record alone |
| Comments.ExampleReplies | explainer_env/DreadScraper.py:269-291 | replies B (with the reply C) and D give the records C, B, D |
| Comments.ExampleOrder | explainer_env/DreadScraper.py:269-291 | A with replies [B, D], where B has the reply C, gives the records C, B, D, A with the right parent ids |
| Post.PostRecord | explainer_env/DreadScraper.py:230-242 | the post record has kind post, the post id and no parent, its author contains no '/' and its content no newline |
| Post.PostContent | explainer_env/DreadScraper.py:228-255 | the only exception is MissingElement; a returned list starts with the post record, which exists because the post fields were readable |
| Post.PostContentShape | explainer_env/DreadScraper.py:228-255 | records are returned if and only if the post fields and every comment can be read; they are the post record followed by the flattened comments, 1 + the number of comments in all |
| Post.NoCommentsSingleton | explainer_env/DreadScraper.py:245-255 | without a comment container the result is the post record alone |
| Post.EmptyCommentsSingleton | explainer_env/DreadScraper.py:247 | an empty comment container also gives the post record alone |
| Post.PostContentLinkage | explainer_env/DreadScraper.py:253-255 | every record after the first is a comment, and those records are exactly the tree's linked records with the post id as the top-level parent |
| Post.PostContentText | explainer_env/DreadScraper.py:230-232 | no author in the output contains '/', and no content contains a newline |
| Post.PostContentRun | explainer_env/DreadScraper.py:224-257 | the run uses the script and makes the requests of `get("/post/" + id)` exactly |
| Post.PostContentRunOutcome | explainer_env/DreadScraper.py:224 | raises UnboundResponse if and only if both fetch attempts fail; otherwise returns the response together with the page's records, or raises MissingElement |
| Session.RecordList.Append | explainer_env/DreadScraper.py:284 | appends one record at the end |
| Session.DreadSession.constructor | explainer_env/DreadScraper.py:25-28 | the session takes the given cookies and the onion base URL, and has made no request |
| Session.DreadSession.Send | explainer_env/DreadScraper.py:109 | one transport attempt takes the next script entry and records a request with the session cookies |
| Session.DreadSession.Sleep | explainer_env/DreadScraper.py:111 | records a wait of the given length |
| Session.DreadSession.Get | explainer_env/DreadScraper.py:95-138 | the outcome, the script left and the requests made are those of Fetch.Get on base URL + path |
| Session.DreadSession.GetSubpage | explainer_env/DreadScraper.py:140-150 | the same as Fetch.Get on base URL + "/d/" + subpage |
| Session.DreadSession.CollectPostIds | explainer_env/DreadScraper.py:172-178 | the inner loop appends exactly the ids of the page's title links, in document order, to those already collected |
| Session.DreadSession.FetchNextPage | explainer_env/DreadScraper.py:188-201 | a one-second pause and a fetch of the next page; when that raises, a 5-second cooldown and one more fetch; the outcome, script and events are those of the two Fetch.Get runs |
| Session.DreadSession.GetPostIds | explainer_env/DreadScraper.py:152-211 | corrected loop: the loop returns Crawl.PostIds' outcome and leaves its script and events |
| Session.DreadSession.ExtractCommentData | explainer_env/DreadScraper.py:260-293 | returns if and only if every comment of the tree can be read; the list then holds its old contents followed by Comments.Flatten; on a raise MissingElement, what was appended stays |
| Session.DreadSession.ExtractComment | explainer_env/DreadScraper.py:270-291 | one comment: returns if and only if it and all its replies can be read; its replies' records are appended, then its own record, which is returned |
| Session.DreadSession.GetPostContent | explainer_env/DreadScraper.py:213-257 | whatever the verbose flag, the outcome, script and requests are those of Post.PostContentRun |

## Left out

- `status` (lines 30-79), `set_cookie` (lines 81-93) and the example run at
  the end of the file are not part of this model.
- `__init__` configures the Tor ports, the control port and the identity
  change every ten requests. That configuration is not modelled. The session
  is built with a cookie map and a transport script.
- The network: each transport attempt takes the next entry of a finite
  script, which is a parameter. A finite script bounds the pagination loop.
  A transport that answers forever is not modelled.
- The HTML parser: a page is the set of answers to the queries the scraper
  makes. A found element, even an empty one, counts as present.
- All printing: the `Verbrose` output and the unconditional messages on the
  retry path of `get_post_ids`.
- The dead branch of `get` (lines 115-136): it reads the unassigned
  response, so it raises the same UnboundLocalError. The model does not tell
  that apart from the error at `return response`.
- Real sleeping: only the waits and their lengths are recorded, in the
  ghost trace.
- `**kwargs` passed through to the transport, apart from the cookies.
- Session.DreadSession.Get and Session.DreadSession.GetSubpage do not take
  the `Verbrose` flag, because it only prints. The same goes for
  Session.DreadSession.GetPostIds and Session.DreadSession.ExtractCommentData.
- Session.DreadSession.ExtractComment tests the username link, its
  `href` and the body together. The source reads them one after another, but
  a failure in any of them raises the same error before anything is appended.
- Html.Node takes the answers of the `find` queries for a comment's username
  link and body as given. The model does not derive from the tree that those
  answers may come from a reply.
- Which exception class is raised: AttributeError and IndexError are both
  modelled as MissingElement.
- The constructor's `cookies=None` default is not modelled: the session is
  built with a cookie map, and the empty map stands for sending no cookies.
  The other defaults are kept as Dafny default parameters:
  `start_from=1`, `sort="new"` and `pagination=False` on
  `Session.DreadSession.GetPostIds`, and `Verbrose=False` on the `verbose`
  parameter of `Session.DreadSession.GetPostContent`.
- `start_from` is modelled as an integer only; `Text.Decimal` renders it as
  an f-string would.

## Findings

| source | as written | input that shows it | evidently intended | confidence | as-written member | corrected member |
|---|---|---|---|---|---|---|
| explainer_env/DreadScraper.py:167-169 | the `if response.status_code == 200:` inside `while True` has no `else`, so a page with any other status leaves the loop body doing nothing and the loop spins forever, without returning the ids already collected | `get_post_ids` where the first listing page, or a next page, comes back with status 404 | a non-200 page ends the crawl and returns the ids gathered so far | high (not executed) | Crawl.AsWrittenSpinsOnNon200 | Crawl.Non200Stops |
