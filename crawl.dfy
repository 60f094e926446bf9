/**
 * The pagination driver of `get_post_ids`: fetch a listing page, collect its
 * post ids, follow its "next" link (after a one-second pause, with one more
 * cooldown-and-retry when the fetch raises), until there is nowhere to go.
 */
module Crawl {
  import opened Wrappers
  import opened Seqs
  import opened Text
  import opened Html
  import opened Listing
  import opened Fetch

  /** What the loop fixes: site address, cookies, subsection, and whether to paginate. */
  datatype Config = Config(baseUrl: string, cookies: Cookies, subpage: string, pagination: bool)

  /** The loop's variables at the head of `while True`. */
  datatype Loop = Loop(response: Response, ids: seq<string>, script: seq<Attempt>)

  /** One pass of the loop body: go round again from `state`, or leave with `ids`. */
  datatype Step =
    | Continue(state: Loop, events: seq<Event>)
    | Stop(ids: seq<string>, script: seq<Attempt>, events: seq<Event>)

  /** The pause, in seconds, before each next-page fetch. */
  const PageDelay: nat := 1

  /** `get_subpage(sub)`: the URL fetched for `sub`. */
  function SubpageUrl(baseUrl: string, sub: string): string {
    baseUrl + "/d/" + sub
  }

  /**
   * `next_page.get('href')` when `next_page` is found, kept only when it is
   * truthy: the link is there and its `href` is present and non-empty.
   */
  function NextHref(doc: Document): Option<string> {
    if doc.next.Some? && doc.next.value.href.Some? && doc.next.value.href.value != ""
    then doc.next.value.href
    else None
  }

  /**
   * The loop body as the source has it. For a status other than 200 the body
   * does nothing at all: the test of the status code has no `else` branch,
   * so the loop comes round again in the same state. A pass only appends to
   * the ids, and one that goes round again either has fetched a page, using
   * up part of the script, or has left the state exactly as it was.
   */
  function IterationAsWritten(cfg: Config, s: Loop): (st: Step)
    ensures st.Stop? ==> s.ids <= st.ids && |st.script| <= |s.script|
    ensures st.Continue? ==> s.ids <= st.state.ids && (st.state == s || |st.state.script| < |s.script|)
    ensures st.Continue? && st.state == s ==> s.response.status != 200 && st.events == []
  {
    if s.response.status != 200 then Continue(s, [])
    else
      var doc := s.response.doc;
      var ids := s.ids + ExtractIds(doc.titles);
      if !(doc.next.Some? && cfg.pagination) then Stop(ids, s.script, [])
      else if NextHref(doc).None? then Stop(ids, s.script, [])
      else
        var url := SubpageUrl(cfg.baseUrl, cfg.subpage + NextHref(doc).value);
        var g1 := Get(url, cfg.cookies, s.script);
        GetProgress(url, cfg.cookies, s.script);
        GetProgress(url, cfg.cookies, g1.rest);
        var events1 := [Wait(PageDelay)] + g1.events;
        if g1.result.Returned? then Continue(Loop(g1.result.value, ids, g1.rest), events1)
        else
          var g2 := Get(url, cfg.cookies, g1.rest);
          var events2 := events1 + [Wait(RetryCooldown)] + g2.events;
          if g2.result.Returned? then Continue(Loop(g2.result.value, ids, g2.rest), events2)
          else Stop(ids, g2.rest, events2)
  }

  /**
   * The loop body as intended: a page with a status other than 200 ends the
   * loop. Each pass only appends to the ids, and a pass that goes round
   * again has fetched a page, so it used up part of the script.
   */
  function Iteration(cfg: Config, s: Loop): (st: Step)
    ensures st.Continue? ==> |st.state.script| < |s.script| && s.ids <= st.state.ids
    ensures st.Stop? ==> |st.script| <= |s.script| && s.ids <= st.ids
  {
    if s.response.status != 200 then Stop(s.ids, s.script, []) else IterationAsWritten(cfg, s)
  }

  /**
   * Following the "next" link on a 200-status page with pagination on: the
   * pass stops at once, with no request and no wait, exactly when the page
   * has no link with a present, non-empty `href`; otherwise it pauses and
   * then requests that `href` under the subsection.
   */
  lemma NextLinkFollowed(cfg: Config, s: Loop)
    requires s.response.status == 200 && cfg.pagination
    ensures var doc := s.response.doc;
      var st := Iteration(cfg, s);
      var linked := doc.next.Some? && doc.next.value.href.Some? && doc.next.value.href.value != "";
      && (!linked <==> st.Stop? && st.events == [])
      && (linked ==>
            var url := SubpageUrl(cfg.baseUrl, cfg.subpage + doc.next.value.href.value);
            |st.events| >= 2 && st.events[0] == Wait(PageDelay) && st.events[1] == Request(url, cfg.cookies))
  {
    var doc := s.response.doc;
    if doc.next.Some? && doc.next.value.href.Some? && doc.next.value.href.value != "" {
      var url := SubpageUrl(cfg.baseUrl, cfg.subpage + doc.next.value.href.value);
      GetAttempts(url, cfg.cookies, s.script);
    }
  }

  /**
   * The whole loop, from `s` until it stops: it always returns, never
   * raises, and never grows the script.
   */
  function RunLoop(cfg: Config, s: Loop): (r: Run<seq<string>>)
    ensures r.result.Returned? && |r.rest| <= |s.script|
    decreases |s.script|
  {
    match Iteration(cfg, s)
    case Stop(ids, script, events) => Run(Returned(ids), script, events)
    case Continue(next, events) =>
      var r := RunLoop(cfg, next);
      Run(r.result, r.rest, events + r.events)
  }

  /** The loop run from `s`, with `before` the events that came before it. */
  function RunAfter(cfg: Config, s: Loop, before: seq<Event>): (r: Run<seq<string>>)
    ensures r.result == RunLoop(cfg, s).result && r.rest == RunLoop(cfg, s).rest
    ensures r.events == before + RunLoop(cfg, s).events
  {
    var r := RunLoop(cfg, s);
    Run(r.result, r.rest, before + r.events)
  }

  /**
   * A page whose ids are all the loop still reads: its status is not 200, or
   * it has no "next" link to follow, or pagination is off.
   */
  lemma LastPass(cfg: Config, s: Loop, before: seq<Event>)
    requires var doc := s.response.doc;
      s.response.status != 200 || !(doc.next.Some? && cfg.pagination && NextHref(doc).Some?)
    ensures RunAfter(cfg, s, before) == Run(
      Returned(s.ids + (if s.response.status == 200 then ExtractIds(s.response.doc.titles) else [])),
      s.script, before)
  {
    assert before + [] == before;
    if s.response.status != 200 {
      assert s.ids + [] == s.ids;
    }
  }

  /**
   * A pass over a 200-status page whose "next" link is followed: the loop
   * goes on from the fetched page, or from the page its retry fetched, with
   * this page's ids added; when both fetches raise it returns those ids.
   */
  lemma FollowPass(cfg: Config, s: Loop, before: seq<Event>)
    requires var doc := s.response.doc;
      s.response.status == 200 && doc.next.Some? && cfg.pagination && NextHref(doc).Some?
    ensures var doc := s.response.doc;
      var ids := s.ids + ExtractIds(doc.titles);
      var url := SubpageUrl(cfg.baseUrl, cfg.subpage + NextHref(doc).value);
      var g1 := Get(url, cfg.cookies, s.script);
      var g2 := Get(url, cfg.cookies, g1.rest);
      var e1 := before + [Wait(PageDelay)] + g1.events;
      var e2 := e1 + [Wait(RetryCooldown)] + g2.events;
      && (g1.result.Returned? ==>
            RunAfter(cfg, s, before) == RunAfter(cfg, Loop(g1.result.value, ids, g1.rest), e1))
      && (g1.result.Raised? && g2.result.Returned? ==>
            RunAfter(cfg, s, before) == RunAfter(cfg, Loop(g2.result.value, ids, g2.rest), e2))
      && (g1.result.Raised? && g2.result.Raised? ==>
            RunAfter(cfg, s, before) == Run(Returned(ids), g2.rest, e2))
  {
    var doc := s.response.doc;
    var url := SubpageUrl(cfg.baseUrl, cfg.subpage + NextHref(doc).value);
    var g1 := Get(url, cfg.cookies, s.script);
    var g2 := Get(url, cfg.cookies, g1.rest);
    var w1 := [Wait(PageDelay)] + g1.events;
    var w2 := w1 + [Wait(RetryCooldown)] + g2.events;
    AppendAssoc(before, [Wait(PageDelay)], g1.events);
    AppendAssoc4(before + [Wait(PageDelay)] + g1.events, [Wait(RetryCooldown)], g2.events, []);
    AppendAssoc4(before, w1, [Wait(RetryCooldown)], g2.events);
    AppendEmpty([Wait(RetryCooldown)] + g2.events);
    if g1.result.Returned? {
      var next := Loop(g1.result.value, s.ids + ExtractIds(doc.titles), g1.rest);
      AppendAssoc(before, w1, RunLoop(cfg, next).events);
    } else if g2.result.Returned? {
      var next := Loop(g2.result.value, s.ids + ExtractIds(doc.titles), g2.rest);
      AppendAssoc(before, w2, RunLoop(cfg, next).events);
    } else {
      AppendEmpty(before + w2);
    }
  }

  /**
   * `get_post_ids(subpage, start_from, sort, pagination)`: the first page's
   * fetch raises straight through to the caller; otherwise the loop runs
   * from the first page with no ids yet. So it raises exactly when both
   * attempts of the first fetch fail, and then with UnboundResponse.
   */
  function PostIds(cfg: Config, startFrom: int, sort: string, script: seq<Attempt>): (r: Run<seq<string>>)
    ensures r.result.Raised? <==> AttemptAt(script, 0).Failed? && AttemptAt(script, 1).Failed?
    ensures r.result.Raised? ==> r.result.error == UnboundResponse
  {
    var url := SubpageUrl(cfg.baseUrl, cfg.subpage + "?p=" + Decimal(startFrom) + "&sort=" + sort);
    var g := Get(url, cfg.cookies, script);
    match g.result
    case Raised(e) => Run(Raised(e), g.rest, g.events)
    case Returned(first) =>
      var r := RunLoop(cfg, Loop(first, [], g.rest));
      Run(r.result, r.rest, g.events + r.events)
  }

  /**
   * Partial results are never discarded: the loop returns (never raises),
   * and what it returns extends the ids gathered before it started.
   */
  lemma {:induction false} RunLoopKeepsIds(cfg: Config, s: Loop)
    ensures RunLoop(cfg, s).result.Returned?
    ensures s.ids <= RunLoop(cfg, s).result.value
    decreases |s.script|
  {
    match Iteration(cfg, s)
    case Stop(_, _, _) =>
    case Continue(next, _) =>
      RunLoopKeepsIds(cfg, next);
  }

  /** A page with a status other than 200 ends the loop with the ids gathered so far. */
  lemma Non200Stops(cfg: Config, s: Loop)
    requires s.response.status != 200
    ensures RunLoop(cfg, s) == Run(Returned(s.ids), s.script, [])
  {
  }

  /** `n` passes of the loop body as written, or fewer if it stops. */
  function StepsAsWritten(cfg: Config, s: Loop, n: nat): (st: Step)
    ensures st.Continue? ==> s.ids <= st.state.ids && |st.state.script| <= |s.script|
    ensures st.Stop? ==> s.ids <= st.ids && |st.script| <= |s.script|
    decreases n
  {
    if n == 0 then Continue(s, [])
    else match IterationAsWritten(cfg, s)
      case Stop(ids, script, events) => Stop(ids, script, events)
      case Continue(next, events) =>
        var more := StepsAsWritten(cfg, next, n - 1);
        match more
        case Continue(last, later) => Continue(last, events + later)
        case Stop(ids, script, later) => Stop(ids, script, events + later)
  }

  /**
   * As written, a page with a status other than 200 is never left: after any
   * number of passes the loop is still running, in the same state, and has
   * sent no request and made no pause.
   */
  lemma {:induction false} AsWrittenSpinsOnNon200(cfg: Config, s: Loop, n: nat)
    requires s.response.status != 200
    ensures StepsAsWritten(cfg, s, n) == Continue(s, [])
    decreases n
  {
    if n > 0 {
      AsWrittenSpinsOnNon200(cfg, s, n - 1);
    }
  }

  /** Without pagination only the first page is read, and nothing more is fetched. */
  lemma NoPaginationFirstPageOnly(cfg: Config, s: Loop)
    requires !cfg.pagination
    ensures RunLoop(cfg, s) == Run(
      Returned(s.ids + (if s.response.status == 200 then ExtractIds(s.response.doc.titles) else [])),
      s.script, [])
  {
    if s.response.status != 200 {
      assert s.ids + [] == s.ids;
    }
  }

  /** `get_post_ids` without pagination: the first page's ids, or none if its status is not 200. */
  lemma PostIdsWithoutPagination(cfg: Config, startFrom: int, sort: string, script: seq<Attempt>)
    requires !cfg.pagination
    ensures var url := SubpageUrl(cfg.baseUrl, cfg.subpage + "?p=" + Decimal(startFrom) + "&sort=" + sort);
      var g := Get(url, cfg.cookies, script);
      var r := PostIds(cfg, startFrom, sort, script);
      && r.rest == g.rest
      && (g.result.Raised? ==> r.result == Raised(g.result.error))
      && (g.result.Returned? ==>
            r.result == Returned(if g.result.value.status == 200 then ExtractIds(g.result.value.doc.titles) else []))
  {
    var url := SubpageUrl(cfg.baseUrl, cfg.subpage + "?p=" + Decimal(startFrom) + "&sort=" + sort);
    var g := Get(url, cfg.cookies, script);
    if g.result.Returned? {
      NoPaginationFirstPageOnly(cfg, Loop(g.result.value, [], g.rest));
      assert [] + ExtractIds(g.result.value.doc.titles) == ExtractIds(g.result.value.doc.titles);
    }
  }

  /** `f` transport attempts that fail. */
  function Fails(f: nat): (r: seq<Attempt>)
    ensures |r| == f && forall k :: 0 <= k < f ==> r[k] == Failed
  {
    if f == 0 then [] else [Failed] + Fails(f - 1)
  }

  /**
   * The transport serving the listing pages of a chain, each with status 200,
   * the page `pages[k]` arriving after `fails[k]` failed attempts.
   */
  function Served(pages: seq<Document>, fails: seq<nat>): seq<Attempt>
    requires |fails| == |pages|
  {
    if pages == [] then []
    else Fails(fails[0]) + [Received(Response(200, pages[0]))] + Served(pages[1..], fails[1..])
  }

  /**
   * At most three failed attempts before each page: few enough for the
   * retry of `get` and the retry of the loop to absorb (four failures in a
   * row give up, see FailedNextStops).
   */
  predicate Transient(fails: seq<nat>) {
    forall k :: 0 <= k < |fails| ==> fails[k] <= 3
  }

  /** The ids of each page of the chain, one page after another. */
  function ConcatIds(pages: seq<Document>): seq<string> {
    if pages == [] then [] else ConcatIds(pages[..|pages| - 1]) + ExtractIds(pages[|pages| - 1].titles)
  }

  /** Every page of `pages` has a "next" link the loop follows. */
  predicate AllLinked(pages: seq<Document>) {
    forall k :: 0 <= k < |pages| ==> pages[k].next.Some? && NextHref(pages[k]).Some?
  }

  /**
   * One pass over a linked 200-status page whose next page arrives after at
   * most three failed attempts: the first fetch, its retry inside `get`, the
   * loop's own retry after the cooldown, and that fetch's retry. The loop
   * goes on from the next page with this page's ids added.
   */
  lemma ChainStep(cfg: Config, p: Document, q: Document, f: nat, acc: seq<string>, rest: seq<Attempt>)
    requires cfg.pagination && p.next.Some? && NextHref(p).Some?
    requires f <= 3
    ensures var r := RunLoop(cfg, Loop(Response(200, p), acc, Fails(f) + [Received(Response(200, q))] + rest));
      var r' := RunLoop(cfg, Loop(Response(200, q), acc + ExtractIds(p.titles), rest));
      r.result == r'.result && r.rest == r'.rest
  {
    var url := SubpageUrl(cfg.baseUrl, cfg.subpage + NextHref(p).value);
    var s := Loop(Response(200, p), acc, Fails(f) + [Received(Response(200, q))] + rest);
    FollowPass(cfg, s, []);
    GetAfterFails(url, cfg.cookies, Response(200, q), f, rest);
  }

  /**
   * The fetches of a next page that arrives after `f` failed attempts: with
   * one failure at most, `get` itself returns it; with two or three, `get`
   * raises and the retry returns it. Either way the script after it is left.
   */
  lemma GetAfterFails(url: string, cookies: Cookies, page: Response, f: nat, rest: seq<Attempt>)
    requires f <= 3
    ensures var g1 := Get(url, cookies, Fails(f) + [Received(page)] + rest);
      var g2 := Get(url, cookies, g1.rest);
      && (f <= 1 ==> g1.result == Returned(page) && g1.rest == rest)
      && (f >= 2 ==> g1.result.Raised? && g2.result == Returned(page) && g2.rest == rest)
  {
    var script := Fails(f) + [Received(page)] + rest;
    assert script[f] == Received(page);
    assert script[f + 1..] == rest;
    assert forall k :: 0 <= k < f ==> script[k] == Failed;
    var g1 := Get(url, cookies, script);
    GetAttempts(url, cookies, script);
    GetReturnsReceived(url, cookies, script);
    if f >= 2 {
      assert g1.rest == script[2..];
      assert g1.rest[f - 2] == Received(page);
      assert g1.rest[f - 1..] == rest;
      GetAttempts(url, cookies, g1.rest);
      GetReturnsReceived(url, cookies, g1.rest);
    }
  }

  /**
   * Walking a chain: with pagination on, from the first page of a run of
   * 200-status pages each linked to the next, served one after another with
   * at most three failed attempts before each, the loop reaches the last
   * page having gathered the ids of all pages before it.
   */
  lemma {:induction false} ChainWalk(cfg: Config, pages: seq<Document>, fails: seq<nat>, acc: seq<string>, tail: seq<Attempt>)
    requires cfg.pagination && |pages| >= 1
    requires AllLinked(pages[..|pages| - 1])
    requires |fails| == |pages| - 1 && Transient(fails)
    ensures var last := Loop(Response(200, pages[|pages| - 1]), acc + ConcatIds(pages[..|pages| - 1]), tail);
      var r := RunLoop(cfg, Loop(Response(200, pages[0]), acc, Served(pages[1..], fails) + tail));
      r.result == RunLoop(cfg, last).result && r.rest == RunLoop(cfg, last).rest
    decreases |pages|
  {
    if |pages| == 1 {
      assert pages[..0] == [];
      assert pages[1..] == [];
      assert acc + [] == acc;
      assert Served([], fails) + tail == tail;
    } else {
      var p := pages[0];
      var rest := pages[1..];
      ChainShift(pages, fails, acc, tail);
      ChainStep(cfg, p, rest[0], fails[0], acc, Served(rest[1..], fails[1..]) + tail);
      ChainWalk(cfg, rest, fails[1..], acc + ExtractIds(p.titles), tail);
    }
  }

  /** The bookkeeping of one step of ChainWalk: how the chain, script and ids look from the second page. */
  lemma ChainShift(pages: seq<Document>, fails: seq<nat>, acc: seq<string>, tail: seq<Attempt>)
    requires |pages| >= 2 && AllLinked(pages[..|pages| - 1])
    requires |fails| == |pages| - 1 && Transient(fails)
    ensures var rest := pages[1..];
      && pages[0].next.Some? && NextHref(pages[0]).Some?
      && fails[0] <= 3 && Transient(fails[1..])
      && Served(rest, fails) + tail
         == Fails(fails[0]) + [Received(Response(200, rest[0]))] + (Served(rest[1..], fails[1..]) + tail)
      && AllLinked(rest[..|rest| - 1])
      && rest[|rest| - 1] == pages[|pages| - 1]
      && acc + ExtractIds(pages[0].titles) + ConcatIds(rest[..|rest| - 1]) == acc + ConcatIds(pages[..|pages| - 1])
  {
    ServedCons(pages[1..], fails, tail);
    TransientShift(fails);
    LinkedShift(pages);
    ConcatShift(pages, acc);
  }

  /** The transport of a chain followed by `tail`, seen from its first page. */
  lemma ServedCons(rest: seq<Document>, fails: seq<nat>, tail: seq<Attempt>)
    requires |rest| >= 1 && |fails| == |rest|
    ensures Served(rest, fails) + tail
         == Fails(fails[0]) + [Received(Response(200, rest[0]))] + (Served(rest[1..], fails[1..]) + tail)
  {
    AppendAssoc(Fails(fails[0]) + [Received(Response(200, rest[0]))], Served(rest[1..], fails[1..]), tail);
  }

  lemma TransientShift(fails: seq<nat>)
    requires |fails| >= 1 && Transient(fails)
    ensures fails[0] <= 3 && Transient(fails[1..])
  {
    forall k | 0 <= k < |fails[1..]| ensures fails[1..][k] <= 3 {
      assert fails[1..][k] == fails[k + 1];
    }
  }

  lemma LinkedShift(pages: seq<Document>)
    requires |pages| >= 2 && AllLinked(pages[..|pages| - 1])
    ensures pages[0].next.Some? && NextHref(pages[0]).Some?
    ensures AllLinked(pages[1..][..|pages| - 2])
  {
    var init := pages[..|pages| - 1];
    assert init[0] == pages[0];
    var rest := pages[1..][..|pages| - 2];
    forall k | 0 <= k < |rest| ensures rest[k].next.Some? && NextHref(rest[k]).Some? {
      assert rest[k] == init[k + 1];
    }
  }

  lemma ConcatShift(pages: seq<Document>, acc: seq<string>)
    requires |pages| >= 2
    ensures acc + ExtractIds(pages[0].titles) + ConcatIds(pages[1..][..|pages| - 2])
         == acc + ConcatIds(pages[..|pages| - 1])
  {
    var mid := pages[1..|pages| - 1];
    assert pages[1..][..|pages| - 2] == mid;
    ConcatIdsCons(pages[0], mid);
    assert [pages[0]] + mid == pages[..|pages| - 1];
    AppendAssoc(acc, ExtractIds(pages[0].titles), ConcatIds(mid));
  }

  lemma {:induction false} ConcatIdsCons(p: Document, pages: seq<Document>)
    ensures ConcatIds([p] + pages) == ExtractIds(p.titles) + ConcatIds(pages)
    decreases |pages|
  {
    if pages == [] {
      assert [p][..0] == [];
    } else {
      var init := pages[..|pages| - 1];
      var last := pages[|pages| - 1];
      assert ([p] + pages)[..|pages|] == [p] + init;
      assert ([p] + pages)[|pages|] == last;
      ConcatIdsCons(p, init);
      AppendAssoc(ExtractIds(p.titles), ConcatIds(init), ExtractIds(last.titles));
    }
  }

  /**
   * Pagination result: over a chain of 200-status pages each linked to the
   * next, whose last page has no usable "next" link, the loop returns the ids
   * of every page in page order, and fetches nothing after the last page,
   * even when up to three attempts fail before each page arrives.
   */
  lemma ChainEndsAtLastPage(cfg: Config, pages: seq<Document>, fails: seq<nat>, tail: seq<Attempt>)
    requires cfg.pagination && |pages| >= 1
    requires AllLinked(pages[..|pages| - 1])
    requires NextHref(pages[|pages| - 1]).None?
    requires |fails| == |pages| - 1 && Transient(fails)
    ensures var r := RunLoop(cfg, Loop(Response(200, pages[0]), [], Served(pages[1..], fails) + tail));
      r.result == Returned(ConcatIds(pages)) && r.rest == tail
  {
    var init := ConcatIds(pages[..|pages| - 1]);
    ChainWalk(cfg, pages, fails, [], tail);
    AppendEmptyLeft(init);
    LastPass(cfg, Loop(Response(200, pages[|pages| - 1]), init, tail), []);
  }

  /**
   * `get_post_ids` over such a chain, the first page arriving on the first
   * attempt or on the retry inside `get`: it returns the ids of every page,
   * in page order, and uses no more of the script.
   */
  lemma PostIdsOverChain(cfg: Config, startFrom: int, sort: string, f: nat,
                         pages: seq<Document>, fails: seq<nat>, tail: seq<Attempt>)
    requires cfg.pagination && |pages| >= 1 && f <= 1
    requires AllLinked(pages[..|pages| - 1])
    requires NextHref(pages[|pages| - 1]).None?
    requires |fails| == |pages| - 1 && Transient(fails)
    ensures var r := PostIds(cfg, startFrom, sort, Fails(f) + [Received(Response(200, pages[0]))] + (Served(pages[1..], fails) + tail));
      r.result == Returned(ConcatIds(pages)) && r.rest == tail
  {
    var url := SubpageUrl(cfg.baseUrl, cfg.subpage + "?p=" + Decimal(startFrom) + "&sort=" + sort);
    GetAfterFails(url, cfg.cookies, Response(200, pages[0]), f, Served(pages[1..], fails) + tail);
    ChainEndsAtLastPage(cfg, pages, fails, tail);
  }

  /**
   * A linked 200-status page whose next page cannot be fetched (the fetch
   * and its retry both raise, four attempts in all) ends the loop with the
   * ids gathered so far and this page's.
   */
  lemma FailedNextStops(cfg: Config, p: Document, acc: seq<string>, tail: seq<Attempt>)
    requires cfg.pagination && p.next.Some? && NextHref(p).Some?
    requires forall k :: 0 <= k < 4 ==> AttemptAt(tail, k).Failed?
    ensures RunLoop(cfg, Loop(Response(200, p), acc, tail)).result == Returned(acc + ExtractIds(p.titles))
  {
    var url := SubpageUrl(cfg.baseUrl, cfg.subpage + NextHref(p).value);
    assert AttemptAt(tail, 0).Failed? && AttemptAt(tail, 1).Failed?;
    var g1 := Get(url, cfg.cookies, tail);
    GetAttempts(url, cfg.cookies, tail);
    assert AttemptAt(g1.rest, 0).Failed? && AttemptAt(g1.rest, 1).Failed? by {
      assert AttemptAt(tail, 2).Failed? && AttemptAt(tail, 3).Failed?;
    }
    GetAttempts(url, cfg.cookies, g1.rest);
  }

  /**
   * Partial results are kept when fetching fails: over such a chain, with
   * up to three failed attempts before each page, whose last page does link
   * further, if that next page cannot be fetched (four failed attempts),
   * the loop returns the ids of every page read.
   */
  lemma ChainEndsAtFailedFetch(cfg: Config, pages: seq<Document>, fails: seq<nat>, tail: seq<Attempt>)
    requires cfg.pagination && |pages| >= 1
    requires AllLinked(pages)
    requires |fails| == |pages| - 1 && Transient(fails)
    requires forall k :: 0 <= k < 4 ==> AttemptAt(tail, k).Failed?
    ensures var r := RunLoop(cfg, Loop(Response(200, pages[0]), [], Served(pages[1..], fails) + tail));
      r.result == Returned(ConcatIds(pages))
  {
    var init := pages[..|pages| - 1];
    AllLinkedPrefix(pages);
    ChainWalk(cfg, pages, fails, [], tail);
    AppendEmptyLeft(ConcatIds(init));
    FailedNextStops(cfg, pages[|pages| - 1], ConcatIds(init), tail);
  }

  /** Every page of a linked run but the last is linked too. */
  lemma AllLinkedPrefix(pages: seq<Document>)
    requires |pages| >= 1 && AllLinked(pages)
    ensures AllLinked(pages[..|pages| - 1])
  {
    var init := pages[..|pages| - 1];
    forall k | 0 <= k < |init| ensures init[k].next.Some? && NextHref(init[k]).Some? {
      assert init[k] == pages[k];
    }
  }
}
