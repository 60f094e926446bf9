/**
 * Post ids on a listing page: the `href` of each title link that points
 * into /post/, reduced to the text after its last '/'.
 */
module Listing {
  import opened Wrappers
  import opened Text
  import opened Html

  /**
   * `post_url and post_url.startswith('/post/')`: the attribute is present
   * and points into /post/ (an empty `href` is falsy, and does not start
   * with "/post/" either).
   */
  predicate IsPostHref(href: Option<string>)
  {
    href.Some? && StartsWith(href.value, "/post/")
  }

  /**
   * The ids the inner loop appends for the title links `titles`, in document
   * order: at most one id per link, and none of them contains a '/'.
   */
  function ExtractIds(titles: seq<Anchor>): (ids: seq<string>)
    ensures |ids| <= |titles|
    ensures forall id :: id in ids ==> '/' !in id
    decreases titles
  {
    if titles == [] then []
    else
      var href := titles[|titles| - 1].href;
      ExtractIds(titles[..|titles| - 1]) + (if IsPostHref(href) then [LastSegment(href.value)] else [])
  }

  /** Document order is kept: the ids of two runs of links are the ids of each, in turn. */
  lemma {:induction false} ExtractIdsAppend(a: seq<Anchor>, b: seq<Anchor>)
    ensures ExtractIds(a + b) == ExtractIds(a) + ExtractIds(b)
    decreases b
  {
    if b == [] {
      assert a + b == a;
    } else {
      assert (a + b)[..|a + b| - 1] == a + b[..|b| - 1];
      assert (a + b)[|a + b| - 1] == b[|b| - 1];
      ExtractIdsAppend(a, b[..|b| - 1]);
    }
  }

  /** The title link `t` points into /post/ and `id` is what follows its last '/'. */
  predicate LinksTo(t: Anchor, id: string) {
    IsPostHref(t.href) && id == LastSegment(t.href.value)
  }

  /** An id is extracted exactly when some title link leads to it. */
  lemma {:induction false} ExtractIdsLinks(titles: seq<Anchor>, id: string)
    ensures id in ExtractIds(titles) <==> exists k :: 0 <= k < |titles| && LinksTo(titles[k], id)
    decreases titles
  {
    if titles != [] {
      var init := titles[..|titles| - 1];
      ExtractIdsLinks(init, id);
      if exists k :: 0 <= k < |titles| && LinksTo(titles[k], id) {
        var k :| 0 <= k < |titles| && LinksTo(titles[k], id);
        if k < |init| {
          assert init[k] == titles[k];
        }
      }
      if exists k :: 0 <= k < |init| && LinksTo(init[k], id) {
        var k :| 0 <= k < |init| && LinksTo(init[k], id);
        assert init[k] == titles[k];
      }
    }
  }

  /**
   * An id is extracted exactly when some title link has an `href` that is
   * present, starts with "/post/", and has the id after its last '/'.
   */
  lemma ExtractIdsMembers(titles: seq<Anchor>, id: string)
    ensures id in ExtractIds(titles) <==>
      exists k :: 0 <= k < |titles| && titles[k].href.Some? && "/post/" <= titles[k].href.value
        && id == LastSegment(titles[k].href.value)
  {
    ExtractIdsLinks(titles, id);
  }

  /** The link "/post/<id>" yields `id` back, whatever the link's text. */
  lemma ExtractIdOfPostLink(id: string, text: string)
    requires '/' !in id
    ensures ExtractIds([Anchor(Some("/post/" + id), text)]) == [id]
  {
    assert "/post/" + id == "/post" + "/" + id;
    LastSegmentOfPath("/post", id);
    assert ("/post/" + id)[..6] == "/post/";
    assert [Anchor(Some("/post/" + id), text)][..0] == [];
  }

  /** Duplicates are kept: a link listed twice gives its id twice. */
  lemma DuplicatesKept(t: Anchor)
    requires IsPostHref(t.href)
    ensures ExtractIds([t, t]) == [LastSegment(t.href.value), LastSegment(t.href.value)]
  {
    assert [t, t] == [t] + [t];
    assert [t][..0] == [];
    ExtractIdsAppend([t], [t]);
  }
}
