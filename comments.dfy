/**
 * The records a post page is turned into, and the flattening of a comment
 * tree into records: each comment's record follows the records of all its
 * replies, and sibling comments are taken in document order.
 */
module Comments {
  import opened Wrappers
  import opened Text
  import opened Html
  import opened Seqs

  /** The record's `'type'` entry: `'post'` or `'comment'`. */
  datatype Kind = PostKind | CommentKind

  /** One output dictionary: `type`, `id`, `parent_id`, `title`, `author`, `content`. */
  datatype Record = Record(
    kind: Kind,
    id: Option<string>,
    parentId: Option<string>,
    title: Option<string>,
    author: string,
    content: string)

  /**
   * Reading the comment does not raise: it has a username link with an
   * `href`, and a comment body.
   */
  predicate Extractable(n: Node) {
    n.username.Some? && n.username.value.href.Some? && n.body.Some?
  }

  /** Every comment of the forest, at any depth, is Extractable. */
  predicate AllExtractable(ns: seq<Node>)
    decreases ns
  {
    ns == [] ||
    (var n := ns[|ns| - 1];
     AllExtractable(ns[..|ns| - 1]) && Extractable(n) && AllExtractable(n.children))
  }

  /** In a forest where every comment can be read, each sibling and each of its replies can be. */
  lemma {:induction false} AllExtractableAt(ns: seq<Node>, i: int)
    requires 0 <= i < |ns|
    ensures AllExtractable(ns) ==> Extractable(ns[i]) && AllExtractable(ns[i].children)
    decreases ns
  {
    if i < |ns| - 1 {
      AllExtractableAt(ns[..|ns| - 1], i);
      assert ns[..|ns| - 1][i] == ns[i];
    }
  }

  /** A run of siblings extended by the next one can be read when the run, the comment and its replies can be. */
  lemma AllExtractableNext(ns: seq<Node>, i: int)
    requires 0 <= i < |ns|
    ensures AllExtractable(ns[..i + 1])
      <==> AllExtractable(ns[..i]) && Extractable(ns[i]) && AllExtractable(ns[i].children)
  {
    assert ns[..i + 1][..i] == ns[..i];
  }

  /**
   * The record of comment `n`, found among the direct replies of `parent`.
   * It is only ever taken of an Extractable comment (the source raises on any
   * other); the empty strings below stand for nothing in the source.
   */
  function CommentRecord(n: Node, parent: Option<string>): (r: Record)
    ensures r.kind == CommentKind && r.title == None
    ensures r.id == n.id && r.parentId == parent
    ensures '/' !in r.author && '\n' !in r.content
  {
    var href := if n.username.Some? && n.username.value.href.Some? then n.username.value.href.value else "";
    var body := if n.body.Some? then n.body.value else "";
    Record(CommentKind, n.id, parent, None, LastSegment(href), Normalise(body))
  }

  /** The number of comments in the forest, at every depth. */
  function CountNodes(ns: seq<Node>): nat
    decreases ns
  {
    if ns == [] then 0
    else CountNodes(ns[..|ns| - 1]) + 1 + CountNodes(ns[|ns| - 1].children)
  }

  /**
   * The records the recursive extraction appends for the sibling comments
   * `ns` whose parent has id `parent`: for each comment in turn, the
   * records of its replies (with its own id as their parent), then its own;
   * one record per comment of the forest.
   */
  function Flatten(ns: seq<Node>, parent: Option<string>): (r: seq<Record>)
    ensures |r| == CountNodes(ns)
    decreases ns
  {
    if ns == [] then []
    else
      var n := ns[|ns| - 1];
      Flatten(ns[..|ns| - 1], parent) + Flatten(n.children, n.id) + [CommentRecord(n, parent)]
  }

  /**
   * Extending a run of siblings by the next one adds that comment's
   * replies' records and then its own.
   */
  lemma FlattenNext(ns: seq<Node>, i: int, parent: Option<string>)
    requires 0 <= i < |ns|
    ensures Flatten(ns[..i + 1], parent)
      == Flatten(ns[..i], parent) + Flatten(ns[i].children, ns[i].id) + [CommentRecord(ns[i], parent)]
  {
    assert ns[..i + 1][..i] == ns[..i];
  }

  /** Siblings are processed left to right: flattening distributes over concatenation. */
  lemma {:induction false} FlattenAppend(a: seq<Node>, b: seq<Node>, parent: Option<string>)
    ensures Flatten(a + b, parent) == Flatten(a, parent) + Flatten(b, parent)
    decreases b
  {
    if b == [] {
      assert a + b == a;
    } else {
      var init := b[..|b| - 1];
      assert (a + b)[..|a + b| - 1] == a + init;
      assert (a + b)[|a + b| - 1] == b[|b| - 1];
      FlattenAppend(a, init, parent);
      var n := b[|b| - 1];
      AppendAssoc4(Flatten(a, parent), Flatten(init, parent), Flatten(n.children, n.id), [CommentRecord(n, parent)]);
    }
  }

  /** A single comment yields the records of its replies, then its own record, last. */
  lemma FlattenSingle(n: Node, parent: Option<string>)
    ensures Flatten([n], parent) == Flatten(n.children, n.id) + [CommentRecord(n, parent)]
  {
    assert [n][..0] == [];
  }

  /** A comment without replies gives its own record alone. */
  lemma FlattenLeaf(n: Node, parent: Option<string>)
    requires n.children == []
    ensures Flatten([n], parent) == [CommentRecord(n, parent)]
  {
    FlattenSingle(n, parent);
    assert Flatten(n.children, n.id) == [];
  }

  /**
   * Where each sibling's records lie: everything from the siblings before
   * it, then its replies' records, then its own record, then everything from
   * the siblings after it.
   */
  lemma FlattenAround(ns: seq<Node>, i: int, parent: Option<string>)
    requires 0 <= i < |ns|
    ensures Flatten(ns, parent)
      == Flatten(ns[..i], parent) + Flatten(ns[i].children, ns[i].id)
         + [CommentRecord(ns[i], parent)] + Flatten(ns[i + 1..], parent)
  {
    assert ns == ns[..i] + ([ns[i]] + ns[i + 1..]);
    FlattenAppend(ns[..i], [ns[i]] + ns[i + 1..], parent);
    FlattenAppend([ns[i]], ns[i + 1..], parent);
    FlattenSingle(ns[i], parent);
    AppendAssoc4(Flatten(ns[..i], parent), Flatten(ns[i].children, ns[i].id),
                 [CommentRecord(ns[i], parent)], Flatten(ns[i + 1..], parent));
  }

  /** Every flattened record is a comment record with a slash-free author and one-line content. */
  lemma {:induction false} FlattenRecordsAreComments(ns: seq<Node>, parent: Option<string>)
    ensures forall r :: r in Flatten(ns, parent) ==>
      r.kind == CommentKind && r.title == None && '/' !in r.author && '\n' !in r.content
    decreases ns
  {
    if ns != [] {
      var n := ns[|ns| - 1];
      FlattenRecordsAreComments(ns[..|ns| - 1], parent);
      FlattenRecordsAreComments(n.children, n.id);
    }
  }

  /**
   * Parent linkage, defined on the tree: `r` is the record of some comment of
   * the forest `ns`, built with the id of the comment among whose direct
   * replies that comment sits (or with `parent` for the top level).
   */
  ghost predicate LinkedUnder(ns: seq<Node>, parent: Option<string>, r: Record)
    decreases ns
  {
    exists i :: 0 <= i < |ns| &&
      (r == CommentRecord(ns[i], parent) || LinkedUnder(ns[i].children, ns[i].id, r))
  }

  lemma LinkedUnderSnoc(init: seq<Node>, n: Node, parent: Option<string>, r: Record)
    ensures LinkedUnder(init + [n], parent, r) <==>
      LinkedUnder(init, parent, r) || r == CommentRecord(n, parent) || LinkedUnder(n.children, n.id, r)
  {
    var ns := init + [n];
    if LinkedUnder(ns, parent, r) {
      var i :| 0 <= i < |ns| &&
        (r == CommentRecord(ns[i], parent) || LinkedUnder(ns[i].children, ns[i].id, r));
      if i < |init| {
        assert ns[i] == init[i];
      }
    }
    if LinkedUnder(init, parent, r) {
      var i :| 0 <= i < |init| &&
        (r == CommentRecord(init[i], parent) || LinkedUnder(init[i].children, init[i].id, r));
      assert ns[i] == init[i];
    }
    assert ns[|init|] == n;
  }

  /**
   * The flattened records are exactly the linked records of the tree: no
   * comment is dropped, none is invented, and each carries its parent's id.
   */
  lemma {:induction false} FlattenMembers(ns: seq<Node>, parent: Option<string>)
    ensures forall r :: r in Flatten(ns, parent) <==> LinkedUnder(ns, parent, r)
    decreases ns
  {
    if ns != [] {
      var init := ns[..|ns| - 1];
      var n := ns[|ns| - 1];
      assert ns == init + [n];
      FlattenMembers(init, parent);
      FlattenMembers(n.children, n.id);
      forall r ensures r in Flatten(ns, parent) <==> LinkedUnder(ns, parent, r) {
        LinkedUnderSnoc(init, n, parent, r);
      }
    }
  }

  /** The ids of a sequence of records, in order. */
  function Ids(rs: seq<Record>): (ids: seq<Option<string>>)
    ensures |ids| == |rs|
    ensures forall k :: 0 <= k < |rs| ==> ids[k] == rs[k].id
  {
    if rs == [] then [] else Ids(rs[..|rs| - 1]) + [rs[|rs| - 1].id]
  }

  /** Two sibling replies `b` then `d`, where `b` has the reply `c`: the records of c, b, d. */
  lemma ExampleReplies(a: Node, b: Node, c: Node, d: Node)
    requires b.children == [c] && c.children == [] && d.children == []
    ensures Flatten([b, d], a.id) == [CommentRecord(c, b.id), CommentRecord(b, a.id), CommentRecord(d, a.id)]
  {
    FlattenLeaf(c, b.id);
    FlattenLeaf(d, a.id);
    FlattenSingle(b, a.id);
    FlattenAppend([b], [d], a.id);
    assert [b, d] == [b] + [d];
  }

  /**
   * Top-level comment `a` has replies `b` and `d`, and `b` has the reply `c`:
   * the records come out in the order c, b, d, a.
   */
  lemma ExampleOrder(a: Node, b: Node, c: Node, d: Node, post: Option<string>)
    requires a.children == [b, d] && b.children == [c] && c.children == [] && d.children == []
    ensures Flatten([a], post)
      == [CommentRecord(c, b.id), CommentRecord(b, a.id), CommentRecord(d, a.id), CommentRecord(a, post)]
    ensures Ids(Flatten([a], post)) == [c.id, b.id, d.id, a.id]
  {
    ExampleReplies(a, b, c, d);
    FlattenSingle(a, post);
  }
}
