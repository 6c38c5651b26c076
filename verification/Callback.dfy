/** Callback chains with a tail pointer in the first link (callback.c). */
module Callback {

  class Link {
    const fn: nat
    var next: Link?
    var tail: Link?

    /** `gop_cb_set` */
    constructor (fn: nat)
      ensures this.fn == fn && next == null && tail == null
    {
      this.fn := fn;
      next, tail := null, null;
    }
  }

  /** `links` is the chain that starts at `root`. Only the first link's tail pointer is kept up. */
  ghost predicate Chain(root: Link?, links: seq<Link>)
    reads links
  {
    if root == null then links == []
    else
      && links != [] && links[0] == root
      && (forall i, j :: 0 <= i < j < |links| ==> links[i] != links[j])
      && (forall i :: 0 <= i < |links| - 1 ==> links[i].next == links[i + 1])
      && links[|links| - 1].next == null
      && root.tail == links[|links| - 1]
  }

  /** `callback_append` */
  method Append(root: Link?, cb: Link?, ghost links: seq<Link>) returns (root': Link?, ghost links': seq<Link>)
    requires Chain(root, links) && (cb != null ==> cb !in links)
    modifies links, cb
    ensures links' == if cb == null then links else links + [cb]
    ensures Chain(root', links')
  {
    root', links' := root, links;
    if cb == null { return; }
    if root == null {
      root' := cb;
      cb.next := null;
      cb.tail := cb;
    } else {
      var last := root.tail;
      last.next := cb;
      root.tail := cb;
      cb.next := null;
    }
    links' := links + [cb];
  }

  function Fns(links: seq<Link>): (fns: seq<nat>) {
    if links == [] then [] else Fns(links[..|links| - 1]) + [links[|links| - 1].fn]
  }

  /** `callback_execute`: the callbacks run in the order they were appended, each once. */
  method Execute(root: Link?, ghost links: seq<Link>) returns (called: seq<nat>)
    requires Chain(root, links)
    ensures called == Fns(links)
  {
    called := [];
    var cb := root;
    ghost var i := 0;
    while cb != null
      invariant 0 <= i <= |links|
      invariant cb == if i < |links| then links[i] else null
      invariant called == Fns(links[..i])
      decreases |links| - i
    {
      var next := cb.next;
      called := called + [cb.fn];
      assert links[..i + 1][..i] == links[..i];
      cb := next;
      i := i + 1;
    }
    assert links[..|links|] == links;
  }
}
