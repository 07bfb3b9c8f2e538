/** Content discovery: the work-list walk of `get_repo_files`
    (withoutPull_codeR.py) and `get_all_files` (without_tokenCodeR.py).

    The repository is a finite tree. A directory node carries what
    `repo.get_contents(path)` answers for it: its entries, or the error it
    raised. Every entry whose type is not "dir" (a file, a symlink, a
    submodule) is a `File` node: the scripts only test for "dir". */
module Discovery {
  import opened Outcome

  datatype Node = File(path: string) | Dir(path: string, listing: Listing)

  /** The answer of `get_contents` for one directory. */
  datatype Listing = Listed(entries: seq<Node>) | Unlisted(error: string)

  // ---------------------------------------------------------------------
  // Measures and reference definitions over the tree
  // ---------------------------------------------------------------------

  /** Number of nodes in a subtree. */
  function NodeSize(n: Node): nat
    decreases n
  {
    match n
    case File(_) => 1
    case Dir(_, Unlisted(_)) => 1
    case Dir(_, Listed(cs)) => 1 + Size(cs)
  }

  /** Number of nodes in all the subtrees of a work list. */
  function Size(q: seq<Node>): nat
    decreases q
  {
    if q == [] then 0 else NodeSize(q[0]) + Size(q[1..])
  }

  /** Every directory of the forest could be listed. */
  predicate NodeComplete(n: Node)
    decreases n
  {
    match n
    case File(_) => true
    case Dir(_, Unlisted(_)) => false
    case Dir(_, Listed(cs)) => Complete(cs)
  }

  predicate Complete(q: seq<Node>)
    decreases q
  {
    q == [] || (NodeComplete(q[0]) && Complete(q[1..]))
  }

  /** The paths of the non-directory entries of a subtree, depth first. */
  function NodeLeaves(n: Node): seq<string>
    decreases n
  {
    match n
    case File(p) => [p]
    case Dir(_, Unlisted(_)) => []
    case Dir(_, Listed(cs)) => Leaves(cs)
  }

  function Leaves(q: seq<Node>): seq<string>
    decreases q
  {
    if q == [] then [] else NodeLeaves(q[0]) + Leaves(q[1..])
  }

  /** The paths of the directories of a subtree, depth first. */
  function NodeDirs(n: Node): seq<string>
    decreases n
  {
    match n
    case File(_) => []
    case Dir(p, Unlisted(_)) => [p]
    case Dir(p, Listed(cs)) => [p] + Dirs(cs)
  }

  function Dirs(q: seq<Node>): seq<string>
    decreases q
  {
    if q == [] then [] else NodeDirs(q[0]) + Dirs(q[1..])
  }

  /** The paths of the non-directory entries at the top level of a work list, in order. */
  function TopFiles(q: seq<Node>): seq<string>
  {
    if q == [] then []
    else (if q[0].File? then [q[0].path] else []) + TopFiles(q[1..])
  }

  /** The entries of the listed directories at the top level of a work list, in order. */
  function Children(q: seq<Node>): seq<Node>
  {
    if q == [] then []
    else (if q[0].Dir? && q[0].listing.Listed? then q[0].listing.entries else []) + Children(q[1..])
  }

  /** Breadth-first (level) order: the files of one level, then those of the next. */
  function LevelOrder(q: seq<Node>): seq<string>
    decreases Size(q)
  {
    if q == [] then []
    else
      ChildrenSmaller(q);
      TopFiles(q) + LevelOrder(Children(q))
  }

  // ---------------------------------------------------------------------
  // The walk, as a function of the work list
  // ---------------------------------------------------------------------

  /** `Ok(pre + v)` when r is `Ok(v)`; an error is passed on unchanged. */
  function Prepend(pre: seq<string>, r: Result<seq<string>>): Result<seq<string>>
  {
    match r
    case Ok(v) => Ok(pre + v)
    case Err(e) => Err(e)
  }

  /** What the `while contents:` loop yields from work list q: pop the head;
      a directory's entries go to the tail, a file's path to the output; a
      directory whose listing raises ends the walk with that error. */
  function Walk(q: seq<Node>): Result<seq<string>>
    decreases Size(q)
  {
    if q == [] then Ok([])
    else
      SizeSplit(q);
      match q[0]
      case File(p) => Prepend([p], Walk(q[1..]))
      case Dir(_, Unlisted(e)) => Err(e)
      case Dir(_, Listed(cs)) =>
        SizeAppend(q[1..], cs);
        Walk(q[1..] + cs)
  }

  /** The result of `get_repo_files(directory)`, given the listing of `directory`. */
  function Discover(start: Listing): Result<seq<string>>
  {
    match start
    case Unlisted(e) => Err(e)
    case Listed(es) => Walk(es)
  }

  // ---------------------------------------------------------------------
  // The imperative walk
  // ---------------------------------------------------------------------

  /** `get_repo_files` / `get_all_files`: drain the FIFO list `contents`,
      expanding directories at its tail and collecting file paths in `files`.
      `listed` records (ghost) the directories whose listing was requested. */
  method CollectFiles(start: Listing) returns (r: Result<seq<string>>, ghost listed: seq<string>)
    ensures r == Discover(start)
    ensures r.Ok? <==> start.Listed? && Complete(start.entries)
    ensures r.Ok? ==> multiset(r.value) == multiset(Leaves(start.entries))
    ensures r.Ok? ==> r.value == LevelOrder(start.entries)
    ensures r.Ok? ==> multiset(listed) == multiset(Dirs(start.entries))
  {
    listed := [];
    if start.Unlisted? {
      return Err(start.error), listed;
    }
    var contents := start.entries;
    var files: seq<string> := [];
    WalkSucceedsIffComplete(contents);
    WalkYieldsLeaves(contents);
    WalkIsLevelOrder(contents);
    PrependNothing(Walk(contents));
    while contents != []
      invariant Prepend(files, Walk(contents)) == Walk(start.entries)
      invariant multiset(listed) + multiset(Dirs(contents)) == multiset(Dirs(start.entries))
      decreases Size(contents)
    {
      SizeSplit(contents);
      DirsSplit(contents);
      WalkUnfold(contents);
      var head := contents[0];
      contents := contents[1..];
      match head
      case File(p) =>
        PrependTwice(files, [p], Walk(contents));
        files := files + [p];
      case Dir(d, Unlisted(e)) =>
        listed := listed + [d];
        return Err(e), listed;
      case Dir(d, Listed(cs)) =>
        listed := listed + [d];
        SizeAppend(contents, cs);
        DirsAppend(contents, cs);
        contents := contents + cs;
    }
    assert files + [] == files;
    r := Ok(files);
  }

  // ---------------------------------------------------------------------
  // Lemmas
  // ---------------------------------------------------------------------

  lemma PrependNothing(r: Result<seq<string>>)
    ensures Prepend([], r) == r
  {
    if r.Ok? {
      assert [] + r.value == r.value;
    }
  }

  lemma PrependTwice(a: seq<string>, b: seq<string>, r: Result<seq<string>>)
    ensures Prepend(a, Prepend(b, r)) == Prepend(a + b, r)
  {
    if r.Ok? {
      assert a + (b + r.value) == a + b + r.value;
    }
  }

  lemma WalkUnfold(q: seq<Node>)
    requires q != []
    ensures q[0].File? ==> Walk(q) == Prepend([q[0].path], Walk(q[1..]))
    ensures q[0].Dir? && q[0].listing.Unlisted? ==> Walk(q) == Err(q[0].listing.error)
    ensures q[0].Dir? && q[0].listing.Listed? ==> Walk(q) == Walk(q[1..] + q[0].listing.entries)
  {
  }

  lemma SizeSplit(q: seq<Node>)
    requires q != []
    ensures Size(q) == NodeSize(q[0]) + Size(q[1..])
    ensures q[0].Dir? && q[0].listing.Listed? ==> Size(q) == 1 + Size(q[0].listing.entries) + Size(q[1..])
  {
  }

  lemma {:induction false} SizeAppend(a: seq<Node>, b: seq<Node>)
    ensures Size(a + b) == Size(a) + Size(b)
    decreases |a|
  {
    if a == [] {
      assert a + b == b;
    } else {
      assert (a + b)[1..] == a[1..] + b;
      SizeAppend(a[1..], b);
    }
  }

  lemma {:induction false} CompleteAppend(a: seq<Node>, b: seq<Node>)
    ensures Complete(a + b) <==> Complete(a) && Complete(b)
    decreases |a|
  {
    if a == [] {
      assert a + b == b;
    } else {
      assert (a + b)[1..] == a[1..] + b;
      CompleteAppend(a[1..], b);
    }
  }

  lemma {:induction false} LeavesAppend(a: seq<Node>, b: seq<Node>)
    ensures Leaves(a + b) == Leaves(a) + Leaves(b)
    decreases |a|
  {
    if a == [] {
      assert a + b == b;
    } else {
      assert (a + b)[1..] == a[1..] + b;
      LeavesAppend(a[1..], b);
    }
  }

  lemma {:induction false} DirsAppend(a: seq<Node>, b: seq<Node>)
    ensures Dirs(a + b) == Dirs(a) + Dirs(b)
    decreases |a|
  {
    if a == [] {
      assert a + b == b;
    } else {
      assert (a + b)[1..] == a[1..] + b;
      DirsAppend(a[1..], b);
    }
  }

  lemma DirsSplit(q: seq<Node>)
    requires q != []
    ensures q[0].Dir? && q[0].listing.Listed? ==> Dirs(q) == [q[0].path] + Dirs(q[0].listing.entries) + Dirs(q[1..])
    ensures q[0].Dir? && q[0].listing.Unlisted? ==> Dirs(q) == [q[0].path] + Dirs(q[1..])
    ensures q[0].File? ==> Dirs(q) == Dirs(q[1..])
  {
  }

  /** The children of the top level are strictly fewer nodes than the level. */
  lemma {:induction false} ChildrenSmaller(q: seq<Node>)
    ensures Size(Children(q)) + |q| <= Size(q)
  {
    if q != [] {
      ChildrenSmaller(q[1..]);
      var own := if q[0].Dir? && q[0].listing.Listed? then q[0].listing.entries else [];
      SizeAppend(own, Children(q[1..]));
    }
  }

  /** The walk fails exactly when some directory of the tree cannot be listed. */
  lemma {:induction false} WalkSucceedsIffComplete(q: seq<Node>)
    ensures Walk(q).Ok? <==> Complete(q)
    decreases Size(q)
  {
    if q != [] {
      SizeSplit(q);
      match q[0]
      case File(p) =>
        WalkSucceedsIffComplete(q[1..]);
      case Dir(_, Unlisted(e)) =>
      case Dir(_, Listed(cs)) =>
        SizeAppend(q[1..], cs);
        WalkSucceedsIffComplete(q[1..] + cs);
        CompleteAppend(q[1..], cs);
    }
  }

  /** Completeness and no duplication: the walk outputs every non-directory
      entry of the tree, as many times as it occurs there, and nothing else. */
  lemma {:induction false} WalkYieldsLeaves(q: seq<Node>)
    ensures Walk(q).Ok? ==> multiset(Walk(q).value) == multiset(Leaves(q))
    decreases Size(q)
  {
    if q != [] {
      SizeSplit(q);
      match q[0]
      case File(p) =>
        WalkYieldsLeaves(q[1..]);
      case Dir(_, Unlisted(e)) =>
      case Dir(_, Listed(cs)) =>
        SizeAppend(q[1..], cs);
        WalkYieldsLeaves(q[1..] + cs);
        LeavesAppend(q[1..], cs);
    }
  }

  /** No directory at the top level of the work list fails to list. */
  predicate TopListable(q: seq<Node>)
  {
    q == [] || (!(q[0].Dir? && q[0].listing.Unlisted?) && TopListable(q[1..]))
  }

  /** The FIFO discipline: walking q followed by r outputs the files at the
      top of q first, then walks r followed by the entries of q's directories. */
  lemma {:induction false} WalkFifo(q: seq<Node>, r: seq<Node>)
    requires TopListable(q)
    ensures Walk(q + r) == Prepend(TopFiles(q), Walk(r + Children(q)))
    decreases |q|
  {
    if q == [] {
      assert q + r == r;
      assert r + Children(q) == r;
      PrependNothing(Walk(r));
    } else {
      var rest := q[1..];
      var w := q + r;
      assert w[0] == q[0];
      assert w[1..] == rest + r;
      WalkUnfold(w);
      if q[0].File? {
        WalkFifo(rest, r);
        PrependTwice([q[0].path], TopFiles(rest), Walk(r + Children(rest)));
        assert TopFiles(q) == [q[0].path] + TopFiles(rest);
        assert Children(q) == [] + Children(rest);
        assert [] + Children(rest) == Children(rest);
      } else {
        var cs := q[0].listing.entries;
        assert Walk(w) == Walk(rest + r + cs);
        assert rest + r + cs == rest + (r + cs);
        WalkFifo(rest, r + cs);
        assert TopFiles(q) == [] + TopFiles(rest);
        assert [] + TopFiles(rest) == TopFiles(rest);
        assert Children(q) == cs + Children(rest);
        assert r + cs + Children(rest) == r + Children(q);
      }
    }
  }

  /** The walk of a fully listable tree outputs its files in breadth-first order. */
  lemma {:induction false} WalkIsLevelOrder(q: seq<Node>)
    ensures Complete(q) ==> Walk(q) == Ok(LevelOrder(q))
    decreases Size(q)
  {
    if q != [] && Complete(q) {
      TopListed(q);
      WalkFifo(q, []);
      assert q + [] == q;
      assert [] + Children(q) == Children(q);
      ChildrenSmaller(q);
      ChildrenComplete(q);
      WalkIsLevelOrder(Children(q));
    }
  }

  lemma {:induction false} TopListed(q: seq<Node>)
    requires Complete(q)
    ensures TopListable(q)
  {
    if q != [] {
      TopListed(q[1..]);
    }
  }

  lemma {:induction false} ChildrenComplete(q: seq<Node>)
    requires Complete(q)
    ensures Complete(Children(q))
  {
    if q != [] {
      ChildrenComplete(q[1..]);
      var own := if q[0].Dir? && q[0].listing.Listed? then q[0].listing.entries else [];
      assert Complete(own);
      CompleteAppend(own, Children(q[1..]));
    }
  }

  /** No directory path is ever output, as long as no directory shares its
      path with a non-directory entry (true of any repository). */
  lemma NoDirectoryOutput(q: seq<Node>, d: string)
    requires d in Dirs(q) && d !in Leaves(q)
    requires Walk(q).Ok?
    ensures d !in Walk(q).value
  {
    WalkYieldsLeaves(q);
    assert d !in multiset(Leaves(q));
  }
}
