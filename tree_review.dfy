/** The drivers of the two whole-tree scripts: withoutPull_codeR.py (three
    stages; a file whose content fetch raises is skipped) and
    without_tokenCodeR.py (four stages; a file is skipped unless
    `get_file_content` returns non-empty text). Both walk the tree with
    `Discovery.CollectFiles`, review every surviving file with
    `Dispatcher.ReviewCode` in discovery order, and write the records once. */
module TreeReview {
  import opened Outcome
  import opened Discovery
  import opened Dispatcher
  import opened Reports

  /** `repo.get_contents(path).decoded_content.decode("utf-8")`: the text of
      a file, or the exception that fetching or decoding raised. */
  type Fetcher = string -> Result<string>

  /** Which files the review loop passes over. */
  datatype SkipRule =
    | SkipFailedFetch   // `try ... except`: only a fetch that raises is skipped
    | SkipFalsyContent  // `if content:`: a failed fetch (None) and empty text are skipped

  /** `get_file_content` of without_tokenCodeR.py: never raises; any failure is None. */
  function GetFileContent(fetch: Fetcher, path: string): (r: Option<string>)
    ensures r.None? <==> fetch(path).Err?
    ensures r.Some? ==> Ok(r.value) == fetch(path)
  {
    match fetch(path)
    case Ok(text) => Some(text)
    case Err(_) => None
  }

  /** The content the loop reviews for one path, or None when it skips the path. */
  function Admitted(rule: SkipRule, fetch: Fetcher, path: string): Option<string>
  {
    match rule
    case SkipFailedFetch =>
      (match fetch(path) case Ok(text) => Some(text) case Err(_) => None)
    case SkipFalsyContent =>
      (match GetFileContent(fetch, path)
       case Some(text) => if text != "" then Some(text) else None
       case None => None)
  }

  /** The record one path contributes to `review_results`: none or one. */
  function Entry(rule: SkipRule, fetch: Fetcher, stages: seq<Stage>, complete: Backend, path: string): seq<FileReview>
  {
    match Admitted(rule, fetch, path)
    case Some(content) => [FileReview(path, Reviews(stages, content, complete))]
    case None => []
  }

  /** `review_results` after the review loop has gone over paths. */
  function ReviewedFiles(rule: SkipRule, fetch: Fetcher, stages: seq<Stage>, complete: Backend, paths: seq<string>): seq<FileReview>
  {
    if paths == [] then []
    else ReviewedFiles(rule, fetch, stages, complete, paths[..|paths| - 1])
         + Entry(rule, fetch, stages, complete, paths[|paths| - 1])
  }

  /** The review loop: for each path in order, fetch its content; when the
      rule lets it through, review it and append `{filename, reviews}`. */
  method ReviewFiles(rule: SkipRule, fetch: Fetcher, stages: seq<Stage>, complete: Backend, paths: seq<string>)
    returns (results: seq<FileReview>)
    ensures results == ReviewedFiles(rule, fetch, stages, complete, paths)
    ensures |results| <= |paths|
  {
    results := [];
    for i := 0 to |paths|
      invariant results == ReviewedFiles(rule, fetch, stages, complete, paths[..i])
      invariant |results| <= i
    {
      var path := paths[i];
      assert paths[..i + 1][..i] == paths[..i];
      match rule
      case SkipFailedFetch =>
        var fetched := fetch(path);
        if fetched.Ok? {
          var reviews := ReviewCode(stages, fetched.value, complete);
          results := results + [FileReview(path, reviews)];
        }
      case SkipFalsyContent =>
        var content := GetFileContent(fetch, path);
        if content.Some? && content.value != "" {
          var reviews := ReviewCode(stages, content.value, complete);
          results := results + [FileReview(path, reviews)];
        }
    }
    assert paths[..|paths|] == paths;
  }

  /** withoutPull_codeR.py end to end: walk the tree from the root listing,
      review with three stages, skipping files whose fetch raises, write
      code_review.json, report the count. A listing error ends the script
      before anything is written. */
  method RunWithoutPull(ws: Workspace, root: Listing, fetch: Fetcher, complete: Backend)
    returns (outcome: RunOutcome, results: seq<FileReview>)
    modifies ws
    ensures Discover(root).Err? ==> outcome == Aborted(Discover(root).error) && ws.files == old(ws.files)
    ensures Discover(root).Ok? ==>
      && results == ReviewedFiles(SkipFailedFetch, fetch, ThreeStages, complete, Discover(root).value)
      && ws.files == old(ws.files)["code_review.json" := FileReviewsJson(results)]
      && outcome == Done(Finished(|results|))
      && |results| <= |Discover(root).value|
  {
    var found, listed := CollectFiles(root);
    if found.Err? {
      return Aborted(found.error), [];
    }
    results := ReviewFiles(SkipFailedFetch, fetch, ThreeStages, complete, found.value);
    ws.Save("code_review.json", FileReviewsJson(results));
    outcome := Done(Finished(|results|));
  }

  /** without_tokenCodeR.py end to end: the same walk, four stages, files with
      no content skipped, wt_code_review.json written; the completion message
      is printed exactly when some file was reviewed. */
  method RunWithoutToken(ws: Workspace, root: Listing, fetch: Fetcher, complete: Backend)
    returns (outcome: RunOutcome, results: seq<FileReview>)
    modifies ws
    ensures Discover(root).Err? ==> outcome == Aborted(Discover(root).error) && ws.files == old(ws.files)
    ensures Discover(root).Ok? ==>
      && results == ReviewedFiles(SkipFalsyContent, fetch, FourStages, complete, Discover(root).value)
      && ws.files == old(ws.files)["wt_code_review.json" := FileReviewsJson(results)]
      && (outcome == Done(Finished(|results|)) <==> results != [])
      && (outcome == Done(NothingReviewed) <==> results == [])
  {
    var found, listed := CollectFiles(root);
    if found.Err? {
      return Aborted(found.error), [];
    }
    results := ReviewFiles(SkipFalsyContent, fetch, FourStages, complete, found.value);
    ws.Save("wt_code_review.json", FileReviewsJson(results));
    if results != [] {
      outcome := Done(Finished(|results|));
    } else {
      outcome := Done(NothingReviewed);
    }
  }

  // ---------------------------------------------------------------------
  // Lemmas
  // ---------------------------------------------------------------------

  /** Paths contribute their records independently and in order. */
  lemma {:induction false} ReviewedFilesAppend(rule: SkipRule, fetch: Fetcher, stages: seq<Stage>, complete: Backend,
                                               a: seq<string>, b: seq<string>)
    ensures ReviewedFiles(rule, fetch, stages, complete, a + b)
         == ReviewedFiles(rule, fetch, stages, complete, a) + ReviewedFiles(rule, fetch, stages, complete, b)
    decreases |b|
  {
    if b == [] {
      assert a + b == a;
    } else {
      var init := b[..|b| - 1];
      assert (a + b)[..|a + b| - 1] == a + init;
      assert (a + b)[|a + b| - 1] == b[|b| - 1];
      ReviewedFilesAppend(rule, fetch, stages, complete, a, init);
    }
  }

  /** At most one record per discovered path. */
  lemma {:induction false} ReviewedFilesBound(rule: SkipRule, fetch: Fetcher, stages: seq<Stage>, complete: Backend, paths: seq<string>)
    ensures |ReviewedFiles(rule, fetch, stages, complete, paths)| <= |paths|
  {
    if paths != [] {
      ReviewedFilesBound(rule, fetch, stages, complete, paths[..|paths| - 1]);
    }
  }

  /** Every record is a discovered path that the rule let through, carrying
      the review of that path's content. */
  lemma {:induction false} RecordsAreAdmittedPaths(rule: SkipRule, fetch: Fetcher, stages: seq<Stage>, complete: Backend,
                                                   paths: seq<string>, r: FileReview)
    requires r in ReviewedFiles(rule, fetch, stages, complete, paths)
    ensures r.filename in paths
    ensures Admitted(rule, fetch, r.filename).Some?
    ensures r.reviews == Reviews(stages, Admitted(rule, fetch, r.filename).value, complete)
  {
    var init := paths[..|paths| - 1];
    if r !in Entry(rule, fetch, stages, complete, paths[|paths| - 1]) {
      RecordsAreAdmittedPaths(rule, fetch, stages, complete, init, r);
      assert r.filename in init;
    }
  }

  /** Every discovered path that the rule lets through gets its record, even
      when every stage of its review failed. */
  lemma {:induction false} AdmittedPathsAreRecorded(rule: SkipRule, fetch: Fetcher, stages: seq<Stage>, complete: Backend,
                                                    paths: seq<string>, p: string)
    requires p in paths && Admitted(rule, fetch, p).Some?
    ensures FileReview(p, Reviews(stages, Admitted(rule, fetch, p).value, complete))
            in ReviewedFiles(rule, fetch, stages, complete, paths)
  {
    var init := paths[..|paths| - 1];
    if p != paths[|paths| - 1] {
      assert p in init by {
        assert paths == init + [paths[|paths| - 1]];
      }
      AdmittedPathsAreRecorded(rule, fetch, stages, complete, init, p);
    }
  }

  /** The two skip rules differ only on files whose content is the empty
      string: with no such file, both scripts' loops keep the same files. */
  lemma {:induction false} RulesAgreeWithoutEmptyFiles(fetch: Fetcher, stages: seq<Stage>, complete: Backend, paths: seq<string>)
    requires forall p :: p in paths ==> fetch(p) != Ok("")
    ensures ReviewedFiles(SkipFailedFetch, fetch, stages, complete, paths)
         == ReviewedFiles(SkipFalsyContent, fetch, stages, complete, paths)
  {
    if paths != [] {
      var init := paths[..|paths| - 1];
      assert forall p :: p in init ==> p in paths;
      RulesAgreeWithoutEmptyFiles(fetch, stages, complete, init);
      assert paths[|paths| - 1] in paths;
    }
  }

  /** An empty file is reviewed by withoutPull_codeR.py and skipped by
      without_tokenCodeR.py. */
  lemma EmptyFileRules(fetch: Fetcher, stages: seq<Stage>, complete: Backend, p: string)
    requires fetch(p) == Ok("")
    ensures ReviewedFiles(SkipFailedFetch, fetch, stages, complete, [p]) == [FileReview(p, Reviews(stages, "", complete))]
    ensures ReviewedFiles(SkipFalsyContent, fetch, stages, complete, [p]) == []
  {
    assert [p][..0] == [];
  }
}
