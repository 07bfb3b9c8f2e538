/** The driver of codeR.py: for every open pull request, review the patch of
    each changed file that has one, with the four-stage dispatcher, and record
    one entry per pull request. PyGithub's listings of the open pull requests
    and of each pull request's files are answers that may be errors; an error
    there ends the script before anything is written. */
module PullReview {
  import opened Outcome
  import opened Dispatcher
  import opened Reports

  /** A changed file: its name and its `patch`, which PyGithub gives as None
      for files without a textual diff. */
  datatype PrFile = PrFile(filename: string, patch: Option<string>)

  /** An open pull request and the answer of `pr.get_files()`. */
  datatype PullRequest = PullRequest(number: int, files: Result<seq<PrFile>>)

  /** `if file.patch:`: a patch that is present and non-empty. */
  predicate HasPatch(f: PrFile)
  {
    f.patch.Some? && f.patch.value != ""
  }

  /** The record of one changed file: none without a patch, else the review of the patch. */
  function PatchEntry(f: PrFile, complete: Backend): seq<FileReview>
  {
    if HasPatch(f) then [FileReview(f.filename, Reviews(FourStages, f.patch.value, complete))] else []
  }

  /** `pr_review["files"]` after the inner loop has gone over files. */
  function PatchReviews(files: seq<PrFile>, complete: Backend): seq<FileReview>
  {
    if files == [] then []
    else PatchReviews(files[..|files| - 1], complete) + PatchEntry(files[|files| - 1], complete)
  }

  /** `review_results` after the outer loop has gone over pulls, or the first
      error raised by a file listing. */
  function PullReviews(pulls: seq<PullRequest>, complete: Backend): Result<seq<PullRequestReview>>
  {
    if pulls == [] then Ok([])
    else
      var last := pulls[|pulls| - 1];
      match PullReviews(pulls[..|pulls| - 1], complete)
      case Err(e) => Err(e)
      case Ok(done) =>
        match last.files
        case Err(e) => Err(e)
        case Ok(files) => Ok(done + [PullRequestReview(last.number, PatchReviews(files, complete))])
  }

  /** The inner loop of codeR.py: the reviews of one pull request's patched
      files, in `get_files` order. */
  method ReviewPatches(files: seq<PrFile>, complete: Backend) returns (fileReviews: seq<FileReview>)
    ensures fileReviews == PatchReviews(files, complete)
    ensures |fileReviews| <= |files|
  {
    fileReviews := [];
    for j := 0 to |files|
      invariant fileReviews == PatchReviews(files[..j], complete)
      invariant |fileReviews| <= j
    {
      assert files[..j + 1][..j] == files[..j];
      var file := files[j];
      if file.patch.Some? && file.patch.value != "" {
        var reviews := ReviewCode(FourStages, file.patch.value, complete);
        fileReviews := fileReviews + [FileReview(file.filename, reviews)];
      }
    }
    assert files[..|files|] == files;
  }

  /** The outer loop of codeR.py: one entry per pull request, in order, each
      holding the reviews of its patched files. */
  method ReviewPulls(pulls: seq<PullRequest>, complete: Backend) returns (r: Result<seq<PullRequestReview>>)
    ensures r == PullReviews(pulls, complete)
    ensures r.Ok? <==> forall i :: 0 <= i < |pulls| ==> pulls[i].files.Ok?
    ensures r.Ok? ==> |r.value| == |pulls|
    ensures r.Ok? ==> forall i :: 0 <= i < |pulls| ==>
      r.value[i] == PullRequestReview(pulls[i].number, PatchReviews(pulls[i].files.value, complete))
  {
    var results: seq<PullRequestReview> := [];
    for i := 0 to |pulls|
      invariant PullReviews(pulls[..i], complete) == Ok(results)
      invariant forall k :: 0 <= k < i ==> pulls[k].files.Ok?
      invariant |results| == i
      invariant forall k :: 0 <= k < i ==>
        results[k] == PullRequestReview(pulls[k].number, PatchReviews(pulls[k].files.value, complete))
    {
      var pr := pulls[i];
      assert pulls[..i + 1][..i] == pulls[..i];
      if pr.files.Err? {
        FirstErrorSticks(pulls, complete, i + 1);
        return Err(pr.files.error);
      }
      var fileReviews := ReviewPatches(pr.files.value, complete);
      results := results + [PullRequestReview(pr.number, fileReviews)];
    }
    assert pulls[..|pulls|] == pulls;
    r := Ok(results);
  }

  /** codeR.py end to end: review every open pull request, write
      code_review.json, and print the completion message exactly when some
      pull request was recorded. */
  method RunPullReview(ws: Workspace, openPulls: Result<seq<PullRequest>>, complete: Backend)
    returns (outcome: RunOutcome, results: seq<PullRequestReview>)
    modifies ws
    ensures openPulls.Err? ==> outcome == Aborted(openPulls.error) && ws.files == old(ws.files)
    ensures openPulls.Ok? && PullReviews(openPulls.value, complete).Err? ==>
      outcome == Aborted(PullReviews(openPulls.value, complete).error) && ws.files == old(ws.files)
    ensures openPulls.Ok? && PullReviews(openPulls.value, complete).Ok? ==>
      && results == PullReviews(openPulls.value, complete).value
      && |results| == |openPulls.value|
      && ws.files == old(ws.files)["code_review.json" := PullReviewsJson(results)]
      && (outcome == Done(Finished(|results|)) <==> openPulls.value != [])
      && (outcome == Done(NothingReviewed) <==> openPulls.value == [])
  {
    if openPulls.Err? {
      return Aborted(openPulls.error), [];
    }
    var reviewed := ReviewPulls(openPulls.value, complete);
    if reviewed.Err? {
      return Aborted(reviewed.error), [];
    }
    results := reviewed.value;
    ws.Save("code_review.json", PullReviewsJson(results));
    if results != [] {
      outcome := Done(Finished(|results|));
    } else {
      outcome := Done(NothingReviewed);
    }
  }

  // ---------------------------------------------------------------------
  // Lemmas
  // ---------------------------------------------------------------------

  /** Once a file listing has raised, later pull requests change nothing:
      the run's answer is that first error. */
  lemma {:induction false} FirstErrorSticks(pulls: seq<PullRequest>, complete: Backend, i: nat)
    requires i <= |pulls|
    requires PullReviews(pulls[..i], complete).Err?
    ensures PullReviews(pulls, complete) == PullReviews(pulls[..i], complete)
    decreases |pulls| - i
  {
    if i < |pulls| {
      var next := pulls[..i + 1];
      assert next[..i] == pulls[..i];
      FirstErrorSticks(pulls, complete, i + 1);
    } else {
      assert pulls[..i] == pulls;
    }
  }

  /** Each pull request's list holds at most one record per changed file. */
  lemma {:induction false} PatchReviewsBound(files: seq<PrFile>, complete: Backend)
    ensures |PatchReviews(files, complete)| <= |files|
  {
    if files != [] {
      PatchReviewsBound(files[..|files| - 1], complete);
    }
  }

  /** Every record is a changed file with a patch, and what was reviewed is
      the patch text, not the whole file. */
  lemma {:induction false} RecordsArePatchedFiles(files: seq<PrFile>, complete: Backend, r: FileReview)
    requires r in PatchReviews(files, complete)
    ensures exists f :: f in files && HasPatch(f) && f.filename == r.filename
                     && r.reviews == Reviews(FourStages, f.patch.value, complete)
  {
    var init := files[..|files| - 1];
    var last := files[|files| - 1];
    if r in PatchEntry(last, complete) {
      assert last in files;
    } else {
      RecordsArePatchedFiles(init, complete, r);
      assert forall f :: f in init ==> f in files;
    }
  }

  /** Every changed file with a patch gets its record. */
  lemma {:induction false} PatchedFilesAreRecorded(files: seq<PrFile>, complete: Backend, f: PrFile)
    requires f in files && HasPatch(f)
    ensures FileReview(f.filename, Reviews(FourStages, f.patch.value, complete)) in PatchReviews(files, complete)
  {
    var init := files[..|files| - 1];
    if f != files[|files| - 1] {
      assert f in init by {
        assert files == init + [files[|files| - 1]];
      }
      PatchedFilesAreRecorded(init, complete, f);
    }
  }

  /** A pull request none of whose files has a patch is still recorded, with
      an empty file list. */
  lemma {:induction false} UnpatchedPullRequest(files: seq<PrFile>, complete: Backend)
    requires forall f :: f in files ==> !HasPatch(f)
    ensures PatchReviews(files, complete) == []
  {
    if files != [] {
      var init := files[..|files| - 1];
      assert forall f :: f in init ==> f in files;
      UnpatchedPullRequest(init, complete);
      assert files[|files| - 1] in files;
    }
  }
}
