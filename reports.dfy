/** The records the scripts collect in `review_results`, the text report of
    the CrewAI scripts, and the output files, which every script opens in
    "w" mode. */
module Reports {
  import opened Dispatcher

  /** `{"filename": ..., "reviews": {...}}` of the OpenAI scripts. */
  datatype FileReview = FileReview(filename: string, reviews: seq<StageReview>)

  /** `{"pull_request": pr.number, "files": [...]}` of codeR.py. */
  datatype PullRequestReview = PullRequestReview(pullRequest: int, files: seq<FileReview>)

  /** `{"filename": name, "reviews": str(results)}` of the CrewAI scripts. */
  datatype CrewRecord = CrewRecord(filename: string, reviews: string)

  /** What an output file holds: a structured list of records (the JSON
      artifact, not its bytes), or plain text. */
  datatype Artifact =
    | FileReviewsJson(fileReviews: seq<FileReview>)
    | PullReviewsJson(pullReviews: seq<PullRequestReview>)
    | CrewJson(crewRecords: seq<CrewRecord>)
    | PlainText(text: string)

  /** The final console message of the OpenAI scripts: completion with the
      number of entries written (files, or pull requests in codeR.py), or the
      warning that nothing was reviewed. */
  datatype Banner = Finished(count: nat) | NothingReviewed

  /** How a run of an OpenAI script ends: an uncaught error before anything
      is written, or the output written and a final message printed. */
  datatype RunOutcome = Aborted(error: string) | Done(banner: Banner)

  /** `"=" * 80` */
  const Rule: string := "================================================================================"

  const FilenameLabel: string := "Filename: "
  const ReviewsLabel: string := "Reviews:\n"

  /** The three writes for one entry of `review_results`. */
  function Block(r: CrewRecord): string
  {
    FilenameLabel + r.filename + "\n" + ReviewsLabel + r.reviews + "\n" + Rule + "\n\n"
  }

  /** The text file after writing the blocks of rs, one after another. */
  function Report(rs: seq<CrewRecord>): string
  {
    Concat(rs, Block)
  }

  /** The pieces f(x) of the xs, written one after another. */
  function Concat<T>(xs: seq<T>, f: T -> string): string
  {
    if xs == [] then "" else Concat(xs[..|xs| - 1], f) + f(xs[|xs| - 1])
  }

  /** The text-report loop: the file is opened empty ("w") and each entry's
      block is written after the previous ones. */
  method WriteReport(records: seq<CrewRecord>) returns (text: string)
    ensures text == Report(records)
    ensures forall i :: 0 <= i < |records| ==>
      text == Report(records[..i]) + Block(records[i]) + Report(records[i + 1..])
  {
    text := "";
    for i := 0 to |records|
      invariant text == Report(records[..i])
    {
      assert records[..i + 1][..i] == records[..i];
      text := text + Block(records[i]);
    }
    assert records[..|records|] == records;
    forall i | 0 <= i < |records|
      ensures text == Report(records[..i]) + Block(records[i]) + Report(records[i + 1..])
    {
      ReportAt(records, i);
    }
  }

  // ---------------------------------------------------------------------
  // Lemmas
  // ---------------------------------------------------------------------

  /** Each block opens with the filename line and closes with the
      80-character rule and a blank line. */
  lemma BlockShape(r: CrewRecord)
    ensures Block(r)[..|FilenameLabel| + |r.filename| + 1] == FilenameLabel + r.filename + "\n"
    ensures |Block(r)| == 23 + |r.filename| + |r.reviews| + 80
    ensures Block(r)[|Block(r)| - 82..] == Rule + "\n\n"
  {
    var head := FilenameLabel + r.filename + "\n";
    var tail := Rule + "\n\n";
    assert Block(r) == head + (ReviewsLabel + r.reviews + "\n") + tail;
  }

  /** Writing two runs of pieces gives the two texts one after the other. */
  lemma {:induction false} ConcatAppend<T>(a: seq<T>, b: seq<T>, f: T -> string)
    ensures Concat(a + b, f) == Concat(a, f) + Concat(b, f)
    decreases |b|
  {
    if b == [] {
      assert a + b == a;
    } else {
      var init := b[..|b| - 1];
      assert (a + b)[..|a + b| - 1] == a + init;
      assert (a + b)[|a + b| - 1] == b[|b| - 1];
      ConcatAppend(a, init, f);
    }
  }

  lemma ConcatAt<T>(xs: seq<T>, f: T -> string, i: nat)
    requires i < |xs|
    ensures Concat(xs, f) == Concat(xs[..i], f) + f(xs[i]) + Concat(xs[i + 1..], f)
  {
    var upTo := xs[..i + 1];
    assert xs == upTo + xs[i + 1..];
    ConcatAppend(upTo, xs[i + 1..], f);
    assert upTo[..i] == xs[..i];
  }

  /** The report of two runs of records is the two reports one after the other. */
  lemma ReportAppend(a: seq<CrewRecord>, b: seq<CrewRecord>)
    ensures Report(a + b) == Report(a) + Report(b)
  {
    ConcatAppend(a, b, Block);
  }

  /** Blocks appear in `review_results` order: entry i's block sits between
      the blocks of the entries before it and those after it. */
  lemma ReportAt(rs: seq<CrewRecord>, i: nat)
    requires i < |rs|
    ensures Report(rs) == Report(rs[..i]) + Block(rs[i]) + Report(rs[i + 1..])
  {
    ConcatAt(rs, Block, i);
  }

  /** The output directory: file name to content. */
  class Workspace {
    var files: map<string, Artifact>

    constructor (existing: map<string, Artifact>)
      ensures files == existing
    {
      files := existing;
    }

    /** `open(name, "w")` followed by the writes of `content`: whatever the
        file held before is replaced; no other file changes. */
    method Save(name: string, content: Artifact)
      modifies this
      ensures files == old(files)[name := content]
      ensures files[name] == content
      ensures forall other :: other != name ==> (other in files <==> other in old(files))
      ensures forall other :: other != name && other in files ==> files[other] == old(files)[other]
    {
      files := files[name := content];
    }
  }
}
