# AI code review scripts — a verified model

The repository is a set of standalone scripts that send the source code of a
GitHub repository to a language model for review and save the answers.
This project models five of them in Dafny:

- `withoutPull_codeR.py` walks the whole repository tree breadth-first
  (`contents.pop(0)` / `contents.extend(...)`), fetches each file and asks
  the model three questions per file (syntax, performance, best practices).
  A file whose fetch raises is skipped. It writes `code_review.json`.
- `without_tokenCodeR.py` uses the same walk and asks four questions (with
  security third). A file is skipped unless `get_file_content` returns
  non-empty text. It writes `wt_code_review.json` and prints the completion
  message only when something was reviewed.
- `codeR.py` reviews the `patch` of every changed file of every open pull
  request with the four questions. It records one entry per pull request,
  even one with no patched file, and writes `code_review.json`.
- `crewAi_Implementation.py` and `new_crewAi_implementation.py` list only
  the repository root. They keep `.py` files (the second script also keeps
  `.js`, `.html` and `.css`), download each one, and give a crew of three
  agents three tasks built from the content and a functionality document.
  The crew's output is recorded as text. Both write `crewAi_output.json`
  and a text report `crewAi_output.txt`.

Modules:

- `Outcome`: `Option` and `Result`.
- `Text`: suffix tests, `split('.')[-1]` and ASCII `upper()`.
- `Discovery`: the repository tree, the walk as a specification function
  (`Walk`), and the `while contents:` loop as a method (`CollectFiles`).
- `Dispatcher`: `review_code`. The model backend is a function from prompt
  to `Result`. An exception becomes `Err`, and its text is stored behind
  the `❌ OpenAI API Error: ` prefix.
- `Reports`: the records, the text report, and a `Workspace` class. Its
  `files` map is updated in place by `Save`, which models `open(name, "w")`.
- `TreeReview`, `PullReview`, `CrewReview`: the scripts' top-level loops and
  their end-to-end runs.

Every loop in the scripts is a method with invariants. Each is proved equal
to a specification function: a recursive function for the walk and the
file loops, and a sequence comprehension (`Dispatcher.Reviews`) for the
stage loop of `review_code`. The lemmas are stated about those functions.

## Model

| member | source | states |
|---|---|---|
| Text.AfterLastDot | new_crewAi_implementation.py:91 | `split('.')[-1]`: the result contains no dot and is a suffix of the name. If the name has a dot, the character just before the result is a dot; otherwise the result is the whole name |
| Text.AfterLastDotOfExtension | new_crewAi_implementation.py:91 | a name ending in a dot and a dot-free extension splits to exactly that extension |
| CrewReview.LanguageLabel | new_crewAi_implementation.py:91 | the file-type word is the text after the last dot, upper-cased character by character, with no dot in it |
| CrewReview.MinifiedScriptLabel | new_crewAi_implementation.py:89-91 | a name with several dots is labelled by its last extension: `a.min.js` gives `JS` |
| Discovery.CollectFiles | withoutPull_codeR.py:25-43 | the pop(0)/extend loop returns the walk's result. It succeeds iff no directory listing fails. Its output is a permutation of the tree's file paths, in breadth-first order. Every directory is listed exactly once (counted as a multiset) |
| Discovery.WalkSucceedsIffComplete | withoutPull_codeR.py:27-38 | the walk fails exactly when some directory reachable from the work list cannot be listed; a failure there is not caught |
| Discovery.WalkYieldsLeaves | withoutPull_codeR.py:32-41 | a successful walk returns exactly the non-directory entries of the tree, each as often as it occurs (multiset of paths) |
| Discovery.WalkFifo | withoutPull_codeR.py:32-38 | FIFO order: the walk yields the files of the current work list before anything found in the directories it lists, whose entries go to the back |
| Discovery.WalkIsLevelOrder | without_tokenCodeR.py:57-69 | the walk's output is the level-order (breadth-first) sequence of file paths |
| Discovery.NoDirectoryOutput | without_tokenCodeR.py:64-67 | a directory path that is not also a file path never appears in the output |
| Discovery.ChildrenSmaller | withoutPull_codeR.py:32-38 | replacing listed directories by their entries makes the tree smaller; this bounds the recursion of the level-order definition `LevelOrder` (the `while contents:` loop itself terminates through `SizeSplit` and `SizeAppend`) |
| Dispatcher.ReviewCode | without_tokenCodeR.py:33-54 | one backend call per stage, in stage order. The dictionary keys are the stage names in order. Each key holds its own answer, or the error prefix followed by the exception text |
| Dispatcher.ThreeStageKeys | withoutPull_codeR.py:56-60 | three-stage keys are syntax, performance, best_practices, in that order, with no security key |
| Dispatcher.FourStageKeys | codeR.py:31-36 | four-stage keys are syntax, performance, security, best_practices, in that order |
| Dispatcher.PromptEndsWithContent | withoutPull_codeR.py:57-59 | each prompt is the instruction, then `:\n`, then the code unchanged |
| Dispatcher.LookupStage | without_tokenCodeR.py:42-54 | looking up a stage's key in the dictionary gives exactly that stage's verdict |
| Dispatcher.FailureRecorded | codeR.py:47-48 | a stage whose call raises stores `❌ OpenAI API Error: ` followed by the error under its own key |
| Dispatcher.FaultIsolation | withoutPull_codeR.py:64-72 | a backend failing on one prompt changes no other stage's entry and never the number of entries |
| TreeReview.GetFileContent | without_tokenCodeR.py:24-31 | never raises: None exactly when the fetch fails, otherwise the fetched text |
| TreeReview.ReviewFiles | withoutPull_codeR.py:81-89 | the review loop produces the records of the specification, at most one per discovered path |
| TreeReview.RunWithoutPull | withoutPull_codeR.py:76-95 | a listing error aborts before anything is written. Otherwise code_review.json is replaced by the records of the fetchable files, in discovery order, and the reported count is their number, at most the number of files found |
| TreeReview.RunWithoutToken | without_tokenCodeR.py:71-89 | a listing error aborts before anything is written. Otherwise wt_code_review.json is replaced by the records of the files with non-empty content. The completion message is shown iff there is a record, else the warning |
| TreeReview.ReviewedFilesAppend | without_tokenCodeR.py:74-79 | records are appended in path order; each path contributes independently |
| TreeReview.ReviewedFilesBound | withoutPull_codeR.py:81-87 | at most one record per discovered path |
| TreeReview.RecordsAreAdmittedPaths | without_tokenCodeR.py:74-79 | every record names a discovered path that the skip rule let through, and holds the review of that path's content |
| TreeReview.AdmittedPathsAreRecorded | withoutPull_codeR.py:84-87 | every discovered path the skip rule lets through is recorded, even when all its stages failed |
| TreeReview.RulesAgreeWithoutEmptyFiles | without_tokenCodeR.py:76-77 | the try/except rule and the `if content:` rule keep the same files when no file is empty |
| TreeReview.EmptyFileRules | without_tokenCodeR.py:77 | an empty file is reviewed by withoutPull_codeR.py and skipped by without_tokenCodeR.py |
| PullReview.ReviewPatches | codeR.py:57-63 | the inner loop gives the reviews of the files with a non-empty patch, in `get_files` order, at most one per file |
| PullReview.ReviewPulls | codeR.py:53-65 | the nested loops give one entry per open pull request, in order, with its number and the reviews of its patched files. They fail iff some file listing fails |
| PullReview.RunPullReview | codeR.py:53-75 | a listing error aborts before anything is written. Otherwise code_review.json is replaced by one entry per pull request. The completion message is shown iff there is an open pull request |
| PullReview.FirstErrorSticks | codeR.py:57 | once a file listing raises, later pull requests do not change the outcome |
| PullReview.PatchReviewsBound | codeR.py:57-63 | at most one record per changed file |
| PullReview.RecordsArePatchedFiles | codeR.py:59-63 | every record is a changed file with a non-empty patch, and the patch text is what was reviewed |
| PullReview.PatchedFilesAreRecorded | codeR.py:59-63 | every changed file with a non-empty patch gets its record |
| PullReview.UnpatchedPullRequest | codeR.py:55-65 | a pull request with no patched file is still recorded, with an empty file list |
| CrewReview.Tasks | new_crewAi_implementation.py:70-106 | three tasks: the syntax check for the potential tester, the performance and security review for the senior tester, and the check against the functionality document for the senior full-stack tester, in that order, each about the downloaded content |
| CrewReview.TaskWording | new_crewAi_implementation.py:70-106 | a `.py` name (every name, in the Python-only script) gets the Python wording in all three tasks, any other name the upper-cased extension. The Python-only script expects the syntax list with line numbers, the short risk list and the detailed report (crewAi_Implementation.py:73-85). The multi-language script expects the severe-issue list and the summary for every file, and the syntax list with line numbers for a `.py` file but the syntax-and-structure list for another file |
| CrewReview.WebFileWording | new_crewAi_implementation.py:89-106 | in the multi-language script, a selected file whose name does not end in `.py` is worded `JS`, `HTML` or `CSS` in all three tasks |
| CrewReview.MultiLanguageSelects | new_crewAi_implementation.py:62 | the multi-language script selects exactly the entries of type file whose name ends in `.py`, `.js`, `.html` or `.css` |
| CrewReview.DescriptionEndsWithContent | new_crewAi_implementation.py:72-103 | every description ends with the code it asks about. The functionality-document description ends with the document, `\n\nCode:\n` and the code |
| CrewReview.PythonDescriptionsAgree | crewAi_Implementation.py:70-86 | for a `.py` file both scripts give the same descriptions to the same agent tags with the same first expected output. The Python-only script expects the shorter risk list and the detailed report; the other script expects the severe-issue list and the summary |
| CrewReview.PythonOnlySelectsPy | crewAi_Implementation.py:62 | the Python-only script selects exactly the entries of type file whose name ends in `.py` |
| CrewReview.RootEntries | crewAi_Implementation.py:16-23 | `get_repo_files` fails exactly when the request or `response.json()` raises, with that error. A status other than 200 gives no entries; a 200 answer gives its entries |
| CrewReview.ReviewEntries | new_crewAi_implementation.py:61-119 | the file loop produces the records of the specification, at most one per root entry, or the first error raised by a download or a crew |
| CrewReview.RunCrew | crewAi_Implementation.py:55-128 | if the listing, a download or a crew raises, nothing is written. Otherwise crewAi_output.json is replaced by the records and crewAi_output.txt by their text report |
| CrewReview.FirstErrorSticks | new_crewAi_implementation.py:64-114 | once a download or a crew raises, later entries do not change the outcome |
| CrewReview.ListingFailureReviewsNothing | crewAi_Implementation.py:16-23 | a root listing answered with a status other than 200 reviews nothing, so empty reports are written. A listing whose request or `response.json()` raises ends the run with that error |
| CrewReview.RecordsAreSelectedFiles | new_crewAi_implementation.py:61-119 | every record names a selected root entry that downloaded, and holds the crew output for that entry's tasks |
| CrewReview.SelectedFilesAreRecorded | crewAi_Implementation.py:61-115 | when the run succeeds, every selected entry that downloads is recorded with its crew output |
| CrewReview.CrewSucceedsIffNothingRaised | new_crewAi_implementation.py:61-119 | the file loop succeeds iff, for every selected entry, the download does not raise and, when it is answered with 200, the crew run on its tasks does not raise |
| CrewReview.CrewReviewsBound | new_crewAi_implementation.py:116-119 | at most one record per root entry |
| Reports.WriteReport | new_crewAi_implementation.py:126-130 | the text file is the concatenation of the entries' blocks, in record order. Entry i's block sits between the blocks before it and those after it |
| Reports.BlockShape | crewAi_Implementation.py:124-126 | a block starts with `Filename: <name>\n` and ends with 80 `=` and a blank line. Its length is 103 characters plus the name and the review text |
| Reports.ReportAppend | new_crewAi_implementation.py:127-130 | the report of two runs of records is the two reports one after the other |
| Reports.ReportAt | crewAi_Implementation.py:123-126 | entry i's block sits between the report of the entries before it and the report of those after it |
| Reports.Workspace.Save | new_crewAi_implementation.py:122-123 | opening in "w" mode replaces that file's previous content and leaves every other file as it was |

## Left out

- HTTP, PyGithub, the OpenAI client and CrewAI are not modelled. Each call is a
  function parameter: a fetcher, a download from URL to `Result<Option<..>>`
  (raised, not answered with 200, or the body), a backend from prompt to
  `Result`, or a kickoff from tasks to `Result`. The root listing of the
  CrewAI scripts is a `Result<Option<..>>` value of the same shape. A
  backend is thus deterministic per prompt, which the real service is not.
- A CrewAI task is modelled as the question it asks, the file's wording
  (Python or the upper-cased extension), the code, the agent and the
  expected output. `CrewTask.Text` gives the exact description. An
  expected output is a tag naming which of the six texts the task carries;
  the texts themselves are not modelled. The kickoff function receives
  this structure, so it may tell apart tasks whose texts coincide; the
  real crew cannot.
- Agent roles, goals, backstories and the model name `gpt-4-turbo` are not
  modelled. An agent is a tag, and the kickoff parameter stands in for the
  agents' configuration. That configuration shapes the recorded
  `reviews` text, and it differs between the two scripts
  (crewAi_Implementation.py:34-53 and new_crewAi_implementation.py:34-53).
  So two runs of the two scripts share a kickoff function only as a model
  assumption, and "same agents" in `PythonDescriptionsAgree` means the
  same agent tags.
- `requests.get` has no timeout in the CrewAI scripts, so a request can
  hang. The model has no hanging call: a request answers or raises.
- Reports.Workspace.Save: a write never fails in the model. In the scripts,
  `open(..., "w")`, `json.dump` and `write` can raise (a full disk, a denied
  permission), and nothing catches it. The file being written is then left
  emptied or partly written, the script stops, and any later output file
  keeps the previous run's content. In the CrewAI scripts a failed JSON
  write means crewAi_output.txt is never opened. So the promise of
  `RunCrew`, `RunWithoutPull`, `RunWithoutToken` and `RunPullReview` that a
  successful review replaces every output file holds only when every write
  succeeds.
- JSON serialisation (`indent=4`, `ensure_ascii`) and UTF-8 encoding are
  not modelled. A JSON artifact is the list of records it holds.
- Console diagnostics are not modelled, except the choice of final message.
  This includes the wording of the banners, so the `code_review.json` named
  by without_tokenCodeR.py's banner is not modelled.
- `message.content` being None is not modelled: an answer is a string.
- PyGithub's pagination and lazy listing are not modelled: a listing is its
  complete result or an error.
- `read_functionality_doc` is not modelled: the document is a parameter,
  and a failure to read it is left out.
- Reading `.env` and the environment variables is not modelled.
- Text.Upper: only ASCII letters are upper-cased. Python's `str.upper`
  also maps other Unicode letters.
- CrewReview.LanguageLabel: inherits the ASCII-only upper-casing of Text.Upper.
- `get_repo_files` in the CrewAI scripts: a 200 answer is taken to be a list
  of entries. Other JSON shapes are not modelled.
- tes.py, pr_fetch.py and basic_api.py are not part of this model.
- The scripts do not deduplicate paths during the walk, record no run
  metadata, do no work concurrently, and write no artifact after an
  uncaught error:
  - withoutPull_codeR.py and without_tokenCodeR.py skip files they cannot read;
  - an uncaught listing, download or crew error ends the run before any
    file is written.
