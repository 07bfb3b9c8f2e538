/** The two CrewAI scripts: crewAi_Implementation.py (Python files only) and
    new_crewAi_implementation.py (Python, JavaScript, HTML and CSS files).
    Both list only the repository root, keep the entries that are files with
    an accepted extension, download each, hand three tasks to a crew, record
    the crew's output as text, and write a JSON and a text report.

    An HTTP call either raises (no connection, or a body that is not JSON
    where `response.json()` is called) or answers; an answer with a status
    other than 200 carries no value. The crew's `kickoff` is a function of the
    three tasks that may raise. Nothing in the scripts catches these
    exceptions, so each ends the run before any file is written. */
module CrewReview {
  import opened Outcome
  import opened Text
  import opened Reports

  /** One element of the JSON list that `/contents/` returns. */
  datatype RepoEntry = RepoEntry(name: string, kind: string, downloadUrl: string)

  /** The three agents, in the order the crew is given them. */
  datatype Agent = PotentialTester | SeniorTester | SeniorFullstackTester

  /** The three questions, in task order; the third quotes the functionality document. */
  datatype Question = SyntaxCheck | RiskReview | FunctionalityCheck(doc: string)

  /** How a description names the file: as Python code, or by its upper-cased extension. */
  datatype Language = Python | Labelled(word: string)

  /** The six different `expected_output` texts of the two scripts, by what they ask for. */
  datatype Expected =
    | SyntaxWithLines        // syntax errors, with file name and line numbers
    | SyntaxAndStructure     // syntax errors and structure issues
    | RisksWithSevereIssues  // bottlenecks and risks, plus the few severe issues
    | Risks                  // bottlenecks and risks only
    | FunctionalitySummary   // a summary list against the functionality document
    | FunctionalityReport    // a detailed report against the functionality document

  /** A `Task`: what it asks about which content, its agent and its expected
      output. `Text` gives the description the crew reads. */
  datatype CrewTask = CrewTask(question: Question, language: Language, content: string,
                               agent: Agent, expected: Expected)
  {
    function Text(): string
    {
      Description(question, language, content)
    }
  }

  /** Which of the two scripts. */
  datatype Variant = PythonOnly | MultiLanguage

  /** `requests.get(url)`: the exception it raised, or the body when the
      status is 200 and None otherwise. */
  type Download = string -> Result<Option<string>>

  /** `requests.get` of the root listing followed by `response.json()`: the
      exception either raised, or the entries when the status is 200 and None
      otherwise. */
  type RootListing = Result<Option<seq<RepoEntry>>>

  /** `crew.kickoff()` followed by `str(...)`, or the exception it raised. */
  type Kickoff = seq<CrewTask> -> Result<string>

  /** The extensions each script accepts. */
  function Extensions(v: Variant): seq<string>
  {
    match v
    case PythonOnly => [".py"]
    case MultiLanguage => [".py", ".js", ".html", ".css"]
  }

  /** `get_repo_files`: the root listing, no entries when the request is not
      answered with 200, or the exception the request or `response.json()` raised. */
  function RootEntries(listing: RootListing): (entries: Result<seq<RepoEntry>>)
    ensures entries.Err? <==> listing.Err?
    ensures listing.Err? ==> entries.error == listing.error
    ensures listing == Ok(None) ==> entries == Ok([])
    ensures listing.Ok? && listing.value.Some? ==> entries == Ok(listing.value.value)
  {
    match listing
    case Err(e) => Err(e)
    case Ok(None) => Ok([])
    case Ok(Some(es)) => Ok(es)
  }

  /** `file['type'] == 'file' and file['name'].endswith(...)` */
  predicate Selected(v: Variant, e: RepoEntry)
  {
    e.kind == "file" && EndsWithAny(e.name, Extensions(v))
  }

  /** The file-type word of the non-Python prompts: `name.split('.')[-1].upper()`. */
  function LanguageLabel(name: string): (word: string)
    ensures '.' !in word
    ensures |word| == |AfterLastDot(name)|
    ensures forall i :: 0 <= i < |word| ==> word[i] == UpperChar(AfterLastDot(name)[i])
  {
    Upper(AfterLastDot(name))
  }

  /** The part of the third description that follows the functionality document. */
  const CodeMarker: string := "\n\nCode:\n"

  /** The opening of a description, up to the code (or, for the third
      question, up to the functionality document). */
  function Lead(q: Question, lang: Language): string
  {
    match (q, lang)
    case (SyntaxCheck, Python) => "Analyze the following Python code for syntax errors:\n\n"
    case (RiskReview, Python) => "Review this Python file for performance and security issues:\n\n"
    case (FunctionalityCheck(_), Python) => "Check if this Python file aligns with the functionality document:\n\n"
    case (SyntaxCheck, Labelled(w)) => "Analyze the following " + w + " file for syntax errors and best practices:\n\n"
    case (RiskReview, Labelled(w)) => "Review this " + w + " file for performance and security risks:\n\n"
    case (FunctionalityCheck(_), Labelled(w)) => "Check if this " + w + " file aligns with the functionality document:\n\n"
  }

  /** The `description` argument of a task asking q about content: its f-string filled in. */
  function Description(q: Question, lang: Language, content: string): string
  {
    match q
    case FunctionalityCheck(doc) => Lead(q, lang) + doc + CodeMarker + content
    case _ => Lead(q, lang) + content
  }

  /** The tasks built for one downloaded file: Python files (every file, in
      the Python-only script) get the Python wording, other files the
      upper-cased extension; the expected outputs depend on the script. */
  function Tasks(v: Variant, name: string, doc: string, content: string): (tasks: seq<CrewTask>)
    ensures |tasks| == 3
    ensures tasks[0].agent == PotentialTester && tasks[1].agent == SeniorTester
         && tasks[2].agent == SeniorFullstackTester
    ensures tasks[0].question == SyntaxCheck && tasks[1].question == RiskReview
         && tasks[2].question == FunctionalityCheck(doc)
    ensures forall k :: 0 <= k < 3 ==> tasks[k].content == content
  {
    var lang := if v == PythonOnly || EndsWith(name, ".py") then Python else Labelled(LanguageLabel(name));
    [ CrewTask(SyntaxCheck, lang, content, PotentialTester,
               if lang == Python then SyntaxWithLines else SyntaxAndStructure),
      CrewTask(RiskReview, lang, content, SeniorTester,
               if v == PythonOnly then Risks else RisksWithSevereIssues),
      CrewTask(FunctionalityCheck(doc), lang, content, SeniorFullstackTester,
               if v == PythonOnly then FunctionalityReport else FunctionalitySummary) ]
  }

  /** Which wording and which expected outputs each script's tasks use: the
      Python wording for a `.py` name (for every name, in the Python-only
      script), the upper-cased extension otherwise; the expected outputs by
      script and, in the multi-language script, by wording. */
  lemma TaskWording(v: Variant, name: string, doc: string, content: string)
    ensures var tasks := Tasks(v, name, doc, content);
      (v == PythonOnly || EndsWith(name, ".py") ==>
         forall k :: 0 <= k < 3 ==> tasks[k].language == Python)
      && (v == MultiLanguage && !EndsWith(name, ".py") ==>
         forall k :: 0 <= k < 3 ==> tasks[k].language == Labelled(LanguageLabel(name)))
    ensures var tasks := Tasks(v, name, doc, content);
      (v == PythonOnly ==>
         tasks[0].expected == SyntaxWithLines && tasks[1].expected == Risks
         && tasks[2].expected == FunctionalityReport)
      && (v == MultiLanguage && EndsWith(name, ".py") ==>
         tasks[0].expected == SyntaxWithLines && tasks[1].expected == RisksWithSevereIssues
         && tasks[2].expected == FunctionalitySummary)
      && (v == MultiLanguage && !EndsWith(name, ".py") ==>
         tasks[0].expected == SyntaxAndStructure && tasks[1].expected == RisksWithSevereIssues
         && tasks[2].expected == FunctionalitySummary)
  {
    var tasks := Tasks(v, name, doc, content);
    if v == PythonOnly || EndsWith(name, ".py") {
      assert tasks[0].language == Python && tasks[1].language == Python && tasks[2].language == Python;
    } else {
      var w := LanguageLabel(name);
      assert tasks[0].language == Labelled(w) && tasks[1].language == Labelled(w)
             && tasks[2].language == Labelled(w);
    }
  }

  /** The record one listing entry contributes: none when it is not selected
      or its download is not answered with 200, else the crew's output; or
      the error the download or the crew raised. */
  function EntryRecord(v: Variant, doc: string, download: Download, kickoff: Kickoff, e: RepoEntry): Result<seq<CrewRecord>>
  {
    if !Selected(v, e) then Ok([])
    else match download(e.downloadUrl)
      case Err(err) => Err(err)
      case Ok(None) => Ok([])
      case Ok(Some(content)) =>
        match kickoff(Tasks(v, e.name, doc, content))
        case Err(err) => Err(err)
        case Ok(text) => Ok([CrewRecord(e.name, text)])
  }

  /** `review_results` after the file loop has gone over entries, or the
      first error raised by a download or a crew. */
  function CrewReviews(v: Variant, doc: string, download: Download, kickoff: Kickoff, entries: seq<RepoEntry>)
    : Result<seq<CrewRecord>>
  {
    if entries == [] then Ok([])
    else
      match CrewReviews(v, doc, download, kickoff, entries[..|entries| - 1])
      case Err(e) => Err(e)
      case Ok(done) =>
        match EntryRecord(v, doc, download, kickoff, entries[|entries| - 1])
        case Err(e) => Err(e)
        case Ok(rs) => Ok(done + rs)
  }

  /** The file loop: for each root entry in listing order, a selected file
      that downloads gets its three tasks run by the crew and one record. */
  method ReviewEntries(v: Variant, doc: string, download: Download, kickoff: Kickoff, entries: seq<RepoEntry>)
    returns (r: Result<seq<CrewRecord>>)
    ensures r == CrewReviews(v, doc, download, kickoff, entries)
    ensures r.Ok? ==> |r.value| <= |entries|
  {
    var results: seq<CrewRecord> := [];
    for i := 0 to |entries|
      invariant CrewReviews(v, doc, download, kickoff, entries[..i]) == Ok(results)
      invariant |results| <= i
    {
      var file := entries[i];
      if Selected(v, file) {
        var response := download(file.downloadUrl);
        if response.Err? {
          DownloadRaised(v, doc, download, kickoff, file);
          CrewReviewsErrStep(v, doc, download, kickoff, entries, i);
          return Err(response.error);
        }
        if response.value.Some? {
          var content := response.value.value;
          var tasks := Tasks(v, file.name, doc, content);
          var outcome := kickoff(tasks);
          Downloaded(v, doc, download, kickoff, file, content);
          if outcome.Err? {
            CrewReviewsErrStep(v, doc, download, kickoff, entries, i);
            return Err(outcome.error);
          }
          var record := CrewRecord(file.name, outcome.value);
          CrewReviewsOkStep(v, doc, download, kickoff, entries, i, results, [record]);
          results := results + [record];
        } else {
          Skipped(v, doc, download, kickoff, file);
          CrewReviewsOkStep(v, doc, download, kickoff, entries, i, results, []);
          assert results + [] == results;
        }
      } else {
        Skipped(v, doc, download, kickoff, file);
        CrewReviewsOkStep(v, doc, download, kickoff, entries, i, results, []);
        assert results + [] == results;
      }
    }
    assert entries[..|entries|] == entries;
    r := Ok(results);
  }

  /** The records of a whole run, or the first exception it raised. */
  function CrewRun(v: Variant, listing: RootListing, doc: string, download: Download, kickoff: Kickoff)
    : Result<seq<CrewRecord>>
  {
    match RootEntries(listing)
    case Err(e) => Err(e)
    case Ok(entries) => CrewReviews(v, doc, download, kickoff, entries)
  }

  /** Either CrewAI script end to end: list the root, review the entries, and
      write crewAi_output.json and crewAi_output.txt, each replacing what the
      previous run left. An error raised by the listing, a download or a crew
      ends the run with nothing written. */
  method RunCrew(ws: Workspace, v: Variant, listing: RootListing, doc: string,
                 download: Download, kickoff: Kickoff)
    returns (r: Result<seq<CrewRecord>>)
    modifies ws
    ensures r == CrewRun(v, listing, doc, download, kickoff)
    ensures r.Err? ==> ws.files == old(ws.files)
    ensures r.Ok? ==> ws.files == old(ws.files)["crewAi_output.json" := CrewJson(r.value)]
                                               ["crewAi_output.txt" := PlainText(Report(r.value))]
  {
    var entries := RootEntries(listing);
    if entries.Err? {
      return Err(entries.error);
    }
    r := ReviewEntries(v, doc, download, kickoff, entries.value);
    if r.Ok? {
      ws.Save("crewAi_output.json", CrewJson(r.value));
      var text := WriteReport(r.value);
      ws.Save("crewAi_output.txt", PlainText(text));
    }
  }

  // ---------------------------------------------------------------------
  // Lemmas
  // ---------------------------------------------------------------------

  // The three ways one entry's record comes out, used by the file loop.

  lemma Skipped(v: Variant, doc: string, download: Download, kickoff: Kickoff, e: RepoEntry)
    requires !Selected(v, e) || download(e.downloadUrl) == Ok(None)
    ensures EntryRecord(v, doc, download, kickoff, e) == Ok([])
  {
  }

  lemma DownloadRaised(v: Variant, doc: string, download: Download, kickoff: Kickoff, e: RepoEntry)
    requires Selected(v, e) && download(e.downloadUrl).Err?
    ensures EntryRecord(v, doc, download, kickoff, e) == Err(download(e.downloadUrl).error)
  {
  }

  lemma Downloaded(v: Variant, doc: string, download: Download, kickoff: Kickoff, e: RepoEntry, content: string)
    requires Selected(v, e) && download(e.downloadUrl) == Ok(Some(content))
    ensures kickoff(Tasks(v, e.name, doc, content)).Err? ==>
      EntryRecord(v, doc, download, kickoff, e) == Err(kickoff(Tasks(v, e.name, doc, content)).error)
    ensures kickoff(Tasks(v, e.name, doc, content)).Ok? ==>
      EntryRecord(v, doc, download, kickoff, e) == Ok([CrewRecord(e.name, kickoff(Tasks(v, e.name, doc, content)).value)])
  {
  }

  lemma CrewReviewsOkStep(v: Variant, doc: string, download: Download, kickoff: Kickoff,
                          entries: seq<RepoEntry>, i: nat, done: seq<CrewRecord>, rs: seq<CrewRecord>)
    requires i < |entries|
    requires CrewReviews(v, doc, download, kickoff, entries[..i]) == Ok(done)
    requires EntryRecord(v, doc, download, kickoff, entries[i]) == Ok(rs)
    ensures CrewReviews(v, doc, download, kickoff, entries[..i + 1]) == Ok(done + rs)
  {
    assert entries[..i + 1][..i] == entries[..i];
  }

  lemma CrewReviewsErrStep(v: Variant, doc: string, download: Download, kickoff: Kickoff,
                           entries: seq<RepoEntry>, i: nat)
    requires i < |entries|
    requires CrewReviews(v, doc, download, kickoff, entries[..i]).Ok?
    requires EntryRecord(v, doc, download, kickoff, entries[i]).Err?
    ensures CrewReviews(v, doc, download, kickoff, entries) == EntryRecord(v, doc, download, kickoff, entries[i])
  {
    assert entries[..i + 1][..i] == entries[..i];
    FirstErrorSticks(v, doc, download, kickoff, entries, i + 1);
  }

  /** Once a crew has raised, later entries change nothing. */
  lemma {:induction false} FirstErrorSticks(v: Variant, doc: string, download: Download, kickoff: Kickoff,
                                            entries: seq<RepoEntry>, i: nat)
    requires i <= |entries|
    requires CrewReviews(v, doc, download, kickoff, entries[..i]).Err?
    ensures CrewReviews(v, doc, download, kickoff, entries) == CrewReviews(v, doc, download, kickoff, entries[..i])
    decreases |entries| - i
  {
    if i < |entries| {
      assert entries[..i + 1][..i] == entries[..i];
      FirstErrorSticks(v, doc, download, kickoff, entries, i + 1);
    } else {
      assert entries[..i] == entries;
    }
  }

  /** A description ends with the content it asks about; the third
      question's with the functionality document, the code marker and the content. */
  lemma DescriptionEndsWithContent(q: Question, lang: Language, content: string)
    ensures EndsWith(Description(q, lang, content), content)
    ensures q.FunctionalityCheck? ==> EndsWith(Description(q, lang, content), q.doc + CodeMarker + content)
  {
    var lead := Lead(q, lang);
    if q.FunctionalityCheck? {
      assert Description(q, lang, content) == (lead + q.doc + CodeMarker) + content;
      assert Description(q, lang, content) == lead + (q.doc + CodeMarker + content);
      EndsWithAppend(lead + q.doc + CodeMarker, content);
      EndsWithAppend(lead, q.doc + CodeMarker + content);
    } else {
      EndsWithAppend(lead, content);
    }
  }

  /** A root listing answered with a status other than 200 reviews nothing,
      so empty reports are written; one that raised ends the run. */
  lemma ListingFailureReviewsNothing(v: Variant, doc: string, download: Download, kickoff: Kickoff, error: string)
    ensures CrewRun(v, Ok(None), doc, download, kickoff) == Ok([])
    ensures CrewRun(v, Err(error), doc, download, kickoff) == Err(error)
  {
  }

  /** Every record names a selected root entry that downloaded, and holds the
      crew's output for that entry's three tasks. */
  lemma {:induction false} RecordsAreSelectedFiles(v: Variant, doc: string, download: Download, kickoff: Kickoff,
                                                   entries: seq<RepoEntry>, r: CrewRecord)
    requires CrewReviews(v, doc, download, kickoff, entries).Ok?
    requires r in CrewReviews(v, doc, download, kickoff, entries).value
    ensures exists e, content :: e in entries && Selected(v, e) && e.name == r.filename
                              && download(e.downloadUrl) == Ok(Some(content))
                              && kickoff(Tasks(v, e.name, doc, content)) == Ok(r.reviews)
  {
    var init := entries[..|entries| - 1];
    var last := entries[|entries| - 1];
    var done := CrewReviews(v, doc, download, kickoff, init).value;
    if r in done {
      RecordsAreSelectedFiles(v, doc, download, kickoff, init, r);
      assert forall e :: e in init ==> e in entries;
    } else {
      var rs := EntryRecord(v, doc, download, kickoff, last).value;
      assert r in rs;
      var content := download(last.downloadUrl).value.value;
      assert last in entries;
      assert Selected(v, last) && download(last.downloadUrl) == Ok(Some(content))
             && kickoff(Tasks(v, last.name, doc, content)) == Ok(r.reviews);
    }
  }

  /** When no crew fails, every selected entry that downloads gets exactly
      its record. */
  lemma {:induction false} SelectedFilesAreRecorded(v: Variant, doc: string, download: Download, kickoff: Kickoff,
                                                    entries: seq<RepoEntry>, e: RepoEntry, content: string)
    requires CrewReviews(v, doc, download, kickoff, entries).Ok?
    requires e in entries && Selected(v, e) && download(e.downloadUrl) == Ok(Some(content))
    ensures kickoff(Tasks(v, e.name, doc, content)).Ok?
    ensures CrewRecord(e.name, kickoff(Tasks(v, e.name, doc, content)).value)
            in CrewReviews(v, doc, download, kickoff, entries).value
  {
    var init := entries[..|entries| - 1];
    if e != entries[|entries| - 1] {
      assert e in init by {
        assert entries == init + [entries[|entries| - 1]];
      }
      SelectedFilesAreRecorded(v, doc, download, kickoff, init, e, content);
    }
  }

  /** For a selected entry: its download does not raise, and when it is
      answered with 200 the crew run on its tasks does not raise either. */
  predicate NothingRaised(v: Variant, doc: string, download: Download, kickoff: Kickoff, e: RepoEntry)
  {
    Selected(v, e) ==>
      download(e.downloadUrl).Ok?
      && (download(e.downloadUrl).value.Some? ==>
            kickoff(Tasks(v, e.name, doc, download(e.downloadUrl).value.value)).Ok?)
  }

  /** The file loop succeeds exactly when, for every selected entry, neither
      the download nor the crew run on the downloaded content raises. */
  lemma {:induction false} CrewSucceedsIffNothingRaised(v: Variant, doc: string, download: Download, kickoff: Kickoff,
                                                        entries: seq<RepoEntry>)
    ensures CrewReviews(v, doc, download, kickoff, entries).Ok?
        <==> forall e :: e in entries ==> NothingRaised(v, doc, download, kickoff, e)
  {
    if entries != [] {
      var init := entries[..|entries| - 1];
      var last := entries[|entries| - 1];
      assert entries == init + [last];
      CrewSucceedsIffNothingRaised(v, doc, download, kickoff, init);
      assert EntryRecord(v, doc, download, kickoff, last).Ok? <==> NothingRaised(v, doc, download, kickoff, last);
    }
  }

  /** At most one record per root entry. */
  lemma {:induction false} CrewReviewsBound(v: Variant, doc: string, download: Download, kickoff: Kickoff, entries: seq<RepoEntry>)
    ensures CrewReviews(v, doc, download, kickoff, entries).Ok? ==>
      |CrewReviews(v, doc, download, kickoff, entries).value| <= |entries|
  {
    if entries != [] {
      CrewReviewsBound(v, doc, download, kickoff, entries[..|entries| - 1]);
    }
  }

  /** The Python-only script considers only `.py` files. */
  lemma PythonOnlySelectsPy(e: RepoEntry)
    ensures Selected(PythonOnly, e) <==> e.kind == "file" && EndsWith(e.name, ".py")
  {
    if EndsWith(e.name, ".py") {
      assert EndsWith(e.name, Extensions(PythonOnly)[0]);
    }
  }

  /** The multi-language script considers files ending in `.py`, `.js`, `.html` or `.css`. */
  lemma MultiLanguageSelects(e: RepoEntry)
    ensures Selected(MultiLanguage, e) <==>
      e.kind == "file" && (EndsWith(e.name, ".py") || EndsWith(e.name, ".js")
                           || EndsWith(e.name, ".html") || EndsWith(e.name, ".css"))
  {
    var exts := Extensions(MultiLanguage);
    if EndsWith(e.name, ".py") {
      assert EndsWith(e.name, exts[0]);
    } else if EndsWith(e.name, ".js") {
      assert EndsWith(e.name, exts[1]);
    } else if EndsWith(e.name, ".html") {
      assert EndsWith(e.name, exts[2]);
    } else if EndsWith(e.name, ".css") {
      assert EndsWith(e.name, exts[3]);
    }
  }

  /** For a `.py` file both scripts give the crew the same three descriptions
      and agents; only the expected outputs of the second and third task differ. */
  lemma PythonDescriptionsAgree(name: string, doc: string, content: string)
    requires EndsWith(name, ".py")
    ensures forall k :: 0 <= k < 3 ==>
      Tasks(PythonOnly, name, doc, content)[k].Text() == Tasks(MultiLanguage, name, doc, content)[k].Text()
      && Tasks(PythonOnly, name, doc, content)[k].agent == Tasks(MultiLanguage, name, doc, content)[k].agent
    ensures Tasks(PythonOnly, name, doc, content)[0].expected == Tasks(MultiLanguage, name, doc, content)[0].expected
    ensures Tasks(PythonOnly, name, doc, content)[1].expected == Risks
    ensures Tasks(MultiLanguage, name, doc, content)[1].expected == RisksWithSevereIssues
    ensures Tasks(PythonOnly, name, doc, content)[2].expected == FunctionalityReport
    ensures Tasks(MultiLanguage, name, doc, content)[2].expected == FunctionalitySummary
  {
  }

  /** The labels of the multi-language script's web files. */
  predicate WebWord(w: string)
  {
    w == "JS" || w == "HTML" || w == "CSS"
  }

  /** In the multi-language script, a selected file whose name does not end
      in `.py` is worded by its extension, upper-cased: JS, HTML or CSS. */
  lemma WebFileWording(e: RepoEntry, doc: string, content: string)
    requires Selected(MultiLanguage, e) && !EndsWith(e.name, ".py")
    ensures WebWord(LanguageLabel(e.name))
    ensures forall k :: 0 <= k < 3 ==>
      Tasks(MultiLanguage, e.name, doc, content)[k].language == Labelled(LanguageLabel(e.name))
  {
    TaskWording(MultiLanguage, e.name, doc, content);
    MultiLanguageSelects(e);
    WebLabel(e.name);
  }

  /** The label of a name ending in `.js`, `.html` or `.css`. */
  lemma WebLabel(name: string)
    requires EndsWith(name, ".js") || EndsWith(name, ".html") || EndsWith(name, ".css")
    ensures WebWord(LanguageLabel(name))
  {
    if EndsWith(name, ".js") {
      ScriptLabel(name);
    } else if EndsWith(name, ".html") {
      PageLabel(name);
    } else {
      StyleLabel(name);
    }
  }

  lemma ScriptLabel(name: string)
    requires EndsWith(name, ".js")
    ensures LanguageLabel(name) == "JS"
  {
    ExtensionLabel(name, "js", "JS");
  }

  lemma PageLabel(name: string)
    requires EndsWith(name, ".html")
    ensures LanguageLabel(name) == "HTML"
  {
    ExtensionLabel(name, "html", "HTML");
  }

  lemma StyleLabel(name: string)
    requires EndsWith(name, ".css")
    ensures LanguageLabel(name) == "CSS"
  {
    ExtensionLabel(name, "css", "CSS");
  }

  /** A name ending in `.` and a lower-case extension is labelled by that extension in capitals. */
  lemma ExtensionLabel(name: string, ext: string, word: string)
    requires '.' !in ext && EndsWith(name, "." + ext)
    requires |word| == |ext| && forall i :: 0 <= i < |ext| ==> word[i] == UpperChar(ext[i])
    ensures LanguageLabel(name) == word
  {
    AfterLastDotOfExtension(name, ext);
  }

  /** A worked case of the label rule: the text after the last dot, upper-cased. */
  lemma MinifiedScriptLabel()
    ensures LanguageLabel("a.min.js") == "JS"
  {
    var s := "a.min.js";
    assert s[..|s| - 1] == "a.min.j";
    assert "a.min.j"[..6] == "a.min.";
    assert AfterLastDot("a.min.") == [];
    assert AfterLastDot(s) == "js";
  }
}
