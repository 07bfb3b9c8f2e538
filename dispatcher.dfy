/** The review dispatcher of the OpenAI scripts: `review_code` in
    withoutPull_codeR.py, without_tokenCodeR.py and codeR.py.

    A stage pairs the key of the result dictionary with the instruction that
    opens its prompt. The backend (`client.chat.completions.create`) is a
    function from prompt to answer; an exception it raises is `Err`. */
module Dispatcher {
  import opened Outcome

  datatype Stage = Stage(name: string, instruction: string)

  /** One entry of the `reviews` dictionary: its key and the text stored under it. */
  datatype StageReview = StageReview(stage: string, text: string)

  type Backend = string -> Result<string>

  /** The f-string `"<instruction>:\n{file_content}"`. */
  function Prompt(s: Stage, content: string): string
  {
    s.instruction + ":\n" + content
  }

  /** Text stored by the `except` branch in front of the exception text. */
  const ErrorPrefix: string := "\U{274C} OpenAI API Error: "

  /** What one stage stores: the answer, or the error prefix followed by the exception text. */
  function Verdict(answer: Result<string>): string
  {
    match answer
    case Ok(text) => text
    case Err(e) => ErrorPrefix + e
  }

  /** The stage set of withoutPull_codeR.py: no security stage. */
  const ThreeStages: seq<Stage> := [
    Stage("syntax", "Check for syntax errors"),
    Stage("performance", "Analyze performance"),
    Stage("best_practices", "Review best practices")
  ]

  /** The stage set of without_tokenCodeR.py and codeR.py. */
  const FourStages: seq<Stage> := [
    Stage("syntax", "Check for syntax errors"),
    Stage("performance", "Analyze performance"),
    Stage("security", "Find security vulnerabilities"),
    Stage("best_practices", "Review best practices")
  ]

  function Names(stages: seq<Stage>): seq<string>
  {
    seq(|stages|, i requires 0 <= i < |stages| => stages[i].name)
  }

  function Keys(reviews: seq<StageReview>): seq<string>
  {
    seq(|reviews|, i requires 0 <= i < |reviews| => reviews[i].stage)
  }

  /** The dictionary `review_code` returns: one entry per stage, in stage
      order, each holding that stage's own verdict. */
  function Reviews(stages: seq<Stage>, content: string, complete: Backend): seq<StageReview>
  {
    seq(|stages|, i requires 0 <= i < |stages| =>
      StageReview(stages[i].name, Verdict(complete(Prompt(stages[i], content)))))
  }

  /** The value stored under key k, when there is one. */
  function Lookup(reviews: seq<StageReview>, k: string): Option<string>
  {
    if reviews == [] then None
    else if reviews[0].stage == k then Some(reviews[0].text)
    else Lookup(reviews[1..], k)
  }

  /** `review_code`: one backend call per stage, in order; every call's
      outcome is recorded, a failure only under its own key. */
  method ReviewCode(stages: seq<Stage>, content: string, complete: Backend) returns (reviews: seq<StageReview>)
    ensures reviews == Reviews(stages, content, complete)
    ensures Keys(reviews) == Names(stages)
    ensures forall k :: 0 <= k < |stages| ==>
      reviews[k].text == Verdict(complete(Prompt(stages[k], content)))
  {
    reviews := [];
    for i := 0 to |stages|
      invariant |reviews| == i
      invariant forall k :: 0 <= k < i ==>
        reviews[k] == StageReview(stages[k].name, Verdict(complete(Prompt(stages[k], content))))
    {
      var answer := complete(Prompt(stages[i], content));
      reviews := reviews + [StageReview(stages[i].name, Verdict(answer))];
    }
  }

  // ---------------------------------------------------------------------
  // Lemmas
  // ---------------------------------------------------------------------

  /** The keys are exactly the stage names, in order. */
  lemma ReviewKeys(stages: seq<Stage>, content: string, complete: Backend)
    ensures Keys(Reviews(stages, content, complete)) == Names(stages)
  {
  }

  /** withoutPull_codeR.py's dictionary has keys syntax, performance,
      best_practices, in that order, and no security key. */
  lemma ThreeStageKeys(content: string, complete: Backend)
    ensures Keys(Reviews(ThreeStages, content, complete)) == ["syntax", "performance", "best_practices"]
    ensures "security" !in Keys(Reviews(ThreeStages, content, complete))
  {
    ReviewKeys(ThreeStages, content, complete);
  }

  /** The four-stage dictionary has keys syntax, performance, security,
      best_practices, in that order. */
  lemma FourStageKeys(content: string, complete: Backend)
    ensures Keys(Reviews(FourStages, content, complete)) == ["syntax", "performance", "security", "best_practices"]
  {
    ReviewKeys(FourStages, content, complete);
  }

  /** Each prompt is the instruction, a colon and a newline, then the content unchanged. */
  lemma PromptEndsWithContent(s: Stage, content: string)
    ensures |Prompt(s, content)| == |s.instruction| + 2 + |content|
    ensures Prompt(s, content)[|s.instruction| + 2..] == content
    ensures Prompt(s, content)[..|s.instruction|] == s.instruction
    ensures Prompt(s, content)[|s.instruction|..|s.instruction| + 2] == ":\n"
  {
  }

  /** Dictionary lookup agrees with the stage's verdict when stage names are distinct. */
  lemma {:induction false} LookupStage(stages: seq<Stage>, content: string, complete: Backend, k: nat)
    requires k < |stages|
    requires forall i, j :: 0 <= i < j < |stages| ==> stages[i].name != stages[j].name
    ensures Lookup(Reviews(stages, content, complete), stages[k].name)
         == Some(Verdict(complete(Prompt(stages[k], content))))
  {
    var rs := Reviews(stages, content, complete);
    if k > 0 {
      assert rs[0].stage == stages[0].name != stages[k].name;
      assert rs[1..] == Reviews(stages[1..], content, complete);
      LookupStage(stages[1..], content, complete, k - 1);
    }
  }

  /** A failing stage stores the error text under its own key. */
  lemma FailureRecorded(stages: seq<Stage>, content: string, complete: Backend, k: nat, e: string)
    requires k < |stages|
    requires complete(Prompt(stages[k], content)) == Err(e)
    ensures Reviews(stages, content, complete)[k] == StageReview(stages[k].name, ErrorPrefix + e)
  {
  }

  /** Fault isolation: two backends that differ only on one prompt produce
      the same entry for every stage whose prompt is another one, and the
      same number of entries. */
  lemma FaultIsolation(stages: seq<Stage>, content: string, b1: Backend, b2: Backend, bad: string)
    requires forall p :: p != bad ==> b1(p) == b2(p)
    ensures |Reviews(stages, content, b1)| == |Reviews(stages, content, b2)| == |stages|
    ensures forall k :: 0 <= k < |stages| && Prompt(stages[k], content) != bad ==>
      Reviews(stages, content, b1)[k] == Reviews(stages, content, b2)[k]
  {
  }
}
