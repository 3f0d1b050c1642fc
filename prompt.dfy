/** `BasicCommand._yesno`: asks a yes/no question until an answer is accepted.

    The terminal is a finite sequence of input lines and the list of strings
    written; reading past the last line is `EOFError`. */
module Prompt {
  import opened Wrappers
  import opened Text

  datatype PromptError = InvalidDefault(given: string) | EndOfInput

  /** The help line written after an answer that is not accepted. */
  const Help := "Please respond with 'yes' or 'no' (or 'y' or 'n').\n"

  /** The `valid` table: the accepted answers and what each means. */
  const Answers: map<string, bool> :=
    map["yes" := true, "y" := true, "ye" := true, "no" := false, "n" := false]

  /** The prompt suffix for a default; any default other than none, `"yes"` or
      `"no"` is a `ValueError`. The capital letter marks the default. */
  function Suffix(default: Option<string>): (r: Result<string, PromptError>)
    ensures r.Ok? <==> default == None || default == Some("yes") || default == Some("no")
    ensures r.Ok? ==> |r.value| == 7 && r.value[3] == '/'
    ensures r.Ok? ==> ('A' <= r.value[2] <= 'Z' <==> default == Some("yes"))
    ensures r.Ok? ==> ('A' <= r.value[4] <= 'Z' <==> default == Some("no"))
    ensures r.Err? ==> r.error == InvalidDefault(default.value)
  {
    match default
    case None => Ok(" [y/n] ")
    case Some(d) =>
      if d == "yes" then Ok(" [Y/n] ")
      else if d == "no" then Ok(" [y/N] ")
      else Err(InvalidDefault(d))
  }

  /** What one input line resolves to under a valid default: the line lower-cased;
      an empty line means the default when there is one; `None` when the line is
      not accepted. */
  function Answer(line: string, default: Option<string>): (r: Option<bool>)
    requires Suffix(default).Ok?
    ensures r.Some? <==> Lower(line) in Answers || (line == "" && default.Some?)
    ensures line == "" && default.Some? ==> r == Some(default == Some("yes"))
  {
    var choice := Lower(line);
    if default.Some? && choice == "" then Some(Answers[default.value])
    else if choice in Answers then Some(Answers[choice])
    else None
  }

  /** Exactly `y`, `ye` and `yes` in any case mean yes, `n` and `no` mean no, and an
      empty line means the default; nothing else is accepted. */
  lemma AnswerTable(line: string, default: Option<string>)
    requires Suffix(default).Ok?
    ensures Answer(line, default) == Some(true) <==>
              Lower(line) in {"y", "ye", "yes"} || (line == "" && default == Some("yes"))
    ensures Answer(line, default) == Some(false) <==>
              Lower(line) in {"n", "no"} || (line == "" && default == Some("no"))
    ensures Answer(line, default) == None <==>
              Lower(line) !in {"y", "ye", "yes", "n", "no"} && (line != "" || default == None)
  {
    assert Lower(line) == "" <==> line == "";
  }

  /** The position of the first accepted line, if any. */
  function FirstAccepted(lines: seq<string>, default: Option<string>): (r: Option<nat>)
    requires Suffix(default).Ok?
    ensures r.Some? ==> r.value < |lines| && Answer(lines[r.value], default).Some?
  {
    if lines == [] then None
    else if Answer(lines[0], default).Some? then Some(0)
    else match FirstAccepted(lines[1..], default)
      case None => None
      case Some(j) => Some(j + 1)
  }

  /** `FirstAccepted` finds the accepted line that every earlier line fails, and
      finds nothing only when no line is accepted. */
  lemma FirstAcceptedSpec(lines: seq<string>, default: Option<string>, j: nat)
    requires Suffix(default).Ok?
    ensures FirstAccepted(lines, default) == Some(j) <==>
              && j < |lines| && Answer(lines[j], default).Some?
              && forall k :: 0 <= k < j ==> Answer(lines[k], default).None?
    ensures FirstAccepted(lines, default) == None <==>
              forall k :: 0 <= k < |lines| ==> Answer(lines[k], default).None?
  {
    FirstAcceptedAt(lines, default, j);
    FirstAcceptedNone(lines, default);
  }

  lemma {:induction false} FirstAcceptedAt(lines: seq<string>, default: Option<string>, j: nat)
    requires Suffix(default).Ok?
    ensures FirstAccepted(lines, default) == Some(j) <==>
              && j < |lines| && Answer(lines[j], default).Some?
              && forall k :: 0 <= k < j ==> Answer(lines[k], default).None?
  {
    if lines != [] && Answer(lines[0], default).None? {
      var tail := lines[1..];
      FirstAcceptedAt(tail, default, if j > 0 then j - 1 else 0);
      assert forall k :: 0 < k < |lines| ==> tail[k - 1] == lines[k];
    }
  }

  lemma {:induction false} FirstAcceptedNone(lines: seq<string>, default: Option<string>)
    requires Suffix(default).Ok?
    ensures FirstAccepted(lines, default) == None <==>
              forall k :: 0 <= k < |lines| ==> Answer(lines[k], default).None?
  {
    if lines != [] && Answer(lines[0], default).None? {
      var tail := lines[1..];
      FirstAcceptedNone(tail, default);
      assert forall k :: 0 < k < |lines| ==> tail[k - 1] == lines[k];
    }
  }

  lemma AcceptedAt(lines: seq<string>, default: Option<string>, j: nat)
    requires Suffix(default).Ok?
    requires j < |lines| && Answer(lines[j], default).Some?
    requires forall k :: 0 <= k < j ==> Answer(lines[k], default).None?
    ensures FirstAccepted(lines, default) == Some(j)
  {
    FirstAcceptedSpec(lines, default, j);
  }

  lemma NoneAccepted(lines: seq<string>, default: Option<string>)
    requires Suffix(default).Ok?
    requires forall k :: 0 <= k < |lines| ==> Answer(lines[k], default).None?
    ensures FirstAccepted(lines, default) == None
  {
    FirstAcceptedSpec(lines, default, 0);
  }

  /** What is written for `n` rejected lines: the prompt, then the help line, each time. */
  function Rejections(prompt: string, n: nat): (w: seq<string>)
    ensures |w| == 2 * n
  {
    if n == 0 then [] else Rejections(prompt, n - 1) + [prompt, Help]
  }

  /** `_yesno(question, default)`: checks the default before writing anything, then
      prompts and reads lines until one is accepted. Returns the answer, what was
      written and how many lines were read. */
  method YesNo(question: string, default: Option<string>, input: seq<string>)
    returns (r: Result<bool, PromptError>, written: seq<string>, consumed: nat)
    ensures Suffix(default).Err? ==> r == Err(Suffix(default).error) && written == [] && consumed == 0
    ensures Suffix(default).Ok? ==>
              var prompt := question + Suffix(default).value;
              match FirstAccepted(input, default)
              case Some(j) =>
                && r == Ok(Answer(input[j], default).value)
                && consumed == j + 1
                && written == Rejections(prompt, j) + [prompt]
              case None =>
                && r == Err(EndOfInput)
                && consumed == |input|
                && written == Rejections(prompt, |input|) + [prompt]
  {
    var suffix := Suffix(default);
    if suffix.Err? {
      return Err(suffix.error), [], 0;
    }
    var prompt := question + suffix.value;
    written, consumed := [], 0;
    while true
      invariant 0 <= consumed <= |input|
      invariant forall k :: 0 <= k < consumed ==> Answer(input[k], default).None?
      invariant written == Rejections(prompt, consumed)
      decreases |input| - consumed
    {
      written := written + [prompt];
      if consumed == |input| {
        NoneAccepted(input, default);
        return Err(EndOfInput), written, consumed;
      }
      var choice := Lower(input[consumed]);
      consumed := consumed + 1;
      if default != None && choice == "" {
        AcceptedAt(input, default, consumed - 1);
        return Ok(Answers[default.value]), written, consumed;
      } else if choice in Answers {
        AcceptedAt(input, default, consumed - 1);
        return Ok(Answers[choice]), written, consumed;
      } else {
        written := written + [Help];
      }
    }
  }

  /** With the default `"yes"`, a mistyped line is answered with the help line and
      the following `"NO"` decides. */
  lemma RepromptExample()
    ensures FirstAccepted(["maybe", "NO"], Some("yes")) == Some(1)
    ensures Answer("NO", Some("yes")) == Some(false)
    ensures Answer("", Some("yes")) == Some(true)
    ensures Answer("", None) == None
  {
    assert Lower("maybe") == "maybe";
    assert Lower("NO") == "no";
    assert Answer("maybe", Some("yes")) == None;
  }
}
