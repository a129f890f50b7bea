/** Prompt selection in `get_answers` (infosec-chatbot-aws.py, lines 52-91):
    a shared preamble that embeds the user's code in a fenced block, followed
    by one of three task instruction blocks chosen by exact key lookup.

    The texts are those of the source's triple-quoted f-strings: every
    continuation line starts with a newline and the indentation the source
    file gives it (4 spaces inside the preamble, 12 inside a task block). */
module Prompts {
  import opened Wrappers
  import opened Errors
  import opened Text

  /** The three review intents offered by the task selector. */
  datatype Task = SecurityRequirements | CommonVulnerabilities | Pentest

  const SecurityRequirementsKey := "Review my code against company security requirements:"
  const CommonVulnerabilitiesKey := "Review my code against common vulnerabilities:"
  const PentestKey := "Create a non-malicious pentest for this code:"

  /** The selector strings are distinct: the two review options part at
      "com(p)any" versus "com(m)on", and the pentest option starts differently. */
  lemma KeysDistinct()
    ensures SecurityRequirementsKey != CommonVulnerabilitiesKey
    ensures SecurityRequirementsKey != PentestKey
    ensures CommonVulnerabilitiesKey != PentestKey
  {
    assert SecurityRequirementsKey[26] == 'p' && CommonVulnerabilitiesKey[26] == 'm';
  }

  /** The options of the task selector, in display order. */
  const TaskOptions: seq<string> := [SecurityRequirementsKey, CommonVulnerabilitiesKey, PentestKey]

  /** The selector string that stands for a task. */
  function Key(t: Task): string {
    match t
    case SecurityRequirements => SecurityRequirementsKey
    case CommonVulnerabilities => CommonVulnerabilitiesKey
    case Pentest => PentestKey
  }

  // ----- The shared preamble ------------------------------------------------
  //
  // Each line of the templates is a named constant; a long line is written as
  // several shorter literals joined with `+`.

  const Fence := "```"
  const PreambleIndent := "\n    "
  const BlockIndent := "\n            "

  const RoleLine := "You are a cybersecurity engineer " + "adept at presenting information " + "to non-technical recipients."
  const CodeIntroLine := "Here is the user's code:"

  /** The role statement and the line that introduces the code. */
  const PreambleIntro := RoleLine + PreambleIndent + CodeIntroLine + PreambleIndent

  const OpeningFence := Fence + PreambleIndent
  const ClosingFence := PreambleIndent + Fence

  /** Everything of the preamble up to the user's code. */
  const PreambleHead := PreambleIntro + OpeningFence

  /** Everything of the preamble after the user's code. */
  const PreambleTail := ClosingFence + PreambleIndent

  /** `base_prompt`: the code is spliced in verbatim, whatever it contains. */
  function Preamble(code: string): string {
    PreambleHead + code + PreambleTail
  }

  // ----- The task instruction blocks -----------------------------------------

  const NoPolicyFallback := "No information found " + "within the Policy or Requirements"
  const NoIssuesFallback := "No Issues Found"

  const StepByStepLine := "- Think step by step " + "before responding."
  const OutputLine := "- Output in bullet points, " + "organized, and easy to read."

  const RequirementsGoalLine :=
    "Your task is to review the code " + "against company specific security " + "requirements."
  const RequirementsSourceLine :=
    "- Primarily reference documents " + "within the \"company Requirements/\" " + "folder in the knowledge base."
  const RequirementsFallbackOpening :=
    "- If you cannot find relevant " + "information in the \"company " + "Requirements/\" folder, respond with, \""

  /** The security-requirements block up to its fallback phrase. */
  const SecurityRequirementsLead :=
    BlockIndent + RequirementsGoalLine
    + BlockIndent + RequirementsSourceLine
    + BlockIndent + RequirementsFallbackOpening

  /** The security-requirements block after its fallback phrase. */
  const SecurityRequirementsTrail :=
    "\"."
    + BlockIndent + StepByStepLine
    + BlockIndent + OutputLine
    + BlockIndent

  const SecurityRequirementsBlock := SecurityRequirementsLead + NoPolicyFallback + SecurityRequirementsTrail

  const VulnerabilitiesGoalLine :=
    "Your task is to review the code " + "for common security vulnerabilities, " + "such as those outlined in the OWASP " + "Top 10."
  const VulnerabilitiesSourceLine :=
    "- Primarily reference documents " + "within the \"Common Vulnerabilities/\" " + "folder in the knowledge base."
  const VulnerabilitiesFallbackOpening :=
    "- If you cannot find relevant " + "information in the \"Common " + "Vulnerabilities/\" folder, respond with, \""
  const TeachLine :=
    "- Teach the developer what's wrong " + "with the code and provide " + "remediation suggestions."

  /** The common-vulnerabilities block up to its fallback phrase. */
  const CommonVulnerabilitiesLead :=
    BlockIndent + VulnerabilitiesGoalLine
    + BlockIndent + VulnerabilitiesSourceLine
    + BlockIndent + VulnerabilitiesFallbackOpening

  /** The common-vulnerabilities block after its fallback phrase. */
  const CommonVulnerabilitiesTrail :=
    "\"."
    + BlockIndent + StepByStepLine
    + BlockIndent + OutputLine
    + BlockIndent + TeachLine
    + BlockIndent

  const CommonVulnerabilitiesBlock := CommonVulnerabilitiesLead + NoIssuesFallback + CommonVulnerabilitiesTrail

  const PentestGoalLine :=
    "Your task is to create a " + "non-malicious penetration test plan " + "for the provided code."
  const AttackVectorsLine := "- Identify potential attack vectors " + "and vulnerabilities."
  const TestCasesLine :=
    "- Suggest specific test cases to " + "assess the code's resilience to " + "these attacks."
  const ExploitLine := "- Create a custom exploit for the " + "user to test when possible."

  /** The pentest block: no fallback phrase at all. */
  const PentestBlock :=
    BlockIndent + PentestGoalLine
    + BlockIndent + AttackVectorsLine
    + BlockIndent + TestCasesLine
    + BlockIndent + ExploitLine
    + BlockIndent + OutputLine
    + BlockIndent

  function Instructions(t: Task): string {
    match t
    case SecurityRequirements => SecurityRequirementsBlock
    case CommonVulnerabilities => CommonVulnerabilitiesBlock
    case Pentest => PentestBlock
  }

  /** `code` sits in `p` at index `i`, right after an opening fence line and
      right before a closing fence line. */
  predicate FencedAt(p: string, i: nat, code: string) {
    && |OpeningFence| <= i
    && i + |code| + |ClosingFence| <= |p|
    && p[i - |OpeningFence|..i] == OpeningFence
    && p[i..i + |code|] == code
    && p[i + |code|..i + |code| + |ClosingFence|] == ClosingFence
  }

  /** The prompt sent for a task: the preamble followed by the task's block.
      Empty code is not special-cased. The code lies verbatim between the
      fixed opening of the preamble and a text fixed by the task alone. */
  function BuildPrompt(t: Task, code: string): (p: string)
    ensures p == PreambleHead + code + AfterCode(t)
  {
    Regroup(PreambleHead, code, PreambleTail, Instructions(t));
    Preamble(code) + Instructions(t)
  }

  /** The text that follows the code in a prompt for `t`. */
  function AfterCode(t: Task): string {
    PreambleTail + Instructions(t)
  }

  /** The layout facts behind `PromptShape`, for any pieces. */
  lemma {:induction false} LayoutFacts(intro: string, open: string, code: string, close: string, indent: string, block: string)
    ensures var head := intro + open;
            var p := head + code + (close + indent) + block;
            && head + code + (close + indent) <= p
            && p[|intro|..|head|] == open
            && p[|head|..|head| + |code|] == code
            && p[|head| + |code|..|head| + |code| + |close|] == close
            && p[|p| - |block|..] == block
  {
    var head := intro + open;
    var p := head + code + (close + indent) + block;
    assert p[..|head + code + (close + indent)|] == head + code + (close + indent);
    assert p[|intro|..|head|] == open;
    assert p[|head|..|head| + |code|] == code;
    assert p[|head| + |code|..|head| + |code| + |close|] == close;
  }

  /** Every prompt begins with the shared preamble, carries the code verbatim
      between the preamble's fences, and ends with its task's block. */
  lemma PromptShape(t: Task, code: string)
    ensures Preamble(code) <= BuildPrompt(t, code)
    ensures FencedAt(BuildPrompt(t, code), |PreambleHead|, code)
    ensures EndsWith(BuildPrompt(t, code), Instructions(t))
  {
    LayoutFacts(PreambleIntro, OpeningFence, code, ClosingFence, PreambleIndent, Instructions(t));
  }

  /** Empty code gives the preamble with nothing between its fences. */
  lemma EmptyCodePrompt(t: Task)
    ensures BuildPrompt(t, "") == PreambleHead + AfterCode(t)
    ensures FencedAt(BuildPrompt(t, ""), |PreambleHead|, "")
  {
    EmptyMiddle(PreambleHead, AfterCode(t));
    PromptShape(t, "");
  }

  // ----- The dictionary lookup ----------------------------------------------

  /** `task_prompts`: the dictionary built on every call, keyed by the
      selector strings. */
  function TaskPrompts(code: string): map<string, string> {
    map[
      SecurityRequirementsKey := Preamble(code) + SecurityRequirementsBlock,
      CommonVulnerabilitiesKey := Preamble(code) + CommonVulnerabilitiesBlock,
      PentestKey := Preamble(code) + PentestBlock
    ]
  }

  /** `task_prompts[task]`: any string other than the three keys raises
      `KeyError(task)`. */
  function SelectPrompt(task: string, code: string): (r: Result<string, Error>)
    ensures r.Success? <==> task in TaskOptions
    ensures r.Failure? ==> r.error == KeyError(task)
  {
    var prompts := TaskPrompts(code);
    if task in prompts then
      Success(prompts[task])
    else
      Failure(KeyError(task))
  }

  /** The dictionary is keyed by exactly the three selector options. */
  lemma DictionaryKeys(code: string)
    ensures TaskPrompts(code).Keys == set s | s in TaskOptions
    ensures |TaskPrompts(code)| == 3
  {
    assert |TaskPrompts(code).Keys| == 3;
  }

  /** Each task's selector string selects the prompt built for that task. */
  lemma SelectPromptBuilds(t: Task, code: string)
    ensures SelectPrompt(Key(t), code) == Success(BuildPrompt(t, code))
  {
    KeysDistinct();
  }

  /** The typed view of the same lookup: a selector string to its task. */
  function Lookup(s: string): (r: Result<Task, Error>)
    ensures r.Success? <==> s in TaskOptions
    ensures r.Success? ==> Key(r.value) == s
    ensures r.Failure? ==> r.error == KeyError(s)
  {
    if s == SecurityRequirementsKey then Success(SecurityRequirements)
    else if s == CommonVulnerabilitiesKey then Success(CommonVulnerabilities)
    else if s == PentestKey then Success(Pentest)
    else Failure(KeyError(s))
  }

  /** Every task is reachable from its own selector string, and only from it. */
  lemma KeyLookupRoundTrip(t: Task, s: string)
    ensures Lookup(Key(t)) == Success(t)
    ensures Lookup(s) == Success(t) <==> s == Key(t)
  {
  }

  // ----- Recovering the task and the code from a prompt ---------------------

  /** The tasks in the selector's order. */
  const TaskOrder: seq<Task> := [SecurityRequirements, CommonVulnerabilities, Pentest]

  /** Reads a prompt back into the task and the code it was built from. */
  function ParsePrompt(p: string): Option<(Task, string)> {
    FirstSplit(p, PreambleHead, TaskOrder, AfterCode)
  }

  /** The last characters where the instruction blocks part ways, counted
      from the end: 14 characters back the requirements and pentest blocks
      end "read." while the vulnerabilities block ends "suggestions.", and
      82 back the requirements block has "responding." where the pentest
      block has "possible.". */
  lemma BlockEndings()
    ensures SecurityRequirementsBlock[|SecurityRequirementsBlock| - 15] == 'd'
    ensures SecurityRequirementsBlock[|SecurityRequirementsBlock| - 83] == 'g'
    ensures CommonVulnerabilitiesBlock[|CommonVulnerabilitiesBlock| - 15] == 's'
    ensures PentestBlock[|PentestBlock| - 15] == 'd'
    ensures PentestBlock[|PentestBlock| - 83] == 'e'
  {
  }

  /** No text ends with both the requirements and the vulnerabilities block. */
  lemma RequirementsVersusVulnerabilities(p: string)
    ensures !(EndsWith(p, SecurityRequirementsBlock) && EndsWith(p, CommonVulnerabilitiesBlock))
  {
    BlockEndings();
    if EndsWith(p, SecurityRequirementsBlock) {
      NotBothSuffixes(p, SecurityRequirementsBlock, CommonVulnerabilitiesBlock, 14);
    }
  }

  /** No text ends with both the requirements and the pentest block. */
  lemma RequirementsVersusPentest(p: string)
    ensures !(EndsWith(p, SecurityRequirementsBlock) && EndsWith(p, PentestBlock))
  {
    BlockEndings();
    if EndsWith(p, SecurityRequirementsBlock) {
      NotBothSuffixes(p, SecurityRequirementsBlock, PentestBlock, 82);
    }
  }

  /** No text ends with both the vulnerabilities and the pentest block. */
  lemma VulnerabilitiesVersusPentest(p: string)
    ensures !(EndsWith(p, CommonVulnerabilitiesBlock) && EndsWith(p, PentestBlock))
  {
    BlockEndings();
    if EndsWith(p, CommonVulnerabilitiesBlock) {
      NotBothSuffixes(p, CommonVulnerabilitiesBlock, PentestBlock, 14);
    }
  }

  /** No text ends with the instruction blocks of two different tasks. */
  lemma {:induction false} InstructionEndingsDiffer(p: string, t: Task, u: Task)
    requires t != u
    requires EndsWith(p, Instructions(t))
    ensures !EndsWith(p, Instructions(u))
  {
    if t != Pentest && u != Pentest {
      RequirementsVersusVulnerabilities(p);
    } else if t != CommonVulnerabilities && u != CommonVulnerabilities {
      RequirementsVersusPentest(p);
    } else {
      VulnerabilitiesVersusPentest(p);
    }
  }

  /** What follows the code in one task's prompt never ends with what
      follows it in another's. */
  lemma {:induction false} AfterCodeNotSuffix(t: Task, u: Task)
    requires t != u
    ensures !EndsWith(AfterCode(t), AfterCode(u))
  {
    var s := AfterCode(t);
    EndsWithAppend(PreambleTail, Instructions(t));
    InstructionEndingsDiffer(s, t, u);
    if EndsWith(s, AfterCode(u)) {
      EndsWithTail(s, PreambleTail, Instructions(u));
    }
  }

  lemma {:induction false} TailsSuffixFree()
    ensures forall x, y | x in TaskOrder && y in TaskOrder && x != y :: !EndsWith(AfterCode(x), AfterCode(y))
  {
    forall x, y | x in TaskOrder && y in TaskOrder && x != y
      ensures !EndsWith(AfterCode(x), AfterCode(y))
    {
      AfterCodeNotSuffix(x, y);
    }
  }

  /** A prompt determines both its task and the user's code. */
  lemma {:induction false} ParseBuildRoundTrip(t: Task, code: string)
    ensures ParsePrompt(BuildPrompt(t, code)) == Some((t, code))
  {
    TailsSuffixFree();
    assert t in TaskOrder;
    FirstSplitOfSplice(PreambleHead, code, TaskOrder, AfterCode, t);
  }

  /** Whatever the parser accepts is exactly the prompt of what it returns. */
  lemma {:induction false} BuildParseRoundTrip(p: string, t: Task, code: string)
    requires ParsePrompt(p) == Some((t, code))
    ensures BuildPrompt(t, code) == p
  {
    FirstSplitSound(p, PreambleHead, TaskOrder, AfterCode, t, code);
    UnspliceSound(p, PreambleHead, AfterCode(t));
  }

  /** Different inputs never produce the same prompt. */
  lemma BuildPromptInjective(t: Task, code: string, u: Task, code': string)
    requires BuildPrompt(t, code) == BuildPrompt(u, code')
    ensures t == u && code == code'
  {
    ParseBuildRoundTrip(t, code);
    ParseBuildRoundTrip(u, code');
  }

  // ----- Fallback phrases ---------------------------------------------------

  /** Whatever the code, the security-requirements prompt carries its fallback phrase. */
  lemma RequirementsPromptHasFallback(code: string)
    ensures Contains(BuildPrompt(SecurityRequirements, code), NoPolicyFallback)
  {
    ContainsInside(Preamble(code), SecurityRequirementsLead, NoPolicyFallback, SecurityRequirementsTrail);
  }

  /** Whatever the code, the common-vulnerabilities prompt carries its fallback phrase. */
  lemma VulnerabilitiesPromptHasFallback(code: string)
    ensures Contains(BuildPrompt(CommonVulnerabilities, code), NoIssuesFallback)
  {
    ContainsInside(Preamble(code), CommonVulnerabilitiesLead, NoIssuesFallback, CommonVulnerabilitiesTrail);
  }

  // The absence of a capital N is shown one template line at a time, so
  // that each proof only looks at one short text.

  lemma PreambleLacksCapitalN()
    ensures 'N' !in PreambleHead && 'N' !in PreambleTail
  {
    assert 'N' !in RoleLine;
    assert 'N' !in CodeIntroLine;
    assert 'N' !in PreambleIntro;
  }

  lemma PentestGoalLacksCapitalN() ensures 'N' !in PentestGoalLine {}
  lemma AttackVectorsLacksCapitalN() ensures 'N' !in AttackVectorsLine {}
  lemma TestCasesLacksCapitalN() ensures 'N' !in TestCasesLine {}
  lemma ExploitLacksCapitalN() ensures 'N' !in ExploitLine {}
  lemma OutputLacksCapitalN() ensures 'N' !in OutputLine {}

  /** Nothing after the code in a pentest prompt has a capital N. */
  lemma PentestTailLacksCapitalN()
    ensures 'N' !in AfterCode(Pentest)
  {
    PreambleLacksCapitalN();
    PentestGoalLacksCapitalN();
    AttackVectorsLacksCapitalN();
    TestCasesLacksCapitalN();
    ExploitLacksCapitalN();
    OutputLacksCapitalN();
  }

  /** Both fallback phrases start with a capital N and are single lines. */
  lemma FallbackPhraseShape()
    ensures |NoPolicyFallback| > 0 && NoPolicyFallback[0] == 'N' && '\n' !in NoPolicyFallback
    ensures |NoIssuesFallback| > 0 && NoIssuesFallback[0] == 'N' && '\n' !in NoIssuesFallback
  {
  }

  /** The pentest template has neither fallback phrase: a pentest prompt
      contains one exactly when the user's code does. */
  lemma PentestPromptFallbacks(code: string)
    ensures Contains(BuildPrompt(Pentest, code), NoPolicyFallback) <==> Contains(code, NoPolicyFallback)
    ensures Contains(BuildPrompt(Pentest, code), NoIssuesFallback) <==> Contains(code, NoIssuesFallback)
  {
    PreambleLacksCapitalN();
    PentestTailLacksCapitalN();
    FallbackPhraseShape();
    assert AfterCode(Pentest)[0] == '\n';
    ContainsOnlyInMiddle(PreambleHead, code, AfterCode(Pentest), NoPolicyFallback);
    ContainsOnlyInMiddle(PreambleHead, code, AfterCode(Pentest), NoIssuesFallback);
  }
}
