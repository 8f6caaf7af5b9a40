/** What a step's captured reply is held to, and how outcomes are labelled. */
module Verdicts {
  import opened Common
  import opened Store

  datatype Turn = Turn(role: string, text: string, sid: Option<string>)

  /** What one step of a scenario declares. */
  datatype Step = Step(
    message: string,
    noSilent: bool,
    contains: seq<string>,
    notContains: seq<string>,
    notD1: bool,
    isQuestion: bool,
    runReason: Option<string>,
    runReasonNot: Option<string>,
    expectedFail: Option<bool>,
    db: DbAsserts)

  /** The parts of Python's text handling the checks rely on: lower-casing one character at a time,
      what counts as white space, the stock fallback lines, and the phrases that mark an interim reply. */
  datatype Rules = Rules(lower: char -> string, isSpace: char -> bool, fallbacks: seq<string>, interims: seq<string>)

  datatype Verdict = Replied | SilentDrop | Timeout

  const RUNNING := "running"

  predicate IsAssistant(t: Turn) {
    t.role == "assistant"
  }

  function AssistantTexts(turns: seq<Turn>): seq<string> {
    if turns == [] then []
    else AssistantTexts(turns[..|turns| - 1])
         + (if IsAssistant(turns[|turns| - 1]) then [turns[|turns| - 1].text] else [])
  }

  function JoinLines(lines: seq<string>): string {
    if lines == [] then ""
    else if |lines| == 1 then lines[0]
    else JoinLines(lines[..|lines| - 1]) + "\n" + lines[|lines| - 1]
  }

  /** `concat_assistant_text` */
  function ReplyText(turns: seq<Turn>): string {
    JoinLines(AssistantTexts(turns))
  }

  /** `reply_verdict` */
  function ReplyVerdict(turns: seq<Turn>, status: Option<string>): Verdict {
    if AssistantTexts(turns) != [] then Replied
    else if status == Some(RUNNING) then Timeout
    else SilentDrop
  }

  predicate OccursAt(text: string, needle: string, i: int) {
    0 <= i <= |text| - |needle| && text[i..i + |needle|] == needle
  }

  predicate Contains(text: string, needle: string) {
    exists i :: 0 <= i <= |text| && OccursAt(text, needle, i)
  }

  function Lower(lower: char -> string, text: string): string {
    if text == "" then "" else Lower(lower, text[..|text| - 1]) + lower(text[|text| - 1])
  }

  function Without(text: string, line: string): string
    decreases |text|
  {
    if line == "" || |text| < |line| then text
    else if text[..|line|] == line then Without(text[|line|..], line)
    else [text[0]] + Without(text[1..], line)
  }

  function Strip(isSpace: char -> bool, text: string): string {
    if text == "" then ""
    else if isSpace(text[0]) then Strip(isSpace, text[1..])
    else if isSpace(text[|text| - 1]) then Strip(isSpace, text[..|text| - 1])
    else text
  }

  const SUBSTANTIVE_FLOOR := 20

  /** `is_d1_fallback_only` */
  predicate FallbackOnly(rules: Rules, text: string) {
    exists i :: 0 <= i < |rules.fallbacks| && Contains(text, rules.fallbacks[i])
                && |Strip(rules.isSpace, Without(text, rules.fallbacks[i]))| < SUBSTANTIVE_FLOOR
  }

  // ---------------------------------------------------------------- the failure list

  function MissingIn(rules: Rules, haystack: string, needles: seq<string>): seq<Failure> {
    if needles == [] then []
    else
      var last := needles[|needles| - 1];
      MissingIn(rules, haystack, needles[..|needles| - 1])
      + (if !Contains(haystack, Lower(rules.lower, last)) then [MissingText(last)] else [])
  }

  function UnexpectedIn(rules: Rules, haystack: string, needles: seq<string>): seq<Failure> {
    if needles == [] then []
    else
      var last := needles[|needles| - 1];
      UnexpectedIn(rules, haystack, needles[..|needles| - 1])
      + (if Contains(haystack, Lower(rules.lower, last)) then [UnexpectedText(last)] else [])
  }

  function SilentIn(turns: seq<Turn>, status: Option<string>, step: Step): seq<Failure> {
    if step.noSilent && ReplyVerdict(turns, status) == SilentDrop then [Silent] else []
  }

  predicate Asks(text: string) {
    '?' in text || '？' in text
  }

  function SpeechActIn(rules: Rules, text: string, step: Step): seq<Failure> {
    (if step.notD1 && FallbackOnly(rules, text) then [OnlyFallback] else [])
    + (if step.isQuestion && !Asks(text) then [NoQuestion] else [])
  }

  function UnsupportedIn(step: Step): seq<Failure> {
    (if step.runReason.Some? then [RunReasonUnsupported(step.runReason.value)] else [])
    + (if step.runReasonNot.Some? then [RunReasonUnsupported(step.runReasonNot.value)] else [])
  }

  function TextFailures(rules: Rules, turns: seq<Turn>, status: Option<string>, step: Step): seq<Failure> {
    var text := ReplyText(turns);
    var haystack := Lower(rules.lower, text);
    SilentIn(turns, status, step)
    + MissingIn(rules, haystack, step.contains)
    + UnexpectedIn(rules, haystack, step.notContains)
    + SpeechActIn(rules, text, step)
    + UnsupportedIn(step)
  }

  /** The two needle loops of `evaluate_assertions`. */
  method CheckNeedles(rules: Rules, haystack: string, step: Step) returns (failures: seq<Failure>)
    ensures failures == MissingIn(rules, haystack, step.contains) + UnexpectedIn(rules, haystack, step.notContains)
  {
    failures := [];
    for i := 0 to |step.contains|
      invariant failures == MissingIn(rules, haystack, step.contains[..i])
    {
      assert step.contains[..i + 1][..i] == step.contains[..i];
      if !Contains(haystack, Lower(rules.lower, step.contains[i])) {
        failures := failures + [MissingText(step.contains[i])];
      }
    }
    assert step.contains[..|step.contains|] == step.contains;
    var start := failures;
    for i := 0 to |step.notContains|
      invariant failures == start + UnexpectedIn(rules, haystack, step.notContains[..i])
    {
      assert step.notContains[..i + 1][..i] == step.notContains[..i];
      if Contains(haystack, Lower(rules.lower, step.notContains[i])) {
        failures := failures + [UnexpectedText(step.notContains[i])];
      }
    }
    assert step.notContains[..|step.notContains|] == step.notContains;
  }

  /** `evaluate_assertions`: the failure list built check by check. */
  method EvaluateAssertions(
      rules: Rules, turns: seq<Turn>, status: Option<string>, step: Step)
      returns (failures: seq<Failure>)
    ensures failures == TextFailures(rules, turns, status, step)
  {
    var text := ReplyText(turns);
    failures := if step.noSilent && ReplyVerdict(turns, status) == SilentDrop then [Silent] else [];
    var needles := CheckNeedles(rules, Lower(rules.lower, text), step);
    Regroup(failures, MissingIn(rules, Lower(rules.lower, text), step.contains),
            UnexpectedIn(rules, Lower(rules.lower, text), step.notContains));
    failures := CheckSpeechAct(rules, text, step, failures + needles);
    failures := ReportUnsupported(step, failures);
  }

  lemma Regroup<T>(a: seq<T>, b: seq<T>, c: seq<T>)
    ensures a + (b + c) == a + b + c
  {
  }

  method CheckSpeechAct(rules: Rules, text: string, step: Step, before: seq<Failure>) returns (failures: seq<Failure>)
    ensures failures == before + SpeechActIn(rules, text, step)
  {
    failures := before;
    if step.notD1 && FallbackOnly(rules, text) {
      failures := failures + [OnlyFallback];
    }
    if step.isQuestion && !Asks(text) {
      failures := failures + [NoQuestion];
    }
  }

  /** Declaring either run-reason check is always a failure: nothing queryable records the reason. */
  method ReportUnsupported(step: Step, before: seq<Failure>) returns (failures: seq<Failure>)
    ensures failures == before + UnsupportedIn(step)
  {
    failures := before;
    if step.runReason.Some? {
      failures := failures + [RunReasonUnsupported(step.runReason.value)];
    }
    if step.runReasonNot.Some? {
      failures := failures + [RunReasonUnsupported(step.runReasonNot.value)];
    }
  }

  /** The text checks never report a database failure, a guard breach or a timeout. */
  lemma TextFailuresAreTextual(rules: Rules, turns: seq<Turn>, status: Option<string>, step: Step)
    ensures forall f :: f in TextFailures(rules, turns, status, step) ==>
              f.Silent? || f.MissingText? || f.UnexpectedText? || f.OnlyFallback? || f.NoQuestion?
                || f.RunReasonUnsupported?
  {
    var haystack := Lower(rules.lower, ReplyText(turns));
    MissingMembers(rules, haystack, step.contains);
    UnexpectedMembers(rules, haystack, step.notContains);
  }

  lemma {:induction false} MissingMembers(rules: Rules, haystack: string, needles: seq<string>)
    ensures forall f :: f in MissingIn(rules, haystack, needles) <==>
              f.MissingText? && f.needle in needles && !Contains(haystack, Lower(rules.lower, f.needle))
  {
    if needles != [] {
      MissingMembers(rules, haystack, needles[..|needles| - 1]);
      assert needles == needles[..|needles| - 1] + [needles[|needles| - 1]];
    }
  }

  lemma {:induction false} UnexpectedMembers(rules: Rules, haystack: string, needles: seq<string>)
    ensures forall f :: f in UnexpectedIn(rules, haystack, needles) <==>
              f.UnexpectedText? && f.needle in needles && Contains(haystack, Lower(rules.lower, f.needle))
  {
    if needles != [] {
      UnexpectedMembers(rules, haystack, needles[..|needles| - 1]);
      assert needles == needles[..|needles| - 1] + [needles[|needles| - 1]];
    }
  }

  // ---------------------------------------------------------------- labels

  datatype Label = PASS | FAIL | XFAIL | XPASS | TIMEOUT | INDETERMINATE

  datatype Outcome = Outcome(ok: bool, xfail: bool, lbl: Label)

  /** `classify_step` */
  function ClassifyStep(failures: seq<Failure>, expectedFail: bool): Outcome {
    if expectedFail then
      if failures != [] then Outcome(true, true, XFAIL) else Outcome(true, false, XPASS)
    else
      Outcome(failures == [], false, if failures == [] then PASS else FAIL)
  }

  /** The result of one step, as it is passed from phase to phase. */
  datatype StepResult = StepResult(
    ok: bool,
    xfail: bool,
    lbl: Label,
    reasons: seq<Failure>,
    transcript: seq<Turn>,
    runStatus: Option<string>,
    ingressReason: string,
    runId: string,
    sid: Option<string>)

  // ---------------------------------------------------------------- a longer conversation

  lemma {:induction false} TextsConcat(a: seq<Turn>, b: seq<Turn>)
    ensures AssistantTexts(a + b) == AssistantTexts(a) + AssistantTexts(b)
  {
    if b == [] {
      assert a + b == a;
    } else {
      TextsConcat(a, b[..|b| - 1]);
      assert (a + b)[..|a + b| - 1] == a + b[..|b| - 1];
    }
  }

  lemma JoinSnoc(lines: seq<string>, last: string)
    ensures JoinLines(lines + [last]) == (if lines == [] then "" else JoinLines(lines) + "\n") + last
  {
    assert (lines + [last])[..|lines|] == lines;
  }

  lemma {:induction false} JoinConcat(a: seq<string>, b: seq<string>)
    requires b != []
    ensures JoinLines(a + b) == (if a == [] then "" else JoinLines(a) + "\n") + JoinLines(b)
  {
    var front, last := b[..|b| - 1], b[|b| - 1];
    if a == [] {
      assert a + b == b;
    } else if front == [] {
      assert b == [last];
      JoinSnoc(a, last);
    } else {
      var start := JoinLines(a) + "\n";
      JoinConcat(a, front);
      assert b == front + [last] && a + b == (a + front) + [last];
      JoinSnoc(a + front, last);
      JoinSnoc(front, last);
      RegroupText(start, JoinLines(front), "\n");
      RegroupText(start, JoinLines(front) + "\n", last);
    }
  }

  lemma JoinAround(a: seq<string>, p: seq<string>, c: seq<string>) returns (left: string, right: string)
    requires p != []
    ensures JoinLines(a + p + c) == left + JoinLines(p) + right
  {
    JoinConcat(a, p);
    left := if a == [] then "" else JoinLines(a) + "\n";
    if c == [] {
      assert a + p + c == a + p;
      right := "";
    } else {
      JoinConcat(a + p, c);
      right := "\n" + JoinLines(c);
      RegroupText(JoinLines(a + p), "\n", JoinLines(c));
    }
  }

  lemma RegroupText(a: string, b: string, c: string)
    ensures a + b + c == a + (b + c)
  {
  }

  /** The reply text of a part of a conversation is a contiguous piece of the whole reply text. */
  lemma PartOfReplyText(before: seq<Turn>, part: seq<Turn>, after: seq<Turn>) returns (left: string, right: string)
    requires AssistantTexts(part) != []
    ensures ReplyText(before + part + after) == left + ReplyText(part) + right
  {
    TextsConcat(before, part);
    TextsConcat(before + part, after);
    left, right := JoinAround(AssistantTexts(before), AssistantTexts(part), AssistantTexts(after));
  }

  predicate Unreplied(turns: seq<Turn>) {
    forall t :: t in turns ==> t.role != "assistant"
  }

  /** There is a reply exactly if some turn is the assistant's. */
  lemma {:induction false} ReplyExactly(turns: seq<Turn>)
    ensures AssistantTexts(turns) == [] <==> Unreplied(turns)
  {
    if turns != [] {
      ReplyExactly(turns[..|turns| - 1]);
      assert turns == turns[..|turns| - 1] + [turns[|turns| - 1]];
    }
  }

  /** The reply text, turn by turn: only the assistant's texts, each on a line of its own. */
  lemma ReplyTextGrows(turns: seq<Turn>, t: Turn)
    ensures ReplyText([]) == ""
    ensures
      ReplyText(turns + [t]) ==
      if t.role != "assistant" then ReplyText(turns)
      else if Unreplied(turns) then t.text
      else ReplyText(turns) + "\n" + t.text
  {
    assert (turns + [t])[..|turns|] == turns;
    ReplyExactly(turns);
    if IsAssistant(t) {
      JoinSnoc(AssistantTexts(turns), t.text);
    } else {
      assert AssistantTexts(turns) + [] == AssistantTexts(turns);
    }
    assert "" + t.text == t.text;
  }

  /** A text contains a needle exactly if the needle stands between some front and some rest of it. */
  lemma ContainsExactly(text: string, needle: string)
    ensures Contains(text, needle) <==> exists front, rest :: text == front + needle + rest
  {
    if Contains(text, needle) {
      var i :| 0 <= i <= |text| && OccursAt(text, needle, i);
      assert text == text[..i] + needle + text[i + |needle|..];
    }
    if front, rest :| text == front + needle + rest {
      assert OccursAt(text, needle, |front|);
    }
  }

  /** Lower-casing replaces each character where it stands. */
  lemma LowerIsByCharacter(lower: char -> string, front: string, c: char, rest: string)
    ensures Lower(lower, "") == ""
    ensures Lower(lower, front + [c] + rest) == Lower(lower, front) + lower(c) + Lower(lower, rest)
  {
    LowerConcat(lower, front + [c], rest);
    LowerConcat(lower, front, [c]);
    assert [c][..0] == "";
    assert "" + lower(c) == lower(c);
  }

  lemma OccursLater(text: string, line: string, k: nat)
    requires text != ""
    ensures OccursAt(text[1..], line, k) == OccursAt(text, line, k + 1)
  {
    if k + 1 + |line| <= |text| {
      assert text[1..][k..k + |line|] == text[k + 1..k + 1 + |line|];
    }
  }

  /** Skipping a character that no occurrence begins with. */
  lemma WithoutSkips(text: string, line: string)
    requires text != "" && !OccursAt(text, line, 0) && |line| <= |text|
    ensures Without(text, line) == [text[0]] + Without(text[1..], line)
  {
    assert text[..|line|] != line;
  }

  lemma SkipOne(text: string, line: string, i: nat, tail: string)
    requires !OccursAt(text, line, 0) && |line| <= |text| && 0 < i <= |text|
    requires Without(text[1..], line) == text[1..][..i - 1] + tail
    ensures Without(text, line) == text[..i] + tail
  {
    WithoutSkips(text, line);
    assert text[..i] == [text[0]] + text[1..][..i - 1];
    RegroupText([text[0]], text[1..][..i - 1], tail);
  }

  /** The first occurrence is not at the beginning: it is the first one of the rest. */
  lemma FirstOfRest(text: string, line: string, i: nat)
    requires i > 0 && OccursAt(text, line, i) && forall k :: 0 <= k < i ==> !OccursAt(text, line, k)
    ensures OccursAt(text[1..], line, i - 1) && forall k :: 0 <= k < i - 1 ==> !OccursAt(text[1..], line, k)
  {
    OccursLater(text, line, i - 1);
    forall k | 0 <= k < i - 1 ensures !OccursAt(text[1..], line, k) {
      OccursLater(text, line, k);
    }
  }

  /** Taking out a line takes out its first occurrence, and then those in the rest. */
  lemma {:induction false} WithoutFirst(text: string, line: string, i: nat)
    requires line != "" && OccursAt(text, line, i) && forall k :: 0 <= k < i ==> !OccursAt(text, line, k)
    ensures Without(text, line) == text[..i] + Without(text[i + |line|..], line)
    decreases i
  {
    if i == 0 {
      assert text[..|line|] == line && text[..0] == "";
      assert "" + Without(text[|line|..], line) == Without(text[|line|..], line);
    } else {
      FirstOfRest(text, line, i);
      WithoutFirst(text[1..], line, i - 1);
      assert text[1..][i - 1 + |line|..] == text[i + |line|..];
      SkipOne(text, line, i, Without(text[i + |line|..], line));
    }
  }

  /** A text without the line stays as it is. */
  lemma {:induction false} WithoutNone(text: string, line: string)
    requires !Contains(text, line)
    ensures Without(text, line) == text
    decreases |text|
  {
    if line != "" && |text| >= |line| {
      assert text[..|line|] != line by {
        assert !OccursAt(text, line, 0);
      }
      var rest := text[1..];
      forall k: nat | k <= |rest| ensures !OccursAt(rest, line, k) {
        OccursLater(text, line, k);
        assert !OccursAt(text, line, k + 1);
      }
      WithoutNone(rest, line);
      assert text == [text[0]] + rest;
    }
  }

  /** Stripping takes off white space at both ends and leaves none there. */
  lemma {:induction false} StripExactly(isSpace: char -> bool, text: string) returns (front: string, rest: string)
    ensures text == front + Strip(isSpace, text) + rest
    ensures forall c :: c in front || c in rest ==> isSpace(c)
    ensures
      var left := Strip(isSpace, text);
      left != "" ==> !isSpace(left[0]) && !isSpace(left[|left| - 1])
  {
    front, rest := "", "";
    if text != "" && isSpace(text[0]) {
      front, rest := StripExactly(isSpace, text[1..]);
      front := [text[0]] + front;
    } else if text != "" && isSpace(text[|text| - 1]) {
      front, rest := StripExactly(isSpace, text[..|text| - 1]);
      rest := rest + [text[|text| - 1]];
    }
  }

  lemma {:induction false} LowerConcat(lower: char -> string, a: string, b: string)
    ensures Lower(lower, a + b) == Lower(lower, a) + Lower(lower, b)
  {
    if b == "" {
      assert a + b == a;
    } else {
      var front := b[..|b| - 1];
      LowerConcat(lower, a, front);
      assert (a + b)[..|a + b| - 1] == a + front;
      RegroupText(Lower(lower, a), Lower(lower, front), lower(b[|b| - 1]));
    }
  }

  lemma ContainsInLonger(left: string, text: string, right: string, needle: string)
    requires Contains(text, needle)
    ensures Contains(left + text + right, needle)
  {
    var i :| 0 <= i <= |text| && OccursAt(text, needle, i);
    assert OccursAt(left + text + right, needle, |left| + i);
  }

  lemma EverythingContainsNothing(text: string, needle: string)
    requires needle == ""
    ensures Contains(text, needle)
  {
    assert OccursAt(text, needle, 0);
  }

  lemma LongerHaystack(rules: Rules, before: seq<Turn>, part: seq<Turn>, after: seq<Turn>, needle: string)
    requires Contains(Lower(rules.lower, ReplyText(part)), needle)
    ensures Contains(Lower(rules.lower, ReplyText(before + part + after)), needle)
  {
    if AssistantTexts(part) == [] {
      EverythingContainsNothing(Lower(rules.lower, ReplyText(before + part + after)), needle);
    } else {
      var left, right := PartOfReplyText(before, part, after);
      LowerConcat(rules.lower, left + ReplyText(part), right);
      LowerConcat(rules.lower, left, ReplyText(part));
      ContainsInLonger(Lower(rules.lower, left), Lower(rules.lower, ReplyText(part)), Lower(rules.lower, right),
        needle);
    }
  }

  /** The failures that more conversation can only remove. */
  predicate Curable(f: Failure) {
    f.Silent? || f.MissingText? || f.NoQuestion?
  }

  /** What a text check says of a reply: each kind of reason, where it is declared and the turns, read in
      full, call for it. */
  ghost predicate Objects(rules: Rules, turns: seq<Turn>, status: Option<string>, step: Step, f: Failure) {
    var text := ReplyText(turns);
    match f
    case Silent => step.noSilent && status != Some("running") && Unreplied(turns)
    case MissingText(needle) =>
      needle in step.contains && !Contains(Lower(rules.lower, text), Lower(rules.lower, needle))
    case UnexpectedText(needle) =>
      needle in step.notContains && Contains(Lower(rules.lower, text), Lower(rules.lower, needle))
    case OnlyFallback =>
      step.notD1 && exists i :: 0 <= i < |rules.fallbacks| && Contains(text, rules.fallbacks[i])
                                && |Strip(rules.isSpace, Without(text, rules.fallbacks[i]))| < 20
    case NoQuestion => step.isQuestion && forall c :: c in text ==> c != '?' && c != '？'
    case RunReasonUnsupported(reason) => step.runReason == Some(reason) || step.runReasonNot == Some(reason)
    case _ => false
  }

  lemma SpeechActExactly(rules: Rules, turns: seq<Turn>, status: Option<string>, step: Step, f: Failure)
    requires f.OnlyFallback? || f.NoQuestion?
    ensures f in SpeechActIn(rules, ReplyText(turns), step) <==> Objects(rules, turns, status, step, f)
  {
  }

  lemma NeedlesExactly(rules: Rules, turns: seq<Turn>, status: Option<string>, step: Step, f: Failure)
    requires f.MissingText? || f.UnexpectedText?
    ensures
      var haystack := Lower(rules.lower, ReplyText(turns));
      f in MissingIn(rules, haystack, step.contains) + UnexpectedIn(rules, haystack, step.notContains)
      <==> Objects(rules, turns, status, step, f)
  {
    var haystack := Lower(rules.lower, ReplyText(turns));
    MissingMembers(rules, haystack, step.contains);
    UnexpectedMembers(rules, haystack, step.notContains);
  }

  /** Each part of the failure list has its own kinds of reasons. */
  lemma PartOf(rules: Rules, turns: seq<Turn>, status: Option<string>, step: Step, f: Failure)
    ensures
      var haystack := Lower(rules.lower, ReplyText(turns));
      f in TextFailures(rules, turns, status, step) <==>
        if f.Silent? then f in SilentIn(turns, status, step)
        else if f.MissingText? || f.UnexpectedText? then
          f in MissingIn(rules, haystack, step.contains) + UnexpectedIn(rules, haystack, step.notContains)
        else if f.OnlyFallback? || f.NoQuestion? then f in SpeechActIn(rules, ReplyText(turns), step)
        else f in UnsupportedIn(step)
  {
    var haystack := Lower(rules.lower, ReplyText(turns));
    MissingMembers(rules, haystack, step.contains);
    UnexpectedMembers(rules, haystack, step.notContains);
  }

  /** Every reason is reported exactly if a declared check objects to the reply. */
  lemma FailureOrigins(rules: Rules, turns: seq<Turn>, status: Option<string>, step: Step, f: Failure)
    ensures f in TextFailures(rules, turns, status, step) <==> Objects(rules, turns, status, step, f)
  {
    PartOf(rules, turns, status, step, f);
    if f.Silent? {
      ReplyExactly(turns);
    } else if f.MissingText? || f.UnexpectedText? {
      NeedlesExactly(rules, turns, status, step, f);
    } else if f.OnlyFallback? || f.NoQuestion? {
      SpeechActExactly(rules, turns, status, step, f);
    }
  }

  lemma SilenceExactly(rules: Rules, turns: seq<Turn>, status: Option<string>, step: Step)
    ensures Silent in TextFailures(rules, turns, status, step) <==>
            step.noSilent && Unreplied(turns) && status != Some(RUNNING)
  {
    FailureOrigins(rules, turns, status, step, Silent);
  }

  lemma NoneObjects(rules: Rules, turns: seq<Turn>, status: Option<string>, step: Step)
    ensures TextFailures(rules, turns, status, step) == [] <==>
            forall f :: !Objects(rules, turns, status, step, f)
  {
    var fs := TextFailures(rules, turns, status, step);
    forall f ensures f in fs <==> Objects(rules, turns, status, step, f) {
      FailureOrigins(rules, turns, status, step, f);
    }
    if fs != [] {
      assert fs[0] in fs;
    }
  }

  /** Judged against the whole conversation instead of its own part of it, a step keeps every failure
      of an unwanted text, and gains no missing text, silence or missing question. */
  lemma WholeConversationOnlyCures(
      rules: Rules, before: seq<Turn>, part: seq<Turn>, after: seq<Turn>, status: Option<string>, step: Step,
      f: Failure)
    ensures Curable(f) && f in TextFailures(rules, before + part + after, status, step) ==>
            f in TextFailures(rules, part, status, step)
    ensures f.UnexpectedText? && f in TextFailures(rules, part, status, step) ==>
            f in TextFailures(rules, before + part + after, status, step)
  {
    FailureOrigins(rules, part, status, step, f);
    FailureOrigins(rules, before + part + after, status, step, f);
    if f.MissingText? || f.UnexpectedText? {
      if Contains(Lower(rules.lower, ReplyText(part)), Lower(rules.lower, f.needle)) {
        LongerHaystack(rules, before, part, after, Lower(rules.lower, f.needle));
      }
    } else if f.NoQuestion? {
      QuestionRemains(before, part, after);
    }
  }

  lemma QuestionRemains(before: seq<Turn>, part: seq<Turn>, after: seq<Turn>)
    ensures forall c :: c in ReplyText(part) ==> c in ReplyText(before + part + after)
  {
    if AssistantTexts(part) != [] {
      var left, right := PartOfReplyText(before, part, after);
    }
  }
}
