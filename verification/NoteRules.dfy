// Routing rules: three-valued conditions over notes whose text may not be loaded, and the
// ordered evaluation that never guesses about it.
module NoteRules {
  import opened Basics

  const MAXIMUM_CONDITIONS := 32
  const MAXIMUM_ACTIONS := 8
  const MAXIMUM_PATTERN_LENGTH := 512
  const NULL_ID := "00000000-0000-0000-0000-000000000000"

  datatype ConditionKind = TitleMatches | HasTag | TextContains | StorageIs | UnknownCondition
  datatype ActionKind = AssignFolder | SelectStorage | RequireEncryption | UnknownAction
  datatype Combiner = All | Any | UnknownCombiner

  datatype Condition = Condition(kind: ConditionKind, value: string, negated: bool)
  datatype Action = Action(kind: ActionKind, folderId: string, storageId: string)
  datatype Rule = Rule(id: string, enabled: bool, sortOrder: Int64, combiner: Combiner, conditions: seq<Condition>,
                       actions: seq<Action>, stopProcessing: bool, revision: UInt64, modifiedAtValid: bool)

  // The text is None while it is not loaded.
  datatype Input = Input(storageId: string, title: string, tags: seq<string>, text: Option<string>)

  datatype ErrorCode = NoError | InvalidArgument | AlreadyExists

  datatype Evaluation = Evaluation(matchedRuleIds: seq<string>, folderId: Option<string>, storageId: string,
                                   requiresEncryption: bool, stopped: bool, requiresText: bool, error: ErrorCode)

  const NOTHING := Evaluation([], None, "", false, false, false, NoError)

  // The string operations of Qt that the rules use.
  datatype Text = Text(
    trimmed: string -> string,
    titleMatches: (string, string) -> bool,
    patternValid: string -> bool,
    equalIgnoringCase: (string, string) -> bool,
    containsIgnoringCase: (string, string) -> bool)

  function NormalizedTag(t: Text, value: string): string {
    var s := t.trimmed(value);
    if s != "" && s[0] == '#' then t.trimmed(s[1..]) else s
  }

  // ---- Conditions ----

  datatype State = Matches | DoesNotMatch | NeedsText

  function EvaluateCondition(t: Text, c: Condition, input: Input): State {
    var value := t.trimmed(c.value);
    if c.kind == TextContains && input.text.None? then NeedsText
    else
      var matches := match c.kind
        case TitleMatches => t.patternValid(value) && t.titleMatches(value, input.title)
        case HasTag => exists k :: 0 <= k < |input.tags| && t.equalIgnoringCase(input.tags[k], NormalizedTag(t, value))
        case TextContains => t.containsIgnoringCase(input.text.value, value)
        case StorageIs => t.equalIgnoringCase(input.storageId, value)
        case UnknownCondition => false;
      if matches != c.negated then Matches else DoesNotMatch
  }

  predicate SomeIs(t: Text, conditions: seq<Condition>, input: Input, state: State) {
    exists k :: 0 <= k < |conditions| && EvaluateCondition(t, conditions[k], input) == state
  }

  // The three-valued conjunction or disjunction of the conditions.
  function ConditionsState(t: Text, rule: Rule, input: Input): State {
    if rule.conditions == [] then Matches
    else if rule.combiner == All then
      if SomeIs(t, rule.conditions, input, DoesNotMatch) then DoesNotMatch
      else if SomeIs(t, rule.conditions, input, NeedsText) then NeedsText
      else Matches
    else
      if SomeIs(t, rule.conditions, input, Matches) then Matches
      else if SomeIs(t, rule.conditions, input, NeedsText) then NeedsText
      else DoesNotMatch
  }

  method EvaluateConditions(t: Text, rule: Rule, input: Input) returns (state: State)
    ensures state == ConditionsState(t, rule, input)
  {
    hide EvaluateCondition;
    if rule.conditions == [] {
      return Matches;
    }
    var needsText := false;
    var k := 0;
    while k < |rule.conditions|
      invariant 0 <= k <= |rule.conditions|
      invariant needsText <==> exists j :: 0 <= j < k && EvaluateCondition(t, rule.conditions[j], input) == NeedsText
      invariant rule.combiner == All ==> forall j :: 0 <= j < k ==> EvaluateCondition(t, rule.conditions[j], input) != DoesNotMatch
      invariant rule.combiner != All ==> forall j :: 0 <= j < k ==> EvaluateCondition(t, rule.conditions[j], input) != Matches
    {
      var result := EvaluateCondition(t, rule.conditions[k], input);
      if rule.combiner == All {
        if result == DoesNotMatch {
          return DoesNotMatch;
        }
        needsText := needsText || result == NeedsText;
      } else {
        if result == Matches {
          return Matches;
        }
        needsText := needsText || result == NeedsText;
      }
      k := k + 1;
    }
    if needsText {
      return NeedsText;
    }
    state := if rule.combiner == All then Matches else DoesNotMatch;
  }

  function WithText(input: Input, text: string): Input {
    input.(text := Some(text))
  }

  lemma ConditionIsSound(t: Text, c: Condition, input: Input, text: string)
    requires input.text.None?
    ensures EvaluateCondition(t, c, input) != NeedsText ==>
      EvaluateCondition(t, c, WithText(input, text)) == EvaluateCondition(t, c, input)
    ensures EvaluateCondition(t, c, WithText(input, text)) != NeedsText
    ensures EvaluateCondition(t, c, input) == NeedsText <==> c.kind == TextContains
  {
  }

  // A rule that is decided without the text is decided the same way by every text; one that is
  // not decided is decided by any text.
  lemma ConditionsAreSound(t: Text, rule: Rule, input: Input, text: string)
    requires input.text.None?
    ensures ConditionsState(t, rule, input) != NeedsText ==>
      ConditionsState(t, rule, WithText(input, text)) == ConditionsState(t, rule, input)
    ensures ConditionsState(t, rule, WithText(input, text)) != NeedsText
  {
    hide EvaluateCondition;
    var full := WithText(input, text);
    forall k | 0 <= k < |rule.conditions|
      ensures EvaluateCondition(t, rule.conditions[k], full) != NeedsText
      ensures EvaluateCondition(t, rule.conditions[k], input) != NeedsText ==>
        EvaluateCondition(t, rule.conditions[k], full) == EvaluateCondition(t, rule.conditions[k], input)
    {
      ConditionIsSound(t, rule.conditions[k], input, text);
    }
  }

  // ---- Well-formed rules ----

  predicate ConditionWellFormed(t: Text, c: Condition) {
    var value := t.trimmed(c.value);
    && c.kind != UnknownCondition && value != "" && |value| <= MAXIMUM_PATTERN_LENGTH
    && (c.kind == HasTag ==> NormalizedTag(t, value) != "")
    && (c.kind == TitleMatches ==> t.patternValid(value))
  }

  predicate ActionWellFormed(t: Text, a: Action) {
    a.kind != UnknownAction && (a.kind == SelectStorage ==> t.trimmed(a.storageId) != "")
  }

  predicate WellFormed(t: Text, rule: Rule) {
    && rule.id != NULL_ID && rule.combiner != UnknownCombiner
    && |rule.conditions| <= MAXIMUM_CONDITIONS && 1 <= |rule.actions| <= MAXIMUM_ACTIONS
    && rule.revision != 0 && rule.modifiedAtValid
    && (forall k :: 0 <= k < |rule.conditions| ==> ConditionWellFormed(t, rule.conditions[k]))
    && (forall k :: 0 <= k < |rule.actions| ==> ActionWellFormed(t, rule.actions[k]))
    && (forall j, k :: 0 <= j < k < |rule.actions| ==> rule.actions[j].kind != rule.actions[k].kind)
  }

  // A rule is accepted exactly if it is well-formed: in particular it has at most one action of
  // each kind.
  method Validate(t: Text, rule: Rule) returns (error: ErrorCode)
    ensures error == if WellFormed(t, rule) then NoError else InvalidArgument
  {
    if rule.id == NULL_ID || rule.combiner == UnknownCombiner || |rule.conditions| > MAXIMUM_CONDITIONS || rule.actions == []
      || |rule.actions| > MAXIMUM_ACTIONS || rule.revision == 0 || !rule.modifiedAtValid {
      return InvalidArgument;
    }
    var k := 0;
    while k < |rule.conditions|
      invariant 0 <= k <= |rule.conditions|
      invariant forall j :: 0 <= j < k ==> ConditionWellFormed(t, rule.conditions[j])
    {
      var c := rule.conditions[k];
      var value := t.trimmed(c.value);
      if c.kind == UnknownCondition || value == "" || |value| > MAXIMUM_PATTERN_LENGTH
        || (c.kind == HasTag && NormalizedTag(t, value) == "") {
        return InvalidArgument;
      }
      if c.kind == TitleMatches && !t.patternValid(value) {
        return InvalidArgument;
      }
      k := k + 1;
    }
    error := ValidateActions(t, rule.actions);
  }

  // Each of the first k actions is well-formed, and no two of them are of one kind.
  predicate ActionsWellFormed(t: Text, actions: seq<Action>, k: nat)
    requires k <= |actions|
  {
    && (forall j :: 0 <= j < k ==> ActionWellFormed(t, actions[j]))
    && (forall i, j :: 0 <= i < j < k ==> actions[i].kind != actions[j].kind)
  }

  function KindsOf(actions: seq<Action>, k: nat): set<ActionKind>
    requires k <= |actions|
  {
    set j | 0 <= j < k :: actions[j].kind
  }

  lemma NextAction(t: Text, actions: seq<Action>, k: nat)
    requires k < |actions|
    ensures ActionsWellFormed(t, actions, k + 1)
      <==> ActionsWellFormed(t, actions, k) && ActionWellFormed(t, actions[k]) && actions[k].kind !in KindsOf(actions, k)
    ensures KindsOf(actions, k + 1) == KindsOf(actions, k) + {actions[k].kind}
  {
    hide ActionWellFormed;
  }

  lemma FirstActions(t: Text, actions: seq<Action>, k: nat)
    requires k <= |actions| && ActionsWellFormed(t, actions, |actions|)
    ensures ActionsWellFormed(t, actions, k)
  {
    hide ActionWellFormed;
  }

  lemma NoActions(t: Text, actions: seq<Action>)
    ensures ActionsWellFormed(t, actions, 0) && KindsOf(actions, 0) == {}
  {
  }

  method ValidateActions(t: Text, actions: seq<Action>) returns (error: ErrorCode)
    ensures error == if ActionsWellFormed(t, actions, |actions|) then NoError else InvalidArgument
  {
    hide ActionsWellFormed, KindsOf;
    NoActions(t, actions);
    var hasFolderAction, hasStorageAction, hasEncryptionAction := false, false, false;
    var k := 0;
    while k < |actions|
      invariant 0 <= k <= |actions| && ActionsWellFormed(t, actions, k)
      invariant hasFolderAction <==> AssignFolder in KindsOf(actions, k)
      invariant hasStorageAction <==> SelectStorage in KindsOf(actions, k)
      invariant hasEncryptionAction <==> RequireEncryption in KindsOf(actions, k)
    {
      var a := actions[k];
      NextAction(t, actions, k);
      if ActionsWellFormed(t, actions, |actions|) {
        FirstActions(t, actions, k + 1);
      }
      match a.kind {
        case UnknownAction =>
          return InvalidArgument;
        case AssignFolder =>
          if hasFolderAction {
            return InvalidArgument;
          }
          hasFolderAction := true;
        case SelectStorage =>
          if hasStorageAction || t.trimmed(a.storageId) == "" {
            return InvalidArgument;
          }
          hasStorageAction := true;
        case RequireEncryption =>
          if hasEncryptionAction {
            return InvalidArgument;
          }
          hasEncryptionAction := true;
      }
      k := k + 1;
    }
    error := NoError;
  }

  // ---- Order ----

  predicate RuleLess(a: Rule, b: Rule) {
    if a.sortOrder != b.sortOrder then a.sortOrder < b.sortOrder else StringLess(a.id, b.id)
  }

  // A strict order that decides between any two rules of different ids.
  lemma RuleOrder(a: Rule, b: Rule)
    ensures !(RuleLess(a, b) && RuleLess(b, a))
    ensures a.id != b.id ==> RuleLess(a, b) || RuleLess(b, a)
  {
    StringOrder(a.id, b.id);
  }

  lemma RuleTransitive(a: Rule, b: Rule, c: Rule)
    requires RuleLess(a, b) && RuleLess(b, c)
    ensures RuleLess(a, c)
  {
    if a.sortOrder == b.sortOrder == c.sortOrder {
      StringTransitive(a.id, b.id, c.id);
    }
  }

  predicate Ascending(rules: seq<Rule>) {
    forall i, j :: 0 <= i < j < |rules| ==> !RuleLess(rules[j], rules[i])
  }

  predicate DistinctIds(rules: seq<Rule>) {
    forall i, j :: 0 <= i < j < |rules| ==> rules[i].id != rules[j].id
  }

  // What std::sort may answer.
  ghost predicate IsSorting(rules: seq<Rule>, ordered: seq<Rule>) {
    multiset(ordered) == multiset(rules) && Ascending(ordered)
  }

  lemma {:induction false} DistinctByCount(a: seq<Rule>, b: seq<Rule>)
    requires multiset(a) == multiset(b) && DistinctIds(a)
    ensures DistinctIds(b)
  {
    forall i, j | 0 <= i < j < |b| ensures b[i].id != b[j].id {
      assert b[i] in multiset(b) && b[j] in multiset(b);
      assert b[i] in a && b[j] in a;
      if b[i] == b[j] {
        TwiceMeansTwo(b, i, j);
        assert multiset(a)[b[i]] >= 2;
        CountOfDistinct(a, b[i]);
      }
    }
  }

  lemma TwiceMeansTwo(s: seq<Rule>, i: nat, j: nat)
    requires i < j < |s| && s[i] == s[j]
    ensures multiset(s)[s[i]] >= 2
  {
    assert s == s[..j] + [s[j]] + s[j + 1..];
    assert s[i] in s[..j];
    assert s[..j][i] == s[i];
  }

  lemma {:induction false} CountOfDistinct(s: seq<Rule>, r: Rule)
    requires DistinctIds(s)
    ensures multiset(s)[r] <= 1
  {
    if s != [] {
      assert s == [s[0]] + s[1..];
      CountOfDistinct(s[1..], r);
      FirstIsNotInRest(s);
    }
  }

  lemma FirstIsNotInRest(s: seq<Rule>)
    requires DistinctIds(s) && s != []
    ensures s[0] !in s[1..]
  {
    forall k | 0 <= k < |s[1..]| ensures s[1..][k] != s[0] {
      assert s[1..][k] == s[k + 1];
    }
  }

  // Rules with distinct ids have one sorting, whatever the algorithm and the input order.
  lemma {:induction false} SortingIsUnique(a: seq<Rule>, b: seq<Rule>)
    requires multiset(a) == multiset(b) && DistinctIds(a) && DistinctIds(b) && Ascending(a) && Ascending(b)
    ensures a == b
  {
    hide RuleLess, DistinctIds, Ascending;
    assert |multiset(a)| == |a| && |multiset(b)| == |b|;
    if a != [] {
      SameFirst(a, b);
      RestIsSorted(a);
      RestIsSorted(b);
      SortingIsUnique(a[1..], b[1..]);
      assert a == [a[0]] + a[1..] && b == [b[0]] + b[1..];
    }
  }

  lemma RestIsSorted(a: seq<Rule>)
    requires a != [] && DistinctIds(a) && Ascending(a)
    ensures DistinctIds(a[1..]) && Ascending(a[1..]) && multiset(a[1..]) == multiset(a) - multiset{a[0]}
  {
    hide RuleLess;
    assert a == [a[0]] + a[1..];
    assert forall i :: 0 <= i < |a[1..]| ==> a[1..][i] == a[i + 1];
  }

  lemma SameFirst(a: seq<Rule>, b: seq<Rule>)
    requires multiset(a) == multiset(b) && DistinctIds(a) && Ascending(a) && Ascending(b) && a != [] && b != []
    ensures a[0] == b[0]
  {
    hide RuleLess;
    assert a[0] in multiset(a) && b[0] in multiset(b);
    assert a[0] in multiset(b) && b[0] in multiset(a);
    var j :| 0 <= j < |b| && b[j] == a[0];
    var k :| 0 <= k < |a| && a[k] == b[0];
    RuleOrder(a[0], a[k]);
  }

  // ---- Evaluation ----

  function ApplyAction(t: Text, output: Evaluation, a: Action): Evaluation {
    match a.kind
    case AssignFolder => output.(folderId := Some(a.folderId))
    case SelectStorage => output.(storageId := t.trimmed(a.storageId))
    case RequireEncryption => output.(requiresEncryption := true)
    case UnknownAction => output
  }

  function ApplyActions(t: Text, output: Evaluation, actions: seq<Action>): Evaluation
    decreases |actions|
  {
    if actions == [] then output else ApplyActions(t, ApplyAction(t, output, actions[0]), actions[1..])
  }

  // The evaluation of ordered rules, continuing from what earlier ones produced.
  function EvaluateFrom(t: Text, ordered: seq<Rule>, input: Input, output: Evaluation): Evaluation {
    if ordered == [] then output
    else
      var rule := ordered[0];
      if !rule.enabled then EvaluateFrom(t, ordered[1..], input, output)
      else if !WellFormed(t, rule) then output.(error := InvalidArgument)
      else
        match ConditionsState(t, rule, input)
        case NeedsText => output.(requiresText := true)
        case DoesNotMatch => EvaluateFrom(t, ordered[1..], input, output)
        case Matches =>
          var applied := ApplyActions(t, output.(matchedRuleIds := output.matchedRuleIds + [rule.id]), rule.actions);
          if rule.stopProcessing then applied.(stopped := true) else EvaluateFrom(t, ordered[1..], input, applied)
  }

  // NoteRuleEvaluator::evaluate, with the sorting std::sort answered.
  method Evaluate(t: Text, rules: seq<Rule>, ordered: seq<Rule>, input: Input) returns (output: Evaluation)
    requires IsSorting(rules, ordered)
    ensures output == EvaluateFrom(t, ordered, input, NOTHING)
  {
    hide WellFormed, ConditionsState, ApplyAction;
    output := NOTHING;
    var k := 0;
    assert ordered[0..] == ordered;
    while k < |ordered|
      invariant 0 <= k <= |ordered|
      invariant EvaluateFrom(t, ordered[k..], input, output) == EvaluateFrom(t, ordered, input, NOTHING)
    {
      var rule := ordered[k];
      assert ordered[k..][1..] == ordered[k + 1..];
      k := k + 1;
      if rule.enabled {
        var validation := Validate(t, rule);
        if validation != NoError {
          return output.(error := validation);
        }
        var conditionResult := EvaluateConditions(t, rule, input);
        if conditionResult == NeedsText {
          return output.(requiresText := true);
        }
        if conditionResult == Matches {
          output := output.(matchedRuleIds := output.matchedRuleIds + [rule.id]);
          ghost var before := output;
          var j := 0;
          assert rule.actions[0..] == rule.actions;
          while j < |rule.actions|
            invariant 0 <= j <= |rule.actions|
            invariant ApplyActions(t, output, rule.actions[j..]) == ApplyActions(t, before, rule.actions)
          {
            assert rule.actions[j..][1..] == rule.actions[j + 1..];
            output := ApplyAction(t, output, rule.actions[j]);
            j := j + 1;
          }
          if rule.stopProcessing {
            return output.(stopped := true);
          }
        }
      }
    }
  }

  lemma {:induction false} ActionsKeep(t: Text, output: Evaluation, actions: seq<Action>)
    ensures var r := ApplyActions(t, output, actions);
      && r.matchedRuleIds == output.matchedRuleIds && r.stopped == output.stopped
      && r.requiresText == output.requiresText && r.error == output.error
    decreases |actions|
  {
    if actions != [] {
      ActionsKeep(t, ApplyAction(t, output, actions[0]), actions[1..]);
    }
  }

  // Rules matched so far stay matched.
  lemma {:induction false} MatchesAccumulate(t: Text, ordered: seq<Rule>, input: Input, output: Evaluation)
    ensures output.matchedRuleIds <= EvaluateFrom(t, ordered, input, output).matchedRuleIds
  {
    hide WellFormed, ConditionsState, ApplyAction;
    if ordered != [] {
      var rule := ordered[0];
      var more := output.(matchedRuleIds := output.matchedRuleIds + [rule.id]);
      ActionsKeep(t, more, rule.actions);
      MatchesAccumulate(t, ordered[1..], input, output);
      MatchesAccumulate(t, ordered[1..], input, ApplyActions(t, more, rule.actions));
    }
  }

  // Deferred evaluation is sound. If an evaluation without the text does not ask for it, every
  // text gives the same result. If it asks, then every text gives an evaluation that continues,
  // from the deferred rule on, exactly what was produced so far.
  lemma {:induction false} DeferralIsSound(t: Text, ordered: seq<Rule>, input: Input, text: string, output: Evaluation)
    requires input.text.None? && !output.requiresText
    ensures var summary := EvaluateFrom(t, ordered, input, output);
      var full := EvaluateFrom(t, ordered, WithText(input, text), output);
      && (!summary.requiresText ==> full == summary)
      && (summary.requiresText ==>
            exists k :: 0 <= k < |ordered| && Resumes(t, ordered, k, WithText(input, text), summary.(requiresText := false), full))
      && summary.matchedRuleIds <= full.matchedRuleIds && !full.requiresText
  {
    hide WellFormed, ConditionsState, ApplyAction;
    if ordered != [] {
      var rule, full := ordered[0], WithText(input, text);
      ConditionsAreSound(t, rule, input, text);
      var more := output.(matchedRuleIds := output.matchedRuleIds + [rule.id]);
      ActionsKeep(t, more, rule.actions);
      var applied := ApplyActions(t, more, rule.actions);
      if rule.enabled && WellFormed(t, rule) && ConditionsState(t, rule, input) == NeedsText {
        assert ordered[0..] == ordered;
        assert Resumes(t, ordered, 0, full, output, EvaluateFrom(t, ordered, full, output));
        MatchesAccumulate(t, ordered, full, output);
        NeverAsks(t, ordered, full, output);
      } else if !rule.enabled || (WellFormed(t, rule) && ConditionsState(t, rule, input) == DoesNotMatch) {
        DeferralIsSound(t, ordered[1..], input, text, output);
        ResumesLater(t, ordered, full, EvaluateFrom(t, ordered[1..], input, output), EvaluateFrom(t, ordered[1..], full, output));
      } else if WellFormed(t, rule) && !rule.stopProcessing {
        DeferralIsSound(t, ordered[1..], input, text, applied);
        ResumesLater(t, ordered, full, EvaluateFrom(t, ordered[1..], input, applied), EvaluateFrom(t, ordered[1..], full, applied));
      }
    }
  }

  predicate Resumes(t: Text, ordered: seq<Rule>, k: nat, input: Input, soFar: Evaluation, result: Evaluation)
    requires k <= |ordered|
  {
    EvaluateFrom(t, ordered[k..], input, soFar) == result
  }

  lemma ResumesLater(t: Text, ordered: seq<Rule>, input: Input, summary: Evaluation, result: Evaluation)
    requires ordered != []
    requires summary.requiresText ==>
      exists k :: 0 <= k < |ordered[1..]| && Resumes(t, ordered[1..], k, input, summary.(requiresText := false), result)
    ensures summary.requiresText ==>
      exists k :: 0 <= k < |ordered| && Resumes(t, ordered, k, input, summary.(requiresText := false), result)
  {
    hide EvaluateFrom;
    if summary.requiresText {
      var k :| 0 <= k < |ordered[1..]| && Resumes(t, ordered[1..], k, input, summary.(requiresText := false), result);
      assert ordered[1..][k..] == ordered[k + 1..];
      assert Resumes(t, ordered, k + 1, input, summary.(requiresText := false), result);
    }
  }

  lemma {:induction false} NeverAsks(t: Text, ordered: seq<Rule>, input: Input, output: Evaluation)
    requires input.text.Some? && !output.requiresText
    ensures !EvaluateFrom(t, ordered, input, output).requiresText
  {
    hide WellFormed, ConditionsState, ApplyAction;
    if ordered != [] {
      var rule := ordered[0];
      ConditionsAreSound(t, rule, input.(text := None), input.text.value);
      assert WithText(input.(text := None), input.text.value) == input;
      var more := output.(matchedRuleIds := output.matchedRuleIds + [rule.id]);
      ActionsKeep(t, more, rule.actions);
      NeverAsks(t, ordered[1..], input, output);
      NeverAsks(t, ordered[1..], input, ApplyActions(t, more, rule.actions));
    }
  }

  predicate Ended(output: Evaluation) {
    output.stopped || output.requiresText || output.error != NoError
  }

  // An evaluation that stopped, asked for the text or failed is not changed by later rules.
  lemma {:induction false} LaterRulesAreIgnored(t: Text, ordered: seq<Rule>, extra: seq<Rule>, input: Input,
                                                output: Evaluation)
    requires !Ended(output) && Ended(EvaluateFrom(t, ordered, input, output))
    ensures EvaluateFrom(t, ordered + extra, input, output) == EvaluateFrom(t, ordered, input, output)
  {
    hide WellFormed, ConditionsState, ApplyAction;
    assert (ordered + extra)[1..] == ordered[1..] + extra && (ordered + extra)[0] == ordered[0];
    var rule := ordered[0];
    var more := output.(matchedRuleIds := output.matchedRuleIds + [rule.id]);
    ActionsKeep(t, more, rule.actions);
    var applied := ApplyActions(t, more, rule.actions);
    if Ended(EvaluateFrom(t, ordered[1..], input, output)) {
      LaterRulesAreIgnored(t, ordered[1..], extra, input, output);
    }
    if Ended(EvaluateFrom(t, ordered[1..], input, applied)) {
      LaterRulesAreIgnored(t, ordered[1..], extra, input, applied);
    }
  }

  // The result does not depend on the order in which rules of distinct ids are stored, nor on
  // how they are sorted.
  lemma OrderOfStorageIsIrrelevant(t: Text, rules: seq<Rule>, permuted: seq<Rule>, a: seq<Rule>, b: seq<Rule>, input: Input)
    requires DistinctIds(rules) && multiset(permuted) == multiset(rules) && IsSorting(rules, a) && IsSorting(permuted, b)
    ensures a == b && EvaluateFrom(t, a, input, NOTHING) == EvaluateFrom(t, b, input, NOTHING)
  {
    hide RuleLess, EvaluateFrom;
    DistinctByCount(rules, a);
    DistinctByCount(rules, b);
    SortingIsUnique(a, b);
  }

  // What the accepted rules of a snapshot guarantee for this: their ids are distinct.
  method ValidateRules(t: Text, rules: seq<Rule>) returns (error: ErrorCode)
    ensures error == NoError <==> (forall k :: 0 <= k < |rules| ==> WellFormed(t, rules[k])) && DistinctIds(rules)
    ensures error == AlreadyExists ==> !DistinctIds(rules)
  {
    hide WellFormed;
    var ruleIds: set<string> := {};
    var k := 0;
    while k < |rules|
      invariant 0 <= k <= |rules|
      invariant forall j :: 0 <= j < k ==> WellFormed(t, rules[j])
      invariant DistinctIds(rules[..k])
      invariant forall id :: id in ruleIds <==> exists j :: 0 <= j < k && rules[j].id == id
    {
      var validation := Validate(t, rules[k]);
      if validation != NoError {
        return validation;
      }
      if rules[k].id in ruleIds {
        return AlreadyExists;
      }
      ruleIds := ruleIds + {rules[k].id};
      k := k + 1;
    }
    assert rules[..k] == rules;
    error := NoError;
  }
}
