// What an evaluation of routing rules produces: which rules match, and what their actions decide.
module RuleOutcomes {
  import opened Basics
  import opened NoteRules

  // ---- Which rules are valid ----

  // What can be wrong with a rule.
  datatype Defect =
    | WithoutId | UnknownCombination | TooManyConditions | WithoutActions | TooManyActions | WithoutRevision | WithoutTime
    | ConditionDefect(k: nat) | ActionDefect(k: nat) | SameKindTwice(j: nat, k: nat)

  // An unknown kind, no pattern or one of more than 512 characters, a tag that is only a mark, or a
  // title pattern that is none.
  predicate HasConditionDefect(t: Text, c: Condition) {
    var value := t.trimmed(c.value);
    || c.kind == UnknownCondition || |value| == 0 || |value| > 512
    || (c.kind == HasTag && NormalizedTag(t, value) == "")
    || (c.kind == TitleMatches && !t.patternValid(value))
  }

  predicate Has(t: Text, rule: Rule, d: Defect) {
    match d
    case WithoutId => rule.id == "00000000-0000-0000-0000-000000000000"
    case UnknownCombination => rule.combiner != All && rule.combiner != Any
    case TooManyConditions => |rule.conditions| > 32
    case WithoutActions => rule.actions == []
    case TooManyActions => |rule.actions| > 8
    case WithoutRevision => rule.revision == 0
    case WithoutTime => !rule.modifiedAtValid
    case ConditionDefect(k) => k < |rule.conditions| && HasConditionDefect(t, rule.conditions[k])
    case ActionDefect(k) =>
      k < |rule.actions|
      && (rule.actions[k].kind == UnknownAction
          || (rule.actions[k].kind == SelectStorage && |t.trimmed(rule.actions[k].storageId)| == 0))
    case SameKindTwice(j, k) => j < k < |rule.actions| && rule.actions[j].kind == rule.actions[k].kind
  }

  // A rule is valid if and only if it has no defect.
  lemma ValidIffNoDefect(t: Text, rule: Rule)
    ensures WellFormed(t, rule) <==> forall d :: !Has(t, rule, d)
  {
    hide NormalizedTag;
    if forall d :: !Has(t, rule, d) {
      assert !Has(t, rule, WithoutId) && !Has(t, rule, UnknownCombination) && !Has(t, rule, TooManyConditions);
      assert !Has(t, rule, WithoutActions) && !Has(t, rule, TooManyActions) && !Has(t, rule, WithoutRevision);
      assert !Has(t, rule, WithoutTime);
      forall k | 0 <= k < |rule.conditions| ensures ConditionWellFormed(t, rule.conditions[k]) {
        assert !Has(t, rule, ConditionDefect(k));
      }
      forall k | 0 <= k < |rule.actions| ensures ActionWellFormed(t, rule.actions[k]) {
        assert !Has(t, rule, ActionDefect(k));
      }
      forall j, k | 0 <= j < k < |rule.actions| ensures rule.actions[j].kind != rule.actions[k].kind {
        assert !Has(t, rule, SameKindTwice(j, k));
      }
    }
  }

  // ---- When the conditions of a rule hold ----

  // The condition holds for a note with this text.
  predicate Holds(t: Text, c: Condition, input: Input, text: string) {
    var value := t.trimmed(c.value);
    c.negated != match c.kind
                 case TitleMatches => t.patternValid(value) && t.titleMatches(value, input.title)
                 case HasTag => exists tag :: tag in input.tags && t.equalIgnoringCase(tag, NormalizedTag(t, value))
                 case TextContains => t.containsIgnoringCase(text, value)
                 case StorageIs => t.equalIgnoringCase(input.storageId, value)
                 case UnknownCondition => false
  }

  lemma ConditionHolds(t: Text, c: Condition, input: Input, text: string)
    ensures EvaluateCondition(t, c, WithText(input, text)) == if Holds(t, c, input, text) then Matches else DoesNotMatch
    ensures input.text.None? ==>
      EvaluateCondition(t, c, input) == if c.kind == TextContains then NeedsText
                                        else if Holds(t, c, input, text) then Matches else DoesNotMatch
  {
    var tag := NormalizedTag(t, t.trimmed(c.value));
    if exists name :: name in input.tags && t.equalIgnoringCase(name, tag) {
      var name :| name in input.tags && t.equalIgnoringCase(name, tag);
      var k :| 0 <= k < |input.tags| && input.tags[k] == name;
      assert t.equalIgnoringCase(input.tags[k], tag);
    }
    if k :| 0 <= k < |input.tags| && t.equalIgnoringCase(input.tags[k], tag) {
      assert input.tags[k] in input.tags;
    }
  }

  // A tag condition may be written with or without the mark.
  lemma TagMarkIsOptional(t: Text, tag: string)
    requires tag != "" && tag[0] != '#' && t.trimmed(tag) == tag && t.trimmed("#" + tag) == "#" + tag
    ensures NormalizedTag(t, "#" + tag) == tag && NormalizedTag(t, tag) == tag
  {
    assert ("#" + tag)[1..] == tag;
  }

  // All conditions of a rule hold, or one of them, as the rule says; a rule without conditions holds.
  predicate RuleHolds(t: Text, rule: Rule, input: Input, text: string) {
    || rule.conditions == []
    || (rule.combiner == All && forall c :: c in rule.conditions ==> Holds(t, c, input, text))
    || (rule.combiner != All && exists c :: c in rule.conditions && Holds(t, c, input, text))
  }

  // With the text a rule matches if and only if it holds. Without it the rule is left undecided if and
  // only if it asks about the text and its other conditions leave it open: all of them hold where all
  // must, none where one must.
  lemma RuleMatchesIff(t: Text, rule: Rule, input: Input, text: string)
    ensures ConditionsState(t, rule, WithText(input, text)) == if RuleHolds(t, rule, input, text) then Matches else DoesNotMatch
    ensures input.text.None? ==>
      (ConditionsState(t, rule, input) == NeedsText
       <==> (exists c :: c in rule.conditions && c.kind == TextContains)
            && forall c :: c in rule.conditions && c.kind != TextContains ==> (Holds(t, c, input, text) <==> rule.combiner == All))
  {
    hide EvaluateCondition, Holds;
    forall c ensures EvaluateCondition(t, c, WithText(input, text)) == if Holds(t, c, input, text) then Matches else DoesNotMatch {
      ConditionHolds(t, c, input, text);
    }
    if input.text.None? {
      forall c
        ensures EvaluateCondition(t, c, input) == if c.kind == TextContains then NeedsText
                                                  else if Holds(t, c, input, text) then Matches else DoesNotMatch
      {
        ConditionHolds(t, c, input, text);
      }
    }
    SomeIsMember(t, rule.conditions, input);
    SomeIsMember(t, rule.conditions, WithText(input, text));
  }

  lemma SomeIsMember(t: Text, conditions: seq<Condition>, input: Input)
    ensures forall state :: SomeIs(t, conditions, input, state) <==> exists c :: c in conditions && EvaluateCondition(t, c, input) == state
  {
    hide EvaluateCondition;
    forall state ensures SomeIs(t, conditions, input, state) <==> exists c :: c in conditions && EvaluateCondition(t, c, input) == state {
      if c :| c in conditions && EvaluateCondition(t, c, input) == state {
        var k :| 0 <= k < |conditions| && conditions[k] == c;
        assert EvaluateCondition(t, conditions[k], input) == state;
      }
      if k :| 0 <= k < |conditions| && EvaluateCondition(t, conditions[k], input) == state {
        assert conditions[k] in conditions;
      }
    }
  }

  // Rules are evaluated by their sort order, those of one order by their ids.
  lemma EvaluatedInOrder(rules: seq<Rule>, ordered: seq<Rule>, i: nat, j: nat)
    requires IsSorting(rules, ordered) && i < j < |ordered|
    ensures ordered[i].sortOrder <= ordered[j].sortOrder
    ensures ordered[i].sortOrder == ordered[j].sortOrder && ordered[i].id != ordered[j].id ==> StringLess(ordered[i].id, ordered[j].id)
  {
    hide StringLess;
    StringOrder(ordered[i].id, ordered[j].id);
    assert !RuleLess(ordered[j], ordered[i]);
  }

  // ---- Which rules match ----

  // At this rule the evaluation ends: it is not valid, asks for the text, or matches and says so.
  predicate EndsHere(t: Text, rule: Rule, input: Input) {
    && rule.enabled
    && (!WellFormed(t, rule) || ConditionsState(t, rule, input) == NeedsText
        || (ConditionsState(t, rule, input) == Matches && rule.stopProcessing))
  }

  predicate Reached(t: Text, ordered: seq<Rule>, input: Input, i: int) {
    0 <= i < |ordered| && forall j :: 0 <= j < i ==> !EndsHere(t, ordered[j], input)
  }

  // The rule at i is enabled and valid, its conditions hold, and no earlier rule ends the evaluation.
  predicate Applies(t: Text, ordered: seq<Rule>, input: Input, i: int) {
    && Reached(t, ordered, input, i) && ordered[i].enabled && WellFormed(t, ordered[i])
    && ConditionsState(t, ordered[i], input) == Matches
  }

  predicate HasAction(rule: Rule, kind: ActionKind) {
    exists k :: 0 <= k < |rule.actions| && rule.actions[k].kind == kind
  }

  ghost predicate SomeRuleHas(t: Text, ordered: seq<Rule>, input: Input, kind: ActionKind) {
    exists i :: Applies(t, ordered, input, i) && HasAction(ordered[i], kind)
  }

  // Action k of the rule at i is of this kind, and no later rule that matches has one.
  predicate LastOfKind(t: Text, ordered: seq<Rule>, input: Input, i: int, k: int, kind: ActionKind) {
    && Applies(t, ordered, input, i) && 0 <= k < |ordered[i].actions| && ordered[i].actions[k].kind == kind
    && forall j :: i < j < |ordered| && Applies(t, ordered, input, j) ==> !HasAction(ordered[j], kind)
  }

  // The ids of the matching ones among the first n rules, in their order.
  function MatchingIds(t: Text, ordered: seq<Rule>, input: Input, n: nat): seq<string>
    requires n <= |ordered|
  {
    if n == 0 then []
    else MatchingIds(t, ordered, input, n - 1) + (if Applies(t, ordered, input, n - 1) then [ordered[n - 1].id] else [])
  }

  // After the first rule the others are as they are without it, unless it ends the evaluation.
  lemma RestApplies(t: Text, ordered: seq<Rule>, input: Input, i: int)
    requires ordered != [] && i > 0
    ensures Reached(t, ordered, input, i) <==> !EndsHere(t, ordered[0], input) && Reached(t, ordered[1..], input, i - 1)
    ensures Applies(t, ordered, input, i) <==> !EndsHere(t, ordered[0], input) && Applies(t, ordered[1..], input, i - 1)
  {
    hide EndsHere, WellFormed, ConditionsState;
    if Reached(t, ordered, input, i) {
      assert forall j :: 0 <= j < i - 1 ==> ordered[1..][j] == ordered[j + 1];
      assert !EndsHere(t, ordered[0], input);
    } else if 0 <= i < |ordered| {
      var j :| 0 <= j < i && EndsHere(t, ordered[j], input);
      assert j > 0 ==> ordered[1..][j - 1] == ordered[j];
    }
  }

  // ---- What the actions decide ----

  // An action's kind has one place in the result, which it fills.
  function Place(e: Evaluation, kind: ActionKind): Option<string> {
    match kind
    case AssignFolder => e.folderId
    case SelectStorage => Some(e.storageId)
    case RequireEncryption => if e.requiresEncryption then Some("") else None
    case UnknownAction => None
  }

  function Filling(t: Text, a: Action): string {
    match a.kind
    case AssignFolder => a.folderId
    case SelectStorage => t.trimmed(a.storageId)
    case RequireEncryption => ""
    case UnknownAction => ""
  }

  lemma OneActionFills(t: Text, output: Evaluation, a: Action, kind: ActionKind)
    requires a.kind != UnknownAction
    ensures Place(ApplyAction(t, output, a), kind) == if a.kind == kind then Some(Filling(t, a)) else Place(output, kind)
  {
  }

  // The actions of one rule fill the places of their kinds and no others.
  lemma {:induction false} ActionsFill(t: Text, output: Evaluation, actions: seq<Action>, kind: ActionKind, k: int)
    requires forall j :: 0 <= j < |actions| ==> actions[j].kind != UnknownAction
    requires forall i, j :: 0 <= i < j < |actions| ==> actions[i].kind != actions[j].kind
    requires if k < 0 then forall j :: 0 <= j < |actions| ==> actions[j].kind != kind
             else k < |actions| && actions[k].kind == kind
    ensures Place(ApplyActions(t, output, actions), kind) == if k < 0 then Place(output, kind) else Some(Filling(t, actions[k]))
    decreases |actions|
  {
    hide Place, Filling, ApplyAction;
    if actions != [] {
      OneActionFills(t, output, actions[0], kind);
      ActionsFill(t, ApplyAction(t, output, actions[0]), actions[1..], kind, k - 1);
    }
  }

  // What the evaluation from `output` on puts into the place of a kind.
  ghost predicate Fills(t: Text, ordered: seq<Rule>, input: Input, output: Evaluation, result: Evaluation, kind: ActionKind) {
    && (forall i, k :: LastOfKind(t, ordered, input, i, k, kind) ==>
          Place(result, kind) == Some(Filling(t, ordered[i].actions[k])))
    && (!SomeRuleHas(t, ordered, input, kind) ==> Place(result, kind) == Place(output, kind))
  }

  // What the first rule has put there when the evaluation gets to `middle`.
  ghost predicate FirstFills(t: Text, ordered: seq<Rule>, input: Input, output: Evaluation, middle: Evaluation,
                             kind: ActionKind)
    requires ordered != []
  {
    && (forall k :: Applies(t, ordered, input, 0) && 0 <= k < |ordered[0].actions| && ordered[0].actions[k].kind == kind ==>
          Place(middle, kind) == Some(Filling(t, ordered[0].actions[k])))
    && (!(Applies(t, ordered, input, 0) && HasAction(ordered[0], kind)) ==> Place(middle, kind) == Place(output, kind))
  }

  lemma FirstRuleFills(t: Text, ordered: seq<Rule>, input: Input, output: Evaluation, kind: ActionKind)
    requires ordered != [] && kind != UnknownAction
    ensures FirstFills(t, ordered, input, output, output, kind) || Applies(t, ordered, input, 0)
    ensures Applies(t, ordered, input, 0) ==> FirstFills(t, ordered, input, output, ApplyActions(t, output, ordered[0].actions), kind)
  {
    hide Place, Filling, ApplyAction, ApplyActions, Applies;
    if Applies(t, ordered, input, 0) {
      var actions := ordered[0].actions;
      ActionsAreDistinct(t, ordered, input);
      forall k | 0 <= k < |actions| && actions[k].kind == kind
        ensures Place(ApplyActions(t, output, actions), kind) == Some(Filling(t, actions[k]))
      {
        ActionsFill(t, output, actions, kind, k);
      }
      if !HasAction(ordered[0], kind) {
        ActionsFill(t, output, actions, kind, -1);
      }
    }
  }

  lemma ActionsAreDistinct(t: Text, ordered: seq<Rule>, input: Input)
    requires Applies(t, ordered, input, 0)
    ensures forall j :: 0 <= j < |ordered[0].actions| ==> ordered[0].actions[j].kind != UnknownAction
    ensures forall i, j :: 0 <= i < j < |ordered[0].actions| ==> ordered[0].actions[i].kind != ordered[0].actions[j].kind
  {
    hide ConditionsState, ConditionWellFormed;
  }

  // If the first rule ends the evaluation, only what it did counts.
  lemma OnlyFirst(t: Text, ordered: seq<Rule>, input: Input, output: Evaluation, result: Evaluation, kind: ActionKind)
    requires ordered != [] && EndsHere(t, ordered[0], input) && FirstFills(t, ordered, input, output, result, kind)
    ensures Fills(t, ordered, input, output, result, kind)
  {
    hide EndsHere, Applies, Place, Filling, HasAction;
    forall i | i > 0 ensures !Applies(t, ordered, input, i) {
      RestApplies(t, ordered, input, i);
    }
    assert forall i :: Applies(t, ordered, input, i) ==> i == 0 by {
      AppliesInRange(t, ordered, input);
    }
  }

  lemma AppliesInRange(t: Text, ordered: seq<Rule>, input: Input)
    ensures forall i :: Applies(t, ordered, input, i) ==> 0 <= i < |ordered|
  {
  }

  // Otherwise the others go on from there.
  lemma FirstAndRest(t: Text, ordered: seq<Rule>, input: Input, output: Evaluation, middle: Evaluation, result: Evaluation,
                     kind: ActionKind)
    requires ordered != [] && !EndsHere(t, ordered[0], input) && FirstFills(t, ordered, input, output, middle, kind)
    requires Fills(t, ordered[1..], input, middle, result, kind)
    ensures Fills(t, ordered, input, output, result, kind)
  {
    hide EndsHere, Applies, Place, Filling, HasAction;
    var rest := ordered[1..];
    AppliesInRange(t, ordered, input);
    AppliesInRange(t, rest, input);
    forall i | i > 0 ensures Applies(t, ordered, input, i) <==> Applies(t, rest, input, i - 1) {
      RestApplies(t, ordered, input, i);
    }
    forall j | Applies(t, rest, input, j) ensures Applies(t, ordered, input, j + 1) && ordered[j + 1] == rest[j] {
      RestApplies(t, ordered, input, j + 1);
    }
    forall i, k | LastOfKind(t, ordered, input, i, k, kind)
      ensures Place(result, kind) == Some(Filling(t, ordered[i].actions[k]))
    {
      if i > 0 {
        assert LastOfKind(t, rest, input, i - 1, k, kind);
      } else {
        assert !SomeRuleHas(t, rest, input, kind);
      }
    }
    if SomeRuleHas(t, rest, input, kind) {
      var j :| Applies(t, rest, input, j) && HasAction(rest[j], kind);
      assert Applies(t, ordered, input, j + 1) && HasAction(ordered[j + 1], kind);
    }
    if Applies(t, ordered, input, 0) && HasAction(ordered[0], kind) {
      assert SomeRuleHas(t, ordered, input, kind);
    }
  }

  lemma {:induction false} EvaluationFills(t: Text, ordered: seq<Rule>, input: Input, output: Evaluation, kind: ActionKind)
    requires kind != UnknownAction
    ensures Fills(t, ordered, input, output, EvaluateFrom(t, ordered, input, output), kind)
  {
    hide WellFormed, ConditionsState, ApplyActions, Fills, Filling, HasAction, FirstFills;
    if ordered == [] {
      NoRuleFills(t, input, output, kind);
    } else {
      var rule, rest, result := ordered[0], ordered[1..], EvaluateFrom(t, ordered, input, output);
      var more := output.(matchedRuleIds := output.matchedRuleIds + [rule.id]);
      var applied := ApplyActions(t, more, rule.actions);
      EvaluationFills(t, rest, input, output, kind);
      EvaluationFills(t, rest, input, applied, kind);
      FirstRuleFills(t, ordered, input, output, kind);
      FirstRuleFills(t, ordered, input, more, kind);
      var middle := if Applies(t, ordered, input, 0) then applied else output;
      SamePlaces(t, ordered, input, output, more, middle, result, kind);
      if EndsHere(t, rule, input) {
        OnlyFirst(t, ordered, input, output, result, kind);
      } else {
        FirstAndRest(t, ordered, input, output, middle, result, kind);
      }
    }
  }

  lemma NoRuleFills(t: Text, input: Input, output: Evaluation, kind: ActionKind)
    ensures Fills(t, [], input, output, output, kind)
  {
  }

  // The bookkeeping of an evaluation fills no place.
  lemma SamePlaces(t: Text, ordered: seq<Rule>, input: Input, output: Evaluation, more: Evaluation, middle: Evaluation,
                   result: Evaluation, kind: ActionKind)
    requires ordered != [] && more == output.(matchedRuleIds := more.matchedRuleIds)
    requires FirstFills(t, ordered, input, more, middle, kind) || FirstFills(t, ordered, input, output, middle, kind)
    ensures FirstFills(t, ordered, input, output, middle, kind)
    ensures result == middle.(error := result.error, requiresText := result.requiresText, stopped := result.stopped) ==>
      FirstFills(t, ordered, input, output, result, kind)
  {
    hide Applies, Filling, HasAction;
  }

  // ---- What an evaluation records ----

  lemma {:induction false} IdsFromFront(t: Text, ordered: seq<Rule>, input: Input, n: nat)
    requires 1 <= n <= |ordered|
    ensures MatchingIds(t, ordered, input, n)
            == (if Applies(t, ordered, input, 0) then [ordered[0].id] else [])
               + (if EndsHere(t, ordered[0], input) then [] else MatchingIds(t, ordered[1..], input, n - 1))
  {
    hide EndsHere, Applies;
    if n > 1 {
      IdsFromFront(t, ordered, input, n - 1);
      RestApplies(t, ordered, input, n - 1);
    } else {
      assert MatchingIds(t, ordered, input, 0) == [];
    }
  }

  // Why an evaluation ends before the last rule.
  datatype Reason = Stops | Asks | IsInvalid

  predicate EndsFor(t: Text, ordered: seq<Rule>, input: Input, i: int, reason: Reason) {
    && Reached(t, ordered, input, i) && ordered[i].enabled
    && match reason
       case Stops => WellFormed(t, ordered[i]) && ConditionsState(t, ordered[i], input) == Matches && ordered[i].stopProcessing
       case Asks => WellFormed(t, ordered[i]) && ConditionsState(t, ordered[i], input) == NeedsText
       case IsInvalid => !WellFormed(t, ordered[i])
  }

  ghost predicate SomeRuleEnds(t: Text, ordered: seq<Rule>, input: Input, reason: Reason) {
    exists i :: EndsFor(t, ordered, input, i, reason)
  }

  lemma EndsAtFirstOrLater(t: Text, ordered: seq<Rule>, input: Input, reason: Reason)
    requires ordered != []
    ensures EndsFor(t, ordered, input, 0, reason) ==> EndsHere(t, ordered[0], input)
    ensures SomeRuleEnds(t, ordered, input, reason)
            <==> EndsFor(t, ordered, input, 0, reason)
                 || (!EndsHere(t, ordered[0], input) && SomeRuleEnds(t, ordered[1..], input, reason))
  {
    hide WellFormed, ConditionsState;
    var rest := ordered[1..];
    forall i | i > 0
      ensures EndsFor(t, ordered, input, i, reason)
              <==> !EndsHere(t, ordered[0], input) && EndsFor(t, rest, input, i - 1, reason)
    {
      RestApplies(t, ordered, input, i);
    }
    if SomeRuleEnds(t, ordered, input, reason) {
      var i :| EndsFor(t, ordered, input, i, reason);
      assert i > 0 ==> EndsFor(t, rest, input, i - 1, reason);
    }
    if !EndsHere(t, ordered[0], input) && SomeRuleEnds(t, rest, input, reason) {
      var j :| EndsFor(t, rest, input, j, reason);
      assert EndsFor(t, ordered, input, j + 1, reason) by {
        assert j + 1 > 0;
        RestApplies(t, ordered, input, j + 1);
      }
    }
  }

  lemma {:induction false} EvaluationRecords(t: Text, ordered: seq<Rule>, input: Input, output: Evaluation)
    requires !Ended(output)
    ensures var r := EvaluateFrom(t, ordered, input, output);
      && r.matchedRuleIds == output.matchedRuleIds + MatchingIds(t, ordered, input, |ordered|)
      && (r.stopped <==> SomeRuleEnds(t, ordered, input, Stops))
      && (r.requiresText <==> SomeRuleEnds(t, ordered, input, Asks))
      && r.error == if SomeRuleEnds(t, ordered, input, IsInvalid) then InvalidArgument else NoError
  {
    hide WellFormed, ConditionsState, ApplyActions, SomeRuleEnds;
    if ordered == [] {
      NoRuleEnds(t, input);
    } else {
      var rule, rest := ordered[0], ordered[1..];
      var more := output.(matchedRuleIds := output.matchedRuleIds + [rule.id]);
      ActionsKeep(t, more, rule.actions);
      IdsFromFront(t, ordered, input, |ordered|);
      EndsAtFirstOrLater(t, ordered, input, Stops);
      EndsAtFirstOrLater(t, ordered, input, Asks);
      EndsAtFirstOrLater(t, ordered, input, IsInvalid);
      EvaluationRecords(t, rest, input, output);
      EvaluationRecords(t, rest, input, ApplyActions(t, more, rule.actions));
    }
  }

  lemma NoRuleEnds(t: Text, input: Input)
    ensures forall reason :: !SomeRuleEnds(t, [], input, reason)
  {
  }

  // ---- The whole evaluation ----

  // The folder and the storage are those of the last matching rule that names one, if there is one;
  // encryption is required if and only if a matching rule asks for it. The ids are those of the
  // matching rules in their order, and each flag says why the evaluation ended.
  lemma EvaluationMeans(t: Text, ordered: seq<Rule>, input: Input)
    ensures var r := EvaluateFrom(t, ordered, input, NOTHING);
      && (forall i, k :: LastOfKind(t, ordered, input, i, k, AssignFolder) ==>
            r.folderId == Some(ordered[i].actions[k].folderId))
      && (!SomeRuleHas(t, ordered, input, AssignFolder) ==> r.folderId == None)
      && (forall i, k :: LastOfKind(t, ordered, input, i, k, SelectStorage) ==>
            r.storageId == t.trimmed(ordered[i].actions[k].storageId))
      && (!SomeRuleHas(t, ordered, input, SelectStorage) ==> r.storageId == "")
      && (r.requiresEncryption <==> SomeRuleHas(t, ordered, input, RequireEncryption))
    ensures var r := EvaluateFrom(t, ordered, input, NOTHING);
      && r.matchedRuleIds == MatchingIds(t, ordered, input, |ordered|)
      && (r.stopped <==> SomeRuleEnds(t, ordered, input, Stops))
      && (r.requiresText <==> SomeRuleEnds(t, ordered, input, Asks))
      && r.error == if SomeRuleEnds(t, ordered, input, IsInvalid) then InvalidArgument else NoError
  {
    hide EvaluateFrom, Applies, SomeRuleHas, SomeRuleEnds;
    AppliesInRange(t, ordered, input);
    EvaluationRecords(t, ordered, input, NOTHING);
    EvaluationFills(t, ordered, input, NOTHING, AssignFolder);
    EvaluationFills(t, ordered, input, NOTHING, SelectStorage);
    EvaluationFills(t, ordered, input, NOTHING, RequireEncryption);
    var r := EvaluateFrom(t, ordered, input, NOTHING);
    forall i, k | LastOfKind(t, ordered, input, i, k, AssignFolder)
      ensures r.folderId == Some(ordered[i].actions[k].folderId)
    {
      assert Place(r, AssignFolder) == Some(Filling(t, ordered[i].actions[k]));
    }
    forall i, k | LastOfKind(t, ordered, input, i, k, SelectStorage)
      ensures r.storageId == t.trimmed(ordered[i].actions[k].storageId)
    {
      assert Place(r, SelectStorage) == Some(Filling(t, ordered[i].actions[k]));
    }
    if SomeRuleHas(t, ordered, input, RequireEncryption) {
      LastExists(t, ordered, input, RequireEncryption);
      var i, k :| LastOfKind(t, ordered, input, i, k, RequireEncryption);
      assert Place(r, RequireEncryption) == Some(Filling(t, ordered[i].actions[k]));
    }
  }

  // If a matching rule has an action of a kind, one of them is the last.
  lemma LastExists(t: Text, ordered: seq<Rule>, input: Input, kind: ActionKind)
    requires SomeRuleHas(t, ordered, input, kind)
    ensures exists i, k :: LastOfKind(t, ordered, input, i, k, kind)
  {
    hide Applies;
    AppliesInRange(t, ordered, input);
    var i :| Applies(t, ordered, input, i) && HasAction(ordered[i], kind);
    LastFrom(t, ordered, input, kind, i);
  }

  lemma {:induction false} LastFrom(t: Text, ordered: seq<Rule>, input: Input, kind: ActionKind, i: int)
    requires Applies(t, ordered, input, i) && 0 <= i < |ordered| && HasAction(ordered[i], kind)
    ensures exists j, k :: LastOfKind(t, ordered, input, j, k, kind)
    decreases |ordered| - i
  {
    hide Applies;
    if j :| i < j < |ordered| && Applies(t, ordered, input, j) && HasAction(ordered[j], kind) {
      LastFrom(t, ordered, input, kind, j);
    } else {
      var k :| 0 <= k < |ordered[i].actions| && ordered[i].actions[k].kind == kind;
      assert LastOfKind(t, ordered, input, i, k, kind);
    }
  }
}
