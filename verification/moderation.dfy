/** The fail-open moderation gate of apps/web/src/lib/coach/moderation.ts
    over the classifier's outcome, which is an input. */
module Moderation {
  import opened Wrappers
  import opened Text
  import opened Json

  /** One classification: the flag and the category map, member by member
      in the order the classifier sent them. */
  datatype Classification = Classification(flagged: bool, categories: Option<seq<(string, Json)>>)

  /** The attempt failed (the client could not be obtained or the
      classifier threw), or the classifier answered with an optional list
      of results. */
  datatype ClassifierOutcome = ClassifierFailed | Classified(results: Option<seq<Classification>>)

  /** `ModerationResult`. */
  datatype ModerationResult = ModerationResult(allowed: bool, flaggedCategories: Option<seq<string>>)

  /** The verdict, and whether classification was attempted at all; an
      attempt may fail before it reaches the classifier. */
  datatype Gate = Gate(result: ModerationResult, classificationAttempted: bool)

  /** `Object.entries(c).filter(([, v]) => Boolean(v)).map(([k]) => k)`. */
  function TruthyKeys(entries: seq<(string, Json)>): (r: seq<string>)
    ensures |r| <= |entries|
    ensures forall k :: k in r ==> exists i :: 0 <= i < |entries| && entries[i].0 == k && Truthy(Some(entries[i].1))
  {
    if entries == [] then [] else TruthyKey(entries[0]) + TruthyKeys(entries[1..])
  }

  /** The key of one entry if its value is truthy. */
  function TruthyKey(entry: (string, Json)): seq<string> {
    if Truthy(Some(entry.1)) then [entry.0] else []
  }

  /** Filtering the entries of two halves is filtering each half: the
      categories keep the classifier's order. */
  lemma {:induction false} TruthyKeysAppend(a: seq<(string, Json)>, b: seq<(string, Json)>)
    ensures TruthyKeys(a + b) == TruthyKeys(a) + TruthyKeys(b)
  {
    if a == [] {
      assert a + b == b;
    } else {
      calc {
        TruthyKeys(a + b);
        { assert (a + b)[0] == a[0] && (a + b)[1..] == a[1..] + b; }
        TruthyKey(a[0]) + TruthyKeys(a[1..] + b);
        { TruthyKeysAppend(a[1..], b); }
        TruthyKey(a[0]) + (TruthyKeys(a[1..]) + TruthyKeys(b));
        TruthyKeys(a) + TruthyKeys(b);
      }
    }
  }

  /** Every key whose value is truthy is reported. */
  lemma {:induction false} TruthyKeysComplete(entries: seq<(string, Json)>, i: int)
    requires 0 <= i < |entries| && Truthy(Some(entries[i].1))
    ensures entries[i].0 in TruthyKeys(entries)
  {
    if i > 0 {
      assert entries[1..][i - 1] == entries[i];
      TruthyKeysComplete(entries[1..], i - 1);
    }
  }

  /** `ensureCoachContentIsSafe`. */
  function EnsureSafe(input: string, outcome: ClassifierOutcome): (g: Gate)
    ensures g.classificationAttempted <==> Trim(input) != ""
    ensures g.result.flaggedCategories.Some? <==> !g.result.allowed
    ensures !g.result.allowed ==>
      && g.classificationAttempted
      && outcome.Classified?
      && outcome.results.Some? && |outcome.results.value| > 0
      && outcome.results.value[0].flagged
      && g.result.flaggedCategories.value == TruthyKeys(outcome.results.value[0].categories.GetOr([]))
    ensures outcome.ClassifierFailed? ==> g.result.allowed
  {
    if Trim(input) == "" then Gate(ModerationResult(true, None), false)
    else match outcome
      case ClassifierFailed => Gate(ModerationResult(true, None), true)
      case Classified(results) =>
        if results.Some? && |results.value| > 0 && results.value[0].flagged then
          Gate(ModerationResult(false, Some(TruthyKeys(results.value[0].categories.GetOr([])))), true)
        else Gate(ModerationResult(true, None), true)
  }

  /** The gate refuses exactly when the input is not blank and the first
      classification is flagged; everything else, failures included, passes. */
  lemma RefusedIffFlagged(input: string, outcome: ClassifierOutcome)
    ensures !EnsureSafe(input, outcome).result.allowed <==>
      && !Blank(input)
      && outcome.Classified?
      && outcome.results.Some? && |outcome.results.value| > 0
      && outcome.results.value[0].flagged
  {
    TrimEmptyIffBlank(input);
  }
}
