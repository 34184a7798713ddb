/**
 The exact input budget of the tool model (src/execution/tool/prompt_budget.py)
 and the text its backend rebuilds (src/tool/adapter.py).
 */
module ToolBudget {
  import opened Numbers
  import opened Options
  import opened Text
  import opened Tokens

  datatype ToolFit = ToolFit(history: string, user: string, inputTokens: nat)

  const OVER_BUDGET := "tool input exceeds exact budget before backend call"
  const USER_TOO_LONG :=
    "tool input exceeds exact budget even after removing all history and trimming the user turn"

  function NormalizedTexts(texts: seq<string>): seq<string> {
    if texts == [] then []
    else (if Strip(texts[0]) == "" then [] else [Strip(texts[0])]) + NormalizedTexts(texts[1..])
  }

  function NonEmptyParts(a: string, b: string): seq<string> {
    (if a == "" then [] else [a]) + (if b == "" then [] else [b])
  }

  function JoinToolInput(lines: seq<string>, user: string): string {
    Join("\n", NonEmptyParts(Strip(Join("\n", lines)), Strip(user)))
  }

  /** What the adapter sends to the model. */
  function FormatInput(user: string, history: string): string {
    Join("\n", NonEmptyParts(Strip(history), Strip(user)))
  }

  function CountInput(lines: seq<string>, user: string, tokenizer: Option<Tokenizer>): nat {
    CountToolTokens(JoinToolInput(lines, user), tokenizer, true)
  }

  function TrimToolUser(user: string, n: int, tokenizer: Option<Tokenizer>): string {
    TrimByCount(Strip(user), n, tokenizer, KeepEnd)
  }

  function UserFits(lines: seq<string>, user: string, tokenizer: Option<Tokenizer>, budget: int): int -> bool {
    n => CountInput(lines, TrimToolUser(user, n, tokenizer), tokenizer) <= budget
  }

  /** How many of the oldest lines the loop drops. */
  function Dropped(lines: seq<string>, user: string, tokenizer: Option<Tokenizer>, budget: int): (k: nat)
    ensures k <= |lines|
  {
    if lines != [] && CountInput(lines, user, tokenizer) > budget
    then 1 + Dropped(lines[1..], user, tokenizer, budget)
    else 0
  }

  function FitUser(lines: seq<string>, user: string, tokenizer: Option<Tokenizer>, budget: int)
    : Result<(string, nat), string>
  {
    var candidate := Strip(user);
    if candidate == "" then Ok(("", CountInput(lines, "", tokenizer)))
    else
      var n := Largest(UserFits(lines, candidate, tokenizer, budget), CountToolTokens(candidate, tokenizer, false));
      if n <= 0 then Err(USER_TOO_LONG)
      else
        var trimmed := TrimToolUser(candidate, n, tokenizer);
        Ok((trimmed, CountInput(lines, trimmed, tokenizer)))
  }

  method FitCurrentUserToBudget(user: string, lines: seq<string>, tokenizer: Option<Tokenizer>, budget: int)
    returns (r: Result<(string, nat), string>)
    ensures r == FitUser(lines, user, tokenizer, budget)
  {
    var candidate := Strip(user);
    if candidate == "" {
      return Ok(("", CountInput(lines, "", tokenizer)));
    }
    var tokenCount := CountToolTokens(candidate, tokenizer, false);
    var n := FindLargest(UserFits(lines, candidate, tokenizer, budget), tokenCount);
    if n <= 0 {
      return Err(USER_TOO_LONG);
    }
    var trimmed := TrimToolUser(candidate, n, tokenizer);
    return Ok((trimmed, CountInput(lines, trimmed, tokenizer)));
  }

  function ToolFitResult(texts: seq<string>, user: string, tokenizer: Option<Tokenizer>, budget: int)
    : Result<ToolFit, string>
  {
    if budget <= 0 then Err(OVER_BUDGET)
    else
      var all, raw := NormalizedTexts(texts), Strip(user);
      var kept := all[Dropped(all, raw, tokenizer, budget)..];
      var fit := if CountInput(kept, raw, tokenizer) > budget then FitUser(kept, raw, tokenizer, budget)
                 else Ok((raw, CountInput(kept, raw, tokenizer)));
      match fit
      case Err(e) => Err(e)
      case Ok((text, count)) => if count > budget then Err(OVER_BUDGET) else Ok(ToolFit(Join("\n", kept), text, count))
  }

  method FitToolInputToBudget(texts: seq<string>, user: string, tokenizer: Option<Tokenizer>, budget: int)
    returns (r: Result<ToolFit, string>)
    ensures r == ToolFitResult(texts, user, tokenizer, budget)
  {
    if budget <= 0 {
      return Err(OVER_BUDGET);
    }
    var effectiveHistory := NormalizedTexts(texts);
    var raw := Strip(user);
    ghost var all, k := effectiveHistory, 0;
    var inputTokens := CountInput(effectiveHistory, raw, tokenizer);
    while effectiveHistory != [] && inputTokens > budget
      invariant 0 <= k <= |all| && effectiveHistory == all[k..]
      invariant inputTokens == CountInput(effectiveHistory, raw, tokenizer)
      invariant k + Dropped(effectiveHistory, raw, tokenizer, budget) == Dropped(all, raw, tokenizer, budget)
      decreases |effectiveHistory|
    {
      effectiveHistory := effectiveHistory[1..];
      k := k + 1;
      inputTokens := CountInput(effectiveHistory, raw, tokenizer);
    }
    var effectiveUser := raw;
    if inputTokens > budget {
      var fit := FitCurrentUserToBudget(raw, effectiveHistory, tokenizer, budget);
      if fit.Err? {
        return Err(fit.error);
      }
      effectiveUser, inputTokens := fit.value.0, fit.value.1;
    }
    if inputTokens > budget {
      return Err(OVER_BUDGET);
    }
    return Ok(ToolFit(Join("\n", effectiveHistory), effectiveUser, inputTokens));
  }

  // ------------------------------------------------------------------
  // For any tokenizer
  // ------------------------------------------------------------------

  lemma {:induction false} DroppedIsFewest(lines: seq<string>, user: string, tokenizer: Option<Tokenizer>, budget: int)
    ensures var k := Dropped(lines, user, tokenizer, budget);
      && (k < |lines| ==> CountInput(lines[k..], user, tokenizer) <= budget)
      && (forall j :: 0 <= j < k ==> CountInput(lines[j..], user, tokenizer) > budget)
  {
    if lines != [] && CountInput(lines, user, tokenizer) > budget {
      DroppedIsFewest(lines[1..], user, tokenizer, budget);
      forall j | 0 <= j < Dropped(lines, user, tokenizer, budget)
        ensures CountInput(lines[j..], user, tokenizer) > budget
      {
        if j == 0 {
          assert lines[0..] == lines;
        } else {
          assert lines[j..] == lines[1..][j - 1..];
        }
      }
    } else {
      assert lines[0..] == lines;
    }
  }

  lemma {:induction false} NormalizedAppend(a: seq<string>, b: seq<string>)
    ensures NormalizedTexts(a + b) == NormalizedTexts(a) + NormalizedTexts(b)
  {
    if a == [] {
      assert a + b == b;
    } else {
      assert (a + b)[1..] == a[1..] + b;
      NormalizedAppend(a[1..], b);
    }
  }

  lemma NormalizedOne(text: string)
    ensures NormalizedTexts([text]) == if Strip(text) == "" then [] else [Strip(text)]
  {
    assert NormalizedTexts([text][1..]) == [];
  }

  /** The lines are the texts that are not blank, stripped, in the order given. */
  lemma {:induction false} NormalizedIsNonBlank(texts: seq<string>)
    ensures NormalizedTexts(texts) == NonBlank(texts)
  {
    if texts == [] {
    } else {
      hide NormalizedTexts, Strip;
      var front, last := texts[..|texts| - 1], texts[|texts| - 1];
      NormalizedIsNonBlank(front);
      assert texts == front + [last];
      NormalizedAppend(front, [last]);
      NormalizedOne(last);
    }
  }

  /** The history that comes back is a suffix of the non-blank texts: the one
      that drops the fewest oldest ones so that the input fits, or nothing. */
  lemma ReturnedHistory(texts: seq<string>, user: string, tokenizer: Option<Tokenizer>, budget: int) returns (k: nat)
    ensures k <= |NonBlank(texts)|
    ensures var r := ToolFitResult(texts, user, tokenizer, budget);
      r.Ok? ==> r.value.history == Join("\n", NonBlank(texts)[k..])
    ensures k < |NonBlank(texts)| ==> CountInput(NonBlank(texts)[k..], Strip(user), tokenizer) <= budget
    ensures forall j: nat :: j < k ==> CountInput(NonBlank(texts)[j..], Strip(user), tokenizer) > budget
  {
    NormalizedIsNonBlank(texts);
    hide NormalizedTexts, NonBlank, CountInput, FitUser, Strip, Join;
    k := Dropped(NormalizedTexts(texts), Strip(user), tokenizer, budget);
    DroppedIsFewest(NormalizedTexts(texts), Strip(user), tokenizer, budget);
  }

  /** The text for the model is the stripped history, a newline, and the stripped
      user text, or the one of them that is not blank. */
  lemma SentTextIs(user: string, history: string)
    ensures var h, u := Strip(history), Strip(user);
      FormatInput(user, history) == if h == "" then u else if u == "" then h else h + "\n" + u
  {
    var h, u := Strip(history), Strip(user);
    hide Strip, Join;
    PartsAre(h, u);
    JoinedParts(h, u);
  }

  lemma PartsAre(a: string, b: string)
    ensures NonEmptyParts(a, b) ==
      if a == "" && b == "" then [] else if a == "" then [b] else if b == "" then [a] else [a, b]
  {
  }

  lemma JoinedParts(a: string, b: string)
    ensures Join("\n", []) == "" && Join("\n", [a]) == a && Join("\n", [b]) == b
    ensures Join("\n", [a, b]) == a + "\n" + b
  {
    assert [a, b][1..] == [b];
  }

  /** The text the backend rebuilds is the text that was counted, and it is within the budget. */
  lemma CountedTextIsSentText(texts: seq<string>, user: string, tokenizer: Option<Tokenizer>, budget: int)
    ensures var r := ToolFitResult(texts, user, tokenizer, budget);
      r.Ok? ==>
        var sent := FormatInput(r.value.user, r.value.history);
        r.value.inputTokens == CountToolTokens(sent, tokenizer, true) <= budget
  {
    StripTwice(user);
  }

  /** In ids, special tokens included, when there is a tokenizer. */
  lemma SentIdsWithinBudget(texts: seq<string>, user: string, t: Tokenizer, budget: int)
    ensures var r := ToolFitResult(texts, user, Some(t), budget);
      r.Ok? ==>
        var sent := FormatInput(r.value.user, r.value.history);
        sent != "" ==> r.value.inputTokens == |t.encodeSpecial(sent)| <= budget
  {
    hide *;
    CountedTextIsSentText(texts, user, Some(t), budget);
    var r := ToolFitResult(texts, user, Some(t), budget);
    if r.Ok? && FormatInput(r.value.user, r.value.history) != "" {
      CountsIds(t, FormatInput(r.value.user, r.value.history));
    }
  }

  /** The user text is touched only when no history line is left. */
  lemma TrimsUserLast(texts: seq<string>, user: string, tokenizer: Option<Tokenizer>, budget: int)
    ensures var r := ToolFitResult(texts, user, tokenizer, budget);
      r.Ok? && r.value.user != Strip(user) ==>
        Dropped(NonBlank(texts), Strip(user), tokenizer, budget) == |NonBlank(texts)|
        && r.value.history == ""
  {
    NormalizedIsNonBlank(texts);
    var all, raw := NormalizedTexts(texts), Strip(user);
    DroppedIsFewest(all, raw, tokenizer, budget);
    var k := Dropped(all, raw, tokenizer, budget);
    if k == |all| {
      assert all[k..] == [];
    }
    hide Strip, NormalizedTexts, CountInput, FitUser;
  }

  lemma RefusesExactly(lines: seq<string>, user: string, tokenizer: Option<Tokenizer>, budget: int)
    requires user == "" || Trimmed(user)
    ensures var cap := CountToolTokens(user, tokenizer, false);
      FitUser(lines, user, tokenizer, budget).Err? <==>
        user != "" &&
        forall p :: p in Halvings(cap) ==> CountInput(lines, TrimToolUser(user, p, tokenizer), tokenizer) > budget
    ensures FitUser(lines, user, tokenizer, budget).Ok? && user != "" ==>
      FitUser(lines, user, tokenizer, budget).value.1 <= budget
  {
    hide Largest, Halvings, Climbing, CountInput, TrimToolUser, CountToolTokens, Trimmed, Strip;
    StripOfTrimmed(user);
    var fits, cap := UserFits(lines, user, tokenizer, budget), CountToolTokens(user, tokenizer, false);
    SearchExtremes(fits, cap);
    LargestIsBoundary(fits, cap);
    assert forall p :: fits(p) <==> CountInput(lines, TrimToolUser(user, p, tokenizer), tokenizer) <= budget;
  }

  /** A cut user text is the text of its last n ids, stripped; one that is short enough is left alone. */
  lemma CutUserIs(user: string, t: Tokenizer, n: int) returns (kept: seq<int>, cut: seq<int>)
    requires n > 0 && Strip(user) != ""
    ensures |t.encode(Strip(user))| <= n ==> TrimToolUser(user, n, Some(t)) == Strip(user)
    ensures |t.encode(Strip(user))| > n ==>
      t.encode(Strip(user)) == cut + kept && |kept| == n && TrimToolUser(user, n, Some(t)) == Strip(t.decode(kept))
  {
    kept, cut := [], [];
    StripTwice(user);
    TokenizerKeeps(t, Strip(user), n, KeepEnd);
    if |t.encode(Strip(user))| > n {
      kept, cut := TokenizerTrims(t, Strip(user), n, KeepEnd);
    }
  }

  /** For any tokenizer: the fit fails exactly if the budget is not positive, or
      the user text alone is too long and no halving of it fits. */
  lemma FailsExactly(texts: seq<string>, user: string, tokenizer: Option<Tokenizer>, budget: int)
    ensures var raw := Strip(user); var cap := CountToolTokens(raw, tokenizer, false);
      var k := Dropped(NonBlank(texts), raw, tokenizer, budget);
      ToolFitResult(texts, user, tokenizer, budget).Err? <==>
        || budget <= 0
        || (k == |NonBlank(texts)| && CountInput([], raw, tokenizer) > budget
            && forall p :: p in Halvings(cap) ==> CountInput([], TrimToolUser(raw, p, tokenizer), tokenizer) > budget)
  {
    var all, raw := NormalizedTexts(texts), Strip(user);
    var k := Dropped(all, raw, tokenizer, budget);
    StripIsTrimmed(user);
    BlankInputCountsNothing(tokenizer);
    NormalizedIsNonBlank(texts);
    hide *;
    DroppedIsFewest(all, raw, tokenizer, budget);
    RefusesExactly([], raw, tokenizer, budget);
    FitInTwoParts(texts, user, tokenizer, budget);
    if k == |all| {
      assert all[k..] == [];
    }
  }

  lemma BlankInputCountsNothing(tokenizer: Option<Tokenizer>)
    ensures CountInput([], "", tokenizer) == 0
  {
    assert JoinToolInput([], "") == "";
  }

  lemma ToolFitIs(texts: seq<string>, user: string, tokenizer: Option<Tokenizer>, budget: int)
    ensures var all, raw := NormalizedTexts(texts), Strip(user);
      var kept := all[Dropped(all, raw, tokenizer, budget)..];
      var count, fit := CountInput(kept, raw, tokenizer), FitUser(kept, raw, tokenizer, budget);
      var r := ToolFitResult(texts, user, tokenizer, budget);
      && (budget > 0 && count <= budget ==> r == Ok(ToolFit(Join("\n", kept), raw, count)))
      && (budget > 0 && count > budget && fit.Ok? && fit.value.1 <= budget ==>
            r == Ok(ToolFit(Join("\n", kept), fit.value.0, fit.value.1)))
      && (budget <= 0 || (count > budget && (fit.Err? || fit.value.1 > budget)) ==> r.Err?)
  {
    hide FitUser, CountInput, Dropped, NormalizedTexts, Strip, Join;
  }

  /** The result in terms of the kept lines and the fitted user text. */
  lemma FitInTwoParts(texts: seq<string>, user: string, tokenizer: Option<Tokenizer>, budget: int)
    ensures var all, raw := NormalizedTexts(texts), Strip(user);
      var kept := all[Dropped(all, raw, tokenizer, budget)..];
      var fit := FitUser(kept, raw, tokenizer, budget);
      ToolFitResult(texts, user, tokenizer, budget).Err? <==>
        budget <= 0 || (CountInput(kept, raw, tokenizer) > budget && (fit.Err? || fit.value.1 > budget))
  {
    hide FitUser, CountInput, Dropped, NormalizedTexts, Strip;
  }

  // ------------------------------------------------------------------
  // With the whitespace counter, exactly
  // ------------------------------------------------------------------

  function InputWords(lines: seq<string>, user: string): nat {
    |WordsOfAll(lines)| + |Words(user)|
  }

  lemma FallbackInputCount(lines: seq<string>, user: string)
    ensures var n := InputWords(lines, user); CountInput(lines, user, None) == if n > 0 then n + 2 else 0
  {
    var a, b := Strip(Join("\n", lines)), Strip(user);
    var parts := NonEmptyParts(a, b);
    WordsOfStrip(Join("\n", lines));
    WordsOfStrip(user);
    WordsOfJoin('\n', lines);
    WordsOfJoin('\n', parts);
    assert WordsOfAll(parts) == Words(a) + Words(b) by {
      WordsOfParts(a, b);
    }
  }

  lemma WordsOfParts(a: string, b: string)
    ensures WordsOfAll(NonEmptyParts(a, b)) == Words(a) + Words(b)
  {
    assert WordsOfAll([a]) == Words(a) + WordsOfAll([]);
    assert WordsOfAll([b]) == Words(b) + WordsOfAll([]);
    assert WordsOfAll([a, b]) == Words(a) + WordsOfAll([b]);
  }

  /** Trimming the user text to n words with no history in front. */
  lemma FallbackUserFits(user: string, budget: int, n: int)
    requires Trimmed(user) && 1 <= n <= |Words(user)|
    ensures UserFits([], user, None, budget)(n) <==> n + 2 <= budget
  {
    hide *;
    StripOfTrimmed(user);
    TrimIsByCount(user, n);
    FallbackTrimWords(user, n, KeepEnd);
    FallbackInputCount([], TrimToolUser(user, n, None));
    NoLinesNoWords(TrimToolUser(user, n, None));
    UserFitsIs(user, budget, n);
  }

  lemma UserFitsIs(user: string, budget: int, n: int)
    ensures UserFits([], user, None, budget)(n) <==> CountInput([], TrimToolUser(user, n, None), None) <= budget
  {
  }

  lemma FallbackLargest(user: string, budget: int)
    requires Trimmed(user) && |Words(user)| + 2 > budget
    ensures Largest(UserFits([], user, None, budget), |Words(user)|) == Max(0, budget - 2)
  {
    NoWordsIffBlank(user);
    StripOfTrimmed(user);
    var cap := |Words(user)|;
    var fits := UserFits([], user, None, budget);
    forall n | 1 <= n <= cap
      ensures fits(n) <==> n + 2 <= budget
    {
      FallbackUserFits(user, budget, n);
    }
    hide UserFits, Words, Trimmed, Strip;
    LargestIsMaximum(fits, cap);
    if budget > 2 {
      assert fits(budget - 2) && !fits(budget - 1);
    } else {
      assert !fits(1);
    }
  }

  lemma TrimIsLastWords(user: string, n: int)
    requires Strip(user) == user != "" && 1 <= n < |Words(user)|
    ensures TrimToolUser(user, n, None) == LastWords(user, n)
  {
    hide Strip, Join, Words;
  }

  lemma TrimIsByCount(user: string, n: int)
    requires Strip(user) == user
    ensures TrimToolUser(user, n, None) == TrimByCount(user, n, None, KeepEnd)
  {
  }

  lemma FallbackTrimmedUser(user: string, n: int)
    requires Trimmed(user) && 1 <= n < |Words(user)|
    ensures TrimToolUser(user, n, None) == LastWords(user, n)
    ensures CountInput([], LastWords(user, n), None) == n + 2
  {
    hide *;
    StripOfTrimmed(user);
    HasText(user);
    TrimIsLastWords(user, n);
    TrimIsByCount(user, n);
    FallbackTrimWords(user, n, KeepEnd);
    FallbackInputCount([], LastWords(user, n));
    NoLinesNoWords(LastWords(user, n));
  }

  lemma FallbackFitUser(user: string, budget: int)
    requires Trimmed(user) && |Words(user)| + 2 > budget
    ensures FitUser([], user, None, budget) ==
      if budget <= 2 then Err(USER_TOO_LONG) else Ok((LastWords(user, budget - 2), budget))
  {
    hide Largest, UserFits, CountInput, Words, Strip, TrimToolUser;
    FallbackLargest(user, budget);
    StripOfTrimmed(user);
    if budget > 2 {
      FallbackTrimmedUser(user, budget - 2);
    }
  }

  /** The fit with the whitespace counter: it fails only for a non-blank user
      text and a budget without room for one word; it drops the fewest oldest
      lines; it keeps the user text, or exactly its last budget - 2 words when
      the user text alone is too long. */
  lemma WhitespaceFitIsExact(texts: seq<string>, user: string, budget: int)
    ensures var r := ToolFitResult(texts, user, None, budget);
      var lines := NonBlank(texts); var raw := Strip(user); var k := Dropped(lines, raw, None, budget);
      && (r.Ok? <==> budget > 0 && (raw == "" || budget > 2))
      && (r.Ok? ==>
            && r.value.history == Join("\n", lines[k..])
            && r.value.user == if |Words(raw)| + 2 <= budget || raw == "" then raw else LastWords(raw, budget - 2))
  {
    hide *;
    var lines, raw := NonBlank(texts), Strip(user);
    var k := Dropped(lines, raw, None, budget);
    var kept := lines[k..];
    NormalizedIsNonBlank(texts);
    ToolFitIs(texts, user, None, budget);
    DroppedIsFewest(lines, raw, None, budget);
    FallbackInputCount(kept, raw);
    NoWordsIffBlank(raw);
    StripIsTrimmed(user);
    StripTwice(user);
    if CountInput(kept, raw, None) > budget > 0 {
      assert kept == [];
      BlankInputCountsNothing(None);
      NoLinesNoWords(raw);
      FallbackFitUser(raw, budget);
    } else {
      FewWords(kept, raw);
    }
  }

  lemma NoLinesNoWords(user: string)
    ensures InputWords([], user) == |Words(user)|
  {
  }

  lemma FewWords(lines: seq<string>, user: string)
    ensures |Words(user)| <= InputWords(lines, user)
  {
  }

  /** Which lines survive, in words: the longest suffix that fits together with
      the user text, with two special tokens unless there is no word at all. */
  lemma WhitespaceDropsFewest(lines: seq<string>, user: string, budget: int, j: nat)
    requires j < |lines| && budget >= 0
    ensures var n := InputWords(lines[j..], user);
      Dropped(lines, user, None, budget) <= j <==> n == 0 || n + 2 <= budget
  {
    var k := Dropped(lines, user, None, budget);
    DroppedIsFewest(lines, user, None, budget);
    FallbackInputCount(lines[j..], user);
    if k <= j {
      FallbackInputCount(lines[k..], user);
      FewerLinesFewerWords(lines, k, j);
    }
  }
}
