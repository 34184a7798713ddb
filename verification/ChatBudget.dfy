/**
 The exact prompt budget of the chat model (src/execution/chat/prompt_budget.py),
 for any tokenizer and any chat template.
 */
module ChatBudget {
  import opened Numbers
  import opened Options
  import opened Text
  import opened Tokens
  import opened ChatHistory
  import opened PromptTemplate

  datatype Context = Context(staticPrefix: string, runtimeText: string, tokenizer: Tokenizer, template: Template)

  datatype PromptFit = PromptFit(history: seq<ChatMessage>, user: string, prompt: string, promptTokens: nat)

  const DOES_NOT_FIT :=
    "prompt exceeds exact context budget even after removing all history and trimming the user turn"
  const OVER_BUDGET := "prompt exceeds exact context budget before engine call"

  /** build_chat_prompt_with_prefix */
  function PromptFor(c: Context, history: seq<ChatMessage>, user: string): string {
    ApplyTemplate(c.template, Messages(ComposeSystem(c.staticPrefix, c.runtimeText), history, Some(user)))
  }

  function PromptTokens(c: Context, turns: seq<Turn>, user: string): nat {
    |c.tokenizer.EncodeIds(PromptFor(c, Flattened(turns), user))|
  }

  /** The first n tokens of the user text, as text. */
  function UserPrefix(c: Context, user: string, n: int): string {
    if n <= 0 || Strip(user) == "" then "" else Strip(c.tokenizer.Trim(Strip(user), n, KeepStart))
  }

  /** The number of user tokens allowed by the configured cap. */
  function UserCap(c: Context, user: string, maxUserTokens: Option<int>): (cap: int)
    ensures 0 <= cap <= |c.tokenizer.EncodeIds(Strip(Strip(user)))|
    ensures maxUserTokens.Some? ==> cap <= Max(1, maxUserTokens.value)
    ensures cap < |c.tokenizer.EncodeIds(Strip(Strip(user)))| ==>
      maxUserTokens.Some? && cap == Max(1, maxUserTokens.value)
  {
    var count := |c.tokenizer.EncodeIds(Strip(Strip(user)))|;
    if maxUserTokens.None? || count < Max(1, maxUserTokens.value) then count else Max(1, maxUserTokens.value)
  }

  function MaxCandidateUser(c: Context, user: string, maxUserTokens: Option<int>): string {
    var candidate := Strip(user);
    if candidate == "" then "" else UserPrefix(c, candidate, UserCap(c, user, maxUserTokens))
  }

  function PromptFits(c: Context, turns: seq<Turn>, user: string, budget: int): int -> bool {
    n => PromptTokens(c, turns, UserPrefix(c, user, n)) <= budget
  }

  /** How many of the user's tokens the search keeps. */
  function KeptTokens(c: Context, turns: seq<Turn>, user: string, budget: int, maxUserTokens: Option<int>): int {
    Largest(PromptFits(c, turns, Strip(user), budget), UserCap(c, user, maxUserTokens))
  }

  function FitUser(c: Context, turns: seq<Turn>, user: string, budget: int, maxUserTokens: Option<int>)
    : Result<string, string>
  {
    var candidate := Strip(user);
    if candidate == "" then Ok("")
    else
      var n := KeptTokens(c, turns, user, budget, maxUserTokens);
      if n <= 0 then Err(DOES_NOT_FIT) else Ok(UserPrefix(c, candidate, n))
  }

  method FitUserFromRaw(c: Context, turns: seq<Turn>, user: string, budget: int, maxUserTokens: Option<int>)
    returns (r: Result<(string, string, nat), string>)
    ensures match FitUser(c, turns, user, budget, maxUserTokens)
      case Ok(text) => r == Ok((text, PromptFor(c, Flattened(turns), text), PromptTokens(c, turns, text)))
      case Err(e) => r == Err(e)
  {
    var candidate := Strip(user);
    var text := "";
    if candidate != "" {
      var n := FindLargest(PromptFits(c, turns, candidate, budget), UserCap(c, user, maxUserTokens));
      if n <= 0 {
        return Err(DOES_NOT_FIT);
      }
      text := UserPrefix(c, candidate, n);
    }
    return Ok((text, PromptFor(c, Flattened(turns), text), PromptTokens(c, turns, text)));
  }

  /** How many of the oldest turns the loop drops. */
  function Dropped(c: Context, turns: seq<Turn>, user: string, budget: int): (k: nat)
    ensures k <= |turns|
  {
    if turns != [] && PromptTokens(c, turns, user) > budget then 1 + Dropped(c, turns[1..], user, budget) else 0
  }

  function KeptTurns(c: Context, history: seq<ChatMessage>, user: string, budget: int, maxUserTokens: Option<int>)
    : seq<Turn>
  {
    var turns := Grouped(Copied(history));
    turns[Dropped(c, turns, MaxCandidateUser(c, user, maxUserTokens), budget)..]
  }

  function Fit(c: Context, history: seq<ChatMessage>, user: string, budget: int, maxUserTokens: Option<int>)
    : Result<PromptFit, string>
  {
    var kept := KeptTurns(c, history, user, budget, maxUserTokens);
    match FitUser(c, kept, user, budget, maxUserTokens)
    case Err(e) => Err(e)
    case Ok(text) =>
      var tokens := PromptTokens(c, kept, text);
      if tokens > budget then Err(OVER_BUDGET)
      else Ok(PromptFit(Flattened(kept), text, PromptFor(c, Flattened(kept), text), tokens))
  }

  method FitChatPromptToBudget(
      c: Context, history: seq<ChatMessage>, user: string, budget: int, maxUserTokens: Option<int>)
    returns (r: Result<PromptFit, string>)
    ensures r == Fit(c, history, user, budget, maxUserTokens)
  {
    hide PromptFor, FitUser, PromptTokens, MaxCandidateUser, Grouped, Copied, Flattened;
    var copied := CopyChatMessages(history);
    var effectiveHistory := GroupChatTurns(copied);
    RegroupCopied(history);
    var candidate := MaxCandidateUser(c, user, maxUserTokens);
    ghost var turns, k := effectiveHistory, 0;
    var promptTokens := PromptTokens(c, effectiveHistory, candidate);
    while effectiveHistory != [] && promptTokens > budget
      invariant 0 <= k <= |turns| && effectiveHistory == turns[k..]
      invariant promptTokens == PromptTokens(c, effectiveHistory, candidate)
      invariant k + Dropped(c, effectiveHistory, candidate, budget) == Dropped(c, turns, candidate, budget)
      decreases |effectiveHistory|
    {
      effectiveHistory := effectiveHistory[1..];
      k := k + 1;
      promptTokens := PromptTokens(c, effectiveHistory, candidate);
    }
    var fit := FitUserFromRaw(c, effectiveHistory, user, budget, maxUserTokens);
    if fit.Err? {
      return Err(fit.error);
    }
    var (text, prompt, tokens) := fit.value;
    if tokens > budget {
      return Err(OVER_BUDGET);
    }
    return Ok(PromptFit(Flattened(effectiveHistory), text, prompt, tokens));
  }

  lemma RegroupCopied(history: seq<ChatMessage>)
    ensures Copied(Copied(history)) == Copied(history)
  {
    CopiedIsClean(history);
    CopiedOfClean(Copied(history));
  }

  // ------------------------------------------------------------------
  // For any tokenizer and template
  // ------------------------------------------------------------------

  lemma {:induction false} DroppedIsFewest(c: Context, turns: seq<Turn>, user: string, budget: int)
    ensures var k := Dropped(c, turns, user, budget);
      && (k < |turns| ==> PromptTokens(c, turns[k..], user) <= budget)
      && (forall j :: 0 <= j < k ==> PromptTokens(c, turns[j..], user) > budget)
  {
    hide PromptTokens;
    assert turns[0..] == turns;
    if turns == [] || PromptTokens(c, turns, user) <= budget {
    } else {
      DroppedIsFewest(c, turns[1..], user, budget);
      forall j | 0 < j <= |turns|
        ensures turns[j..] == turns[1..][j - 1..]
      {
      }
    }
  }

  /** A returned prompt is the one built from the returned history and user
      text and is within the budget; the returned history is the copy of the
      input without its oldest turns, as few of them as make the capped user
      turn fit, or all of them. */
  lemma FitIsSound(
      c: Context, history: seq<ChatMessage>, user: string, budget: int, maxUserTokens: Option<int>)
    returns (k: nat)
    ensures k <= |Grouped(Copied(history))|
    ensures var r := Fit(c, history, user, budget, maxUserTokens);
      r.Ok? ==>
        && r.value.prompt == PromptFor(c, r.value.history, r.value.user)
        && r.value.promptTokens == |c.tokenizer.EncodeIds(r.value.prompt)| <= budget
        && r.value.history == Concat(Grouped(Copied(history))[k..])
    ensures var turns := Grouped(Copied(history)); var capped := MaxCandidateUser(c, user, maxUserTokens);
      && (k < |turns| ==> PromptTokens(c, turns[k..], capped) <= budget)
      && (forall j :: 0 <= j < k ==> PromptTokens(c, turns[j..], capped) > budget)
  {
    hide PromptFor, Flattened, FitUser, MaxCandidateUser, Grouped, Copied;
    var turns, capped := Grouped(Copied(history)), MaxCandidateUser(c, user, maxUserTokens);
    k := Dropped(c, turns, capped, budget);
    DroppedIsFewest(c, turns, capped, budget);
    FlattenUndoesGroup(history, k);
  }

  /** The prompt that comes back: ms is the stripped system texts, if any, with a
      blank line between, then one message for each run of equal roles of the
      returned history and user text, stripped and without blank ones. A template
      that answers is given ms; otherwise the prompt is the ChatML lines of ms. */
  lemma ReturnedPrompt(
      c: Context, history: seq<ChatMessage>, user: string, budget: int, maxUserTokens: Option<int>,
      ms: seq<PromptMessage>, lines: seq<string>)
    requires Fit(c, history, user, budget, maxUserTokens).Ok?
    requires var r := Fit(c, history, user, budget, maxUserTokens).value;
      var a, b := Strip(c.staticPrefix), Strip(c.runtimeText);
      var system := if a != "" && b != "" then a + "\n\n" + b else a + b;
      ms == (if system == "" then [] else [PromptMessage(SystemRole, system)])
        + Merged(Copied(r.history + [ChatMessage(User, r.user)]))
    requires |lines| == 3 * |ms| + 1 && lines[3 * |ms|] == "<|im_start|>assistant"
    requires forall i :: 0 <= i < |ms| ==> LinesOfMessage(lines, 3 * i, ms[i])
    ensures var r := Fit(c, history, user, budget, maxUserTokens).value;
      && (c.template(ms).Some? ==> c.template(ms) == Some(r.prompt))
      && (c.template(ms).None? ==> r.prompt == Join("\n", lines))
      && (r.prompt != "" ==> r.promptTokens == |c.tokenizer.encode(r.prompt)|)
      && r.promptTokens <= budget
  {
    hide *;
    var r := Fit(c, history, user, budget, maxUserTokens).value;
    FitNamesPrompt(c, history, user, budget, maxUserTokens);
    PromptIsOf(c, r.history, r.user, ms, lines);
    EncodedIds(c.tokenizer, r.prompt);
  }

  lemma EncodedIds(t: Tokenizer, text: string)
    ensures t.EncodeIds(text) == if text == "" then [] else t.encode(text)
  {
  }

  lemma PromptIsOf(c: Context, history: seq<ChatMessage>, user: string, ms: seq<PromptMessage>, lines: seq<string>)
    requires var a, b := Strip(c.staticPrefix), Strip(c.runtimeText);
      var system := if a != "" && b != "" then a + "\n\n" + b else a + b;
      ms == (if system == "" then [] else [PromptMessage(SystemRole, system)])
        + Merged(Copied(history + [ChatMessage(User, user)]))
    requires |lines| == 3 * |ms| + 1 && lines[3 * |ms|] == "<|im_start|>assistant"
    requires forall i :: 0 <= i < |ms| ==> LinesOfMessage(lines, 3 * i, ms[i])
    ensures c.template(ms).Some? ==> c.template(ms) == Some(PromptFor(c, history, user))
    ensures c.template(ms).None? ==> PromptFor(c, history, user) == Join("\n", lines)
  {
    hide *;
    ComposedSystem(c.staticPrefix, c.runtimeText);
    MessagesAreRuns(ComposeSystem(c.staticPrefix, c.runtimeText), history, Some(user));
    WithUserIs(history, user);
    PromptForIs(c, history, user);
    AppliedTemplate(c.template, ms, lines);
  }

  lemma WithUserIs(history: seq<ChatMessage>, user: string)
    ensures WithUser(history, Some(user)) == history + [ChatMessage(User, user)]
  {
  }

  lemma PromptForIs(c: Context, history: seq<ChatMessage>, user: string)
    ensures PromptFor(c, history, user) ==
      ApplyTemplate(c.template, Messages(ComposeSystem(c.staticPrefix, c.runtimeText), history, Some(user)))
  {
  }

  lemma FitNamesPrompt(c: Context, history: seq<ChatMessage>, user: string, budget: int, maxUserTokens: Option<int>)
    requires Fit(c, history, user, budget, maxUserTokens).Ok?
    ensures var r := Fit(c, history, user, budget, maxUserTokens).value;
      && r.prompt == PromptFor(c, r.history, r.user)
      && r.promptTokens == |c.tokenizer.EncodeIds(r.prompt)| <= budget
  {
    hide PromptFor, KeptTurns, FitUser, Flattened;
  }

  /** A kept user text is the text of its first n ids, stripped; one that is short enough is left alone. */
  lemma UserPrefixIs(c: Context, user: string, n: int) returns (kept: seq<int>, cut: seq<int>)
    requires n > 0 && Strip(user) != ""
    ensures |c.tokenizer.encode(Strip(user))| <= n ==> UserPrefix(c, user, n) == Strip(user)
    ensures |c.tokenizer.encode(Strip(user))| > n ==>
      && c.tokenizer.encode(Strip(user)) == kept + cut && |kept| == n
      && UserPrefix(c, user, n) == Strip(c.tokenizer.decode(kept))
  {
    kept, cut := [], [];
    StripTwice(user);
    TokenizerKeeps(c.tokenizer, Strip(user), n, KeepStart);
    if |c.tokenizer.encode(Strip(user))| > n {
      kept, cut := TokenizerTrims(c.tokenizer, Strip(user), n, KeepStart);
    }
  }

  /** Decoding the first ids of a text gives a prefix of it. */
  ghost predicate DecodesPrefixes(t: Tokenizer) {
    forall text, n: nat :: n <= |t.encode(text)| ==> t.decode(t.encode(text)[..n]) <= text
  }

  /** With such a tokenizer the kept user text is a prefix of the stripped user text. */
  lemma UserPrefixIsPrefix(c: Context, user: string, n: int)
    requires DecodesPrefixes(c.tokenizer)
    ensures UserPrefix(c, user, n) <= Strip(user)
  {
    var text := Strip(user);
    StripIsTrimmed(user);
    if n > 0 && text != "" {
      var kept := c.tokenizer.Trim(text, n, KeepStart);
      assert kept <= text;
      LStripSplits(kept);
      RStripSplits(LStrip(kept));
      if kept != "" {
        assert kept[0] == text[0];
      }
    }
  }

  // ------------------------------------------------------------------
  // What the search finds, for any tokenizer and template
  // ------------------------------------------------------------------

  /** The prompt with the first n tokens of the user text is within the budget. */
  predicate PrefixFits(c: Context, turns: seq<Turn>, user: string, budget: int, n: int) {
    PromptTokens(c, turns, UserPrefix(c, Strip(user), n)) <= budget
  }

  lemma FitsIsPrefixFits(c: Context, turns: seq<Turn>, user: string, budget: int, n: int)
    ensures PromptFits(c, turns, Strip(user), budget)(n) == PrefixFits(c, turns, user, budget, n)
  {
  }

  lemma KeptTokensFit(
      c: Context, turns: seq<Turn>, user: string, budget: int, maxUserTokens: Option<int>)
    ensures var n := KeptTokens(c, turns, user, budget, maxUserTokens);
      0 <= n <= UserCap(c, user, maxUserTokens) && (n > 0 ==> PrefixFits(c, turns, user, budget, n))
  {
    hide PrefixFits, PromptFits, Largest, UserCap, Strip;
    var n := KeptTokens(c, turns, user, budget, maxUserTokens);
    LargestIsBoundary(PromptFits(c, turns, Strip(user), budget), UserCap(c, user, maxUserTokens));
    FitsIsPrefixFits(c, turns, user, budget, n);
  }

  /** A user turn is refused exactly if it is not blank and the prompt is over
      budget at every halving of its cap. */
  lemma RefusesExactly(
      c: Context, turns: seq<Turn>, user: string, budget: int, maxUserTokens: Option<int>)
    ensures KeptTokens(c, turns, user, budget, maxUserTokens) == 0 <==>
      forall p :: p in Halvings(UserCap(c, user, maxUserTokens)) ==> !PrefixFits(c, turns, user, budget, p)
    ensures FitUser(c, turns, user, budget, maxUserTokens).Err? <==>
      Strip(user) != "" &&
      forall p :: p in Halvings(UserCap(c, user, maxUserTokens)) ==> !PrefixFits(c, turns, user, budget, p)
  {
    hide PrefixFits, PromptFits, Largest, UserCap, Strip, UserPrefix, Halvings, Climbing;
    var fits, cap := PromptFits(c, turns, Strip(user), budget), UserCap(c, user, maxUserTokens);
    KeptTokensFit(c, turns, user, budget, maxUserTokens);
    SearchExtremes(fits, cap);
    forall p
      ensures fits(p) == PrefixFits(c, turns, user, budget, p)
    {
      FitsIsPrefixFits(c, turns, user, budget, p);
    }
  }

  /** All tokens up to the cap are kept exactly if the prompt is within the
      budget at every count tried on the way up to it. */
  lemma KeepsCapExactly(
      c: Context, turns: seq<Turn>, user: string, budget: int, maxUserTokens: Option<int>)
    ensures KeptTokens(c, turns, user, budget, maxUserTokens) == UserCap(c, user, maxUserTokens) <==>
      forall p :: p in Climbing(UserCap(c, user, maxUserTokens)) ==> PrefixFits(c, turns, user, budget, p)
  {
    hide PrefixFits, PromptFits, Largest, UserCap, Strip, Halvings, Climbing;
    var fits, cap := PromptFits(c, turns, Strip(user), budget), UserCap(c, user, maxUserTokens);
    SearchExtremes(fits, cap);
    forall p
      ensures fits(p) == PrefixFits(c, turns, user, budget, p)
    {
      FitsIsPrefixFits(c, turns, user, budget, p);
    }
  }

  /** With best the largest number of tokens whose prompt fits, the search keeps
      best tokens exactly if the prompt is within the budget at every count up to
      best that it tries. */
  lemma TakesLargestExactly(
      c: Context, turns: seq<Turn>, user: string, budget: int, maxUserTokens: Option<int>, best: int)
    requires 0 <= best <= UserCap(c, user, maxUserTokens)
    requires best > 0 ==> PrefixFits(c, turns, user, budget, best)
    requires forall n :: best < n <= UserCap(c, user, maxUserTokens) ==> !PrefixFits(c, turns, user, budget, n)
    ensures KeptTokens(c, turns, user, budget, maxUserTokens) == best <==>
      forall p :: p in Probes(1, UserCap(c, user, maxUserTokens), best) && p <= best ==>
        PrefixFits(c, turns, user, budget, p)
  {
    hide PrefixFits, PromptFits, Largest, UserCap, Strip, Probes;
    var fits, cap := PromptFits(c, turns, Strip(user), budget), UserCap(c, user, maxUserTokens);
    forall p
      ensures fits(p) == PrefixFits(c, turns, user, budget, p)
    {
      FitsIsPrefixFits(c, turns, user, budget, p);
    }
    FindsMaximumIff(fits, cap, best);
  }

  // ------------------------------------------------------------------
  // When the prompt does not shrink as the user text grows
  // ------------------------------------------------------------------

  /** Fewer user tokens never make a prompt outgrow the budget. */
  ghost predicate Monotone(c: Context, turns: seq<Turn>, user: string, budget: int, maxUserTokens: Option<int>) {
    forall m, n :: 1 <= m <= n <= UserCap(c, user, maxUserTokens) && PrefixFits(c, turns, user, budget, n) ==>
      PrefixFits(c, turns, user, budget, m)
  }

  /** The user text is the longest prefix, in tokens and up to the cap, whose
      prompt fits, and the fit fails exactly when not even one token fits. */
  lemma FitTakesLargestPrefix(
      c: Context, turns: seq<Turn>, user: string, budget: int, maxUserTokens: Option<int>)
    returns (n: int)
    requires Strip(user) != "" && Monotone(c, turns, user, budget, maxUserTokens)
    ensures n == KeptTokens(c, turns, user, budget, maxUserTokens)
    ensures 0 <= n <= UserCap(c, user, maxUserTokens)
    ensures forall m :: 1 <= m <= UserCap(c, user, maxUserTokens) ==>
      (PrefixFits(c, turns, user, budget, m) <==> m <= n)
    ensures FitUser(c, turns, user, budget, maxUserTokens) ==
      if n == 0 then Err(DOES_NOT_FIT) else Ok(UserPrefix(c, Strip(user), n))
  {
    hide PrefixFits, PromptFits, Largest, UserCap, Strip, UserPrefix;
    var fits, cap := PromptFits(c, turns, Strip(user), budget), UserCap(c, user, maxUserTokens);
    forall p
      ensures fits(p) == PrefixFits(c, turns, user, budget, p)
    {
      FitsIsPrefixFits(c, turns, user, budget, p);
    }
    LargestIsMaximum(fits, cap);
    n := KeptTokens(c, turns, user, budget, maxUserTokens);
  }

  /** While any history is kept, the prompt with the capped user turn fits, so a
      user turn is cut there only if a shorter prefix makes a longer prompt. */
  lemma CappedFitsWithHistory(
      c: Context, history: seq<ChatMessage>, user: string, budget: int, maxUserTokens: Option<int>)
    requires KeptTurns(c, history, user, budget, maxUserTokens) != []
    ensures var kept := KeptTurns(c, history, user, budget, maxUserTokens);
      && PromptTokens(c, kept, MaxCandidateUser(c, user, maxUserTokens)) <= budget
      && (Strip(user) != "" ==> PrefixFits(c, kept, user, budget, UserCap(c, user, maxUserTokens)))
      && (Strip(user) == "" ==> PromptTokens(c, kept, "") <= budget)
  {
    hide PromptTokens, Grouped, Copied, UserCap, UserPrefix, Strip;
    var turns, capped := Grouped(Copied(history)), MaxCandidateUser(c, user, maxUserTokens);
    DroppedIsFewest(c, turns, capped, budget);
  }

  /** While any history is kept, the user turn is the capped one, uncut, exactly
      if the prompt is within the budget at every count tried on the way up to
      the cap; it always is if fewer user tokens never make a longer prompt. */
  lemma CutsUserLast(
      c: Context, history: seq<ChatMessage>, user: string, budget: int, maxUserTokens: Option<int>)
    requires KeptTurns(c, history, user, budget, maxUserTokens) != []
    requires UserCap(c, user, maxUserTokens) > 0 || Strip(user) == ""
    ensures var kept, cap := KeptTurns(c, history, user, budget, maxUserTokens), UserCap(c, user, maxUserTokens);
      var uncut := Strip(user) == "" || KeptTokens(c, kept, user, budget, maxUserTokens) == cap;
      var fit := Fit(c, history, user, budget, maxUserTokens);
      && (uncut <==> Strip(user) == "" || forall p :: p in Climbing(cap) ==> PrefixFits(c, kept, user, budget, p))
      && (Monotone(c, kept, user, budget, maxUserTokens) ==> uncut)
      && (uncut ==> fit.Ok? && fit.value.user == MaxCandidateUser(c, user, maxUserTokens))
  {
    hide PromptFor, Flattened, PromptTokens, UserPrefix, UserCap, KeptTurns, KeptTokens, PrefixFits, Climbing, Strip;
    var kept := KeptTurns(c, history, user, budget, maxUserTokens);
    CappedFitsWithHistory(c, history, user, budget, maxUserTokens);
    KeepsCapExactly(c, kept, user, budget, maxUserTokens);
    if Strip(user) == "" {
      hide Monotone;
    } else {
      CappedPrefix(c, user, maxUserTokens);
      UncutIsMonotone(c, kept, user, budget, maxUserTokens);
    }
  }

  /** The capped user turn is the user text cut to its cap. */
  lemma CappedPrefix(c: Context, user: string, maxUserTokens: Option<int>)
    ensures Strip(user) != "" ==>
      MaxCandidateUser(c, user, maxUserTokens) == UserPrefix(c, Strip(user), UserCap(c, user, maxUserTokens))
    ensures Strip(user) == "" ==> MaxCandidateUser(c, user, maxUserTokens) == ""
  {
  }

  lemma UncutIsMonotone(
      c: Context, turns: seq<Turn>, user: string, budget: int, maxUserTokens: Option<int>)
    requires Strip(user) != "" && PrefixFits(c, turns, user, budget, UserCap(c, user, maxUserTokens))
    requires UserCap(c, user, maxUserTokens) > 0
    ensures Monotone(c, turns, user, budget, maxUserTokens) ==>
      KeptTokens(c, turns, user, budget, maxUserTokens) == UserCap(c, user, maxUserTokens)
  {
    hide PrefixFits, UserCap, KeptTokens, Strip;
    if Monotone(c, turns, user, budget, maxUserTokens) {
      var n := FitTakesLargestPrefix(c, turns, user, budget, maxUserTokens);
    }
  }

  /** The fit succeeds exactly if some halving of the cap fits with the kept
      history; a blank user turn needs a kept history or an empty prompt within
      the budget. If fewer user tokens never make a longer prompt, this is a kept
      history or room for one token. */
  lemma FailsExactly(
      c: Context, history: seq<ChatMessage>, user: string, budget: int, maxUserTokens: Option<int>)
    ensures var kept, cap := KeptTurns(c, history, user, budget, maxUserTokens), UserCap(c, user, maxUserTokens);
      var ok := Fit(c, history, user, budget, maxUserTokens).Ok?;
      if Strip(user) == "" then ok <==> kept != [] || PromptTokens(c, [], "") <= budget
      else
        && (ok <==> exists p :: p in Halvings(cap) && PrefixFits(c, kept, user, budget, p))
        && (Monotone(c, kept, user, budget, maxUserTokens) ==>
              (ok <==> cap > 0 && (kept != [] || PrefixFits(c, [], user, budget, 1))))
  {
    hide PromptFor, Flattened, PromptTokens, UserPrefix, UserCap, KeptTurns, KeptTokens, PrefixFits, Halvings, Strip;
    var kept := KeptTurns(c, history, user, budget, maxUserTokens);
    if kept != [] {
      CappedFitsWithHistory(c, history, user, budget, maxUserTokens);
    }
    RefusesExactly(c, kept, user, budget, maxUserTokens);
    FitIsWithinBudget(c, kept, user, budget, maxUserTokens);
    if Strip(user) != "" && Monotone(c, kept, user, budget, maxUserTokens) {
      var n := FitTakesLargestPrefix(c, kept, user, budget, maxUserTokens);
    }
  }

  lemma FitIsWithinBudget(
      c: Context, turns: seq<Turn>, user: string, budget: int, maxUserTokens: Option<int>)
    ensures var fit := FitUser(c, turns, user, budget, maxUserTokens);
      && (Strip(user) == "" ==> fit == Ok(""))
      && (Strip(user) != "" && fit.Ok? ==> PromptTokens(c, turns, fit.value) <= budget)
  {
    hide PromptTokens, UserPrefix, UserCap, KeptTokens, Strip;
    KeptTokensFit(c, turns, user, budget, maxUserTokens);
  }

  /** The prompt is the last message; cutting any text to fewer tokens gives "long". */
  const ODD := Context("", "",
    Tokenizer(s => if s == "ab" then [0, 0] else [0, 0, 0], s => [], ids => "long"),
    (ms: seq<PromptMessage>) => Some(if ms == [] then "" else ms[|ms| - 1].content))

  lemma OddPrompt(user: string)
    requires Trimmed(user)
    ensures PromptTokens(ODD, [], user) == if user == "ab" then 2 else 3
  {
    StripOfTrimmed(user);
    StripOfTrimmed("");
    assert WithUser([], Some(user)) == [ChatMessage(User, user)];
    assert AddAll([], [ChatMessage(User, user)][..0]) == [];
    assert Messages("", [], Some(user)) == [PromptMessage(Speaker(User), user)];
  }

  lemma OddPrefixes()
    ensures Strip("ab") == "ab" && UserCap(ODD, "ab", None) == 2
    ensures UserPrefix(ODD, "ab", 2) == "ab" && UserPrefix(ODD, "ab", 1) == "long"
  {
    StripOfTrimmed("ab");
    StripOfTrimmed("long");
  }

  lemma OddPrefixFails()
    ensures Trimmed("ab") && Trimmed("long") && !PrefixFits(ODD, [], "ab", 2, 1)
  {
    hide PromptTokens, UserPrefix;
    OddPrefixes();
    OddPrompt("long");
  }

  lemma OddHalvings()
    ensures Halvings(2) == [1]
  {
    assert Halvings(0) == [];
  }

  /** So a turn that fits as it is can be refused: here the one-token prefix is
      longer, in tokens, than the whole text. */
  lemma FitCanRefuseWhatFits()
    ensures PromptTokens(ODD, [], MaxCandidateUser(ODD, "ab", None)) <= 2
    ensures Fit(ODD, [], "ab", 2, None) == Err(DOES_NOT_FIT)
  {
    hide *;
    OddPrefixes();
    OddPrefixFails();
    OddPrompt("ab");
    OddHalvings();
    CappedPrefix(ODD, "ab", None);
    RefusesExactly(ODD, [], "ab", 2, None);
    NoPrefixNoFit(ODD, "ab", 2, None);
  }

  lemma NoPrefixNoFit(c: Context, user: string, budget: int, maxUserTokens: Option<int>)
    requires Strip(user) != "" && KeptTokens(c, [], user, budget, maxUserTokens) == 0
    ensures Fit(c, [], user, budget, maxUserTokens) == Err(DOES_NOT_FIT)
  {
    hide PromptTokens, UserPrefix, UserCap, Strip, KeptTokens;
    assert Grouped(Copied([])) == [];
  }
}
