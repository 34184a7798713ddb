/**
 Token counting and trimming (src/tokens/tokenizer.py, src/tokens/history.py), and
 the binary search that all budget fits use.
 */
module Tokens {
  import opened Numbers
  import opened Options
  import opened Text

  datatype Keep = KeepStart | KeepEnd

  /** A tokenizer library as three functions: token ids without and with special
      tokens, and the text of a list of ids. */
  datatype Tokenizer = Tokenizer(
    encode: string -> seq<int>,
    encodeSpecial: string -> seq<int>,
    decode: seq<int> -> string)
  {
    function EncodeIds(text: string): seq<int> {
      if text == "" then [] else encode(text)
    }

    function Count(text: string, special: bool): nat {
      if text == "" && !special then 0 else if special then |encodeSpecial(text)| else |encode(text)|
    }

    function Trim(text: string, maxTokens: int, keep: Keep): string {
      if maxTokens <= 0 || text == "" then ""
      else
        var ids := encode(text);
        if |ids| <= maxTokens then text
        else decode(if keep == KeepStart then ids[..maxTokens] else ids[|ids| - maxTokens..])
    }
  }

  /** The whitespace counter used when there is no tokenizer. */
  function FallbackCount(text: string, special: bool): nat {
    var count := |Words(text)|;
    if count > 0 && special then count + 2 else count
  }

  function CountToolTokens(text: string, tokenizer: Option<Tokenizer>, special: bool): nat {
    if text == "" then 0
    else match tokenizer
      case Some(t) => t.Count(text, special)
      case None => FallbackCount(text, special)
  }

  function KeptWords(words: seq<string>, n: nat, keep: Keep): seq<string>
    requires n <= |words|
  {
    if keep == KeepStart then words[..n] else words[|words| - n..]
  }

  function TrimByCount(text: string, n: int, tokenizer: Option<Tokenizer>, keep: Keep): string {
    if n <= 0 || text == "" then ""
    else match tokenizer
      case Some(t) => Strip(t.Trim(text, n, keep))
      case None =>
        var words := Words(text);
        if |words| <= n then text else Join(" ", KeptWords(words, n, keep))
  }

  /** A tokenizer trims to the first or the last n of the text's ids, decoded. */
  lemma TokenizerTrims(t: Tokenizer, text: string, n: int, keep: Keep) returns (kept: seq<int>, cut: seq<int>)
    requires n > 0 && text != "" && |t.encode(text)| > n
    ensures |kept| == n && t.Trim(text, n, keep) == t.decode(kept)
    ensures keep == KeepStart ==> t.encode(text) == kept + cut
    ensures keep == KeepEnd ==> t.encode(text) == cut + kept
  {
    var ids := t.encode(text);
    if keep == KeepStart {
      kept, cut := ids[..n], ids[n..];
    } else {
      kept, cut := ids[|ids| - n..], ids[..|ids| - n];
    }
  }

  /** A text that is short enough is not touched, and nothing is left of a blank or unwanted one. */
  lemma TokenizerKeeps(t: Tokenizer, text: string, n: int, keep: Keep)
    ensures n > 0 && |t.encode(text)| <= n ==> t.Trim(text, n, keep) == text
    ensures n <= 0 ==> t.Trim(text, n, keep) == ""
  {
  }

  /** Special tokens are counted when asked for, and only then. */
  lemma CountsIds(t: Tokenizer, text: string)
    requires text != ""
    ensures CountToolTokens(text, Some(t), true) == |t.encodeSpecial(text)|
    ensures CountToolTokens(text, Some(t), false) == |t.encode(text)| == |t.EncodeIds(text)|
  {
  }

  lemma FallbackTrims(text: string, n: int, keep: Keep)
    requires 1 <= n <= |Words(text)|
    ensures TrimByCount(text, n, None, keep) ==
      if |Words(text)| == n then text else Join(" ", KeptWords(Words(text), n, keep))
  {
    hide Join, KeptWords;
  }

  lemma KeptAreWords(words: seq<string>, n: nat, keep: Keep)
    requires 1 <= n <= |words| && forall i :: 0 <= i < |words| ==> IsWord(words[i])
    ensures KeptWords(words, n, keep) != []
    ensures forall i :: 0 <= i < |KeptWords(words, n, keep)| ==> IsWord(KeptWords(words, n, keep)[i])
    ensures n == |words| ==> KeptWords(words, n, keep) == words
  {
    hide IsWord;
  }

  lemma KeptWordsAre(words: seq<string>, n: nat)
    requires n <= |words|
    ensures KeptWords(words, n, KeepStart) == words[..n]
    ensures KeptWords(words, n, KeepEnd) == words[|words| - n..]
  {
  }

  lemma HasText(text: string)
    requires Words(text) != []
    ensures text != ""
  {
  }

  lemma TrimmedWords(text: string, n: int, keep: Keep, words: seq<string>, kept: seq<string>)
    requires words == Words(text) && 1 <= n <= |words| && kept == KeptWords(words, n, keep)
    ensures Words(TrimByCount(text, n, None, keep)) == kept != []
  {
    hide *;
    WordsAreWords(text);
    FallbackTrims(text, n, keep);
    KeptAreWords(words, n, keep);
    if n < |words| {
      WordsOfJoinedWords(kept);
    }
  }

  /** Without a tokenizer, trimming to n keeps exactly n words, when there are that many. */
  lemma FallbackTrimWords(text: string, n: int, keep: Keep)
    requires 1 <= n <= |Words(text)|
    ensures keep == KeepStart ==> Words(TrimByCount(text, n, None, keep)) == Words(text)[..n]
    ensures keep == KeepEnd ==> Words(TrimByCount(text, n, None, keep)) == Words(text)[|Words(text)| - n..]
    ensures |Words(TrimByCount(text, n, None, keep))| == n && TrimByCount(text, n, None, keep) != ""
  {
    hide *;
    var words, result := Words(text), TrimByCount(text, n, None, keep);
    KeptWordsAre(words, n);
    TrimmedWords(text, n, keep, words, KeptWords(words, n, keep));
    HasText(result);
  }

  // ------------------------------------------------------------------
  // The binary search for the largest fitting count
  // ------------------------------------------------------------------

  function Middle(lo: int, hi: int): (mid: int)
    requires lo <= hi
    ensures lo <= mid <= hi
  {
    (lo + hi) / 2
  }

  /** What the loop "while lo <= hi" finds: the last probe that fitted, or lo - 1. */
  function Search(fits: int -> bool, lo: int, hi: int): int
    decreases hi - lo
  {
    if lo > hi then lo - 1
    else
      var mid := Middle(lo, hi);
      if fits(mid) then Search(fits, mid + 1, hi) else Search(fits, lo, mid - 1)
  }

  /** Counts of 1 to cap, searched in full; 0 when no probe fitted. */
  function Largest(fits: int -> bool, cap: int): int {
    Search(fits, 1, cap)
  }

  /** The search loop, shared by the three budget fits. fits(n) stands for
      trimming to n tokens, counting, and comparing with the budget. */
  method FindLargest(fits: int -> bool, cap: int) returns (best: int)
    requires cap >= 0
    ensures best == Largest(fits, cap)
  {
    var lo, hi := 1, cap;
    best := 0;
    while lo <= hi
      invariant 1 <= lo <= hi + 1 && best == lo - 1
      invariant Search(fits, lo, hi) == Largest(fits, cap)
    {
      var mid := Middle(lo, hi);
      if fits(mid) {
        best := mid;
        lo := mid + 1;
      } else {
        hi := mid - 1;
      }
    }
  }

  /** If a count fits, so does every smaller one. */
  ghost predicate Downward(fits: int -> bool, cap: int) {
    forall m, n :: 1 <= m <= n <= cap && fits(n) ==> fits(m)
  }

  lemma {:induction false} SearchStops(fits: int -> bool, lo: int, hi: int)
    requires lo <= hi + 1
    ensures var r := Search(fits, lo, hi);
      && lo - 1 <= r <= hi && (r >= lo ==> fits(r)) && (r < hi ==> !fits(r + 1))
    decreases hi - lo
  {
    if lo > hi {
    } else {
      var mid := Middle(lo, hi);
      if fits(mid) {
        SearchStops(fits, mid + 1, hi);
      } else {
        SearchStops(fits, lo, mid - 1);
      }
    }
  }

  /** For any predicate: the result fits and the next count does not. */
  lemma LargestIsBoundary(fits: int -> bool, cap: int)
    requires cap >= 0
    ensures 0 <= Largest(fits, cap) <= cap
    ensures Largest(fits, cap) > 0 ==> fits(Largest(fits, cap))
    ensures Largest(fits, cap) < cap ==> !fits(Largest(fits, cap) + 1)
  {
    SearchStops(fits, 1, cap);
  }

  /** For a downward closed predicate: exactly the counts up to the result fit. */
  lemma LargestIsMaximum(fits: int -> bool, cap: int)
    requires cap >= 0 && Downward(fits, cap)
    ensures 0 <= Largest(fits, cap) <= cap
    ensures forall n :: 1 <= n <= cap ==> (fits(n) <==> n <= Largest(fits, cap))
  {
    LargestIsBoundary(fits, cap);
  }

  // ------------------------------------------------------------------
  // The search for an arbitrary predicate, exactly
  // ------------------------------------------------------------------

  /** The counts that a search ending in r tries, in order. */
  function Probes(lo: int, hi: int, r: int): seq<int>
    decreases hi - lo
  {
    if lo > hi then []
    else
      var mid := Middle(lo, hi);
      [mid] + if mid <= r then Probes(mid + 1, hi, r) else Probes(lo, mid - 1, r)
  }

  /** Every probe succeeds, or fails, as a search ending in r needs it. */
  ghost predicate LeadsTo(fits: int -> bool, probes: seq<int>, r: int) {
    forall p :: p in probes ==> (fits(p) <==> p <= r)
  }

  lemma {:induction false} ProbesInRange(lo: int, hi: int, r: int)
    ensures forall p :: p in Probes(lo, hi, r) ==> lo <= p <= hi
    decreases hi - lo
  {
    if lo > hi {
    } else {
      var mid := Middle(lo, hi);
      if mid <= r {
        ProbesInRange(mid + 1, hi, r);
      } else {
        ProbesInRange(lo, mid - 1, r);
      }
    }
  }

  lemma SearchUnfolds(fits: int -> bool, lo: int, hi: int, r: int)
    requires lo <= hi
    ensures var mid := Middle(lo, hi);
      && Search(fits, lo, hi) == (if fits(mid) then Search(fits, mid + 1, hi) else Search(fits, lo, mid - 1))
      && Probes(lo, hi, r) == [mid] + if mid <= r then Probes(mid + 1, hi, r) else Probes(lo, mid - 1, r)
  {
  }

  lemma SearchOfNothing(fits: int -> bool, lo: int, hi: int, r: int)
    requires lo > hi
    ensures Search(fits, lo, hi) == lo - 1 && LeadsTo(fits, Probes(lo, hi, r), r)
  {
  }

  lemma {:induction false} SearchIs(fits: int -> bool, lo: int, hi: int, r: int)
    requires lo - 1 <= r <= hi
    ensures Search(fits, lo, hi) == r <==> LeadsTo(fits, Probes(lo, hi, r), r)
    decreases hi - lo
  {
    hide *;
    if lo > hi {
      SearchOfNothing(fits, lo, hi, r);
    } else {
      var mid := Middle(lo, hi);
      SearchUnfolds(fits, lo, hi, r);
      SearchStops(fits, mid + 1, hi);
      SearchStops(fits, lo, mid - 1);
      if mid <= r {
        LeadsToCons(fits, mid, Probes(mid + 1, hi, r), r);
        SearchIs(fits, mid + 1, hi, r);
      } else {
        LeadsToCons(fits, mid, Probes(lo, mid - 1, r), r);
        SearchIs(fits, lo, mid - 1, r);
      }
    }
  }

  lemma LeadsToCons(fits: int -> bool, p: int, rest: seq<int>, r: int)
    ensures LeadsTo(fits, [p] + rest, r) <==> (fits(p) <==> p <= r) && LeadsTo(fits, rest, r)
  {
    if LeadsTo(fits, [p] + rest, r) {
      assert p in [p] + rest;
      assert forall q :: q in rest ==> q in [p] + rest;
    }
  }

  /** For any predicate: the result is r exactly if the few counts tried on the
      way to r all fit up to r and fail beyond it. */
  lemma LargestIsExactly(fits: int -> bool, cap: int, r: int)
    requires 0 <= r <= cap
    ensures Largest(fits, cap) == r <==> LeadsTo(fits, Probes(1, cap, r), r)
  {
    SearchIs(fits, 1, cap, r);
  }

  /** The counts tried while nothing fits: the middle of what is left, again and again. */
  function Halvings(cap: int): seq<int> {
    if cap < 1 then [] else [(1 + cap) / 2] + Halvings((1 + cap) / 2 - 1)
  }

  lemma {:induction false} HalvingsAreProbes(cap: int)
    ensures Halvings(cap) == Probes(1, cap, 0)
  {
    if cap < 1 {
    } else {
      HalvingsAreProbes((1 + cap) / 2 - 1);
    }
  }

  lemma {:induction false} HalvingsInRange(cap: int)
    ensures forall p :: p in Halvings(cap) ==> 1 <= p <= cap
    ensures cap >= 1 ==> 1 in Halvings(cap)
  {
    if cap < 1 {
    } else {
      HalvingsInRange((1 + cap) / 2 - 1);
    }
  }

  /** The counts tried while everything fits, cap the last of them. */
  function Climbing(cap: int): seq<int> {
    Probes(1, cap, cap)
  }

  /** The search comes back with nothing exactly if no halving of the cap fits,
      and with the cap exactly if all counts on the way up to it fit. */
  lemma SearchExtremes(fits: int -> bool, cap: int)
    requires cap >= 0
    ensures Largest(fits, cap) == 0 <==> forall p :: p in Halvings(cap) ==> !fits(p)
    ensures Largest(fits, cap) == cap <==> forall p :: p in Climbing(cap) ==> fits(p)
  {
    LargestIsExactly(fits, cap, 0);
    LargestIsExactly(fits, cap, cap);
    HalvingsAreProbes(cap);
    ProbesInRange(1, cap, 0);
    ProbesInRange(1, cap, cap);
  }

  /** When best is the largest count that fits, or 0 if none does, the search
      finds it exactly if every count up to best that it tries fits. */
  lemma FindsMaximumIff(fits: int -> bool, cap: int, best: int)
    requires 0 <= best <= cap && (best > 0 ==> fits(best))
    requires forall n :: best < n <= cap ==> !fits(n)
    ensures Largest(fits, cap) == best <==> forall p :: p in Probes(1, cap, best) && p <= best ==> fits(p)
  {
    LargestIsExactly(fits, cap, best);
    ProbesInRange(1, cap, best);
  }

  /** So the search can miss a count that fits, even the cap itself. */
  lemma LargestCanMissTheCap()
    ensures var fits := (n: int) => n == 2; fits(2) && Largest(fits, 2) == 0
  {
    var fits := (n: int) => n == 2;
    assert !fits(1);
    assert Search(fits, 1, 0) == 0;
  }

  // ------------------------------------------------------------------
  // Tool history texts
  // ------------------------------------------------------------------

  function ToolFits(text: string, tokenizer: Option<Tokenizer>, keep: Keep, special: bool, budget: int): int -> bool {
    n =>
      var trimmed := TrimByCount(text, n, tokenizer, keep);
      trimmed != "" && CountToolTokens(trimmed, tokenizer, special) <= budget
  }

  function TrimmedToBudget(text: string, budget: int, tokenizer: Option<Tokenizer>, keep: Keep, special: bool): string {
    var candidate := Strip(text);
    var effective := Max(0, budget);
    if effective <= 0 || candidate == "" then ""
    else if CountToolTokens(candidate, tokenizer, special) <= effective then candidate
    else LargestTrim(candidate, effective, tokenizer, keep, special)
  }

  function LargestTrim(text: string, budget: int, tokenizer: Option<Tokenizer>, keep: Keep, special: bool): string {
    var n := Largest(ToolFits(text, tokenizer, keep, special, budget), CountToolTokens(text, tokenizer, false));
    TrimByCount(text, n, tokenizer, keep)
  }

  method TrimToolTextToBudget(
      text: string, budget: int, tokenizer: Option<Tokenizer>, keep: Keep, special: bool)
    returns (best: string)
    ensures best == TrimmedToBudget(text, budget, tokenizer, keep, special)
  {
    var candidate := Strip(text);
    var effective := Max(0, budget);
    if effective <= 0 || candidate == "" {
      return "";
    }
    if CountToolTokens(candidate, tokenizer, special) <= effective {
      return candidate;
    }
    var tokenCount := CountToolTokens(candidate, tokenizer, false);
    var n := FindLargest(ToolFits(candidate, tokenizer, keep, special, effective), tokenCount);
    best := TrimByCount(candidate, n, tokenizer, keep);
  }

  datatype OversizePolicy = KeepLatestWhole | TrimLatestTail

  /** The lines chosen from texts, newest last, walking back from the newest. */
  function Selected(
      texts: seq<string>, lines: seq<string>, budget: int, tokenizer: Option<Tokenizer>, policy: OversizePolicy)
    : seq<string>
  {
    if texts == [] then lines
    else
      var older, stripped := texts[..|texts| - 1], Strip(texts[|texts| - 1]);
      if stripped == "" then Selected(older, lines, budget, tokenizer, policy)
      else if CountToolTokens(Join("\n", [stripped] + lines), tokenizer, true) <= budget then
        Selected(older, [stripped] + lines, budget, tokenizer, policy)
      else if lines != [] then lines
      else if policy == KeepLatestWhole then [stripped]
      else
        var clipped := TrimmedToBudget(stripped, budget, tokenizer, KeepEnd, true);
        if clipped != "" then [clipped] else []
  }

  function ToolHistory(
      texts: seq<string>, budget: int, tokenizer: Option<Tokenizer>, policy: OversizePolicy): string
  {
    Join("\n", Selected(texts, [], Max(1, budget), tokenizer, policy))
  }

  method BuildToolHistory(
      texts: seq<string>, budget: int, tokenizer: Option<Tokenizer>, policy: OversizePolicy)
    returns (history: string)
    ensures history == ToolHistory(texts, budget, tokenizer, policy)
  {
    var selectedLines: seq<string> := [];
    var effective := Max(1, budget);
    var i := |texts|;
    assert texts[..|texts|] == texts;
    hide CountToolTokens, Strip, Join, TrimmedToBudget;
    while i > 0
      invariant 0 <= i <= |texts|
      invariant Selected(texts[..i], selectedLines, effective, tokenizer, policy)
        == Selected(texts, [], effective, tokenizer, policy)
    {
      i := i - 1;
      assert texts[..i + 1][..i] == texts[..i];
      var stripped := Strip(texts[i]);
      if stripped == "" {
        continue;
      }
      var candidateText := Join("\n", [stripped] + selectedLines);
      if CountToolTokens(candidateText, tokenizer, true) <= effective {
        selectedLines := [stripped] + selectedLines;
        continue;
      }
      if selectedLines == [] {
        if policy == TrimLatestTail {
          var clipped := TrimToolTextToBudget(stripped, effective, tokenizer, KeepEnd, true);
          if clipped != "" {
            selectedLines := [clipped];
          }
        } else {
          selectedLines := [stripped];
        }
      }
      return Join("\n", selectedLines);
    }
    return Join("\n", selectedLines);
  }

  // ------------------------------------------------------------------
  // The budget of the tool history
  // ------------------------------------------------------------------

  /** For any tokenizer a trimmed text is within the budget. */
  lemma TrimmedIsWithinBudget(text: string, budget: int, tokenizer: Option<Tokenizer>, keep: Keep, special: bool)
    ensures var trimmed := TrimmedToBudget(text, budget, tokenizer, keep, special);
      CountToolTokens(trimmed, tokenizer, special) <= Max(0, budget)
  {
    var candidate, effective := Strip(text), Max(0, budget);
    var cap := CountToolTokens(candidate, tokenizer, false);
    LargestIsBoundary(ToolFits(candidate, tokenizer, keep, special, effective), cap);
  }

  /** A text that is too big is trimmed to n counts exactly if the counts tried on
      the way to n are within the budget, and leave something, up to n and not
      beyond it. */
  lemma TrimmedExactly(
      text: string, budget: int, tokenizer: Option<Tokenizer>, keep: Keep, special: bool, n: int)
    requires budget > 0 && Strip(text) != "" && CountToolTokens(Strip(text), tokenizer, special) > budget
    requires 0 <= n <= CountToolTokens(Strip(text), tokenizer, false)
    requires forall p :: p in Probes(1, CountToolTokens(Strip(text), tokenizer, false), n) ==>
      (p <= n <==>
        && TrimByCount(Strip(text), p, tokenizer, keep) != ""
        && CountToolTokens(TrimByCount(Strip(text), p, tokenizer, keep), tokenizer, special) <= budget)
    ensures TrimmedToBudget(text, budget, tokenizer, keep, special) == TrimByCount(Strip(text), n, tokenizer, keep)
  {
    hide Strip, CountToolTokens, TrimByCount, Largest, Probes;
    var candidate := Strip(text);
    var cap := CountToolTokens(candidate, tokenizer, false);
    LargestIsExactly(ToolFits(candidate, tokenizer, keep, special, budget), cap, n);
  }

  /** The non-blank texts, stripped. */
  function NonBlank(texts: seq<string>): seq<string> {
    if texts == [] then []
    else
      var last := Strip(texts[|texts| - 1]);
      NonBlank(texts[..|texts| - 1]) + if last == "" then [] else [last]
  }

  lemma {:induction false} SelectedWithinBudget(
      texts: seq<string>, lines: seq<string>, budget: int, tokenizer: Option<Tokenizer>, policy: OversizePolicy)
    requires budget >= 1 && CountToolTokens(Join("\n", lines), tokenizer, true) <= budget
    ensures policy == TrimLatestTail || lines != [] ==>
      CountToolTokens(Join("\n", Selected(texts, lines, budget, tokenizer, policy)), tokenizer, true) <= budget
  {
    if texts == [] {
    } else {
      var older, stripped := texts[..|texts| - 1], Strip(texts[|texts| - 1]);
      TrimmedIsWithinBudget(stripped, budget, tokenizer, KeepEnd, true);
      if stripped == "" {
        SelectedWithinBudget(older, lines, budget, tokenizer, policy);
      } else if CountToolTokens(Join("\n", [stripped] + lines), tokenizer, true) <= budget {
        SelectedWithinBudget(older, [stripped] + lines, budget, tokenizer, policy);
      }
    }
  }

  /** Under trim_latest_tail, no tokenizer makes the tool history exceed its effective budget. */
  lemma HistoryWithinBudget(texts: seq<string>, budget: int, tokenizer: Option<Tokenizer>)
    ensures var history := ToolHistory(texts, budget, tokenizer, TrimLatestTail);
      && CountToolTokens(history, tokenizer, true) <= Max(1, budget)
      && (tokenizer.Some? && history != "" ==> |tokenizer.value.encodeSpecial(history)| <= Max(1, budget))
  {
    SelectedWithinBudget(texts, [], Max(1, budget), tokenizer, TrimLatestTail);
    hide ToolHistory;
  }

  /** Under keep_latest_whole it can: exactly when the newest non-blank text alone does. */
  lemma {:induction false} WholeHistoryWithinBudget(texts: seq<string>, budget: int, tokenizer: Option<Tokenizer>)
    ensures var b := Max(1, budget); var lines := NonBlank(texts);
      CountToolTokens(ToolHistory(texts, budget, tokenizer, KeepLatestWhole), tokenizer, true) <= b <==>
        (lines == [] || CountToolTokens(lines[|lines| - 1], tokenizer, true) <= b)
  {
    var b := Max(1, budget);
    if texts == [] {
    } else {
      var older, stripped := texts[..|texts| - 1], Strip(texts[|texts| - 1]);
      assert [stripped] + [] == [stripped];
      if stripped == "" {
        WholeHistoryWithinBudget(older, budget, tokenizer);
        assert NonBlank(texts) == NonBlank(older);
      } else if CountToolTokens(stripped, tokenizer, true) <= b {
        SelectedWithinBudget(older, [stripped], b, tokenizer, KeepLatestWhole);
      }
    }
  }

  // ------------------------------------------------------------------
  // Which texts the history holds, for any tokenizer
  // ------------------------------------------------------------------

  /** The lines together are within the budget. */
  predicate JoinedFits(lines: seq<string>, tokenizer: Option<Tokenizer>, budget: int) {
    CountToolTokens(Join("\n", lines), tokenizer, true) <= budget
  }

  lemma ShiftLast(front: seq<string>, x: string, lines: seq<string>, k: nat)
    requires k <= |front|
    ensures (front + [x])[k..] + lines == front[k..] + ([x] + lines)
  {
  }

  lemma DropOfSnoc(front: seq<string>, x: string, k: nat)
    requires k <= |front|
    ensures (front + [x])[k..] == front[k..] + [x]
  {
  }

  /** One step of the walk back, with lines already taken. */
  lemma SelectedStep(
      texts: seq<string>, lines: seq<string>, budget: int, tokenizer: Option<Tokenizer>, policy: OversizePolicy)
    requires texts != [] && lines != []
    ensures var older, stripped := texts[..|texts| - 1], Strip(texts[|texts| - 1]);
      && NonBlank(texts) == NonBlank(older) + (if stripped == "" then [] else [stripped])
      && Selected(texts, lines, budget, tokenizer, policy) ==
        if stripped == "" then Selected(older, lines, budget, tokenizer, policy)
        else if JoinedFits([stripped] + lines, tokenizer, budget)
        then Selected(older, [stripped] + lines, budget, tokenizer, policy)
        else lines
  {
    hide Join, Strip, CountToolTokens, TrimmedToBudget;
  }

  /** From a non-empty start the walk back stops at the first text that does not fit any more. */
  lemma {:induction false} WalkBack(
      texts: seq<string>, lines: seq<string>, budget: int, tokenizer: Option<Tokenizer>, policy: OversizePolicy)
    returns (k: nat)
    requires lines != []
    ensures k <= |NonBlank(texts)|
    ensures Selected(texts, lines, budget, tokenizer, policy) == NonBlank(texts)[k..] + lines
    ensures forall j: nat :: k <= j < |NonBlank(texts)| ==> JoinedFits(NonBlank(texts)[j..] + lines, tokenizer, budget)
    ensures k > 0 ==> !JoinedFits(NonBlank(texts)[k - 1..] + lines, tokenizer, budget)
  {
    if texts == [] {
      k := 0;
      assert NonBlank(texts)[k..] + lines == lines;
    } else {
      hide *;
      var older, stripped := texts[..|texts| - 1], Strip(texts[|texts| - 1]);
      var all, before := NonBlank(texts), NonBlank(older);
      SelectedStep(texts, lines, budget, tokenizer, policy);
      if stripped == "" {
        assert all == before;
        k := WalkBack(older, lines, budget, tokenizer, policy);
      } else if JoinedFits([stripped] + lines, tokenizer, budget) {
        k := WalkBack(older, [stripped] + lines, budget, tokenizer, policy);
        forall j: nat | j <= |before|
          ensures all[j..] + lines == before[j..] + ([stripped] + lines)
        {
          ShiftLast(before, stripped, lines, j);
        }
        assert before[|before|..] + ([stripped] + lines) == [stripped] + lines;
      } else {
        k := |all|;
        assert all[k..] + lines == lines;
        assert all[k - 1..] == [stripped];
      }
    }
  }

  /** The walk back from the newest text on. */
  lemma SelectedFromNewest(texts: seq<string>, budget: int, tokenizer: Option<Tokenizer>, policy: OversizePolicy)
    requires texts != []
    ensures var older, stripped := texts[..|texts| - 1], Strip(texts[|texts| - 1]);
      && NonBlank(texts) == NonBlank(older) + (if stripped == "" then [] else [stripped])
      && Selected(texts, [], budget, tokenizer, policy) ==
        if stripped == "" then Selected(older, [], budget, tokenizer, policy)
        else if JoinedFits([stripped], tokenizer, budget) then Selected(older, [stripped], budget, tokenizer, policy)
        else if policy == KeepLatestWhole then [stripped]
        else
          var clipped := TrimmedToBudget(stripped, budget, tokenizer, KeepEnd, true);
          if clipped == "" then [] else [clipped]
  {
    hide Join, Strip, CountToolTokens, TrimmedToBudget;
    assert [Strip(texts[|texts| - 1])] + [] == [Strip(texts[|texts| - 1])];
  }

  lemma JoinOne(sep: string, x: string)
    ensures Join(sep, []) == "" && Join(sep, [x]) == x
  {
  }

  /** For any tokenizer, when the newest non-blank text fits: the history is a
      suffix of the non-blank texts; it and every shorter one fit, and with one
      more text it would not. */
  lemma {:induction false} HistorySuffix(
      texts: seq<string>, budget: int, tokenizer: Option<Tokenizer>, policy: OversizePolicy) returns (k: nat)
    requires NonBlank(texts) != [] && JoinedFits(NonBlank(texts)[|NonBlank(texts)| - 1..], tokenizer, Max(1, budget))
    ensures k < |NonBlank(texts)|
    ensures ToolHistory(texts, budget, tokenizer, policy) == Join("\n", NonBlank(texts)[k..])
    ensures forall j: nat :: k <= j < |NonBlank(texts)| ==> JoinedFits(NonBlank(texts)[j..], tokenizer, Max(1, budget))
    ensures k > 0 ==> !JoinedFits(NonBlank(texts)[k - 1..], tokenizer, Max(1, budget))
  {
    hide Strip, Join, JoinedFits, Selected, TrimmedToBudget;
    var b, all := Max(1, budget), NonBlank(texts);
    var older, stripped := texts[..|texts| - 1], Strip(texts[|texts| - 1]);
    var before := NonBlank(older);
    SelectedFromNewest(texts, b, tokenizer, policy);
    if stripped == "" {
      assert all == before;
      k := HistorySuffix(older, budget, tokenizer, policy);
    } else {
      hide NonBlank;
      assert all[|all| - 1..] == [stripped];
      k := WalkBack(older, [stripped], b, tokenizer, policy);
      forall j: nat | j <= |before|
        ensures all[j..] == before[j..] + [stripped]
      {
        DropOfSnoc(before, stripped, j);
      }
    }
  }

  /** For any tokenizer, when the newest non-blank text is too big: the history is
      that text, whole, or trimmed to its end within the budget. */
  lemma {:induction false} OversizedHistory(
      texts: seq<string>, budget: int, tokenizer: Option<Tokenizer>, policy: OversizePolicy)
    requires NonBlank(texts) != [] && !JoinedFits(NonBlank(texts)[|NonBlank(texts)| - 1..], tokenizer, Max(1, budget))
    ensures var newest := NonBlank(texts)[|NonBlank(texts)| - 1];
      ToolHistory(texts, budget, tokenizer, policy) ==
        if policy == KeepLatestWhole then newest
        else TrimmedToBudget(newest, Max(1, budget), tokenizer, KeepEnd, true)
  {
    hide Strip, Join, JoinedFits, Selected, TrimmedToBudget;
    var b, all := Max(1, budget), NonBlank(texts);
    var older, stripped := texts[..|texts| - 1], Strip(texts[|texts| - 1]);
    SelectedFromNewest(texts, b, tokenizer, policy);
    if stripped == "" {
      assert all == NonBlank(older);
      OversizedHistory(older, budget, tokenizer, policy);
    } else {
      hide NonBlank;
      assert all[|all| - 1..] == [stripped];
      JoinOne("\n", stripped);
      JoinOne("\n", TrimmedToBudget(stripped, b, tokenizer, KeepEnd, true));
    }
  }

  /** NonBlank has, in order, exactly the texts that are not blank, stripped. */
  ghost predicate TextPicks(texts: seq<string>, kept: seq<string>, picks: seq<nat>) {
    && Increasing(picks, |texts|) && |picks| == |kept|
    && (forall j: nat :: j < |texts| ==> (j in picks <==> Strip(texts[j]) != ""))
    && (forall k :: 0 <= k < |picks| ==> kept[k] == Strip(texts[picks[k]]))
  }

  lemma TextPicksSnoc(texts: seq<string>, kept: seq<string>, picks: seq<nat>, text: string)
    requires TextPicks(texts, kept, picks)
    ensures Strip(text) == "" ==> TextPicks(texts + [text], kept, picks)
    ensures Strip(text) != "" ==> TextPicks(texts + [text], kept + [Strip(text)], picks + [|texts|])
  {
    hide Strip;
    var more := picks + [|texts|];
    assert forall j: nat :: j in more <==> j in picks || j == |texts|;
    assert forall j: nat :: j in picks ==> j < |texts|;
  }

  lemma {:induction false} NonBlankIs(texts: seq<string>) returns (picks: seq<nat>)
    ensures TextPicks(texts, NonBlank(texts), picks)
  {
    if texts == [] {
      picks := [];
    } else {
      var front, last := texts[..|texts| - 1], texts[|texts| - 1];
      picks := NonBlankIs(front);
      assert texts == front + [last];
      hide Strip, TextPicks;
      TextPicksSnoc(front, NonBlank(front), picks, last);
      if Strip(last) == "" {
        assert NonBlank(texts) == NonBlank(front);
      } else {
        picks := picks + [|front|];
      }
    }
  }

  // ------------------------------------------------------------------
  // The same with the whitespace counter, exactly
  // ------------------------------------------------------------------

  lemma JoinedCount(lines: seq<string>)
    requires lines != [] && Strip(lines[0]) != ""
    ensures CountToolTokens(Join("\n", lines), None, true) == |WordsOfAll(lines)| + 2
    ensures CountToolTokens(Join("\n", lines), None, false) == |WordsOfAll(lines)|
  {
    WordsOfJoin('\n', lines);
    NoWordsIffBlank(lines[0]);
  }

  /** The lines together, with the two special tokens, are within the budget. */
  predicate LinesFit(lines: seq<string>, budget: int) {
    |WordsOfAll(lines)| + 2 <= budget
  }

  /** Counting words is counting lines that have been stripped and are not blank. */
  lemma FitsInWords(texts: seq<string>, j: nat, budget: int)
    requires j < |NonBlank(texts)|
    ensures JoinedFits(NonBlank(texts)[j..], None, budget) <==> LinesFit(NonBlank(texts)[j..], budget)
    ensures Trimmed(NonBlank(texts)[j])
  {
    var picks := NonBlankIs(texts);
    assert NonBlank(texts)[j] == Strip(texts[picks[j]]) != "" by {
      assert picks[j] in picks;
    }
    StripIsTrimmed(texts[picks[j]]);
    StripTwice(texts[picks[j]]);
    hide Strip, NonBlank, Trimmed, Words, WordsOfAll, CountToolTokens, Join;
    JoinedCount(NonBlank(texts)[j..]);
  }

  lemma {:induction false} FewerLinesFewerWords(lines: seq<string>, j: nat, k: nat)
    requires j <= k <= |lines|
    ensures |WordsOfAll(lines[k..])| <= |WordsOfAll(lines[j..])|
    decreases k - j
  {
    if j == k {
    } else {
      FewerLinesFewerWords(lines, j + 1, k);
      assert lines[j..][1..] == lines[j + 1..];
    }
  }

  /** When the newest non-blank text fits, the history is the longest suffix of
      the non-blank texts that fits. */
  lemma FallbackHistorySuffix(texts: seq<string>, budget: int, policy: OversizePolicy) returns (k: nat)
    requires NonBlank(texts) != [] && LinesFit(NonBlank(texts)[|NonBlank(texts)| - 1..], Max(1, budget))
    ensures k < |NonBlank(texts)|
    ensures ToolHistory(texts, budget, None, policy) == Join("\n", NonBlank(texts)[k..])
    ensures forall j: nat :: j < |NonBlank(texts)| ==> (LinesFit(NonBlank(texts)[j..], Max(1, budget)) <==> k <= j)
  {
    var b, all := Max(1, budget), NonBlank(texts);
    forall j: nat | j < |all|
      ensures JoinedFits(all[j..], None, b) <==> LinesFit(all[j..], b)
    {
      FitsInWords(texts, j, b);
    }
    hide NonBlank, JoinedFits, ToolHistory, Join;
    k := HistorySuffix(texts, budget, None, policy);
    forall j: nat | j < |all|
      ensures LinesFit(all[j..], b) <==> k <= j
    {
      if k <= j {
        FewerLinesFewerWords(all, k, j);
      } else {
        FewerLinesFewerWords(all, j, k - 1);
      }
    }
  }

  lemma FallbackFits(text: string, keep: Keep, budget: int, n: int)
    requires 1 <= n <= |Words(text)|
    ensures ToolFits(text, None, keep, true, budget)(n) <==> n + 2 <= budget
  {
    FallbackTrimWords(text, n, keep);
  }

  /** The last n words, or all of them when there are fewer. */
  function LastWords(text: string, n: int): string {
    var words := Words(text);
    if n <= 0 then "" else Join(" ", if n <= |words| then words[|words| - n..] else words)
  }

  /** When a text alone is too big, its last budget - 2 words are kept. */
  lemma FallbackTrimExact(text: string, budget: int)
    requires budget >= 1 && Trimmed(text) && |Words(text)| + 2 > budget
    ensures TrimmedToBudget(text, budget, None, KeepEnd, true) == LastWords(text, budget - 2)
  {
    hide Largest, ToolFits, Words, Strip, Join;
    StripOfTrimmed(text);
    NoWordsIffBlank(text);
    FallbackLargestTrim(text, budget);
  }

  lemma FallbackLargestTrim(text: string, budget: int)
    requires budget >= 1 && |Words(text)| + 2 > budget && Words(text) != []
    ensures Largest(ToolFits(text, None, KeepEnd, true, budget), |Words(text)|) == Max(0, budget - 2)
  {
    var cap := |Words(text)|;
    var fits := ToolFits(text, None, KeepEnd, true, budget);
    forall n | 1 <= n <= cap
      ensures fits(n) <==> n + 2 <= budget
    {
      FallbackFits(text, KeepEnd, budget, n);
    }
    hide ToolFits, Words;
    LargestIsMaximum(fits, cap);
    if budget > 2 {
      assert fits(budget - 2) && !fits(budget - 1);
    } else {
      assert !fits(1);
    }
  }

  /** When the newest non-blank text is too big, the history is its longest fitting word tail. */
  lemma FallbackHistoryTail(texts: seq<string>, budget: int)
    requires NonBlank(texts) != [] && !LinesFit(NonBlank(texts)[|NonBlank(texts)| - 1..], Max(1, budget))
    ensures ToolHistory(texts, budget, None, TrimLatestTail)
      == LastWords(NonBlank(texts)[|NonBlank(texts)| - 1], Max(1, budget) - 2)
  {
    hide *;
    var b, all := Max(1, budget), NonBlank(texts);
    var newest := all[|all| - 1];
    FitsInWords(texts, |all| - 1, b);
    assert all[|all| - 1..] == [newest];
    OneLineFits(newest, b);
    OversizedHistory(texts, budget, None, TrimLatestTail);
    FallbackTrimExact(newest, b);
  }

  lemma OneLineFits(line: string, budget: int)
    ensures LinesFit([line], budget) <==> |Words(line)| + 2 <= budget
  {
    assert WordsOfAll([line]) == Words(line) + WordsOfAll([]);
  }
}
