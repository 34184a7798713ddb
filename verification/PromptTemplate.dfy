/** The messages and the prompt built for the chat model (src/execution/chat/template_builder.py). */
module PromptTemplate {
  import opened Options
  import opened Text
  import opened ChatHistory

  datatype PromptRole = SystemRole | Speaker(role: Role)

  datatype PromptMessage = PromptMessage(role: PromptRole, content: string)

  function AddMessage(ms: seq<PromptMessage>, role: Role, content: string): seq<PromptMessage> {
    var c := Strip(content);
    if c == "" then ms
    else if ms != [] && ms[|ms| - 1].role == Speaker(role) then
      ms[..|ms| - 1] + [PromptMessage(Speaker(role), ms[|ms| - 1].content + "\n\n" + c)]
    else ms + [PromptMessage(Speaker(role), c)]
  }

  function AddAll(ms: seq<PromptMessage>, history: seq<ChatMessage>): seq<PromptMessage> {
    if history == [] then ms
    else
      var last := history[|history| - 1];
      AddMessage(AddAll(ms, history[..|history| - 1]), last.role, last.content)
  }

  function SystemPart(system: string): seq<PromptMessage> {
    if Strip(system) == "" then [] else [PromptMessage(SystemRole, Strip(system))]
  }

  /** The history with the new user text as its last message. */
  function WithUser(history: seq<ChatMessage>, user: Option<string>): seq<ChatMessage> {
    history + if user.Some? then [ChatMessage(User, user.value)] else []
  }

  function Messages(system: string, history: seq<ChatMessage>, user: Option<string>): seq<PromptMessage> {
    AddAll(SystemPart(system), WithUser(history, user))
  }

  method AppendMessage(ms: seq<PromptMessage>, role: Role, content: string) returns (r: seq<PromptMessage>)
    ensures r == AddMessage(ms, role, content)
  {
    r := ms;
    var c := Strip(content);
    if c == "" {
      return;
    }
    if r != [] && r[|r| - 1].role == Speaker(role) {
      r := r[|r| - 1 := r[|r| - 1].(content := r[|r| - 1].content + "\n\n" + c)];
      return;
    }
    r := r + [PromptMessage(Speaker(role), c)];
  }

  method BuildMessages(system: string, history: seq<ChatMessage>, user: Option<string>)
    returns (ms: seq<PromptMessage>)
    ensures ms == Messages(system, history, user)
  {
    ms := [];
    if Strip(system) != "" {
      ms := ms + [PromptMessage(SystemRole, Strip(system))];
    }
    for i := 0 to |history|
      invariant ms == AddAll(SystemPart(system), history[..i])
    {
      assert history[..i + 1][..i] == history[..i];
      ms := AppendMessage(ms, history[i].role, history[i].content);
    }
    assert history[..|history|] == history;
    assert history + [] == history;
    if user.Some? {
      assert WithUser(history, user)[..|history|] == history;
      ms := AppendMessage(ms, User, user.value);
    }
  }

  // ------------------------------------------------------------------
  // What the messages are: one per run of messages with the same role
  // ------------------------------------------------------------------

  function RunLen(ms: seq<ChatMessage>): (n: nat)
    requires ms != []
    ensures 1 <= n <= |ms| && (forall i :: 0 <= i < n ==> ms[i].role == ms[0].role)
    ensures n < |ms| ==> ms[n].role != ms[0].role
  {
    if |ms| == 1 || ms[1].role != ms[0].role then 1 else 1 + RunLen(ms[1..])
  }

  function Merged(ms: seq<ChatMessage>): seq<PromptMessage>
    decreases |ms|
  {
    if ms == [] then []
    else
      var n := RunLen(ms);
      [PromptMessage(Speaker(ms[0].role), Join("\n\n", Contents(ms[..n])))] + Merged(ms[n..])
  }

  /** How one more message extends the merged runs. */
  function MergedWith(ms: seq<PromptMessage>, m: ChatMessage): seq<PromptMessage> {
    if ms != [] && ms[|ms| - 1].role == Speaker(m.role) then
      ms[..|ms| - 1] + [PromptMessage(Speaker(m.role), ms[|ms| - 1].content + "\n\n" + m.content)]
    else ms + [PromptMessage(Speaker(m.role), m.content)]
  }

  lemma {:induction false} RunLenIs(ms: seq<ChatMessage>, n: nat)
    requires 1 <= n <= |ms| && (forall i :: 0 <= i < n ==> ms[i].role == ms[0].role)
    requires n < |ms| ==> ms[n].role != ms[0].role
    ensures RunLen(ms) == n
  {
    var k := RunLen(ms);
    assert k < |ms| ==> ms[k].role != ms[0].role;
    assert ms[k - 1].role == ms[0].role;
  }

  lemma {:induction false} MergedFirstRole(ms: seq<ChatMessage>)
    requires ms != []
    ensures Merged(ms) != [] && Merged(ms)[0].role == Speaker(ms[0].role)
  {
  }

  lemma {:induction false} MergedOneRun(ms: seq<ChatMessage>)
    requires ms != [] && forall i :: 0 <= i < |ms| ==> ms[i].role == ms[0].role
    ensures Merged(ms) == [PromptMessage(Speaker(ms[0].role), Join("\n\n", Contents(ms)))]
  {
    RunLenIs(ms, |ms|);
    assert ms[..|ms|] == ms && ms[|ms|..] == [];
  }

  lemma {:induction false} MergedFirstRun(run: seq<ChatMessage>, rest: seq<ChatMessage>)
    requires run != [] && forall i :: 0 <= i < |run| ==> run[i].role == run[0].role
    requires rest != [] ==> rest[0].role != run[0].role
    ensures Merged(run + rest) == [PromptMessage(Speaker(run[0].role), Join("\n\n", Contents(run)))] + Merged(rest)
  {
    var ms := run + rest;
    RunLenIs(ms, |run|);
    assert ms[..|run|] == run && ms[|run|..] == rest;
  }

  lemma {:induction false} MergedRunGrows(ms: seq<ChatMessage>, m: ChatMessage)
    requires ms != [] && forall i :: 0 <= i < |ms| ==> ms[i].role == m.role
    ensures Merged(ms + [m]) == MergedWith(Merged(ms), m)
  {
    MergedOneRun(ms);
    MergedOneRun(ms + [m]);
    JoinSnoc("\n\n", Contents(ms), m.content);
    ContentsSnoc(ms, m);
  }

  /** A message that does not join the first run is added to what follows it. */
  lemma MergedAfterRun(run: seq<ChatMessage>, rest: seq<ChatMessage>, m: ChatMessage)
    requires run != [] && forall i :: 0 <= i < |run| ==> run[i].role == run[0].role
    requires rest != [] ==> rest[0].role != run[0].role
    requires rest == [] ==> m.role != run[0].role
    requires Merged(rest + [m]) == MergedWith(Merged(rest), m)
    ensures Merged(run + (rest + [m])) == MergedWith(Merged(run + rest), m)
  {
    hide Merged, Join, Contents;
    MergedFirstRun(run, rest);
    MergedFirstRun(run, rest + [m]);
    if rest == [] {
      MergedEmpty();
    } else {
      MergedFirstRole(rest);
    }
    MergedWithTail(PromptMessage(Speaker(run[0].role), Join("\n\n", Contents(run))), Merged(rest), m);
  }

  lemma MergedFirst(m: ChatMessage)
    ensures Merged([m]) == MergedWith(Merged([]), m)
  {
    MergedOneRun([m]);
    ContentsSnoc([], m);
    hide Merged;
    MergedEmpty();
  }

  lemma {:induction false} MergedSnoc(ms: seq<ChatMessage>, m: ChatMessage)
    ensures Merged(ms + [m]) == MergedWith(Merged(ms), m)
    decreases |ms|
  {
    hide *;
    if ms == [] {
      MergedFirst(m);
      assert ms + [m] == [m];
    } else {
      var run, rest := ms[..RunLen(ms)], ms[RunLen(ms)..];
      assert ms == run + rest;
      if rest == [] && m.role == ms[0].role {
        MergedRunGrows(ms, m);
      } else {
        MergedSnoc(rest, m);
        MergedAfterRun(run, rest, m);
        assert ms + [m] == run + (rest + [m]);
      }
    }
  }

  lemma MergedWithTail(first: PromptMessage, rest: seq<PromptMessage>, m: ChatMessage)
    requires rest == [] ==> first.role != Speaker(m.role)
    ensures MergedWith([first] + rest, m) == [first] + MergedWith(rest, m)
  {
  }

  lemma AddToRuns(base: seq<PromptMessage>, runs: seq<PromptMessage>, role: Role, content: string)
    requires base == [] || base[|base| - 1].role == SystemRole
    ensures AddMessage(base + runs, role, content) ==
      if Strip(content) == "" then base + runs else base + MergedWith(runs, ChatMessage(role, Strip(content)))
  {
    hide Strip;
  }

  lemma {:induction false} AddAllMerges(base: seq<PromptMessage>, history: seq<ChatMessage>)
    requires base == [] || base[|base| - 1].role == SystemRole
    ensures AddAll(base, history) == base + Merged(Copied(history))
  {
    hide Merged, Strip, AddMessage;
    if history != [] {
      var front, last := history[..|history| - 1], history[|history| - 1];
      AddAllMerges(base, front);
      assert history == front + [last];
      CopiedAppend(front, [last]);
      assert Copied([last][1..]) == [];
      if Strip(last.content) == "" {
        assert Copied(history) == Copied(front);
      } else {
        assert Copied(history) == Copied(front) + [ChatMessage(last.role, Strip(last.content))];
      }
      AddToRuns(base, Merged(Copied(front)), last.role, last.content);
      MergedSnoc(Copied(front), ChatMessage(last.role, Strip(last.content)));
    } else {
      MergedEmpty();
    }
  }

  lemma MergedEmpty()
    ensures Merged([]) == []
  {
  }

  /** The messages are the system text, if any, followed by one message for
      each run of the stripped history and user text. */
  lemma MessagesAreRuns(system: string, history: seq<ChatMessage>, user: Option<string>)
    ensures Messages(system, history, user) == SystemPart(system) + Merged(Copied(WithUser(history, user)))
  {
    AddAllMerges(SystemPart(system), WithUser(history, user));
  }

  lemma {:induction false} MergedAlternates(ms: seq<ChatMessage>)
    ensures forall i :: 0 <= i < |Merged(ms)| ==> Merged(ms)[i].role.Speaker?
    ensures forall i :: 0 < i < |Merged(ms)| ==> Merged(ms)[i - 1].role != Merged(ms)[i].role
    decreases |ms|
  {
    if ms == [] {
    } else {
      var rest := ms[RunLen(ms)..];
      MergedAlternates(rest);
      if rest != [] {
        MergedFirstRole(rest);
      }
    }
  }

  /** At most one system message, at the head; roles strictly alternate after it. */
  lemma MessagesAlternate(system: string, history: seq<ChatMessage>, user: Option<string>)
    ensures var ms := Messages(system, history, user);
      && (forall i :: 0 <= i < |ms| ==> (ms[i].role == SystemRole <==> i == 0 && Strip(system) != ""))
      && (forall i :: 0 < i < |ms| ==> ms[i - 1].role != ms[i].role)
  {
    MessagesAreRuns(system, history, user);
    var runs := Merged(Copied(WithUser(history, user)));
    MergedAlternates(Copied(WithUser(history, user)));
    assert forall i :: 0 <= i < |runs| ==> runs[i].role != SystemRole;
  }

  /** Grouping a history into turns and flattening it again does not change the messages. */
  lemma RegroupingKeepsMessages(system: string, history: seq<ChatMessage>, user: Option<string>)
    ensures Messages(system, Flattened(Grouped(Copied(history))), user) == Messages(system, history, user)
  {
    var regrouped := Flattened(Grouped(Copied(history)));
    GroupedShape(Copied(history));
    FlattenUndoesGroup(history, 0);
    CopiedIsClean(history);
    CopiedOfClean(Copied(history));
    var tail := if user.Some? then [ChatMessage(User, user.value)] else [];
    CopiedAppend(history, tail);
    CopiedAppend(regrouped, tail);
    MessagesAreRuns(system, history, user);
    MessagesAreRuns(system, regrouped, user);
  }

  // ------------------------------------------------------------------
  // The prompt
  // ------------------------------------------------------------------

  /** None when the tokenizer has no usable chat template. */
  type Template = seq<PromptMessage> -> Option<string>

  function PromptRoleName(role: PromptRole): string {
    match role
    case SystemRole => "system"
    case Speaker(r) => RoleName(r)
  }

  function ChatMlLines(ms: seq<PromptMessage>): seq<string> {
    if ms == [] then []
    else ["<|im_start|>" + PromptRoleName(ms[0].role), ms[0].content, "<|im_end|>"] + ChatMlLines(ms[1..])
  }

  function ApplyTemplate(template: Template, ms: seq<PromptMessage>): string {
    match template(ms)
    case Some(prompt) => prompt
    case None => Join("\n", ChatMlLines(ms) + ["<|im_start|>assistant"])
  }

  function ComposeSystem(staticPrefix: string, runtimeText: string): string {
    var a, b := Strip(staticPrefix), Strip(runtimeText);
    Join("\n\n", (if a == "" then [] else [a]) + (if b == "" then [] else [b]))
  }

  lemma JoinFew(sep: string, a: string, b: string)
    ensures Join(sep, []) == "" && Join(sep, [a]) == a && Join(sep, [a, b]) == a + sep + b
  {
    assert [a, b][1..] == [b];
  }

  lemma ComposedText(staticPrefix: string, runtimeText: string)
    ensures var a, b := Strip(staticPrefix), Strip(runtimeText);
      ComposeSystem(staticPrefix, runtimeText) == if a != "" && b != "" then a + "\n\n" + b else a + b
  {
    hide Strip, Join;
    var a, b := Strip(staticPrefix), Strip(runtimeText);
    JoinFew("\n\n", a, b);
    JoinFew("\n\n", b, a);
    if a == "" {
      assert a + b == b;
      assert [] + [b] == [b];
    } else if b == "" {
      assert a + b == a;
      assert [a] + [] == [a];
    } else {
      assert [a] + [b] == [a, b];
    }
  }

  /** The system text: the two parts, stripped, the blank ones left out, with a blank line between. */
  lemma ComposedSystem(staticPrefix: string, runtimeText: string)
    ensures var a, b := Strip(staticPrefix), Strip(runtimeText);
      var system := if a != "" && b != "" then a + "\n\n" + b else a + b;
      SystemPart(ComposeSystem(staticPrefix, runtimeText)) ==
        if system == "" then [] else [PromptMessage(SystemRole, system)]
  {
    var a, b := Strip(staticPrefix), Strip(runtimeText);
    var system := if a != "" && b != "" then a + "\n\n" + b else a + b;
    ComposedText(staticPrefix, runtimeText);
    StripIsTrimmed(staticPrefix);
    StripIsTrimmed(runtimeText);
    assert system == "" || Trimmed(system) by {
      if a != "" && b != "" {
        JoinTrimmed(a, "\n\n", b);
      } else {
        assert a + "" == a && "" + b == b;
      }
    }
    StripOfTrimmed(system);
    hide Strip, ComposeSystem;
  }

  /** lines has the three ChatML lines of message m from position k on. */
  ghost predicate LinesOfMessage(lines: seq<string>, k: nat, m: PromptMessage) {
    && k + 2 < |lines|
    && lines[k] == "<|im_start|>" +
         (match m.role case SystemRole => "system" case Speaker(User) => "user" case Speaker(Assistant) => "assistant")
    && lines[k + 1] == m.content && lines[k + 2] == "<|im_end|>"
  }

  lemma LinesLater(front: seq<string>, lines: seq<string>, k: nat, m: PromptMessage)
    requires LinesOfMessage(lines, k, m)
    ensures LinesOfMessage(front + lines, |front| + k, m)
  {
  }

  lemma LinesFirst(m: PromptMessage, rest: seq<string>)
    ensures LinesOfMessage(["<|im_start|>" + PromptRoleName(m.role), m.content, "<|im_end|>"] + rest, 0, m)
  {
  }

  /** The fallback text has three lines for each message, in order. */
  lemma {:induction false} ChatMlLinesAre(ms: seq<PromptMessage>, i: nat)
    ensures |ChatMlLines(ms)| == 3 * |ms|
    ensures i < |ms| ==> LinesOfMessage(ChatMlLines(ms), 3 * i, ms[i])
    decreases |ms|
  {
    if ms == [] {
    } else {
      var front := ["<|im_start|>" + PromptRoleName(ms[0].role), ms[0].content, "<|im_end|>"];
      var rest := ChatMlLines(ms[1..]);
      assert ChatMlLines(ms) == front + rest;
      hide ChatMlLines, LinesOfMessage;
      if i == 0 {
        ChatMlLinesAre(ms[1..], 0);
        LinesFirst(ms[0], rest);
      } else {
        ChatMlLinesAre(ms[1..], i - 1);
        if i < |ms| {
          LinesLater(front, rest, 3 * (i - 1), ms[i]);
        }
      }
    }
  }

  lemma LinesAreUnique(a: seq<string>, b: seq<string>, ms: seq<PromptMessage>)
    requires |a| == |b| == 3 * |ms|
    requires forall i :: 0 <= i < |ms| ==> LinesOfMessage(a, 3 * i, ms[i]) && LinesOfMessage(b, 3 * i, ms[i])
    ensures a == b
  {
    forall j | 0 <= j < |a|
      ensures a[j] == b[j]
    {
      var i := j / 3;
      assert 3 * i <= j < 3 * i + 3 && 0 <= i < |ms|;
      assert LinesOfMessage(a, 3 * i, ms[i]) && LinesOfMessage(b, 3 * i, ms[i]);
    }
  }

  /** A template that answers gives the prompt; without an answer it is the
      messages' ChatML lines and an open assistant line. */
  lemma AppliedTemplate(template: Template, ms: seq<PromptMessage>, lines: seq<string>)
    requires |lines| == 3 * |ms| + 1 && lines[3 * |ms|] == "<|im_start|>assistant"
    requires forall i :: 0 <= i < |ms| ==> LinesOfMessage(lines, 3 * i, ms[i])
    ensures template(ms).Some? ==> template(ms) == Some(ApplyTemplate(template, ms))
    ensures template(ms).None? ==> ApplyTemplate(template, ms) == Join("\n", lines)
  {
    hide *;
    var own, front := ChatMlLines(ms), lines[..3 * |ms|];
    ChatMlLinesAre(ms, 0);
    forall i | 0 <= i < |ms|
      ensures LinesOfMessage(own, 3 * i, ms[i]) && LinesOfMessage(front, 3 * i, ms[i])
    {
      ChatMlLinesAre(ms, i);
      LinesBefore(lines, 3 * |ms|, 3 * i, ms[i]);
    }
    LinesAreUnique(own, front, ms);
    assert lines == front + ["<|im_start|>assistant"];
    ApplyTemplateIs(template, ms);
  }

  lemma LinesBefore(lines: seq<string>, n: nat, k: nat, m: PromptMessage)
    requires LinesOfMessage(lines, k, m) && k + 3 <= n <= |lines|
    ensures LinesOfMessage(lines[..n], k, m)
  {
  }

  lemma ApplyTemplateIs(template: Template, ms: seq<PromptMessage>)
    ensures ApplyTemplate(template, ms) ==
      match template(ms)
      case Some(prompt) => prompt
      case None => Join("\n", ChatMlLines(ms) + ["<|im_start|>assistant"])
  {
  }
}
