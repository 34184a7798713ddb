/**
 Chat history as whole turns (src/helpers/chat_history.py), its import from
 client items (src/handlers/session/parsing.py,
 src/handlers/session/history/controller.py), and the messages built from it for
 the chat template (src/execution/chat/template_builder.py).
 */
module ChatHistory {
  import opened Numbers
  import opened Options
  import opened Text

  datatype Role = User | Assistant

  datatype ChatMessage = ChatMessage(role: Role, content: string)

  type Turn = seq<ChatMessage>

  // ------------------------------------------------------------------
  // Copies
  // ------------------------------------------------------------------

  /** The non-blank messages, stripped. */
  function Copied(ms: seq<ChatMessage>): seq<ChatMessage> {
    if ms == [] then []
    else if Strip(ms[0].content) == "" then Copied(ms[1..])
    else [ChatMessage(ms[0].role, Strip(ms[0].content))] + Copied(ms[1..])
  }

  /** Every content is stripped and not blank. */
  predicate Clean(ms: seq<ChatMessage>) {
    forall i :: 0 <= i < |ms| ==> Trimmed(ms[i].content)
  }

  lemma {:induction false} CopiedAppend(a: seq<ChatMessage>, b: seq<ChatMessage>)
    ensures Copied(a + b) == Copied(a) + Copied(b)
  {
    if a == [] {
      assert a + b == b;
    } else {
      assert (a + b)[1..] == a[1..] + b;
      CopiedAppend(a[1..], b);
    }
  }

  lemma CopiedSnoc(ms: seq<ChatMessage>, m: ChatMessage)
    ensures Copied(ms + [m]) ==
      Copied(ms) + if Strip(m.content) == "" then [] else [ChatMessage(m.role, Strip(m.content))]
  {
    CopiedAppend(ms, [m]);
    assert Copied([m][1..]) == [];
  }

  /** copy has, at position k, message picks[k], stripped; picks are the messages that are not blank. */
  ghost predicate CopyPicks(ms: seq<ChatMessage>, copy: seq<ChatMessage>, picks: seq<nat>) {
    && Increasing(picks, |ms|) && |picks| == |copy|
    && (forall j: nat :: j < |ms| ==> (j in picks <==> Strip(ms[j].content) != ""))
    && (forall k :: 0 <= k < |picks| ==> copy[k] == ChatMessage(ms[picks[k]].role, Strip(ms[picks[k]].content)))
  }

  lemma CopyPicksSnoc(ms: seq<ChatMessage>, copy: seq<ChatMessage>, picks: seq<nat>, m: ChatMessage)
    requires CopyPicks(ms, copy, picks)
    ensures Strip(m.content) == "" ==> CopyPicks(ms + [m], copy, picks)
    ensures Strip(m.content) != "" ==>
      CopyPicks(ms + [m], copy + [ChatMessage(m.role, Strip(m.content))], picks + [|ms|])
  {
    hide Strip;
    var more := picks + [|ms|];
    assert forall j: nat :: j in more <==> j in picks || j == |ms|;
    assert forall j: nat :: j in picks ==> j < |ms|;
  }

  /** The copy has, in order, exactly the messages that are not blank, stripped. */
  lemma {:induction false} CopiedIs(ms: seq<ChatMessage>) returns (picks: seq<nat>)
    ensures CopyPicks(ms, Copied(ms), picks)
  {
    if ms == [] {
      picks := [];
    } else {
      hide *;
      var front, last := ms[..|ms| - 1], ms[|ms| - 1];
      picks := CopiedIs(front);
      assert ms == front + [last];
      CopiedSnoc(front, last);
      CopyPicksSnoc(front, Copied(front), picks, last);
      if Strip(last.content) == "" {
        assert Copied(front) + [] == Copied(front);
      } else {
        picks := picks + [|front|];
      }
    }
  }

  lemma {:induction false} CopiedIsClean(ms: seq<ChatMessage>)
    ensures Clean(Copied(ms))
  {
    if ms == [] {
    } else {
      CopiedIsClean(ms[1..]);
      StripIsTrimmed(ms[0].content);
    }
  }

  lemma {:induction false} CopiedOfClean(ms: seq<ChatMessage>)
    requires Clean(ms)
    ensures Copied(ms) == ms
  {
    if ms == [] {
    } else {
      CopiedOfClean(ms[1..]);
      StripOfTrimmed(ms[0].content);
    }
  }

  method CopyChatMessages(ms: seq<ChatMessage>) returns (copied: seq<ChatMessage>)
    ensures copied == Copied(ms)
  {
    copied := [];
    for i := 0 to |ms|
      invariant copied == Copied(ms[..i])
    {
      assert ms[..i + 1] == ms[..i] + [ms[i]];
      CopiedAppend(ms[..i], [ms[i]]);
      assert Copied([ms[i]][1..]) == [];
      var content := Strip(ms[i].content);
      if content == "" {
        continue;
      }
      copied := copied + [ChatMessage(ms[i].role, content)];
    }
    assert ms[..|ms|] == ms;
  }

  // ------------------------------------------------------------------
  // Turns
  // ------------------------------------------------------------------

  /** A turn after the first opens with a user message; no other message of any turn is a user's. */
  predicate TurnShape(turns: seq<Turn>) {
    && (forall i :: 0 <= i < |turns| ==> turns[i] != [])
    && (forall i :: 0 < i < |turns| ==> turns[i][0].role == User)
    && (forall i, j :: 0 <= i < |turns| && 0 < j < |turns[i]| ==> turns[i][j].role != User)
  }

  /** Number of messages before the next user message. */
  function UntilUser(ms: seq<ChatMessage>): (n: nat)
    ensures n <= |ms| && (forall i :: 0 <= i < n ==> ms[i].role != User) && (n < |ms| ==> ms[n].role == User)
  {
    if ms == [] || ms[0].role == User then 0 else 1 + UntilUser(ms[1..])
  }

  function Grouped(ms: seq<ChatMessage>): seq<Turn>
    decreases |ms|
  {
    if ms == [] then []
    else
      var n := 1 + UntilUser(ms[1..]);
      [ms[..n]] + Grouped(ms[n..])
  }

  function Flattened(turns: seq<Turn>): seq<ChatMessage> {
    Copied(Concat(turns))
  }

  lemma {:induction false} GroupedConcat(ms: seq<ChatMessage>)
    ensures Concat(Grouped(ms)) == ms
    decreases |ms|
  {
    if ms == [] {
    } else {
      var n := 1 + UntilUser(ms[1..]);
      GroupedConcat(ms[n..]);
      assert ms == ms[..n] + ms[n..];
    }
  }

  lemma {:induction false} GroupedShape(ms: seq<ChatMessage>)
    ensures TurnShape(Grouped(ms)) && Concat(Grouped(ms)) == ms
    ensures ms != [] ==> Grouped(ms) != [] && Grouped(ms)[0] != [] && Grouped(ms)[0][0] == ms[0]
    decreases |ms|
  {
    GroupedConcat(ms);
    if ms == [] {
    } else {
      var n := 1 + UntilUser(ms[1..]);
      var first, rest := ms[..n], Grouped(ms[n..]);
      GroupedShape(ms[n..]);
      assert n < |ms| ==> ms[n] == ms[1..][n - 1];
      assert forall j :: 0 < j < n ==> first[j] == ms[1..][j - 1];
      assert Grouped(ms) == [first] + rest;
      hide Grouped, Concat;
      ShapeCons(first, rest);
    }
  }

  lemma ShapeCons(first: Turn, rest: seq<Turn>)
    requires first != [] && (forall j :: 0 < j < |first| ==> first[j].role != User)
    requires TurnShape(rest) && (rest != [] ==> rest[0][0].role == User)
    ensures TurnShape([first] + rest)
  {
  }

  lemma FirstTurn(t: Turn, rest: seq<ChatMessage>)
    requires t != [] && (forall j :: 0 < j < |t| ==> t[j].role != User)
    requires rest != [] ==> rest[0].role == User
    ensures Grouped(t + rest) == [t] + Grouped(rest)
  {
    var ms := t + rest;
    assert forall i :: 0 <= i < |t| - 1 ==> ms[1..][i] == t[i + 1];
    assert rest != [] ==> ms[1..][|t| - 1] == rest[0];
    UntilUserIs(ms[1..], |t| - 1);
    assert ms[..|t|] == t && ms[|t|..] == rest;
  }

  lemma UntilUserIs(ms: seq<ChatMessage>, n: nat)
    requires n <= |ms| && (forall i :: 0 <= i < n ==> ms[i].role != User) && (n < |ms| ==> ms[n].role == User)
    ensures UntilUser(ms) == n
  {
  }

  /** There is no other way to cut messages into turns of this shape. */
  lemma {:induction false} TurnsAreUnique(turns: seq<Turn>)
    requires TurnShape(turns)
    ensures Grouped(Concat(turns)) == turns
  {
    if turns == [] {
    } else {
      var rest := turns[1..];
      assert TurnShape(rest);
      TurnsAreUnique(rest);
      if rest != [] {
        assert Concat(rest)[0] == turns[1][0];
      }
      FirstTurn(turns[0], Concat(rest));
    }
  }

  /** Flattening the turns of a history gives back its copy; regrouping changes
      nothing, also after the oldest turns have been dropped. */
  lemma FlattenUndoesGroup(ms: seq<ChatMessage>, k: nat)
    requires k <= |Grouped(Copied(ms))|
    ensures Flattened(Grouped(Copied(ms))) == Copied(ms)
    ensures Flattened(Grouped(Copied(ms))[k..]) == Concat(Grouped(Copied(ms))[k..])
    ensures Grouped(Copied(Flattened(Grouped(Copied(ms))[k..]))) == Grouped(Copied(ms))[k..]
  {
    hide Grouped, TurnShape;
    var turns := Grouped(Copied(ms));
    CopiedIsClean(ms);
    CopiedOfClean(Copied(ms));
    GroupedShape(Copied(ms));
    ConcatAppend(turns[..k], turns[k..]);
    assert turns == turns[..k] + turns[k..];
    var kept := Concat(turns[k..]);
    assert kept == Copied(ms)[|Concat(turns[..k])|..];
    CopiedOfClean(kept);
    ShapeOfRest(turns, k);
    TurnsAreUnique(turns[k..]);
  }

  lemma ShapeOfRest(turns: seq<Turn>, k: nat)
    requires TurnShape(turns) && k <= |turns|
    ensures TurnShape(turns[k..])
  {
  }

  lemma GroupedNewTurn(ms: seq<ChatMessage>, m: ChatMessage)
    requires m.role == User || ms == []
    ensures Grouped(ms + [m]) == Grouped(ms) + [[m]]
  {
    GroupedShape(ms);
    var longer := Grouped(ms) + [[m]];
    hide Grouped;
    ConcatSnoc(Grouped(ms), [m]);
    assert TurnShape(longer);
    TurnsAreUnique(longer);
  }

  lemma GroupedSameTurn(ms: seq<ChatMessage>, front: seq<Turn>, last: Turn, m: ChatMessage)
    requires Grouped(ms) == front + [last] && m.role != User
    ensures Grouped(ms + [m]) == front + [last + [m]]
  {
    GroupedShape(ms);
    hide Grouped;
    var longer := front + [last + [m]];
    ConcatSnoc(front, last);
    ConcatSnoc(front, last + [m]);
    assert Concat(longer) == ms + [m];
    var turns := front + [last];
    assert TurnShape(turns) && turns[|front|] == last;
    assert forall i :: 0 <= i < |front| ==> longer[i] == turns[i];
    assert TurnShape(longer);
    TurnsAreUnique(longer);
  }

  /** The turns so far, with the one that is still growing. */
  function WithOpenTurn(turns: seq<Turn>, leading: Turn, current: Option<Turn>): seq<Turn> {
    if current.Some? then turns + [current.value] else if leading != [] then turns + [leading] else turns
  }

  lemma GroupedNothing()
    ensures Grouped([]) == []
  {
  }

  method GroupChatTurns(messages: seq<ChatMessage>) returns (turns: seq<Turn>)
    ensures turns == Grouped(Copied(messages))
  {
    hide Grouped, Copied, Concat, TurnShape;
    var ms := CopyChatMessages(messages);
    turns := [];
    var currentTurn: Option<Turn> := None;
    var leadingAssistants: Turn := [];
    GroupedNothing();
    for i := 0 to |ms|
      invariant currentTurn.Some? ==> leadingAssistants == []
      invariant currentTurn.None? ==> turns == []
      invariant Grouped(ms[..i]) == WithOpenTurn(turns, leadingAssistants, currentTurn)
    {
      var message := ms[i];
      assert ms[..i + 1] == ms[..i] + [message];
      GroupedShape(ms[..i]);
      if message.role == User {
        GroupedNewTurn(ms[..i], message);
        if leadingAssistants != [] {
          turns := turns + [leadingAssistants];
          leadingAssistants := [];
        }
        if currentTurn.Some? {
          turns := turns + [currentTurn.value];
        }
        currentTurn := Some([message]);
        continue;
      }
      if currentTurn.None? {
        if leadingAssistants == [] {
          GroupedNewTurn(ms[..i], message);
          assert leadingAssistants + [message] == [message];
        } else {
          GroupedSameTurn(ms[..i], [], leadingAssistants, message);
        }
        leadingAssistants := leadingAssistants + [message];
        continue;
      }
      GroupedSameTurn(ms[..i], turns, currentTurn.value, message);
      currentTurn := Some(currentTurn.value + [message]);
    }
    assert ms[..|ms|] == ms;
    if leadingAssistants != [] {
      turns := turns + [leadingAssistants];
    }
    if currentTurn.Some? {
      turns := turns + [currentTurn.value];
    }
  }

  // ------------------------------------------------------------------
  // Import
  // ------------------------------------------------------------------

  /** A client item; None stands for a missing key or a value that is not a string. */
  datatype Item = Item(role: Option<string>, content: Option<string>) | NotADict

  /** str.lower on ASCII letters: no other letter lowers into "user" or "assistant". */
  function Lower(s: string): string {
    if s == "" then ""
    else [if 'A' <= s[0] <= 'Z' then (s[0] as int + 32) as char else s[0]] + Lower(s[1..])
  }

  function ParseRole(role: string): Option<Role> {
    if role == "user" then Some(User) else if role == "assistant" then Some(Assistant) else None
  }

  function ValidateItem(item: Item): Option<(string, string)> {
    match item
    case NotADict => None
    case Item(role, content) =>
      if role.None? || content.None? then None
      else
        var r, c := Lower(Strip(role.value)), Strip(content.value);
        if r == "" || c == "" then None else Some((r, c))
  }

  /** word is role, a lower-case word, in letters of either case. */
  predicate SpellsIgnoringCase(word: string, role: string) {
    |word| == |role| &&
    forall i :: 0 <= i < |word| ==>
      word[i] == role[i] || ('a' <= role[i] <= 'z' && word[i] as int == role[i] as int - 32)
  }

  lemma {:induction false} LowerSpells(word: string, role: string)
    requires forall i :: 0 <= i < |role| ==> 'a' <= role[i] <= 'z'
    ensures Lower(word) == role <==> SpellsIgnoringCase(word, role)
  {
    if word == "" || role == "" {
    } else {
      LowerSpells(word[1..], role[1..]);
      assert Lower(word) == Lower(word)[..1] + Lower(word[1..]);
      assert role == role[..1] + role[1..];
      assert SpellsIgnoringCase(word, role) <==>
        (word[0] == role[0] || word[0] as int == role[0] as int - 32) && SpellsIgnoringCase(word[1..], role[1..]) by {
        SpellsCons(word, role);
      }
    }
  }

  lemma SpellsCons(word: string, role: string)
    requires word != "" && role != "" && forall i :: 0 <= i < |role| ==> 'a' <= role[i] <= 'z'
    ensures SpellsIgnoringCase(word, role) <==>
      (word[0] == role[0] || word[0] as int == role[0] as int - 32) && SpellsIgnoringCase(word[1..], role[1..])
  {
    if SpellsIgnoringCase(word[1..], role[1..]) {
      assert forall i :: 0 < i < |word| ==> word[i] == word[1..][i - 1] && role[i] == role[1..][i - 1];
    }
  }

  /** The role of an item that counts: string role and content, the content not
      blank, the role stripped and in any case one of the two known ones. */
  function ItemRole(item: Item): Option<Role> {
    if item == NotADict || item.role.None? || item.content.None? || Strip(item.content.value) == "" then None
    else if SpellsIgnoringCase(Strip(item.role.value), "user") then Some(User)
    else if SpellsIgnoringCase(Strip(item.role.value), "assistant") then Some(Assistant)
    else None
  }

  lemma ValidatedRole(item: Item)
    ensures match ValidateItem(item)
      case None => ItemRole(item).None?
      case Some((r, c)) => ItemRole(item) == ParseRole(r) && c == Strip(item.content.value) && c != ""
  {
    if item.Item? && item.role.Some? {
      var word := Strip(item.role.value);
      LowerSpells(word, "user");
      LowerSpells(word, "assistant");
      LowerSpells(word, "");
    }
  }

  /** Append one message; consecutive user messages become one. */
  function Appended(ms: seq<ChatMessage>, role: string, content: string): seq<ChatMessage> {
    var c := Strip(content);
    var r := ParseRole(role);
    if r.None? || c == "" then ms
    else if r.value == User && ms != [] && ms[|ms| - 1].role == User then
      ms[..|ms| - 1] + [ChatMessage(User, ms[|ms| - 1].content + "\n\n" + c)]
    else ms + [ChatMessage(r.value, c)]
  }

  function Parsed(items: seq<Item>): seq<ChatMessage> {
    if items == [] then []
    else
      var ms := Parsed(items[..|items| - 1]);
      match ValidateItem(items[|items| - 1])
      case None => ms
      case Some((r, c)) => Appended(ms, r, c)
  }

  function RoleName(role: Role): string {
    match role
    case User => "user"
    case Assistant => "assistant"
  }

  /** Re-import of stored messages; without a chat deployment nothing is kept. */
  function Imported(ms: seq<ChatMessage>, deployChat: bool): seq<ChatMessage> {
    if ms == [] || !deployChat then []
    else
      var last := ms[|ms| - 1];
      Appended(Imported(ms[..|ms| - 1], deployChat), RoleName(last.role), last.content)
  }

  /** Clean, and never two user messages in a row. */
  predicate NormalForm(ms: seq<ChatMessage>) {
    Clean(ms) && forall i :: 0 < i < |ms| ==> !(ms[i - 1].role == User && ms[i].role == User)
  }

  lemma PushNormal(ms: seq<ChatMessage>, m: ChatMessage)
    requires NormalForm(ms) && Trimmed(m.content)
    requires m.role == User && ms != [] ==> ms[|ms| - 1].role != User
    ensures NormalForm(ms + [m])
  {
    hide Trimmed;
  }

  lemma ReplaceNormal(ms: seq<ChatMessage>, content: string)
    requires NormalForm(ms) && ms != [] && Trimmed(content)
    ensures NormalForm(ms[..|ms| - 1] + [ChatMessage(ms[|ms| - 1].role, content)])
  {
    hide Trimmed;
  }

  lemma AppendedNormal(ms: seq<ChatMessage>, role: string, content: string)
    requires NormalForm(ms)
    ensures NormalForm(Appended(ms, role, content))
  {
    var c := Strip(content);
    var r := ParseRole(role);
    StripIsTrimmed(content);
    hide Strip, ParseRole, NormalForm;
    if r.Some? && c != "" {
      if r.value == User && ms != [] && ms[|ms| - 1].role == User {
        LastTrimmed(ms);
        JoinTrimmed(ms[|ms| - 1].content, "\n\n", c);
        ReplaceNormal(ms, ms[|ms| - 1].content + "\n\n" + c);
      } else {
        PushNormal(ms, ChatMessage(r.value, c));
      }
    }
  }

  lemma LastTrimmed(ms: seq<ChatMessage>)
    requires NormalForm(ms) && ms != []
    ensures Trimmed(ms[|ms| - 1].content)
  {
  }

  lemma {:induction false} ParsedNormal(items: seq<Item>)
    ensures NormalForm(Parsed(items))
  {
    if items == [] {
    } else {
      ParsedNormal(items[..|items| - 1]);
      match ValidateItem(items[|items| - 1]) {
        case None =>
        case Some((r, c)) => AppendedNormal(Parsed(items[..|items| - 1]), r, c);
      }
    }
  }

  lemma {:induction false} ImportedNormal(ms: seq<ChatMessage>, deployChat: bool)
    ensures NormalForm(Imported(ms, deployChat))
  {
    if ms == [] || !deployChat {
    } else {
      ImportedNormal(ms[..|ms| - 1], deployChat);
      var last := ms[|ms| - 1];
      AppendedNormal(Imported(ms[..|ms| - 1], deployChat), RoleName(last.role), last.content);
    }
  }

  lemma NormalFront(ms: seq<ChatMessage>)
    requires NormalForm(ms) && ms != []
    ensures NormalForm(ms[..|ms| - 1]) && Trimmed(ms[|ms| - 1].content)
    ensures |ms| > 1 ==> !(ms[|ms| - 2].role == User && ms[|ms| - 1].role == User)
  {
  }

  lemma AppendedAsIs(ms: seq<ChatMessage>, m: ChatMessage)
    requires Trimmed(m.content) && (ms != [] ==> !(ms[|ms| - 1].role == User && m.role == User))
    ensures Appended(ms, RoleName(m.role), m.content) == ms + [m]
  {
    StripOfTrimmed(m.content);
  }

  /** Import changes a history exactly when it is not in normal form. */
  lemma {:induction false} ImportFixesNormalForm(ms: seq<ChatMessage>)
    ensures Imported(ms, true) == ms <==> NormalForm(ms)
  {
    ImportedNormal(ms, true);
    if !NormalForm(ms) || ms == [] {
    } else {
      var front, last := ms[..|ms| - 1], ms[|ms| - 1];
      NormalFront(ms);
      ImportFixesNormalForm(front);
      hide NormalForm, Appended;
      AppendedAsIs(front, last);
      assert ms == front + [last];
    }
  }

  /** Stored messages as a client would send them. */
  function AsItems(ms: seq<ChatMessage>): seq<Item> {
    if ms == [] then []
    else
      var last := ms[|ms| - 1];
      AsItems(ms[..|ms| - 1]) + [Item(Some(RoleName(last.role)), Some(last.content))]
  }

  lemma NamesAreLower(role: Role)
    ensures Lower(Strip(RoleName(role))) == RoleName(role) != ""
  {
    StripOfTrimmed("user");
    StripOfTrimmed("assistant");
    LowerSpells("user", "user");
    LowerSpells("assistant", "assistant");
  }

  lemma AsItemsSnoc(ms: seq<ChatMessage>, m: ChatMessage)
    ensures AsItems(ms + [m]) == AsItems(ms) + [Item(Some(RoleName(m.role)), Some(m.content))]
    ensures Imported(ms + [m], true) == Appended(Imported(ms, true), RoleName(m.role), m.content)
  {
    assert (ms + [m])[..|ms|] == ms;
  }

  lemma ParsedSnoc(items: seq<Item>, role: Role, content: string)
    ensures Parsed(items + [Item(Some(RoleName(role)), Some(content))]) ==
      Appended(Parsed(items), RoleName(role), content)
  {
    var item := Item(Some(RoleName(role)), Some(content));
    assert (items + [item])[..|items|] == items;
    NamesAreLower(role);
    StripTwice(content);
    hide Strip, Lower, RoleName;
  }

  /** Re-importing stored messages is parsing them as client items. */
  lemma {:induction false} ImportIsParse(ms: seq<ChatMessage>)
    ensures Imported(ms, true) == Parsed(AsItems(ms))
  {
    if ms == [] {
    } else {
      hide *;
      var front, last := ms[..|ms| - 1], ms[|ms| - 1];
      assert ms == front + [last];
      ImportIsParse(front);
      AsItemsSnoc(front, last);
      ParsedSnoc(AsItems(front), last.role, last.content);
    }
  }

  function Contents(ms: seq<ChatMessage>): seq<string> {
    if ms == [] then [] else [ms[0].content] + Contents(ms[1..])
  }

  lemma {:induction false} ContentsSnoc(ms: seq<ChatMessage>, m: ChatMessage)
    ensures Contents(ms + [m]) == Contents(ms) + [m.content]
  {
    if ms != [] {
      assert (ms + [m])[1..] == ms[1..] + [m];
      ContentsSnoc(ms[1..], m);
    } else {
      assert (ms + [m])[1..] == [];
    }
  }

  /** The items that count, each as a message of its own. */
  function ValidItems(items: seq<Item>): seq<ChatMessage> {
    if items == [] then []
    else
      var item := items[|items| - 1];
      ValidItems(items[..|items| - 1]) +
      if ItemRole(item).Some? then [ChatMessage(ItemRole(item).value, Strip(item.content.value))] else []
  }

  /** One more item: it adds its stripped content under its role, or extends a
      last user message, exactly if role and content are strings, the content is
      not blank, and the role, stripped and in any case, is one of the two known
      ones. Any other item changes nothing. */
  lemma ParsedGrowsBy(items: seq<Item>, item: Item)
    ensures var ms, all := Parsed(items), Parsed(items + [item]);
      var counts := item.Item? && item.role.Some? && item.content.Some? && Strip(item.content.value) != "";
      var user := counts && SpellsIgnoringCase(Strip(item.role.value), "user");
      var assistant := counts && SpellsIgnoringCase(Strip(item.role.value), "assistant");
      && (!user && !assistant ==> all == ms)
      && (assistant ==> all == ms + [ChatMessage(Assistant, Strip(item.content.value))])
      && (user && (ms == [] || ms[|ms| - 1].role != User) ==>
            all == ms + [ChatMessage(User, Strip(item.content.value))])
      && (user && ms != [] && ms[|ms| - 1].role == User ==>
            all == ms[..|ms| - 1] +
              [ChatMessage(User, ms[|ms| - 1].content + "\n\n" + Strip(item.content.value))])
  {
    assert (items + [item])[..|items|] == items;
    ValidatedRole(item);
    hide Strip, Lower, SpellsIgnoringCase, ValidateItem;
    if ValidateItem(item).Some? {
      StripTwice(item.content.value);
    }
    SpellsOneRole(if item.Item? && item.role.Some? then Strip(item.role.value) else "");
  }

  lemma SpellsOneRole(word: string)
    ensures !(SpellsIgnoringCase(word, "user") && SpellsIgnoringCase(word, "assistant"))
  {
  }

  /** Merging loses no text: put together with blank lines, the parsed messages
      read like the items that count. */
  lemma {:induction false} ParsedKeepsText(items: seq<Item>)
    ensures Join("\n\n", Contents(Parsed(items))) == Join("\n\n", Contents(ValidItems(items)))
    ensures Parsed(items) == [] <==> ValidItems(items) == []
  {
    if items == [] {
    } else {
      var front, item := items[..|items| - 1], items[|items| - 1];
      ParsedKeepsText(front);
      ValidatedContent(item);
      ValidatedRole(item);
      var ms, all := Parsed(front), ValidItems(front);
      hide ItemRole, ValidateItem;
      if ItemRole(item).None? {
        assert all + [] == all;
      } else {
        var m := ChatMessage(ItemRole(item).value, Strip(item.content.value));
        hide Parsed, ValidItems, Join, Contents, Strip;
        ContentsSnoc(all, m);
        AppendedKeepsText(ms, ValidateItem(item).value.0, m);
        if all != [] {
          ContentsLength(all);
          JoinSnoc("\n\n", Contents(all), m.content);
        } else {
          NoContents();
        }
      }
    }
  }

  lemma ValidatedContent(item: Item)
    ensures ValidateItem(item).Some? ==> Trimmed(ValidateItem(item).value.1)
  {
    if item.Item? && item.content.Some? {
      StripIsTrimmed(item.content.value);
    }
  }

  lemma NoContents()
    ensures Contents([]) == [] && forall x: string :: Join("\n\n", [x]) == x
  {
  }

  lemma {:induction false} ContentsLength(ms: seq<ChatMessage>)
    ensures |Contents(ms)| == |ms|
  {
    if ms == [] {
    } else {
      ContentsLength(ms[1..]);
    }
  }

  lemma AppendedKeepsText(ms: seq<ChatMessage>, role: string, m: ChatMessage)
    requires ParseRole(role) == Some(m.role) && Trimmed(m.content)
    ensures Appended(ms, role, m.content) != []
    ensures Join("\n\n", Contents(Appended(ms, role, m.content))) ==
      if ms == [] then m.content else Join("\n\n", Contents(ms)) + "\n\n" + m.content
  {
    StripOfTrimmed(m.content);
    NoContents();
    if ms == [] {
      ContentsSnoc([], m);
    } else {
      var front, last := ms[..|ms| - 1], ms[|ms| - 1];
      assert ms == front + [last];
      ContentsSnoc(front, last);
      ContentsLength(ms);
      ContentsLength(front);
      if m.role == User && last.role == User {
        var longer := ChatMessage(User, last.content + "\n\n" + m.content);
        ContentsSnoc(front, longer);
        hide Join, Contents, Strip;
        LastGrows(Contents(front), last.content, m.content);
      } else {
        ContentsSnoc(ms, m);
        JoinSnoc("\n\n", Contents(ms), m.content);
      }
    }
  }

  lemma LastGrows(parts: seq<string>, last: string, more: string)
    ensures Join("\n\n", parts + [last + "\n\n" + more]) == Join("\n\n", parts + [last]) + "\n\n" + more
  {
    if parts != [] {
      JoinSnoc("\n\n", parts, last);
      JoinSnoc("\n\n", parts, last + "\n\n" + more);
    }
  }

  /** Parsed client history is a fixed point of re-import. */
  lemma ParsedIsFixedPoint(items: seq<Item>)
    ensures Imported(Parsed(items), true) == Parsed(items)
    ensures Imported(Parsed(items), false) == []
  {
    ParsedNormal(items);
    ImportFixesNormalForm(Parsed(items));
  }

  method AppendChatMessage(ms: seq<ChatMessage>, role: string, content: string) returns (r: seq<ChatMessage>)
    ensures r == Appended(ms, role, content)
  {
    r := ms;
    var c := Strip(content);
    var normalized := ParseRole(role);
    if normalized.None? || c == "" {
      return;
    }
    if normalized.value == User && |r| > 0 && r[|r| - 1].role == User {
      r := r[|r| - 1 := ChatMessage(User, r[|r| - 1].content + "\n\n" + c)];
      return;
    }
    r := r + [ChatMessage(normalized.value, c)];
  }

  method ParseHistoryForChat(items: seq<Item>) returns (parsed: seq<ChatMessage>)
    ensures parsed == Parsed(items)
  {
    parsed := [];
    for i := 0 to |items|
      invariant parsed == Parsed(items[..i])
    {
      assert items[..i + 1][..i] == items[..i];
      var validated := ValidateItem(items[i]);
      if validated.Some? {
        parsed := AppendChatMessage(parsed, validated.value.0, validated.value.1);
      }
    }
    assert items[..|items|] == items;
  }

  method BuildImportedChatMessages(ms: seq<ChatMessage>, deployChat: bool) returns (r: seq<ChatMessage>)
    ensures r == Imported(ms, deployChat)
  {
    r := [];
    for i := 0 to |ms|
      invariant r == Imported(ms[..i], deployChat)
    {
      assert ms[..i + 1][..i] == ms[..i];
      if deployChat {
        r := AppendChatMessage(r, RoleName(ms[i].role), ms[i].content);
      }
    }
    assert ms[..|ms|] == ms;
  }
}
