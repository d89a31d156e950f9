/**
 How the three provider adapters translate a message history
 (backend/app/model_providers/providers.py).
 */
module ProviderTranslation {
  import opened Wrappers
  import opened History
  import PyText

  /** The exceptions the adapters raise on a history they cannot express. */
  datatype TranslationError = MissingCallId | MissingToolName | ArgumentsNotObject

  predicate Translatable(c: RawCall) {
    && c.Structured?
    && c.id.Some? && c.id.value != ""
    && c.name.Some? && c.name.value != ""
    && !c.args.NotAnObject?
  }

  ghost predicate AllTranslatable(h: seq<Message>) {
    forall i: nat, k: nat | i < |h| && h[i].Assistant? && k < |h[i].calls| :: Translatable(h[i].calls[k])
  }

  /** The checks all three adapters make on one call, in the order they make them. */
  function CheckCall(c: RawCall): (r: Result<string, TranslationError>)
    ensures r.Ok? <==> Translatable(c)
    ensures r.Ok? ==> c.id == Some(r.value)
    ensures r == Err(MissingCallId) <==> !c.Structured? || c.id.None? || c.id.value == ""
    ensures r == Err(ArgumentsNotObject) ==> c.name.Some? && c.name.value != "" && c.args.NotAnObject?
  {
    if !(c.Structured? && c.id.Some? && c.id.value != "") then Err(MissingCallId)
    else if !(c.name.Some? && c.name.value != "") then Err(MissingToolName)
    else if c.args.NotAnObject? then Err(ArgumentsNotObject)
    else Ok(c.id.value)
  }

  function CheckResult(callId: Option<string>): (r: Result<string, TranslationError>)
    ensures r.Ok? <==> callId.Some? && callId.value != ""
    ensures r.Ok? ==> callId == Some(r.value)
  {
    if callId.Some? && callId.value != "" then Ok(callId.value) else Err(MissingCallId)
  }

  // ---------------------------------------------------------------- Anthropic

  datatype Block =
    | TextBlock(text: string)
    | ToolUse(id: string, call: RawCall)
    | ToolResult(id: string, payload: Message, isError: bool)

  datatype Speaker = UserTurn | AssistantTurn

  datatype Turn = Turn(role: Speaker, blocks: seq<Block>)

  function UseBlocks(calls: seq<RawCall>): Result<seq<Block>, TranslationError> {
    if calls == [] then Ok([])
    else match CheckCall(calls[0])
         case Err(e) => Err(e)
         case Ok(id) =>
           match UseBlocks(calls[1..])
           case Err(e) => Err(e)
           case Ok(rest) => Ok([ToolUse(id, calls[0])] + rest)
  }

  function AssistantBlocks(content: string, calls: seq<RawCall>): Result<seq<Block>, TranslationError> {
    match UseBlocks(calls)
    case Err(e) => Err(e)
    case Ok(uses) => Ok((if content != "" then [TextBlock(content)] else []) + uses)
  }

  /** `_append_anthropic_message`: adjacent messages of one role become one turn. */
  function AppendTurn(items: seq<Turn>, role: Speaker, blocks: seq<Block>): seq<Turn> {
    if items != [] && items[|items| - 1].role == role then
      items[|items| - 1 := Turn(role, items[|items| - 1].blocks + blocks)]
    else items + [Turn(role, blocks)]
  }

  function AnthropicAdd(items: seq<Turn>, m: Message): Result<seq<Turn>, TranslationError> {
    match m
    case System(_) => Ok(items)
    case Developer(_) => Ok(items)
    case User(text) => Ok(AppendTurn(items, UserTurn, [TextBlock(text)]))
    case Tool(callId, _, success) =>
      (match CheckResult(callId)
       case Err(e) => Err(e)
       case Ok(id) => Ok(AppendTurn(items, UserTurn, [ToolResult(id, m, !success)])))
    case Assistant(content, calls) =>
      (match AssistantBlocks(content, calls)
       case Err(e) => Err(e)
       case Ok(blocks) => Ok(if blocks == [] then items else AppendTurn(items, AssistantTurn, blocks)))
  }

  function AnthropicTurns(h: seq<Message>): Result<seq<Turn>, TranslationError> {
    if h == [] then Ok([])
    else match AnthropicTurns(h[..|h| - 1])
         case Err(e) => Err(e)
         case Ok(items) => AnthropicAdd(items, h[|h| - 1])
  }

  /** The texts that go to the separate system field. */
  function SystemParts(h: seq<Message>): seq<string> {
    if h == [] then []
    else
      var m := h[|h| - 1];
      SystemParts(h[..|h| - 1]) + if m.System? || m.Developer? then [m.text] else []
  }

  /** `_anthropic_input`: the system text and the turns. */
  method AnthropicInput(messages: seq<Message>) returns (system: string, r: Result<seq<Turn>, TranslationError>)
    ensures r == AnthropicTurns(messages)
    ensures r.Ok? ==> system == PyText.Join(SystemParts(messages), "\n\n")
  {
    var systemParts: seq<string>, items: seq<Turn> := [], [];
    for i := 0 to |messages|
      invariant AnthropicTurns(messages[..i]) == Ok(items)
      invariant systemParts == SystemParts(messages[..i])
    {
      assert messages[..i + 1][..i] == messages[..i];
      var m := messages[i];
      if m.System? || m.Developer? {
        systemParts := systemParts + [m.text];
      } else {
        var added := AnthropicAdd(items, m);
        if added.Err? {
          ErrorPersists(messages, i + 1);
          return "", added;
        }
        items := added.value;
      }
    }
    assert messages[..|messages|] == messages;
    return PyText.Join(systemParts, "\n\n"), Ok(items);
  }

  lemma {:induction false} ErrorPersists(h: seq<Message>, n: nat)
    requires n <= |h| && AnthropicTurns(h[..n]).Err?
    ensures AnthropicTurns(h) == AnthropicTurns(h[..n])
    decreases |h| - n
  {
    if n == |h| {
      assert h[..n] == h;
    } else {
      assert h[..n + 1][..n] == h[..n];
      ErrorPersists(h, n + 1);
    }
  }

  function Uses(blocks: seq<Block>): seq<string> {
    if blocks == [] then []
    else Uses(blocks[..|blocks| - 1]) +
         (if blocks[|blocks| - 1].ToolUse? then [blocks[|blocks| - 1].id] else [])
  }

  function Results(blocks: seq<Block>): seq<string> {
    if blocks == [] then []
    else Results(blocks[..|blocks| - 1]) +
         (if blocks[|blocks| - 1].ToolResult? then [blocks[|blocks| - 1].id] else [])
  }

  /** The tool results of a turn form its first `n` blocks. */
  ghost predicate ResultsLead(blocks: seq<Block>, n: nat) {
    n <= |blocks| && forall k | 0 <= k < |blocks| :: blocks[k].ToolResult? <==> k < n
  }

  ghost predicate Alternates(items: seq<Turn>) {
    forall i | 0 <= i < |items| :: items[i].role == if i % 2 == 0 then UserTurn else AssistantTurn
  }

  /** The user turn after an assistant turn starts with exactly that turn's results, in order. */
  ghost predicate Paired(a: Turn, u: Turn) {
    && Results(u.blocks) == Uses(a.blocks)
    && ResultsLead(u.blocks, |Uses(a.blocks)|)
  }

  /** Turns 1, 3, ... below `n` are each answered by the turn after them. */
  ghost predicate PairedBelow(items: seq<Turn>, n: int) {
    forall i | 0 <= i < n && i + 1 < |items| && i % 2 == 1 :: Paired(items[i], items[i + 1])
  }

  function Ids(calls: seq<RawCall>): seq<string>
    requires forall k | 0 <= k < |calls| :: Translatable(calls[k])
  {
    seq(|calls|, (k: nat) requires k < |calls| && Translatable(calls[k]) => calls[k].id.value)
  }

  lemma {:induction false} UseBlocksSound(calls: seq<RawCall>)
    ensures UseBlocks(calls).Ok? <==> forall k | 0 <= k < |calls| :: Translatable(calls[k])
    ensures UseBlocks(calls).Ok? ==>
              && |UseBlocks(calls).value| == |calls|
              && (forall k | 0 <= k < |calls| ::
                    UseBlocks(calls).value[k] == ToolUse(calls[k].id.value, calls[k]))
    decreases |calls|
  {
    if calls != [] {
      UseBlocksSound(calls[1..]);
      if UseBlocks(calls).Ok? {
        assert forall k | 1 <= k < |calls| :: calls[k] == calls[1..][k - 1];
      } else if Translatable(calls[0]) {
        var k :| 0 <= k < |calls[1..]| && !Translatable(calls[1..][k]);
        assert !Translatable(calls[k + 1]);
      }
    }
  }

  lemma FrontOfConcat(a: seq<Block>, b: seq<Block>)
    requires b != []
    ensures (a + b)[..|a + b| - 1] == a + b[..|b| - 1] && (a + b)[|a + b| - 1] == b[|b| - 1]
  {
  }

  lemma {:induction false} UsesConcat(a: seq<Block>, b: seq<Block>)
    ensures Uses(a + b) == Uses(a) + Uses(b)
    decreases |b|
  {
    if b == [] {
      assert a + b == a;
    } else {
      var front, last := b[..|b| - 1], b[|b| - 1];
      UsesConcat(a, front);
      FrontOfConcat(a, b);
    }
  }

  lemma {:induction false} ResultsConcat(a: seq<Block>, b: seq<Block>)
    ensures Results(a + b) == Results(a) + Results(b)
    decreases |b|
  {
    if b == [] {
      assert a + b == a;
    } else {
      var front, last := b[..|b| - 1], b[|b| - 1];
      ResultsConcat(a, front);
      FrontOfConcat(a, b);
    }
  }

  lemma {:induction false} UsesOfUses(blocks: seq<Block>)
    requires forall k | 0 <= k < |blocks| :: blocks[k].ToolUse?
    ensures Results(blocks) == [] && |Uses(blocks)| == |blocks|
    ensures forall k | 0 <= k < |blocks| :: Uses(blocks)[k] == blocks[k].id
    decreases |blocks|
  {
    if blocks != [] { UsesOfUses(blocks[..|blocks| - 1]); }
  }

  lemma UsesAreIds(uses: seq<Block>, calls: seq<RawCall>)
    requires |uses| == |calls|
    requires forall k | 0 <= k < |calls| :: Translatable(calls[k]) && uses[k].ToolUse? && uses[k].id == calls[k].id.value
    ensures Uses(uses) == Ids(calls)
  {
    UsesOfUses(uses);
  }

  lemma AssistantBlocksSound(content: string, calls: seq<RawCall>)
    ensures AssistantBlocks(content, calls).Ok? <==> forall k | 0 <= k < |calls| :: Translatable(calls[k])
    ensures AssistantBlocks(content, calls).Ok? ==> Uses(AssistantBlocks(content, calls).value) == Ids(calls)
  {
    UseBlocksSound(calls);
    if UseBlocks(calls).Ok? {
      var uses := UseBlocks(calls).value;
      UsesAreIds(uses, calls);
      UsesConcat(if content != "" then [TextBlock(content)] else [], uses);
      assert [] + Ids(calls) == Ids(calls);
    }
  }

  /** What a partial translation looks like in each phase of the history. */
  ghost predicate Shape(p: Phase, items: seq<Turn>) {
    if p.Start? then items == []
    else
      && items != [] && Alternates(items)
      && PairedBelow(items, |items| - 2)
      && var last := items[|items| - 1];
         match p
         case Open => last.role == UserTurn && PairedBelow(items, |items|)
         case Silent =>
           && PairedBelow(items, |items|)
           && (last.role == AssistantTurn ==> Uses(last.blocks) == [])
         case Owing(calls) =>
           && (forall k | 0 <= k < |calls| :: Translatable(calls[k]))
           && (last.role == AssistantTurn ==> Uses(last.blocks) == Ids(calls))
           && (last.role == UserTurn ==>
                 && |items| >= 2
                 && ResultsLead(last.blocks, |last.blocks|)
                 && |Results(last.blocks)| == |last.blocks|
                 && Uses(items[|items| - 2].blocks) == Results(last.blocks) + Ids(calls))
         case _ => false
  }

  /** The shape after a result, from the facts about the last two turns. */
  lemma ResultShape(next: seq<Turn>, calls: seq<RawCall>)
    requires calls != [] && forall k | 0 <= k < |calls| :: Translatable(calls[k])
    requires |next| >= 2 && Alternates(next) && PairedBelow(next, |next| - 2)
    requires next[|next| - 1].role == UserTurn
    requires var last := next[|next| - 1].blocks;
             && ResultsLead(last, |last|) && |Results(last)| == |last|
             && Uses(next[|next| - 2].blocks) == Results(last) + Ids(calls[1..])
    ensures Shape(if |calls| == 1 then Open else Owing(calls[1..]), next)
  {
    if |calls| == 1 {
      assert Results(next[|next| - 1].blocks) + [] == Results(next[|next| - 1].blocks);
      assert Paired(next[|next| - 2], next[|next| - 1]);
    }
  }

  lemma OneResult(block: Block)
    requires block.ToolResult?
    ensures Results([block]) == [block.id]
  {
    assert [block][..0] == [];
  }

  lemma FirstResult(items: seq<Turn>, calls: seq<RawCall>, block: Block)
    requires Shape(Owing(calls), items) && calls != [] && items[|items| - 1].role == AssistantTurn
    requires block.ToolResult? && calls[0].id == Some(block.id)
    ensures Shape(if |calls| == 1 then Open else Owing(calls[1..]), items + [Turn(UserTurn, [block])])
  {
    var next := items + [Turn(UserTurn, [block])];
    OneResult(block);
    assert forall i | 0 <= i < |items| :: next[i] == items[i];
    forall i | 0 <= i < |items| - 1 && i % 2 == 1
      ensures Paired(next[i], next[i + 1])
    {
      assert i < |items| - 2;
      assert Paired(items[i], items[i + 1]);
    }
    ResultShape(next, calls);
  }

  lemma LaterResult(items: seq<Turn>, calls: seq<RawCall>, block: Block)
    requires Shape(Owing(calls), items) && calls != [] && items[|items| - 1].role == UserTurn
    requires block.ToolResult? && calls[0].id == Some(block.id)
    ensures Shape(if |calls| == 1 then Open else Owing(calls[1..]),
                  items[|items| - 1 := Turn(UserTurn, items[|items| - 1].blocks + [block])])
  {
    var results := items[|items| - 1].blocks;
    OneMoreResult(Uses(items[|items| - 2].blocks), results, calls, block);
    EarlierPairs(items, Turn(UserTurn, results + [block]));
    ResultShape(items[|items| - 1 := Turn(UserTurn, results + [block])], calls);
  }

  /** The oldest call owed is answered. */
  lemma OneMoreResult(uses: seq<string>, results: seq<Block>, calls: seq<RawCall>, block: Block)
    requires calls != [] && (forall k | 0 <= k < |calls| :: Translatable(calls[k])) && uses == Results(results) + Ids(calls)
    requires block.ToolResult? && calls[0].id == Some(block.id) && |Results(results)| == |results|
    ensures uses == Results(results + [block]) + Ids(calls[1..]) && |Results(results + [block])| == |results| + 1
  {
    OneResult(block);
    ResultsConcat(results, [block]);
    assert Ids(calls) == [block.id] + Ids(calls[1..]);
    assert Results(results) + ([block.id] + Ids(calls[1..])) == Results(results) + [block.id] + Ids(calls[1..]);
  }

  /** Replacing the last turn leaves the pairs before it. */
  lemma EarlierPairs(items: seq<Turn>, last: Turn)
    requires items != [] && forall i | 0 <= i < |items| - 2 && i % 2 == 1 :: Paired(items[i], items[i + 1])
    ensures var next := items[|items| - 1 := last];
            forall i | 0 <= i < |items| - 2 && i % 2 == 1 :: Paired(next[i], next[i + 1])
  {
  }

  lemma ResultAdded(items: seq<Turn>, calls: seq<RawCall>, block: Block)
    requires Shape(Owing(calls), items) && calls != [] && block.ToolResult? && calls[0].id == Some(block.id)
    ensures Shape(if |calls| == 1 then Open else Owing(calls[1..]), AppendTurn(items, UserTurn, [block]))
  {
    if items[|items| - 1].role == UserTurn { LaterResult(items, calls, block); } else { FirstResult(items, calls, block); }
  }

  /** Text after an assistant turn without calls starts a user turn. */
  lemma TextStarted(items: seq<Turn>, text: string)
    requires (Shape(Open, items) || Shape(Silent, items)) && items[|items| - 1].role == AssistantTurn
    ensures Shape(Open, items + [Turn(UserTurn, [TextBlock(text)])])
  {
    var n, next := |items|, items + [Turn(UserTurn, [TextBlock(text)])];
    assert forall i | 0 <= i < n :: next[i] == items[i];
    forall i | 0 <= i < n && i % 2 == 1 ensures Paired(next[i], next[i + 1]) {
      if i + 1 < n { assert Paired(items[i], items[i + 1]); }
    }
  }

  lemma TextAdded(items: seq<Turn>, text: string)
    requires Shape(Open, items) || Shape(Silent, items)
    ensures Shape(Open, AppendTurn(items, UserTurn, [TextBlock(text)]))
  {
    if items[|items| - 1].role != UserTurn { TextStarted(items, text); }
  }

  /** An assistant turn after the user's: the calls it makes are owed. */
  lemma AssistantAdded(items: seq<Turn>, blocks: seq<Block>, calls: seq<RawCall>)
    requires Shape(Open, items)
    requires (forall k | 0 <= k < |calls| :: Translatable(calls[k])) && Uses(blocks) == Ids(calls)
    ensures Shape(if calls == [] then Silent else Owing(calls), items + [Turn(AssistantTurn, blocks)])
  {
    var next := items + [Turn(AssistantTurn, blocks)];
    assert forall i | 0 <= i < |items| :: next[i] == items[i];
    forall i | 0 <= i < |items| && i + 1 < |next| && i % 2 == 1 ensures Paired(next[i], next[i + 1]) {
      assert i + 1 < |items|;
      assert Paired(items[i], items[i + 1]);
    }
    if calls == [] { assert Ids(calls) == []; }
  }

  lemma CallsAdded(items: seq<Turn>, content: string, calls: seq<RawCall>)
    requires Shape(Open, items)
    requires forall k | 0 <= k < |calls| :: Translatable(calls[k])
    ensures AnthropicAdd(items, Assistant(content, calls)).Ok?
    ensures Shape(if calls == [] then Silent else Owing(calls), AnthropicAdd(items, Assistant(content, calls)).value)
  {
    AssistantBlocksSound(content, calls);
    var blocks := AssistantBlocks(content, calls).value;
    if blocks == [] {
      assert Ids(calls) == [];
    } else {
      AssistantAdded(items, blocks, calls);
    }
  }

  /** Adding one message keeps the shape; it fails exactly on a call that cannot be translated. */
  lemma AddKeepsShape(p: Phase, items: seq<Turn>, m: Message)
    requires Shape(p, items) && After(p, m) != Broken
    ensures AnthropicAdd(items, m).Ok? <==>
              (m.Assistant? ==> forall k | 0 <= k < |m.calls| :: Translatable(m.calls[k]))
    ensures AnthropicAdd(items, m).Ok? ==> Shape(After(p, m), AnthropicAdd(items, m).value)
  {
    match m
    case System(_) =>
    case Developer(_) =>
    case User(text) =>
      if p.Start? {
        assert [TextBlock(text)][..0] == [];
      } else {
        TextAdded(items, text);
      }
    case Tool(callId, _, success) =>
      ResultAdded(items, p.calls, ToolResult(callId.value, m, !success));
    case Assistant(content, calls) =>
      AssistantBlocksSound(content, calls);
      if forall k | 0 <= k < |calls| :: Translatable(calls[k]) { CallsAdded(items, content, calls); }
  }

  lemma AllTranslatableSnoc(h: seq<Message>, m: Message)
    ensures AllTranslatable(h + [m]) <==>
              AllTranslatable(h) && (m.Assistant? ==> forall k | 0 <= k < |m.calls| :: Translatable(m.calls[k]))
  {
    var g := h + [m];
    assert forall i | 0 <= i < |h| :: g[i] == h[i];
    if AllTranslatable(g) {
      if m.Assistant? {
        forall k: nat | k < |m.calls| ensures Translatable(m.calls[k]) {
          assert Translatable(g[|h|].calls[k]);
        }
      }
      forall i: nat, k: nat | i < |h| && h[i].Assistant? && k < |h[i].calls|
        ensures Translatable(h[i].calls[k])
      {
        assert Translatable(g[i].calls[k]);
      }
    }
  }

  lemma {:induction false} AnthropicShape(h: seq<Message>)
    requires PhaseOf(h) != Broken
    ensures AnthropicTurns(h).Ok? <==> AllTranslatable(h)
    ensures AnthropicTurns(h).Ok? ==> Shape(PhaseOf(h), AnthropicTurns(h).value)
  {
    if h != [] {
      var g, m := h[..|h| - 1], h[|h| - 1];
      assert h == g + [m];
      AnthropicShape(g);
      AllTranslatableSnoc(g, m);
      if AnthropicTurns(g).Ok? { AddKeepsShape(PhaseOf(g), AnthropicTurns(g).value, m); }
    }
  }

  /**
   Every history the loop hands to the provider is accepted by the Anthropic adapter exactly when
   all its tool calls carry an id, a name and an argument object. The turns then alternate, start
   and end with the user, and each assistant turn's tool uses are the leading results of the next turn.
   */
  lemma AnthropicHistoryIsWellFormed(h: seq<Message>)
    requires PhaseOf(h) == Open
    ensures AnthropicTurns(h).Ok? <==> AllTranslatable(h)
    ensures AnthropicTurns(h).Ok? ==>
              var items := AnthropicTurns(h).value;
              && |items| % 2 == 1 && Alternates(items)
              && forall i | 0 <= i < |items| && items[i].role == AssistantTurn ::
                   i + 1 < |items| && Paired(items[i], items[i + 1])
  {
    AnthropicShape(h);
    if AnthropicTurns(h).Ok? { OpenTurns(AnthropicTurns(h).value); }
  }

  lemma OpenTurns(items: seq<Turn>)
    requires Shape(Open, items)
    ensures |items| % 2 == 1 && Alternates(items)
    ensures forall i | 0 <= i < |items| && items[i].role == AssistantTurn :: i + 1 < |items| && Paired(items[i], items[i + 1])
  {
  }

  // ----------------------------------------------------- what the turns carry

  /** A block and who says it. */
  datatype Said = Said(role: Speaker, block: Block)

  /** The blocks of all turns, in order. */
  function AllSaid(items: seq<Turn>): seq<Said> {
    if items == [] then [] else AllSaid(items[..|items| - 1]) + SaidBy(items[|items| - 1].role, items[|items| - 1].blocks)
  }

  function SaidBy(role: Speaker, blocks: seq<Block>): seq<Said> {
    seq(|blocks|, i requires 0 <= i < |blocks| => Said(role, blocks[i]))
  }

  /** How many items the text of an assistant message takes. */
  function TextItems(content: string): nat {
    if content == "" then 0 else 1
  }

  /** What one message of the history has to become, item by item. */
  ghost predicate Carries(m: Message, said: seq<Said>) {
    match m
    case System(_) => said == []
    case Developer(_) => said == []
    case User(text) => said == [Said(UserTurn, TextBlock(text))]
    case Tool(callId, _, success) => callId.Some? && said == [Said(UserTurn, ToolResult(callId.value, m, !success))]
    case Assistant(content, calls) =>
      var n := TextItems(content);
      && |said| == n + |calls|
      && (content != "" ==> said[0] == Said(AssistantTurn, TextBlock(content)))
      && forall k | 0 <= k < |calls| :: CarriesCall(calls[k], said[n + k])
  }

  predicate CarriesCall(call: RawCall, said: Said) {
    call.Structured? && call.id.Some? && said == Said(AssistantTurn, ToolUse(call.id.value, call))
  }

  /** The parts stand for the messages, one each, in order. */
  ghost predicate CarriesAll(h: seq<Message>, parts: seq<seq<Said>>) {
    |parts| == |h| && forall i | 0 <= i < |h| :: Carries(h[i], parts[i])
  }

  function Parts<T>(parts: seq<seq<T>>): seq<T> {
    if parts == [] then [] else Parts(parts[..|parts| - 1]) + parts[|parts| - 1]
  }

  lemma PartsSnoc<T>(parts: seq<seq<T>>, part: seq<T>)
    ensures Parts(parts + [part]) == Parts(parts) + part
  {
    assert (parts + [part])[..|parts|] == parts;
  }

  lemma SaidByConcat(role: Speaker, a: seq<Block>, b: seq<Block>)
    ensures SaidBy(role, a + b) == SaidBy(role, a) + SaidBy(role, b)
  {
  }

  /** Appending to the last turn or as a new one says the same. */
  lemma AppendSays(items: seq<Turn>, role: Speaker, blocks: seq<Block>)
    ensures AllSaid(AppendTurn(items, role, blocks)) == AllSaid(items) + SaidBy(role, blocks)
  {
    var next := AppendTurn(items, role, blocks);
    if items != [] && items[|items| - 1].role == role {
      var n := |items| - 1;
      assert next[..n] == items[..n];
      SaidByConcat(role, items[n].blocks, blocks);
    } else {
      assert next[..|items|] == items;
    }
  }

  ghost predicate NoneEmpty(items: seq<Turn>) {
    forall i | 0 <= i < |items| :: items[i].blocks != []
  }

  lemma AppendIsNotEmpty(items: seq<Turn>, role: Speaker, blocks: seq<Block>)
    requires NoneEmpty(items) && blocks != []
    ensures NoneEmpty(AppendTurn(items, role, blocks))
  {
  }

  lemma AssistantCarries(content: string, calls: seq<RawCall>)
    requires AssistantBlocks(content, calls).Ok?
    ensures Carries(Assistant(content, calls), SaidBy(AssistantTurn, AssistantBlocks(content, calls).value))
  {
    UseBlocksSound(calls);
    var said, uses, n := SaidBy(AssistantTurn, AssistantBlocks(content, calls).value), UseBlocks(calls).value, TextItems(content);
    forall k | 0 <= k < |calls| ensures CarriesCall(calls[k], said[n + k]) {
      assert AssistantBlocks(content, calls).value[n + k] == uses[k];
    }
  }

  lemma UserCarries(items: seq<Turn>, m: Message, block: Block) returns (said: seq<Said>)
    requires NoneEmpty(items) && Carries(m, [Said(UserTurn, block)])
    ensures Carries(m, said) && NoneEmpty(AppendTurn(items, UserTurn, [block]))
    ensures AllSaid(AppendTurn(items, UserTurn, [block])) == AllSaid(items) + said
  {
    said := SaidBy(UserTurn, [block]);
    assert said == [Said(UserTurn, block)];
    AppendSays(items, UserTurn, [block]);
    AppendIsNotEmpty(items, UserTurn, [block]);
  }

  lemma NothingSaid(said: seq<Said>)
    ensures said + [] == said
  {
  }

  lemma AddCarries(items: seq<Turn>, m: Message) returns (said: seq<Said>)
    requires AnthropicAdd(items, m).Ok? && NoneEmpty(items)
    ensures Carries(m, said) && NoneEmpty(AnthropicAdd(items, m).value)
    ensures AllSaid(AnthropicAdd(items, m).value) == AllSaid(items) + said
  {
    said := [];
    NothingSaid(AllSaid(items));
    match m
    case System(_) =>
    case Developer(_) =>
    case User(text) => said := UserCarries(items, m, TextBlock(text));
    case Tool(callId, _, success) => said := UserCarries(items, m, ToolResult(callId.value, m, !success));
    case Assistant(content, calls) =>
      var blocks := AssistantBlocks(content, calls).value;
      AssistantCarries(content, calls);
      said := SaidBy(AssistantTurn, blocks);
      AppendSays(items, AssistantTurn, blocks);
      if blocks != [] { AppendIsNotEmpty(items, AssistantTurn, blocks); }
  }

  /**
   The turns carry the history, nothing more and nothing less: the blocks of all turns, in order,
   are the messages', each said by its side, failures marked as errors and successes not.
   */
  lemma {:induction false} AnthropicCarriesAll(h: seq<Message>) returns (parts: seq<seq<Said>>)
    requires AnthropicTurns(h).Ok?
    ensures CarriesAll(h, parts) && AllSaid(AnthropicTurns(h).value) == Parts(parts)
    ensures NoneEmpty(AnthropicTurns(h).value)
  {
    if h == [] {
      parts := [];
    } else {
      var g, m := h[..|h| - 1], h[|h| - 1];
      var before := AnthropicCarriesAll(g);
      var said := AddCarries(AnthropicTurns(g).value, m);
      PartsSnoc(before, said);
      parts := before + [said];
    }
  }

  /** The system field has the texts of the system and developer messages, in order, and no other. */
  lemma {:induction false} SystemPartsAre(h: seq<Message>, i: nat)
    requires i < |h|
    ensures |SystemParts(h[..i + 1])| == |SystemParts(h[..i])| + if h[i].System? || h[i].Developer? then 1 else 0
    ensures h[i].System? || h[i].Developer? ==>
              |SystemParts(h[..i])| < |SystemParts(h)| && SystemParts(h)[|SystemParts(h[..i])|] == h[i].text
    ensures |SystemParts(h[..0])| == 0
  {
    assert h[..i + 1][..i] == h[..i];
    if i == |h| - 1 {
      assert h[..i + 1] == h;
    } else {
      var g := h[..|h| - 1];
      SystemPartsAre(g, i);
      assert g[..i] == h[..i] && g[..i + 1] == h[..i + 1];
    }
  }

  // ------------------------------------------------------- OpenAI, local model

  datatype OpenAiItem =
    | RoleItem(role: string, content: string)
    | FunctionCall(id: string, call: RawCall)
    | FunctionOutput(id: string, payload: Message)

  function CallItems(calls: seq<RawCall>): Result<seq<OpenAiItem>, TranslationError> {
    if calls == [] then Ok([])
    else match CheckCall(calls[0])
         case Err(e) => Err(e)
         case Ok(id) =>
           match CallItems(calls[1..])
           case Err(e) => Err(e)
           case Ok(rest) => Ok([FunctionCall(id, calls[0])] + rest)
  }

  function OpenAiAdd(m: Message): Result<seq<OpenAiItem>, TranslationError> {
    match m
    case System(text) => Ok([RoleItem("system", text)])
    case Developer(text) => Ok([RoleItem("developer", text)])
    case User(text) => Ok([RoleItem("user", text)])
    case Tool(callId, _, _) =>
      (match CheckResult(callId)
       case Err(e) => Err(e)
       case Ok(id) => Ok([FunctionOutput(id, m)]))
    case Assistant(content, calls) =>
      (match CallItems(calls)
       case Err(e) => Err(e)
       case Ok(items) => Ok((if content != "" then [RoleItem("assistant", content)] else []) + items))
  }

  function OpenAiItems(h: seq<Message>): Result<seq<OpenAiItem>, TranslationError> {
    if h == [] then Ok([])
    else match OpenAiItems(h[..|h| - 1])
         case Err(e) => Err(e)
         case Ok(items) =>
           match OpenAiAdd(h[|h| - 1])
           case Err(e) => Err(e)
           case Ok(added) => Ok(items + added)
  }

  /** `_openai_input`. */
  method OpenAiInput(messages: seq<Message>) returns (r: Result<seq<OpenAiItem>, TranslationError>)
    ensures r == OpenAiItems(messages)
  {
    var items: seq<OpenAiItem> := [];
    for i := 0 to |messages|
      invariant OpenAiItems(messages[..i]) == Ok(items)
    {
      assert messages[..i + 1][..i] == messages[..i];
      var added := OpenAiAdd(messages[i]);
      if added.Err? {
        OpenAiErrorPersists(messages, i + 1);
        return Err(added.error);
      }
      items := items + added.value;
    }
    assert messages[..|messages|] == messages;
    return Ok(items);
  }

  lemma {:induction false} OpenAiErrorPersists(h: seq<Message>, n: nat)
    requires n <= |h| && OpenAiItems(h[..n]).Err?
    ensures OpenAiItems(h) == OpenAiItems(h[..n])
    decreases |h| - n
  {
    if n == |h| {
      assert h[..n] == h;
    } else {
      assert h[..n + 1][..n] == h[..n];
      OpenAiErrorPersists(h, n + 1);
    }
  }

  /** Calls not yet answered, oldest first; `None` once an output does not answer the oldest one. */
  function Unanswered(items: seq<OpenAiItem>): Option<seq<string>> {
    if items == [] then Some([])
    else match Unanswered(items[..|items| - 1])
         case None => None
         case Some(owed) =>
           match items[|items| - 1]
           case FunctionCall(id, _) => Some(owed + [id])
           case FunctionOutput(id, _) => if owed != [] && owed[0] == id then Some(owed[1..]) else None
           case RoleItem(role, _) => if owed == [] then Some([]) else None
  }

  lemma {:induction false} CallItemsSound(calls: seq<RawCall>)
    ensures CallItems(calls).Ok? <==> forall k | 0 <= k < |calls| :: Translatable(calls[k])
    ensures CallItems(calls).Ok? ==>
              && |CallItems(calls).value| == |calls|
              && (forall k | 0 <= k < |calls| :: CallItems(calls).value[k] == FunctionCall(calls[k].id.value, calls[k]))
    decreases |calls|
  {
    if calls != [] {
      CallItemsSound(calls[1..]);
      if CallItems(calls).Ok? {
        assert forall k | 1 <= k < |calls| :: calls[k] == calls[1..][k - 1];
      } else if Translatable(calls[0]) {
        var k :| 0 <= k < |calls[1..]| && !Translatable(calls[1..][k]);
        assert !Translatable(calls[k + 1]);
      }
    }
  }

  lemma IdsSnoc(calls: seq<RawCall>)
    requires calls != [] && forall k | 0 <= k < |calls| :: Translatable(calls[k])
    ensures Ids(calls) == Ids(calls[..|calls| - 1]) + [calls[|calls| - 1].id.value]
  {
  }

  lemma SplitLast(items: seq<OpenAiItem>, added: seq<OpenAiItem>)
    requires added != []
    ensures items + added == items + added[..|added| - 1] + [added[|added| - 1]]
  {
  }

  lemma {:induction false} CallsQueueUp(items: seq<OpenAiItem>, added: seq<OpenAiItem>, calls: seq<RawCall>)
    requires Unanswered(items) == Some([])
    requires |added| == |calls|
    requires forall k | 0 <= k < |calls| :: Translatable(calls[k]) && added[k] == FunctionCall(calls[k].id.value, calls[k])
    ensures Unanswered(items + added) == Some(Ids(calls))
    decreases |calls|
  {
    if calls == [] {
      assert items + added == items;
      assert Ids(calls) == [];
    } else {
      var n := |calls| - 1;
      CallsQueueUp(items, added[..n], calls[..n]);
      SplitLast(items, added);
      UnansweredSnoc(items + added[..n], added[n]);
      IdsSnoc(calls);
    }
  }

  ghost predicate OpenAiShape(p: Phase, items: seq<OpenAiItem>) {
    match p
    case Owing(calls) =>
      && (forall k | 0 <= k < |calls| :: Translatable(calls[k]))
      && Unanswered(items) == Some(Ids(calls))
    case Broken => false
    case _ => Unanswered(items) == Some([])
  }

  lemma ItemsAssociate(a: seq<OpenAiItem>, b: seq<OpenAiItem>, c: seq<OpenAiItem>)
    ensures a + (b + c) == a + b + c
  {
  }

  lemma UnansweredSnoc(items: seq<OpenAiItem>, item: OpenAiItem)
    ensures Unanswered(items + [item]) ==
      match Unanswered(items)
      case None => None
      case Some(owed) =>
        match item
        case FunctionCall(id, _) => Some(owed + [id])
        case FunctionOutput(id, _) => if owed != [] && owed[0] == id then Some(owed[1..]) else None
        case RoleItem(role, _) => if owed == [] then Some([]) else None
  {
    assert (items + [item])[..|items|] == items;
  }

  lemma OpenAiCallsAdded(items: seq<OpenAiItem>, content: string, calls: seq<RawCall>)
    requires Unanswered(items) == Some([]) && forall k | 0 <= k < |calls| :: Translatable(calls[k])
    ensures OpenAiAdd(Assistant(content, calls)).Ok?
    ensures Unanswered(items + OpenAiAdd(Assistant(content, calls)).value) == Some(Ids(calls))
  {
    CallItemsSound(calls);
    var text := if content != "" then [RoleItem("assistant", content)] else [];
    if content != "" {
      UnansweredSnoc(items, RoleItem("assistant", content));
    } else {
      assert items + text == items;
    }
    CallsQueueUp(items + text, CallItems(calls).value, calls);
    ItemsAssociate(items, text, CallItems(calls).value);
  }

  lemma OpenAiOutputAdded(items: seq<OpenAiItem>, calls: seq<RawCall>, id: string, payload: Message)
    requires OpenAiShape(Owing(calls), items) && calls != [] && calls[0].id == Some(id)
    ensures OpenAiShape(if |calls| == 1 then Open else Owing(calls[1..]), items + [FunctionOutput(id, payload)])
  {
    UnansweredSnoc(items, FunctionOutput(id, payload));
    assert Ids(calls)[1..] == Ids(calls[1..]);
  }

  lemma OpenAiAddKeepsShape(p: Phase, items: seq<OpenAiItem>, m: Message)
    requires OpenAiShape(p, items) && After(p, m) != Broken
    ensures OpenAiAdd(m).Ok? <==>
              (m.Assistant? ==> forall k | 0 <= k < |m.calls| :: Translatable(m.calls[k]))
    ensures OpenAiAdd(m).Ok? ==> OpenAiShape(After(p, m), items + OpenAiAdd(m).value)
  {
    match m
    case Assistant(content, calls) =>
      CallItemsSound(calls);
      if forall k | 0 <= k < |calls| :: Translatable(calls[k]) {
        OpenAiCallsAdded(items, content, calls);
        if calls == [] { assert Ids(calls) == []; }
      }
    case Tool(callId, _, _) => OpenAiOutputAdded(items, p.calls, callId.value, m);
    case System(text) => UnansweredSnoc(items, RoleItem("system", text));
    case Developer(text) => UnansweredSnoc(items, RoleItem("developer", text));
    case User(text) => UnansweredSnoc(items, RoleItem("user", text));
  }

  lemma {:induction false} OpenAiHistoryIsWellFormed(h: seq<Message>)
    requires PhaseOf(h) != Broken
    ensures OpenAiItems(h).Ok? <==> AllTranslatable(h)
    ensures OpenAiItems(h).Ok? ==> OpenAiShape(PhaseOf(h), OpenAiItems(h).value)
  {
    if h != [] {
      var g, m := h[..|h| - 1], h[|h| - 1];
      assert h == g + [m];
      OpenAiHistoryIsWellFormed(g);
      AllTranslatableSnoc(g, m);
      if OpenAiItems(g).Ok? { OpenAiAddKeepsShape(PhaseOf(g), OpenAiItems(g).value, m); }
    }
  }

  datatype LocalItem =
    | LocalRole(role: string, text: string)
    | LocalAssistant(content: Option<string>, toolCalls: seq<OpenAiItem>)
    | LocalTool(id: string, payload: Message)

  function LocalAdd(m: Message): Result<seq<LocalItem>, TranslationError> {
    match m
    case System(text) => Ok([LocalRole("system", text)])
    case Developer(text) => Ok([LocalRole("system", text)])
    case User(text) => Ok([LocalRole("user", text)])
    case Tool(callId, _, _) =>
      (match CheckResult(callId)
       case Err(e) => Err(e)
       case Ok(id) => Ok([LocalTool(id, m)]))
    case Assistant(content, calls) =>
      (match CallItems(calls)
       case Err(e) => Err(e)
       case Ok(items) =>
         var said := if content == "" then None else Some(content);
         Ok(if said.Some? || items != [] then [LocalAssistant(said, items)] else []))
  }

  function LocalItems(h: seq<Message>): Result<seq<LocalItem>, TranslationError> {
    if h == [] then Ok([])
    else match LocalItems(h[..|h| - 1])
         case Err(e) => Err(e)
         case Ok(items) =>
           match LocalAdd(h[|h| - 1])
           case Err(e) => Err(e)
           case Ok(added) => Ok(items + added)
  }

  /** `_local_model_messages`. */
  method LocalModelMessages(messages: seq<Message>) returns (r: Result<seq<LocalItem>, TranslationError>)
    ensures r == LocalItems(messages)
  {
    var items: seq<LocalItem> := [];
    for i := 0 to |messages|
      invariant LocalItems(messages[..i]) == Ok(items)
    {
      assert messages[..i + 1][..i] == messages[..i];
      var added := LocalAdd(messages[i]);
      if added.Err? {
        LocalErrorPersists(messages, i + 1);
        return Err(added.error);
      }
      items := items + added.value;
    }
    assert messages[..|messages|] == messages;
    return Ok(items);
  }

  lemma {:induction false} LocalErrorPersists(h: seq<Message>, n: nat)
    requires n <= |h| && LocalItems(h[..n]).Err?
    ensures LocalItems(h) == LocalItems(h[..n])
    decreases |h| - n
  {
    if n == |h| {
      assert h[..n] == h;
    } else {
      assert h[..n + 1][..n] == h[..n];
      LocalErrorPersists(h, n + 1);
    }
  }

  /** The local message list with each assistant message opened up into its text and its calls. */
  function Opened(items: seq<LocalItem>): seq<OpenAiItem> {
    if items == [] then []
    else Opened(items[..|items| - 1]) +
         match items[|items| - 1]
         case LocalRole(role, text) => [RoleItem(role, text)]
         case LocalTool(id, payload) => [FunctionOutput(id, payload)]
         case LocalAssistant(content, calls) =>
           (if content.Some? then [RoleItem("assistant", content.value)] else []) + calls
  }

  /** `developer` is the one role the local adapter renames. */
  function Renamed(items: seq<OpenAiItem>): seq<OpenAiItem> {
    seq(|items|, i requires 0 <= i < |items| =>
      if items[i].RoleItem? && items[i].role == "developer" then RoleItem("system", items[i].content) else items[i])
  }

  lemma RenamedConcat(a: seq<OpenAiItem>, b: seq<OpenAiItem>)
    ensures Renamed(a + b) == Renamed(a) + Renamed(b)
  {
  }

  lemma OpenedAdd(items: seq<LocalItem>, added: seq<LocalItem>)
    requires |added| <= 1
    ensures Opened(items + added) == Opened(items) + Opened(added)
  {
    if added == [] {
      assert items + added == items;
    } else {
      assert added[..0] == [] && (items + added)[..|items|] == items;
    }
  }

  lemma CallsAreNotRenamed(calls: seq<RawCall>)
    requires CallItems(calls).Ok?
    ensures Renamed(CallItems(calls).value) == CallItems(calls).value
  {
    CallItemsSound(calls);
  }

  lemma LocalAssistantAgrees(content: string, calls: seq<RawCall>)
    requires CallItems(calls).Ok?
    ensures Opened(LocalAdd(Assistant(content, calls)).value) == Renamed(OpenAiAdd(Assistant(content, calls)).value)
  {
    var items := CallItems(calls).value;
    var said := if content != "" then [RoleItem("assistant", content)] else [];
    CallsAreNotRenamed(calls);
    RenamedConcat(said, items);
    var local := LocalAdd(Assistant(content, calls)).value;
    if local != [] {
      assert local == [local[0]];
    }
  }

  lemma LocalAddAgrees(m: Message)
    ensures LocalAdd(m).Ok? <==> OpenAiAdd(m).Ok?
    ensures LocalAdd(m).Ok? ==> Opened(LocalAdd(m).value) == Renamed(OpenAiAdd(m).value)
    ensures LocalAdd(m).Ok? ==> |LocalAdd(m).value| <= 1
  {
    match m
    case Assistant(content, calls) => if CallItems(calls).Ok? { LocalAssistantAgrees(content, calls); }
    case Tool(_, _, _) =>
    case System(text) =>
    case Developer(text) =>
    case User(text) =>
  }

  /**
   The local adapter accepts the histories the OpenAI adapter accepts, and its list, opened up,
   is the OpenAI list with `developer` renamed: the two say the same thing to the model.
   */
  lemma {:induction false} LocalAgreesWithOpenAi(h: seq<Message>)
    ensures LocalItems(h).Ok? <==> OpenAiItems(h).Ok?
    ensures LocalItems(h).Ok? ==> Opened(LocalItems(h).value) == Renamed(OpenAiItems(h).value)
  {
    if h != [] {
      var g, m := h[..|h| - 1], h[|h| - 1];
      LocalAgreesWithOpenAi(g);
      LocalAddAgrees(m);
      if LocalItems(h).Ok? {
        OpenedAdd(LocalItems(g).value, LocalAdd(m).value);
        RenamedConcat(OpenAiItems(g).value, OpenAiAdd(m).value);
      }
    }
  }

  // ------------------------------------------------ what the other lists carry

  ghost predicate OpenAiCarries(m: Message, items: seq<OpenAiItem>) {
    match m
    case System(text) => items == [RoleItem("system", text)]
    case Developer(text) => items == [RoleItem("developer", text)]
    case User(text) => items == [RoleItem("user", text)]
    case Tool(callId, _, _) => callId.Some? && items == [FunctionOutput(callId.value, m)]
    case Assistant(content, calls) =>
      var n := TextItems(content);
      && |items| == n + |calls|
      && (content != "" ==> items[0] == RoleItem("assistant", content))
      && forall k | 0 <= k < |calls| :: items[n + k] == CallItem(calls[k])
  }

  function CallItem(call: RawCall): OpenAiItem {
    FunctionCall(if RawId(call).Some? then RawId(call).value else "", call)
  }

  lemma OpenAiAddCarries(m: Message)
    requires OpenAiAdd(m).Ok?
    ensures OpenAiCarries(m, OpenAiAdd(m).value)
  {
    if m.Assistant? {
      CallItemsSound(m.calls);
      var n, items := TextItems(m.content), CallItems(m.calls).value;
      forall k | 0 <= k < |m.calls| ensures OpenAiAdd(m).value[n + k] == CallItem(m.calls[k]) {
        assert OpenAiAdd(m).value[n + k] == items[k];
      }
    }
  }

  /** The OpenAI list is the history, message by message. */
  lemma {:induction false} OpenAiCarriesAll(h: seq<Message>) returns (parts: seq<seq<OpenAiItem>>)
    requires OpenAiItems(h).Ok?
    ensures |parts| == |h| && (forall i | 0 <= i < |h| :: OpenAiCarries(h[i], parts[i]))
    ensures OpenAiItems(h).Ok? && OpenAiItems(h).value == Parts(parts)
  {
    if h == [] {
      parts := [];
    } else {
      var g, m := h[..|h| - 1], h[|h| - 1];
      var before := OpenAiCarriesAll(g);
      OpenAiAddCarries(m);
      PartsSnoc(before, OpenAiAdd(m).value);
      parts := before + [OpenAiAdd(m).value];
    }
  }

  ghost predicate LocalCarries(m: Message, items: seq<LocalItem>) {
    match m
    case System(text) => items == [LocalRole("system", text)]
    case Developer(text) => items == [LocalRole("system", text)]
    case User(text) => items == [LocalRole("user", text)]
    case Tool(callId, _, _) => callId.Some? && items == [LocalTool(callId.value, m)]
    case Assistant(content, calls) =>
      if content == "" && calls == [] then items == []
      else
        && |items| == 1 && items[0].LocalAssistant?
        && items[0].content == (if content == "" then None else Some(content))
        && |items[0].toolCalls| == |calls| && forall k | 0 <= k < |calls| :: items[0].toolCalls[k] == CallItem(calls[k])
  }

  /** So is the local list, an assistant's text and calls in one item. */
  lemma {:induction false} LocalCarriesAll(h: seq<Message>) returns (parts: seq<seq<LocalItem>>)
    requires LocalItems(h).Ok?
    ensures |parts| == |h| && (forall i | 0 <= i < |h| :: LocalCarries(h[i], parts[i]))
    ensures LocalItems(h).Ok? && LocalItems(h).value == Parts(parts)
  {
    if h == [] {
      parts := [];
    } else {
      var g, m := h[..|h| - 1], h[|h| - 1];
      var before := LocalCarriesAll(g);
      if m.Assistant? { CallItemsSound(m.calls); }
      PartsSnoc(before, LocalAdd(m).value);
      parts := before + [LocalAdd(m).value];
    }
  }
}
