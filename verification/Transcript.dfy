/**
 * The message list sent to the language model by the greeting and chat handlers,
 * and the chat history the chat handler writes back. The model's reply is the value
 * of a function `llm` of the message list; the time stamp of a new turn is a
 * parameter.
 */
module Transcript {
  import opened Wrappers
  import opened JsStrings
  import opened Participants
  import opened Prompts

  datatype Role = System | User | Assistant
  datatype Message = Message(role: Role, content: string)

  /** The stored turns that are replayed for a request of round `round`: those of an earlier round, in stored order. */
  function Replayed(chat: seq<Turn>, round: int): (r: seq<Turn>)
    ensures |r| <= |chat|
  {
    if chat == [] then []
    else
      var last := chat[|chat| - 1];
      Replayed(chat[..|chat| - 1], round) + (if last.round < round then [last] else [])
  }

  /** Replaying two stretches of history one after the other is replaying them joined: the filter keeps stored order. */
  lemma {:induction false} ReplayedAppend(a: seq<Turn>, b: seq<Turn>, round: int)
    ensures Replayed(a + b, round) == Replayed(a, round) + Replayed(b, round)
    decreases |b|
  {
    if b == [] {
      assert a + b == a;
    } else {
      var front := b[..|b| - 1];
      assert (a + b)[..|a + b| - 1] == a + front;
      ReplayedAppend(a, front, round);
    }
  }

  /** A turn is replayed if and only if it is stored and belongs to an earlier round. */
  lemma {:induction false} ReplayedMembers(chat: seq<Turn>, round: int, t: Turn)
    ensures t in Replayed(chat, round) <==> t in chat && t.round < round
    decreases |chat|
  {
    if chat != [] {
      var front := chat[..|chat| - 1];
      assert chat == front + [chat[|chat| - 1]];
      ReplayedMembers(front, round, t);
    }
  }

  /** When every stored turn is of an earlier round, all of them are replayed. */
  lemma {:induction false} ReplayedAll(chat: seq<Turn>, round: int)
    requires forall k :: 0 <= k < |chat| ==> chat[k].round < round
    ensures Replayed(chat, round) == chat
    decreases |chat|
  {
    if chat != [] {
      var front := chat[..|chat| - 1];
      assert forall k :: 0 <= k < |front| ==> front[k] == chat[k];
      ReplayedAll(front, round);
      assert front + [chat[|chat| - 1]] == chat;
    }
  }

  /** When no stored turn is of an earlier round, nothing is replayed. */
  lemma {:induction false} ReplayedNone(chat: seq<Turn>, round: int)
    requires forall k :: 0 <= k < |chat| ==> chat[k].round >= round
    ensures Replayed(chat, round) == []
    decreases |chat|
  {
    if chat != [] {
      var front := chat[..|chat| - 1];
      assert forall k :: 0 <= k < |front| ==> front[k] == chat[k];
      ReplayedNone(front, round);
    }
  }

  /** The user/assistant pair each replayed turn contributes, in order. */
  function Pairs(turns: seq<Turn>): (ms: seq<Message>)
    ensures |ms| == 2 * |turns|
  {
    if turns == [] then []
    else
      var last := turns[|turns| - 1];
      Pairs(turns[..|turns| - 1]) + [Message(User, last.userMessage), Message(Assistant, last.reply)]
  }

  /** Turn k of the replayed list becomes messages 2k (the user's) and 2k + 1 (the reply), and no pair holds a system message. */
  lemma {:induction false} PairsAt(turns: seq<Turn>)
    ensures var ms := Pairs(turns);
      && (forall k :: 0 <= k < |turns| ==>
            ms[2 * k] == Message(User, turns[k].userMessage) && ms[2 * k + 1] == Message(Assistant, turns[k].reply))
      && (forall i :: 0 <= i < |ms| ==> ms[i].role != System)
    decreases |turns|
  {
    if turns != [] {
      var front := turns[..|turns| - 1];
      PairsAt(front);
      var ms := Pairs(turns);
      assert forall i :: 0 <= i < |Pairs(front)| ==> ms[i] == Pairs(front)[i];
      assert forall k :: 0 <= k < |front| ==> turns[k] == front[k];
    }
  }

  /**
   * The context of a request: the system prompt of the participant's condition
   * (control when none is stored), then the replayed turns of earlier rounds.
   */
  function Context(p: Participant, round: int): seq<Message> {
    [Message(System, SystemPrompt(EffectiveCondition(p.condition), p.screeningText))] + Pairs(Replayed(p.chat, round))
  }

  /** The list the greeting handler sends: the context and the round's opening instruction as a user message. */
  function GreetingMessages(p: Participant, round: int): seq<Message> {
    Context(p, round) + [Message(User, GreetingInstruction(round, EffectiveCondition(p.condition)))]
  }

  /** The list the chat handler sends: the context and the participant's message. */
  function ChatMessages(p: Participant, round: int, userMessage: string): seq<Message> {
    Context(p, round) + [Message(User, userMessage)]
  }

  /**
   * The shape of a request's message list: exactly one system message, first,
   * carrying the condition's prompt; then a user/assistant pair for each replayed
   * turn; then exactly one more user message, `last`, at the end.
   */
  lemma MessageShape(p: Participant, round: int, last: string)
    ensures var ms := Context(p, round) + [Message(User, last)];
      var replayed := Replayed(p.chat, round);
      && |ms| == 2 + 2 * |replayed|
      && ms[0] == Message(System, SystemPrompt(EffectiveCondition(p.condition), p.screeningText))
      && (forall i :: 1 <= i < |ms| ==> ms[i].role != System)
      && (forall k :: 0 <= k < |replayed| ==>
            ms[1 + 2 * k] == Message(User, replayed[k].userMessage) && ms[2 + 2 * k] == Message(Assistant, replayed[k].reply))
      && ms[|ms| - 1] == Message(User, last)
  {
    ListShape(SystemPrompt(EffectiveCondition(p.condition), p.screeningText), Replayed(p.chat, round), last);
  }

  /** MessageShape for any system prompt, so that the prompt texts stay out of the proof. */
  lemma ListShape(systemPrompt: string, replayed: seq<Turn>, last: string)
    ensures var ms := [Message(System, systemPrompt)] + Pairs(replayed) + [Message(User, last)];
      && |ms| == 2 + 2 * |replayed|
      && ms[0] == Message(System, systemPrompt)
      && (forall i :: 1 <= i < |ms| ==> ms[i].role != System)
      && (forall k :: 0 <= k < |replayed| ==>
            ms[1 + 2 * k] == Message(User, replayed[k].userMessage) && ms[2 + 2 * k] == Message(Assistant, replayed[k].reply))
      && ms[|ms| - 1] == Message(User, last)
  {
    PairsAt(replayed);
    ListHasOneSystem(systemPrompt, Pairs(replayed), last);
    ListPairs(systemPrompt, replayed, last);
  }

  lemma ListHasOneSystem(systemPrompt: string, pairs: seq<Message>, last: string)
    requires forall i :: 0 <= i < |pairs| ==> pairs[i].role != System
    ensures var ms := [Message(System, systemPrompt)] + pairs + [Message(User, last)];
      forall i :: 1 <= i < |ms| ==> ms[i].role != System
  {
    var ms := [Message(System, systemPrompt)] + pairs + [Message(User, last)];
    forall i | 1 <= i < |ms|
      ensures ms[i].role != System
    {
      if i < |ms| - 1 {
        assert ms[i] == pairs[i - 1];
      }
    }
  }

  lemma ListPairs(systemPrompt: string, replayed: seq<Turn>, last: string)
    ensures var ms := [Message(System, systemPrompt)] + Pairs(replayed) + [Message(User, last)];
      forall k :: 0 <= k < |replayed| ==>
        ms[1 + 2 * k] == Message(User, replayed[k].userMessage) && ms[2 + 2 * k] == Message(Assistant, replayed[k].reply)
  {
    var pairs := Pairs(replayed);
    var ms := [Message(System, systemPrompt)] + pairs + [Message(User, last)];
    forall k | 0 <= k < |replayed|
      ensures ms[1 + 2 * k] == Message(User, replayed[k].userMessage)
      ensures ms[2 + 2 * k] == Message(Assistant, replayed[k].reply)
    {
      PairAt(replayed, k);
      assert ms[1 + 2 * k] == pairs[2 * k];
      assert ms[2 + 2 * k] == pairs[2 * k + 1];
    }
  }

  lemma PairAt(turns: seq<Turn>, k: nat)
    requires k < |turns|
    ensures Pairs(turns)[2 * k] == Message(User, turns[k].userMessage)
    ensures Pairs(turns)[2 * k + 1] == Message(Assistant, turns[k].reply)
  {
    PairsAt(turns);
  }

  /** A stored turn of an earlier round is replayed after the earlier ones, and its pair pushed after theirs. */
  lemma ReplayedTurn(messages: seq<Message>, pushed: seq<Message>, replayed: seq<Turn>, chat: seq<Turn>, i: nat, round: int)
    requires i < |chat| && chat[i].round < round
    requires replayed == Replayed(chat[..i], round) && pushed == messages + Pairs(replayed)
    ensures replayed + [chat[i]] == Replayed(chat[..i + 1], round)
    ensures pushed + [Message(User, chat[i].userMessage), Message(Assistant, chat[i].reply)]
      == messages + Pairs(replayed + [chat[i]])
  {
    assert chat[..i + 1][..i] == chat[..i];
    assert (replayed + [chat[i]])[..|replayed|] == replayed;
  }

  /** A stored turn of the request's round or a later one is not replayed. */
  lemma SkippedTurn(replayed: seq<Turn>, chat: seq<Turn>, i: nat, round: int)
    requires i < |chat| && chat[i].round >= round
    requires replayed == Replayed(chat[..i], round)
    ensures replayed == Replayed(chat[..i + 1], round)
  {
    assert chat[..i + 1][..i] == chat[..i];
  }

  /** `let systemPrompt = …`, then its replacement in the experimental case. */
  method SelectSystemPrompt(condition: string, screeningText: string) returns (systemPrompt: string)
    ensures systemPrompt == SystemPrompt(condition, screeningText)
  {
    systemPrompt := if condition == CONTROL then CONTROL_PROMPT else EXPERIMENTAL_PROMPT;
    if condition == EXPERIMENTAL && screeningText != "" {
      systemPrompt := ReplaceFirst(systemPrompt, CONCERNS_TOKEN, screeningText);
    }
  }

  /**
   * The `forEach` over the stored chat: each turn of an earlier round pushes its
   * user and assistant messages onto `messages`, in stored order.
   */
  method PushReplayed(messages: seq<Message>, existingChat: seq<Turn>, round: int) returns (pushed: seq<Message>)
    ensures pushed == messages + Pairs(Replayed(existingChat, round))
  {
    pushed := messages;
    ghost var replayed: seq<Turn> := [];
    for i := 0 to |existingChat|
      invariant replayed == Replayed(existingChat[..i], round)
      invariant pushed == messages + Pairs(replayed)
    {
      var chatEntry := existingChat[i];
      ghost var before := pushed;
      if chatEntry.round < round {
        pushed := pushed + [Message(User, chatEntry.userMessage)];
        pushed := pushed + [Message(Assistant, chatEntry.reply)];
        assert pushed == before + [Message(User, chatEntry.userMessage), Message(Assistant, chatEntry.reply)];
        ReplayedTurn(messages, before, replayed, existingChat, i, round);
        replayed := replayed + [chatEntry];
      } else {
        SkippedTurn(replayed, existingChat, i, round);
      }
    }
    assert existingChat[..|existingChat|] == existingChat;
  }

  /**
   * Builds the context as the handlers do: the system prompt of the condition
   * (control when none is stored) as the first message, then the replayed turns.
   */
  method BuildContext(p: Participant, round: int) returns (messages: seq<Message>)
    ensures messages == Context(p, round)
  {
    var systemPrompt := SelectSystemPrompt(EffectiveCondition(p.condition), p.screeningText);
    messages := [Message(System, systemPrompt)];
    messages := PushReplayed(messages, p.chat, round);
  }

  /** The greeting reply `{reply, round}`. */
  datatype GreetingReply = GreetingReply(reply: string, round: int)

  /**
   * The greeting handler: a missing participant is an error; otherwise the model is
   * asked with the greeting list and its answer is returned with the round. The
   * handler writes nothing, so the stored chat is as before.
   */
  method HandleGreeting(db: Store, participantId: string, round: int, llm: seq<Message> -> string)
    returns (r: Result<GreetingReply, string>)
    ensures participantId !in db ==> r.Failure?
    ensures participantId in db ==>
      r == Success(GreetingReply(llm(GreetingMessages(db[participantId], round)), round))
  {
    if participantId !in db {
      return Failure("participant not found");
    }
    var data := db[participantId];
    var messages := BuildContext(data, round);
    messages := messages + [Message(User, GreetingInstruction(round, EffectiveCondition(data.condition)))];
    var reply := llm(messages);
    return Success(GreetingReply(reply, round));
  }

  /** `existingChat.concat([turn])`: the history with one turn added at the end. */
  function AppendTurn(chat: seq<Turn>, t: Turn): (updated: seq<Turn>)
    ensures |updated| == |chat| + 1
    ensures updated[..|chat|] == chat
    ensures updated[|chat|] == t
  {
    chat + [t]
  }

  /**
   * The turn a chat request appends is not replayed by a later request of the same
   * round (nor any earlier one), but is replayed by every request of a later round,
   * after the turns replayed before.
   */
  lemma ReplayAfterAppend(chat: seq<Turn>, t: Turn, round: int)
    ensures t.round >= round ==> Replayed(AppendTurn(chat, t), round) == Replayed(chat, round)
    ensures t.round < round ==> Replayed(AppendTurn(chat, t), round) == Replayed(chat, round) + [t]
  {
    assert AppendTurn(chat, t)[..|chat|] == chat;
  }

  /**
   * The chat handler: a missing participant is an error and changes nothing;
   * otherwise the model is asked with the chat list, and the participant's history
   * becomes the old one with the new turn at the end. No other field and no other
   * participant changes.
   */
  method HandleChat(db: Store, participantId: string, round: int, userMessage: string, ts: string,
                    llm: seq<Message> -> string)
    returns (db': Store, r: Result<string, string>)
    ensures participantId !in db ==> r.Failure? && db' == db
    ensures participantId in db ==>
      var reply := llm(ChatMessages(db[participantId], round, userMessage));
      && r == Success(reply)
      && db' == db[participantId := db[participantId].(
           chat := AppendTurn(db[participantId].chat, Turn(round, userMessage, reply, ts)))]
  {
    if participantId !in db {
      return db, Failure("participant not found");
    }
    var data := db[participantId];
    var messages := BuildContext(data, round);
    messages := messages + [Message(User, userMessage)];
    var reply := llm(messages);
    var updated := AppendTurn(data.chat, Turn(round, userMessage, reply, ts));
    db' := db[participantId := data.(chat := updated)];
    r := Success(reply);
  }

  /** A successful chat request leaves every other participant, and every other field of this one, as it was. */
  lemma ChatChangesOnlyHistory(db: Store, participantId: string, round: int, userMessage: string, reply: string, ts: string)
    requires participantId in db
    ensures var db' := db[participantId := db[participantId].(
              chat := AppendTurn(db[participantId].chat, Turn(round, userMessage, reply, ts)))];
      && db'.Keys == db.Keys
      && (forall q :: q in db && q != participantId ==> db'[q] == db[q])
      && db'[participantId].(chat := db[participantId].chat) == db[participantId]
      && |db'[participantId].chat| == |db[participantId].chat| + 1
  {
  }
}
