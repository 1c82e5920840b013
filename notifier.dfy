/**
 * Telling the whitelisted chats about a change (mystery_graph_bot/graph_notifier.py,
 * and `send_changes`/`send_changes_to_chat` of mysterygraphbot.py): one HTML
 * message per chat, in whitelist order, each saying how the counters moved.
 * Telegram itself is not modelled: a send appends the message to a log.
 */
module Notifier {
  import opened Wrappers
  import opened Text
  import opened HumanDelta

  /** A chat identifier as the whitelist holds it: a name or a number. */
  datatype ChatId = ChatName(name: string) | ChatNumber(number: int)

  /** One `sendMessage(chat_id=..., text=..., parse_mode='HTML')`. */
  datatype Message = Message(chat: ChatId, text: string)

  const Heading: string :=
    "<b>mystery</b>\n"
    + "&#160;&#160;&#160;&#160;&#160;&#160;&#160;&#160;"
    + "<b>asbolutely no way</b>\n"
    + "The Mystery Graph has just been updated! "
    + "Overall, now it has "

  /** The text after the change summary, up to the link target. */
  const LinkOpening: string := ".\nCheck it out <a href=\""

  const LinkClosing: string := "\">here</a>!"

  /** The fixed parts of a notification around the change summary, and the link it points to. */
  datatype Layout = Layout(heading: string, linkOpening: string, url: string, linkClosing: string)

  /** The layout of `send_changes_to_chat`, linking to the graph visualization at `url`. */
  function BotLayout(url: string): Layout {
    Layout(Heading, LinkOpening, url, LinkClosing)
  }

  /** The message template, filled in with the change summary. */
  function MessageText(deltaNoms: int, deltaLiks: int, layout: Layout): string {
    layout.heading + GetHumanDelta(deltaNoms, deltaLiks) + layout.linkOpening + layout.url + layout.linkClosing
  }

  /** The template keeps the change summary recoverable: equal texts have equal summaries. */
  lemma FilledTemplateInjective(h1: string, h2: string, layout: Layout)
    requires layout.heading + h1 + layout.linkOpening + layout.url + layout.linkClosing
          == layout.heading + h2 + layout.linkOpening + layout.url + layout.linkClosing
    ensures h1 == h2
  {
    var n := |layout.heading|;
    var t1 := layout.heading + h1 + layout.linkOpening + layout.url + layout.linkClosing;
    var t2 := layout.heading + h2 + layout.linkOpening + layout.url + layout.linkClosing;
    assert |h1| == |h2|;
    assert t1[n..n + |h1|] == h1;
    assert t2[n..n + |h2|] == h2;
  }

  /** A message names the changes it announces: different deltas give different texts. */
  lemma MessageTextDeterminesDeltas(dn1: int, dl1: int, dn2: int, dl2: int, layout: Layout)
    requires MessageText(dn1, dl1, layout) == MessageText(dn2, dl2, layout)
    ensures dn1 == dn2 && dl1 == dl2
  {
    FilledTemplateInjective(GetHumanDelta(dn1, dl1), GetHumanDelta(dn2, dl2), layout);
    HumanDeltaRoundTrip(dn1, dl1);
    HumanDeltaRoundTrip(dn2, dl2);
  }

  /** The messages of one announcement: the same text to every chat, in order. */
  function Fanout(chats: seq<ChatId>, text: string): seq<Message>
    decreases |chats|
  {
    if |chats| == 0 then
      []
    else
      Fanout(chats[..|chats| - 1], text) + [Message(chats[|chats| - 1], text)]
  }

  /** One message per chat, in order, all with the same text. */
  predicate Announces(messages: seq<Message>, chats: seq<ChatId>, text: string) {
    |messages| == |chats| && forall i :: 0 <= i < |chats| ==> messages[i] == Message(chats[i], text)
  }

  /** Every chat gets exactly one message, in whitelist order, all with the same text. */
  lemma {:induction false} FanoutReachesEachChat(chats: seq<ChatId>, text: string)
    ensures Announces(Fanout(chats, text), chats, text)
    decreases |chats|
  {
    if |chats| > 0 {
      FanoutReachesEachChat(chats[..|chats| - 1], text);
    }
  }

  /** The two-chat example of the `send_changes` test. */
  lemma FanoutExample(layout: Layout)
    ensures Fanout([ChatNumber(1234), ChatNumber(5678)], MessageText(5, 6, layout))
      == [Message(ChatNumber(1234), MessageText(5, 6, layout)), Message(ChatNumber(5678), MessageText(5, 6, layout))]
  {
    var chats := [ChatNumber(1234), ChatNumber(5678)];
    assert chats[..1] == [ChatNumber(1234)];
    assert chats[..1][..0] == [];
  }

  /** The counters of one record as `on_next` reads them. */
  datatype Counts = Counts(noms: int, liks: int)

  /** A validated `{'new': ..., 'old': ...}` pair (`current` and `previous` here); a missing or empty `old` is `None`. */
  datatype DataPair = DataPair(current: Counts, previous: Option<Counts>)

  /**
   * What `on_next` sends for its input; `None` is input that failed
   * validation, which is only logged.
   */
  function Reaction(input: Option<DataPair>, chats: seq<ChatId>, layout: Layout): seq<Message> {
    if input.None? || input.value.previous.None? then []
    else
      var current, previous := input.value.current, input.value.previous.value;
      Fanout(chats, MessageText(current.noms - previous.noms, current.liks - previous.liks, layout))
  }

  /** `on_next` sends nothing for input that fails validation or has no previous record. */
  lemma ReactionSilent(input: Option<DataPair>, chats: seq<ChatId>, layout: Layout)
    requires input.None? || input.value.previous.None?
    ensures Reaction(input, chats, layout) == []
  {
  }

  /**
   * Otherwise `on_next` announces to every chat once, in order, with the new
   * counters minus the old.
   */
  lemma ReactionAnnounces(input: Option<DataPair>, chats: seq<ChatId>, layout: Layout)
    requires input.Some? && input.value.previous.Some?
    ensures var current, previous := input.value.current, input.value.previous.value;
      Announces(Reaction(input, chats, layout), chats,
        MessageText(current.noms - previous.noms, current.liks - previous.liks, layout))
  {
    var current, previous := input.value.current, input.value.previous.value;
    FanoutReachesEachChat(chats, MessageText(current.noms - previous.noms, current.liks - previous.liks, layout));
  }

  /** `GraphNotifier(bot, chats)`, with the visualization link it reads. */
  class GraphNotifier {
    const chats: seq<ChatId>
    const layout: Layout      // the message template, pointing at the visualization link
    var sent: seq<Message>   // what the Telegram bot has been asked to send

    constructor(chats: seq<ChatId>, visualizationUrl: string)
      ensures this.chats == chats && layout == BotLayout(visualizationUrl) && sent == []
    {
      this.chats := chats;
      layout := BotLayout(visualizationUrl);
      sent := [];
    }

    method SendChangesToChat(chat: ChatId, deltaNoms: int, deltaLiks: int)
      modifies this`sent
      ensures sent == old(sent) + [Message(chat, MessageText(deltaNoms, deltaLiks, layout))]
    {
      sent := sent + [Message(chat, MessageText(deltaNoms, deltaLiks, layout))];
    }

    method OnNext(input: Option<DataPair>)
      modifies this`sent
      ensures sent == old(sent) + Reaction(input, chats, layout)
    {
      if input.None? {
        return;
      }
      var pair := input.value;
      if pair.previous.None? {
        return;
      }
      var deltaNoms := pair.current.noms - pair.previous.value.noms;
      var deltaLiks := pair.current.liks - pair.previous.value.liks;
      ghost var text := MessageText(deltaNoms, deltaLiks, layout);
      var i := 0;
      while i < |chats|
        invariant 0 <= i <= |chats|
        invariant sent == old(sent) + Fanout(chats[..i], text)
      {
        assert chats[..i + 1][..i] == chats[..i];
        SendChangesToChat(chats[i], deltaNoms, deltaLiks);
        i := i + 1;
      }
      assert chats[..i] == chats;
    }
  }
}
