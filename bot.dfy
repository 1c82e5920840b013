/**
 * The poll cycle of the bot (mysterygraphbot.py and
 * mystery_graph_bot/mystery_graph_bot.py): read the stored ETag, ask the
 * server for the graph (conditionally when an ETag is stored), and on a new
 * graph overwrite the counters, save them and announce the change to every
 * whitelisted chat. Without a stored ETag the first graph is recorded silently.
 *
 * The server is a function from request headers to the outcome of the
 * request; the save outcome is a parameter; sends are appended to a log.
 */
module Bot {
  import opened Wrappers
  import opened Serializers
  import opened GraphFetcher
  import opened GraphStore
  import opened Notifier

  /** The graph server, as seen through `requests.get(graph_url, timeout=5, headers=...)`. */
  type Server = Headers -> Exchange

  /** The headers `poll` sends: `If-None-Match` exactly when a non-empty ETag is stored. */
  function RequestHeaders(d: Data): Headers {
    if HasEtag(d) then map["If-None-Match" := d.etag.value] else map[]
  }

  /** The record after a poll that fetched `fetched`. */
  function Updated(d: Data, fetched: Option<Fetched>): Data {
    if fetched.Some? then Counted(fetched.value.etag, fetched.value.graph) else d
  }

  /** The data file after a poll that fetched `fetched`: only a new graph is saved. */
  function FileAfter(file: FileContents, fetched: Option<Fetched>, w: WriteOutcome): FileContents {
    if fetched.Some? then SavedFile(file, Counted(fetched.value.etag, fetched.value.graph), w) else file
  }

  /**
   * The messages announcing that the counters went from `oldNoms` and
   * `oldLiks` to those of `after`: the differences, to every chat.
   */
  function Announcement(chats: seq<ChatId>, oldNoms: int, oldLiks: int, after: Data, layout: Layout): seq<Message>
    requires after.noms.Some? && after.liks.Some?
  {
    Fanout(chats, MessageText(after.noms.value - oldNoms, after.liks.value - oldLiks, layout))
  }

  /** Everything one call of `poll` does. */
  datatype Cycle = Cycle(request: Headers, fetched: Option<Fetched>, record: Data, messages: seq<Message>)

  /** One `poll` from the record `d`. */
  function PollCycle(d: Data, server: Server, decode: Decoder, chats: seq<ChatId>, layout: Layout): Cycle
    requires Consistent(d)
  {
    var request := RequestHeaders(d);
    var fetched := PollGraph(server(request), decode);
    var record := Updated(d, fetched);
    var messages :=
      if HasEtag(d) && fetched.Some? then
        Announcement(chats, d.noms.value, d.liks.value, record, layout)
      else
        [];
    Cycle(request, fetched, record, messages)
  }

  /** The request is conditional exactly when a non-empty ETag is stored, and then carries that ETag. */
  lemma CycleRequest(d: Data, server: Server, decode: Decoder, chats: seq<ChatId>, layout: Layout)
    requires Consistent(d)
    ensures var c := PollCycle(d, server, decode, chats, layout);
      && ("If-None-Match" in c.request <==> HasEtag(d))
      && (HasEtag(d) ==> c.request["If-None-Match"] == d.etag.value)
      && (!HasEtag(d) ==> c.request == map[])
  {
  }

  /**
   * A cycle changes the record exactly by a new graph: the record then holds
   * the new ETag and link counts, and stays complete or empty.
   */
  lemma CycleRecord(d: Data, server: Server, decode: Decoder, chats: seq<ChatId>, layout: Layout)
    requires Consistent(d)
    ensures var c := PollCycle(d, server, decode, chats, layout);
      && Consistent(c.record)
      && (c.fetched.None? ==> c.record == d)
      && (c.fetched.Some? ==> Complete(c.record) && c.record.etag == Some(c.fetched.value.etag))
      && (c.fetched.Some? ==> c.record.liks == Some(CountValue(c.fetched.value.graph.links, "lik")))
      && (c.fetched.Some? ==> c.record.noms == Some(CountValue(c.fetched.value.graph.links, "nom")))
  {
  }

  /** Without a stored ETag the bot never announces anything (the first observation is silent). */
  lemma FirstObservationIsSilent(d: Data, server: Server, decode: Decoder, chats: seq<ChatId>, layout: Layout)
    requires Consistent(d) && !HasEtag(d)
    ensures PollCycle(d, server, decode, chats, layout).messages == []
  {
  }

  /**
   * A cycle announces exactly when an ETag was stored, a new graph was
   * fetched and the whitelist is not empty.
   */
  lemma CycleAnnouncesWhen(d: Data, server: Server, decode: Decoder, chats: seq<ChatId>, layout: Layout)
    requires Consistent(d)
    ensures PollCycle(d, server, decode, chats, layout).messages != [] <==>
      HasEtag(d) && PollCycle(d, server, decode, chats, layout).fetched.Some? && |chats| > 0
  {
    var c := PollCycle(d, server, decode, chats, layout);
    if HasEtag(d) && c.fetched.Some? {
      var dn := c.record.noms.value - d.noms.value;
      var dl := c.record.liks.value - d.liks.value;
      FanoutReachesEachChat(chats, MessageText(dn, dl, layout));
    }
  }

  /**
   * An announcing cycle sends every chat one message, in order, with the new
   * counters minus the ones read before polling.
   */
  lemma CycleAnnouncesDeltas(d: Data, server: Server, decode: Decoder, chats: seq<ChatId>, layout: Layout)
    requires Consistent(d) && HasEtag(d)
    requires PollCycle(d, server, decode, chats, layout).fetched.Some?
    ensures var c := PollCycle(d, server, decode, chats, layout);
      var text := MessageText(c.record.noms.value - d.noms.value, c.record.liks.value - d.liks.value, layout);
      Announces(c.messages, chats, text)
  {
    var c := PollCycle(d, server, decode, chats, layout);
    var text := MessageText(c.record.noms.value - d.noms.value, c.record.liks.value - d.liks.value, layout);
    assert c.messages == Fanout(chats, text);
    FanoutReachesEachChat(chats, text);
  }

  /**
   * A failed request, or any response but a usable 200, leaves the record
   * alone and announces nothing: 304 Not Modified, errors, an undecodable
   * body, a missing ETag.
   */
  lemma UnusableAnswerIsIdle(d: Data, server: Server, decode: Decoder, chats: seq<ChatId>, layout: Layout)
    requires Consistent(d)
    requires var e := server(RequestHeaders(d));
      !e.Received? || e.response.statusCode != 200 || decode(e.response.text).None? || "ETag" !in e.response.headers
    ensures PollCycle(d, server, decode, chats, layout).record == d
    ensures PollCycle(d, server, decode, chats, layout).messages == []
  {
  }

  /** A server that answers 304 Not Modified whenever it is sent the ETag `etag`. */
  ghost predicate HonoursEtag(server: Server, etag: string) {
    forall h: Headers :: "If-None-Match" in h && h["If-None-Match"] == etag ==>
      server(h).Received? && server(h).response.statusCode == 304
  }

  /**
   * Polling twice against a server whose graph did not change in between:
   * the second cycle sends the ETag the first one stored, gets 304, and
   * neither changes the record nor announces anything.
   */
  lemma SecondPollIsIdle(d: Data, server: Server, decode: Decoder, chats: seq<ChatId>, layout: Layout)
    requires Consistent(d)
    requires var c := PollCycle(d, server, decode, chats, layout);
      c.fetched.Some? && c.fetched.value.etag != "" && HonoursEtag(server, c.fetched.value.etag)
    ensures var c := PollCycle(d, server, decode, chats, layout);
      && PollCycle(c.record, server, decode, chats, layout).record == c.record
      && PollCycle(c.record, server, decode, chats, layout).messages == []
  {
    var c := PollCycle(d, server, decode, chats, layout);
    var h := RequestHeaders(c.record);
    assert h == map["If-None-Match" := c.fetched.value.etag];
    assert server(h).Received? && server(h).response.statusCode == 304;
  }

  /** How `update_data_with_response` of mysterygraphbot.py ends, as written. */
  datatype Outcome = Rejected | Accepted(fetched: Fetched) | RaisedKeyError

  /**
   * `update_data_with_response` of mysterygraphbot.py as written: the body is
   * decoded, then `response.headers['ETag']` is read with no handler for
   * `KeyError`, which therefore propagates out of `poll`.
   */
  function UpdateDataWithResponseAsWritten(response: Response, decode: Decoder): Outcome {
    match decode(response.text)
    case None => Rejected
    case Some(graph) =>
      if "ETag" in response.headers then Accepted(Fetched(response.headers["ETag"], graph)) else RaisedKeyError
  }

  /**
   * The discrepancy, exhibited: a decodable 200 body without an `ETag` header
   * makes the code as written raise, where the intended behaviour (the
   * `..._with_no_etag` test and `parse_graph_from_response`) is to reject it.
   */
  lemma MissingEtagRaises(response: Response, decode: Decoder)
    requires decode(response.text).Some? && "ETag" !in response.headers
    ensures UpdateDataWithResponseAsWritten(response, decode) == RaisedKeyError
    ensures ParseGraphFromResponse(response, decode) == None
  {
  }

  /** Whenever the code as written does not raise, it agrees with the corrected rejection rule. */
  lemma AsWrittenAgreesWhenNotRaising(response: Response, decode: Decoder)
    requires UpdateDataWithResponseAsWritten(response, decode) != RaisedKeyError
    ensures UpdateDataWithResponseAsWritten(response, decode) == Rejected <==> ParseGraphFromResponse(response, decode) == None
    ensures UpdateDataWithResponseAsWritten(response, decode).Accepted? ==>
      ParseGraphFromResponse(response, decode) == Some(UpdateDataWithResponseAsWritten(response, decode).fetched)
  {
  }

  /** `MysteryGraphBot(graph_data, config)`: the bot over its record store. */
  class MysteryGraphBot {
    const store: GraphData
    const chatWhitelist: seq<ChatId>
    const layout: Layout          // the message template, pointing at the visualization link
    var sent: seq<Message>       // what the Telegram bot has been asked to send
    ghost var requests: seq<Headers>   // the headers of every request made so far

    /** The record is complete or empty, as every load and update leaves it. */
    ghost predicate Valid()
      reads this, store
    {
      Consistent(store.Current())
    }

    constructor(store: GraphData, chatWhitelist: seq<ChatId>, visualizationUrl: string)
      requires Consistent(store.Current())
      ensures Valid()
      ensures this.store == store && this.chatWhitelist == chatWhitelist && layout == BotLayout(visualizationUrl)
      ensures sent == [] && requests == []
    {
      this.store := store;
      this.chatWhitelist := chatWhitelist;
      layout := BotLayout(visualizationUrl);
      sent := [];
      requests := [];
    }

    /** `update_data`: count the links, overwrite the three fields, then save. */
    method UpdateData(etag: string, graph: Graph, w: WriteOutcome)
      modifies store
      ensures store.Current() == Counted(etag, graph)
      ensures store.file == SavedFile(old(store.file), Counted(etag, graph), w)
    {
      var liks := CountValue(graph.links, "lik");
      var noms := CountValue(graph.links, "nom");
      store.SetItem(Etag(Some(etag)));
      store.SetItem(Liks(Some(liks)));
      store.SetItem(Noms(Some(noms)));
      store.Save(w);
    }

    /**
     * `update_data_with_response`, with a missing `ETag` rejected like an
     * undecodable body (see `UpdateDataWithResponseAsWritten`).
     */
    method UpdateDataWithResponse(response: Response, decode: Decoder, w: WriteOutcome) returns (ok: bool)
      modifies store
      ensures ok == ParseGraphFromResponse(response, decode).Some?
      ensures !ok ==> unchanged(store)
      ensures store.Current() == Updated(old(store.Current()), ParseGraphFromResponse(response, decode))
      ensures store.file == FileAfter(old(store.file), ParseGraphFromResponse(response, decode), w)
    {
      match ParseGraphFromResponse(response, decode)
      case None =>
        ok := false;
      case Some(fetched) =>
        UpdateData(fetched.etag, fetched.graph, w);
        ok := true;
    }

    /** `handle_http_graph_response`: only a 200 response is handed on. */
    method HandleHttpGraphResponse(response: Response, decode: Decoder, w: WriteOutcome) returns (ok: bool)
      modifies store
      ensures ok == GraphFetcher.HandleHttpGraphResponse(response, decode).Some?
      ensures !ok ==> unchanged(store)
      ensures store.Current() == Updated(old(store.Current()), GraphFetcher.HandleHttpGraphResponse(response, decode))
      ensures store.file == FileAfter(old(store.file), GraphFetcher.HandleHttpGraphResponse(response, decode), w)
    {
      match Classify(response.statusCode)
      case Success =>
        ok := UpdateDataWithResponse(response, decode, w);
      case _ =>
        ok := false;
    }

    /** `bare_poll`: a transport failure is logged and reported as no update. */
    method BarePoll(headers: Headers, server: Server, decode: Decoder, w: WriteOutcome) returns (ok: bool)
      modifies this`requests, store
      ensures requests == old(requests) + [headers]
      ensures ok == PollGraph(server(headers), decode).Some?
      ensures !ok ==> unchanged(store)
      ensures store.Current() == Updated(old(store.Current()), PollGraph(server(headers), decode))
      ensures store.file == FileAfter(old(store.file), PollGraph(server(headers), decode), w)
    {
      requests := requests + [headers];
      match server(headers)
      case Received(response) =>
        ok := HandleHttpGraphResponse(response, decode, w);
      case _ =>
        ok := false;
    }

    method SendChangesToChat(chat: ChatId, deltaNoms: int, deltaLiks: int)
      modifies this`sent
      ensures sent == old(sent) + [Message(chat, MessageText(deltaNoms, deltaLiks, layout))]
    {
      sent := sent + [Message(chat, MessageText(deltaNoms, deltaLiks, layout))];
    }

    /** `send_changes`: the current counters minus the given ones, to every whitelisted chat in order. */
    method SendChanges(oldNoms: int, oldLiks: int)
      requires store.Current().noms.Some? && store.Current().liks.Some?
      modifies this`sent, store`cache, store`loads
      ensures store.Current() == old(store.Current()) && store.file == old(store.file)
      ensures sent == old(sent) + Announcement(chatWhitelist, oldNoms, oldLiks, store.Current(), layout)
    {
      var noms := store.GetItem(NomsKey);
      var liks := store.GetItem(LiksKey);
      var deltaNoms := noms.noms.value - oldNoms;
      var deltaLiks := liks.liks.value - oldLiks;
      ghost var text := MessageText(deltaNoms, deltaLiks, layout);
      var i := 0;
      while i < |chatWhitelist|
        modifies this`sent
        invariant 0 <= i <= |chatWhitelist|
        invariant sent == old(sent) + Fanout(chatWhitelist[..i], text)
      {
        assert chatWhitelist[..i + 1][..i] == chatWhitelist[..i];
        SendChangesToChat(chatWhitelist[i], deltaNoms, deltaLiks);
        i := i + 1;
      }
      assert chatWhitelist[..i] == chatWhitelist;
    }

    /** `poll_and_send_changes`: read the counters, poll, and announce only a new graph. */
    method PollAndSendChanges(headers: Headers, server: Server, decode: Decoder, w: WriteOutcome)
      requires store.Current().noms.Some? && store.Current().liks.Some?
      modifies this`sent, this`requests, store
      ensures requests == old(requests) + [headers]
      ensures store.Current() == Updated(old(store.Current()), PollGraph(server(headers), decode))
      ensures store.file == FileAfter(old(store.file), PollGraph(server(headers), decode), w)
      ensures sent == old(sent) +
        if PollGraph(server(headers), decode).Some? then
          Announcement(chatWhitelist, old(store.Current()).noms.value, old(store.Current()).liks.value, store.Current(), layout)
        else
          []
    {
      ghost var before := store.Current();
      var oldNoms := store.GetItem(NomsKey);
      var oldLiks := store.GetItem(LiksKey);
      assert oldNoms.noms == before.noms && oldLiks.liks == before.liks;
      var ok := BarePoll(headers, server, decode, w);
      if ok {
        SendChanges(oldNoms.noms.value, oldLiks.liks.value);
      }
    }

    /** `poll`: one full cycle, as `PollCycle` describes it. */
    method Poll(server: Server, decode: Decoder, w: WriteOutcome)
      requires Valid()
      modifies this`sent, this`requests, store
      ensures Valid()
      ensures var c := PollCycle(old(store.Current()), server, decode, chatWhitelist, layout);
        && requests == old(requests) + [c.request]
        && store.Current() == c.record
        && sent == old(sent) + c.messages
        && store.file == FileAfter(old(store.file), c.fetched, w)
    {
      ghost var d := store.Current();
      ghost var c := PollCycle(d, server, decode, chatWhitelist, layout);
      var etag := store.GetItem(EtagKey);
      if etag.etag.None? || etag.etag.value == "" {
        assert c.request == map[] && c.messages == [];
        var _ := BarePoll(map[], server, decode, w);
      } else {
        assert c.request == map["If-None-Match" := etag.etag.value];
        PollAndSendChanges(map["If-None-Match" := etag.etag.value], server, decode, w);
      }
    }
  }
}
