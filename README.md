# MysteryGraphBot, modelled in Dafny

MysteryGraphBot is a Telegram bot that polls a remote JSON graph (links
carrying the value `"lik"` or `"nom"`), keeps the counters of the last graph it
saw in a small JSON file, and tells every whitelisted chat how many liks and
noms were gained or lost since. The repository carries the bot twice: the
monolith `mysterygraphbot.py` and the split package `mystery_graph_bot/`
(a bot class over an injected record store, a fetcher, a notifier and the
store itself), plus an entry script that reports a malformed configuration.

This project models the core they share:

- `human_delta.dfy` (`HumanDelta`): the summary sentence `get_human_delta`,
  with a reader for it and a proof that printing and reading are inverse.
- `graph_fetcher.dfy` (`GraphFetcher`): the priority-ordered status-code
  split, and the `{etag, graph}` result of a usable 200 response.
- `serializers.dfy` (`Serializers`): the record shapes and the link counters
  `update_data` derives.
- `graph_data.dfy` (`GraphStore`): the lazily loaded record store
  `GraphData` (and the identical `data` property and `save_data` of the
  monolith), with the file as a value and each write's outcome as a parameter.
- `notifier.dfy` (`Notifier`): the notification message and the fan-out to
  every chat in whitelist order (`GraphNotifier` and the monolith's
  `send_changes`).
- `bot.dfy` (`Bot`): one poll cycle as a pure function `PollCycle`, and the
  class `MysteryGraphBot` whose methods follow the source method by method and
  are proved to do what `PollCycle` says.
- `error_paths.dfy` (`ErrorPaths`): `path_to_string` and the depth-first
  walk that turns a nested schema-error object into ` - path : messages`
  lines.
- `text.dfy` (`Text`) and `wrappers.dfy` (`Wrappers`): `str(n)`, `Option`,
  and a join on a separator with its inverse, the split. The bot builds its
  summary with `str.format` and never splits; `Join` and `Split` serve the
  model's own reader of that summary, which shows it is unambiguous.

The outside world enters as values: the graph server is a function from
request headers to the outcome of the request (a response, or a connection
error, timeout or redirect overflow), JSON decoding against the `Graph` schema
is a function `string -> Option<Graph>`, the data file is a `FileContents`
value, each save's outcome is a `WriteOutcome`, and Telegram sends are
appended to a `sent` log.

## Model

| member | source | states |
|---|---|---|
| `HumanDelta.GetHumanDelta` | mysterygraphbot.py:66-85 | `get_human_delta`: "no changes (?)" for two zero deltas, else the liks clause, the noms clause, or both joined by " and "; its contract is carried by `HumanDeltaRoundTrip` and `ReadHumanDeltaCanonical` (inverted by `ReadHumanDelta`), `HumanDeltaNoChanges` and `HumanDeltaWords` |
| `HumanDelta.Clause` | mysterygraphbot.py:70-78 | one `"{} {} {}"` clause: absolute count, more/less, singular or plural noun; carried by `ClauseSplits`, `ReadClauseWords` and `ReadClauseCanonical` |
| `HumanDelta.HumanDeltaRoundTrip` | mysterygraphbot.py:66-85 | every pair of deltas gets a sentence that reads back as exactly that pair: no two deltas share a summary, so clause choice, order, counts, more/less and singular/plural together determine the deltas |
| `HumanDelta.ReadHumanDeltaCanonical` | mysterygraphbot.py:66-85 | every sentence the reader accepts is the one `get_human_delta` prints for what it reads (the reader is a right inverse too) |
| `HumanDelta.HumanDeltaNoChanges` | mysterygraphbot.py:67-68 | the summary is "no changes (?)" if and only if both deltas are zero |
| `HumanDelta.HumanDeltaWords` | mysterygraphbot.py:70-85 | word by word: only the liks clause when noms did not move, only the noms clause when liks did not move, otherwise liks clause, "and", noms clause (liks first although noms is the first argument); each clause is the absolute count, "more" exactly for a gain, singular exactly for a count of one |
| `HumanDelta.ReadLiksOnly` | mysterygraphbot.py:77-78 | a liks-only sentence reads back as (0, delta_liks) |
| `HumanDelta.ReadNomsOnly` | mysterygraphbot.py:79-80 | a noms-only sentence reads back as (delta_noms, 0), never as a liks clause |
| `HumanDelta.ReadBoth` | mysterygraphbot.py:81-85 | the two-clause sentence reads back as both deltas |
| `HumanDelta.ClauseSplits` | mysterygraphbot.py:78 | a clause is exactly three space-free words: count, modifier, noun |
| `HumanDelta.ReadClauseWords` | mysterygraphbot.py:70-75 | a clause for a non-zero delta reads back as that delta, sign included |
| `HumanDelta.ReadClauseCanonical` | mysterygraphbot.py:70-75 | a clause the reader accepts is the one printed for what it read, and its delta is non-zero |
| `HumanDelta.ClauseWordsSeparable` | mysterygraphbot.py:70-78 | with space-free nouns, no word of a clause contains a space, so splitting the sentence finds the words again |
| `HumanDelta.ClauseIsNotNoChanges` | mysterygraphbot.py:67-68 | no sentence with a clause can be mistaken for "no changes (?)" |
| `HumanDeltaExamples.HumanDeltaExamplesGain` | test_mysterygraphbot.py:110-113 | (5, 5) prints "5 more liks and 5 more noms" |
| `HumanDeltaExamples.HumanDeltaExamplesLoss` | test_mysterygraphbot.py:114-117 | (-5, -5) prints "5 less liks and 5 less noms" |
| `HumanDeltaExamples.HumanDeltaExamplesLiks` | test_mysterygraphbot.py:118-133 | the liks-only sentences and "no changes (?)" of the test suite |
| `HumanDeltaExamples.HumanDeltaExamplesNom` | test_mysterygraphbot.py:134-137 | (1, 0) prints the singular "1 more nom" |
| `HumanDeltaExamples.HumanDeltaExamplesNoms` | test_mysterygraphbot.py:138-145 | (2, 0) and (-4, 0) print "2 more noms" and "4 less noms" |
| `Text.NatToString` | mysterygraphbot.py:78 | `str(n)` of a natural number, digits most significant first; carried by `NatToStringCanonical`, `ParseNatOfNatToString` and `NatToStringOfParseNat` |
| `Text.IntToString` | mysterygraphbot.py:78 | `str(i)` of any integer: never empty, and starts with a minus sign exactly for a negative number |
| `Text.NatToStringCanonical` | mysterygraphbot.py:78 | `str(n)` of a natural number is canonical decimal (no leading zero) and is "0" only for zero |
| `Text.ParseNatOfNatToString` | mysterygraphbot.py:78 | reading the decimal digits of `str(n)` gives back `n` |
| `Text.NatToStringOfParseNat` | mysterygraphbot.py:78 | canonical digits are exactly `str` of the number they denote |
| `Text.SplitOfJoin` | mysterygraphbot.py:82-85 | for the reader of the sentence printed there: splitting on a separator undoes joining pieces that do not contain it |
| `Text.JoinOfSplit` | mysterygraphbot.py:82-85 | for the reader of the sentence printed there: joining the pieces of a split gives back the string |
| `Text.JoinAround` | mysterygraphbot.py:82-85 | for the reader of the two-clause sentence printed there: joining a word between two non-empty lists puts a separator on each side of it |
| `Serializers.CountValue` | mysterygraphbot.py:153-154 | the `sum(1 for link ... if link['value'] == ...)` count; carried by `CountValueIsMultiplicity`, `CountValueAppend`, `CountValueUniform` and `CountTwoValuesBounded` |
| `Serializers.CountValueIsMultiplicity` | mysterygraphbot.py:153-154 | the count of links with a value is the multiplicity of that value among the link values: duplicates count, other values are ignored |
| `Serializers.CountValueAppend` | mysterygraphbot.py:153-154 | counting distributes over concatenated link lists |
| `Serializers.CountValueUniform` | mysterygraphbot.py:153-154 | a list whose links all carry the value counts all of them; one where none does counts zero |
| `Serializers.CountTwoValuesBounded` | mysterygraphbot.py:153-154 | liks plus noms never exceed the number of links |
| `Serializers.Counted` | mysterygraphbot.py:152-157 | the record written for a new graph is complete and carries the given ETag |
| `Serializers.CountedExample` | test_mysterygraphbot.py:395-425 | the test graph with two "lik" and five "nom" links gives liks 2, noms 5 |
| `GraphFetcher.Classify` | mystery_graph_bot/graph_fetcher.py:43-72 | the branch taken, as a range condition per branch: 200 alone succeeds; 5xx before 404, so 404 is never generic 4xx; 304 only as neither 4xx nor 5xx; all else unexpected |
| `GraphFetcher.ClassifyExamples` | mystery_graph_bot/tests/test_mystery_graph_bot.py:236-260 | the status codes of the tests (200, 500, 404, 304, 400, 320) take their expected branches |
| `GraphFetcher.ParseGraphFromResponse` | mystery_graph_bot/graph_fetcher.py:74-91 | a result exactly when the body decodes against the Graph schema and an ETag header is present; then it is that ETag and that graph; an undecodable body or a missing ETag gives none |
| `GraphFetcher.HandleHttpGraphResponse` | mystery_graph_bot/graph_fetcher.py:42-72 | every status other than 200 gives no result; 200 gives what parsing gives |
| `GraphFetcher.PollGraph` | mystery_graph_bot/graph_fetcher.py:28-40 | `poll_graph`: a received response is handled, a caught transport exception gives nothing; carried by `PollGraphReports` |
| `GraphFetcher.PollGraphReports` | mystery_graph_bot/graph_fetcher.py:28-40 | a poll reports a graph exactly when a 200 response arrived whose body decodes to it and whose ETag is the reported one; a connection error, timeout or redirect overflow reports nothing |
| `GraphStore.Load` | mystery_graph_bot/graph_data.py:23-40 | whatever the file holds, the loaded record is complete or all-null |
| `GraphStore.LoadFallsBack` | mystery_graph_bot/graph_data.py:30-39 | a missing, unreadable, non-JSON or incomplete file loads as the all-null record |
| `GraphStore.SavedFile` | mystery_graph_bot/graph_data.py:46-54 | the file after the corrected save, per write outcome; carried by `SaveThenLoad`, `FailedOpenKeepsFile` and `FailedDumpLosesRecord` |
| `GraphStore.SavedFileAsWritten` | mystery_graph_bot/graph_data.py:46-54 | the file after the save as written, which dumps the all-null record for a store never read; carried by `SaveBeforeFirstReadLosesRecord` and `SaveAgreesOnceLoaded` |
| `GraphStore.SaveThenLoad` | mystery_graph_bot/graph_data.py:46-49 | a complete or empty record saved successfully loads back unchanged |
| `GraphStore.FailedOpenKeepsFile` | mystery_graph_bot/graph_data.py:50-54 | a save whose open fails leaves the file, and the next load, as before |
| `GraphStore.FailedDumpLosesRecord` | mystery_graph_bot/graph_data.py:48-54 | a dump that fails after the file was opened for writing leaves a file that loads as the all-null record: the write is not atomic |
| `GraphStore.SaveBeforeFirstReadLosesRecord` | mystery_graph_bot/graph_data.py:46-49 | as written, saving a store that was never read overwrites a complete record on disk with nulls; reading first writes it back unchanged |
| `GraphStore.SaveAgreesOnceLoaded` | mystery_graph_bot/graph_data.py:46-49 | once the record is cached, the save as written and the corrected save write the same file |
| `GraphStore.Get` | mystery_graph_bot/graph_data.py:17-18 | reading a key yields the field of that key |
| `GraphStore.With` | mystery_graph_bot/graph_data.py:20-21 | `__setitem__` on a record value; carried by `WithChangesOnlyItsKey` |
| `GraphStore.WithChangesOnlyItsKey` | mystery_graph_bot/graph_data.py:20-21 | writing a key changes that key and no other |
| `GraphStore.GraphData.constructor` | mystery_graph_bot/graph_data.py:13-15 | a new store has read nothing yet; its record is what loading the file gives |
| `GraphStore.GraphData.GetData` | mystery_graph_bot/graph_data.py:23-40 | returns the record; the file is read on the first access only, later accesses return the cached record |
| `GraphStore.GraphData.SetData` | mystery_graph_bot/graph_data.py:42-44 | the given record becomes the cached one |
| `GraphStore.GraphData.GetItem` | mystery_graph_bot/graph_data.py:17-18 | returns the key's field of the record, loading it first if needed, and changes no value |
| `GraphStore.GraphData.SetItem` | mystery_graph_bot/graph_data.py:20-21 | the record afterwards is the old one with only that key replaced |
| `GraphStore.GraphData.Save` | mystery_graph_bot/graph_data.py:46-54 | the corrected save: the file afterwards holds the record on success, is untouched when opening fails, is garbage when dumping fails; the in-memory record is unchanged |
| `GraphStore.GraphData.SaveAsWritten` | mystery_graph_bot/graph_data.py:46-54 | the save as written: the file is truncated before the record is first loaded, so an unread store writes, and caches, the all-null record |
| `Notifier.MessageText` | mystery_graph_bot/graph_notifier.py:37-48 | the HTML template filled with the change summary and the visualization link; carried by `MessageTextDeterminesDeltas` and `FilledTemplateInjective` |
| `Notifier.Fanout` | mystery_graph_bot/graph_notifier.py:31-32 | the messages of the loop over the chats; carried by `FanoutReachesEachChat` and `FanoutExample` |
| `Notifier.Reaction` | mystery_graph_bot/graph_notifier.py:18-32 | what `on_next` sends for its input; carried by `ReactionSilent` and `ReactionAnnounces`, and `GraphNotifier.OnNext` is proved to send it |
| `Notifier.MessageTextDeterminesDeltas` | mystery_graph_bot/graph_notifier.py:34-49 | two notification texts for the same link are equal only for equal deltas: the message names the change it announces |
| `Notifier.FilledTemplateInjective` | mystery_graph_bot/graph_notifier.py:37-48 | the HTML template keeps the summary recoverable: equal filled texts have equal summaries |
| `Notifier.FanoutReachesEachChat` | mystery_graph_bot/graph_notifier.py:31-32 | an announcement is one message per chat, in whitelist order, each with the same text: as many messages as chats, the i-th to the i-th chat |
| `Notifier.FanoutExample` | test_mysterygraphbot.py:172-181 | chats 1234 and 5678 get the (5, 6) message in that order |
| `Notifier.ReactionSilent` | mystery_graph_bot/graph_notifier.py:18-30 | input that fails validation or has no previous record sends nothing |
| `Notifier.ReactionAnnounces` | mystery_graph_bot/graph_notifier.py:18-32 | input with a previous record makes every chat get one message, in order, with new minus old noms and liks |
| `Notifier.GraphNotifier.constructor` | mystery_graph_bot/graph_notifier.py:14-16 | a notifier over the given chats, whose template links to the given visualization, has sent nothing |
| `Notifier.GraphNotifier.SendChangesToChat` | mystery_graph_bot/graph_notifier.py:34-49 | appends exactly one message to the chat, the filled template |
| `Notifier.GraphNotifier.OnNext` | mystery_graph_bot/graph_notifier.py:18-32 | sends exactly what `Reaction` describes, appended after everything sent before |
| `Bot.RequestHeaders` | mysterygraphbot.py:27-31 | the headers of one poll; carried by `CycleRequest` |
| `Bot.PollCycle` | mysterygraphbot.py:27-47 | corrected rule (see ## Findings): one poll cycle as a value (request, record, messages, file); carried by `CycleRequest`, `CycleRecord`, `FirstObservationIsSilent`, `CycleAnnouncesWhen`, `CycleAnnouncesDeltas`, `UnusableAnswerIsIdle` and `SecondPollIsIdle`, and `MysteryGraphBot.Poll` is proved to do it |
| `Bot.CycleRequest` | mysterygraphbot.py:27-31 | a poll is conditional (`If-None-Match`) exactly when a non-empty ETag is stored, and then carries that ETag; otherwise it sends no headers |
| `Bot.CycleRecord` | mysterygraphbot.py:152-157 | a cycle changes the record only by a new graph, which sets the ETag and both counts together; the record stays complete or all-null |
| `Bot.FirstObservationIsSilent` | mysterygraphbot.py:28-29 | without a stored ETag nothing is announced |
| `Bot.CycleAnnouncesWhen` | mysterygraphbot.py:33-39 | a cycle announces if and only if an ETag was stored, a new graph arrived and the whitelist is not empty |
| `Bot.CycleAnnouncesDeltas` | mysterygraphbot.py:41-47 | an announcing cycle sends each whitelisted chat one message, in order, with the new counters minus those read before polling |
| `Bot.UnusableAnswerIsIdle` | mysterygraphbot.py:87-133 | corrected rule (see ## Findings): a transport failure, a non-200 status (304 included), an undecodable body or a missing ETag leaves the record alone and announces nothing |
| `Bot.SecondPollIsIdle` | mysterygraphbot.py:27-39 | after a cycle that stored a new ETag, polling a server that answers 304 for that ETag changes nothing and announces nothing |
| `Bot.UpdateDataWithResponseAsWritten` | mysterygraphbot.py:135-150 | the accept/reject/raise outcome of `update_data_with_response` as written; carried by `MissingEtagRaises` and `AsWrittenAgreesWhenNotRaising` |
| `Bot.MissingEtagRaises` | mysterygraphbot.py:135-150 | as written, a decodable body without an ETag header raises KeyError where the intended result is a rejection |
| `Bot.AsWrittenAgreesWhenNotRaising` | mysterygraphbot.py:135-150 | whenever the code as written does not raise, it rejects and accepts exactly as the corrected rule does |
| `Bot.MysteryGraphBot.constructor` | mystery_graph_bot/mystery_graph_bot.py:13-20 | a bot over a store whose record is complete or all-null, whose template links to the given visualization, has sent and requested nothing |
| `Bot.MysteryGraphBot.UpdateData` | mystery_graph_bot/mystery_graph_bot.py:89-95 | the record afterwards holds the ETag and the lik and nom counts of the graph, and the file is what saving that record gives |
| `Bot.MysteryGraphBot.UpdateDataWithResponse` | mysterygraphbot.py:135-150 | corrected rule (see ## Findings): returns True exactly when the body decodes and an ETag is present; then the record is updated and saved, otherwise the store is untouched |
| `Bot.MysteryGraphBot.HandleHttpGraphResponse` | mystery_graph_bot/mystery_graph_bot.py:56-87 | only a 200 response can return True and update the record; every other status returns False and leaves the store untouched |
| `Bot.MysteryGraphBot.BarePoll` | mystery_graph_bot/mystery_graph_bot.py:41-54 | records the request headers; a transport failure returns False without handling a response; otherwise returns whether the response brought a new graph, which is stored |
| `Bot.MysteryGraphBot.SendChangesToChat` | mysterygraphbot.py:49-64 | appends exactly one message to the chat, the filled template |
| `Bot.MysteryGraphBot.SendChanges` | mysterygraphbot.py:41-47 | sends the current counters minus the given ones to every whitelisted chat once, in order, and changes no stored value |
| `Bot.MysteryGraphBot.PollAndSendChanges` | mystery_graph_bot/mystery_graph_bot.py:33-39 | reads the counters before polling, and announces with them as the old values exactly when the poll brought a new graph |
| `Bot.MysteryGraphBot.Poll` | mysterygraphbot.py:27-31 | corrected rule (see ## Findings): one call does what `PollCycle` describes: the request sent, the new record, the messages and the file, and the record stays complete or all-null |
| `ErrorPaths.ItemToString` | mystery_graph_bot/util.py:22-30 | one path item as `.name` or `[n]`, or nothing for another item; carried by `RenderedAppend` |
| `ErrorPaths.Rendered` | mystery_graph_bot/util.py:22-30 | the items rendered and concatenated, or nothing when one fails; carried by `RenderedFailsIff` and `RenderedAppend` |
| `ErrorPaths.RenderedFailsIff` | mystery_graph_bot/util.py:22-30 | rendering a path fails exactly when some item is neither a string nor an integer |
| `ErrorPaths.PathToString` | mystery_graph_bot/util.py:21-35 | a rendering exists exactly when every item is a name or an index |
| `ErrorPaths.RenderedAppend` | mystery_graph_bot/util.py:22-30 | the items render left to right: appending an item appends its `.name` or `[n]` |
| `ErrorPaths.PathToStringAppend` | mystery_graph_bot/util.py:21-35 | appending an item appends its piece: `.name` (bare when it is the first item) or `[n]` |
| `ErrorPaths.PathToStringExamples` | mystery_graph_bot/util.py:32-35 | `[]` renders as "", `["a", 0, "b"]` as "a[0].b", `[0, "a"]` as "[0].a", and a path with another item fails |
| `ErrorPaths.Line` | mystery_graph_bot.py:57-59 | the ` - path : messages` line of `print_marshmallow_error`; carried by `ExampleLineToken` and `ExampleLineChat` |
| `ErrorPaths.GoThrough` | mystery_graph_bot.py:47-54 | `go_through_marshmallow_errors` as the lines printed and whether it raised; carried by `GoThroughReports` and `PrintedLineCount` |
| `ErrorPaths.GoThroughEntries` | mystery_graph_bot.py:50-52 | the loop over one dictionary's entries; carried by `EntriesReport` |
| `ErrorPaths.PrintMarshmallowErrors` | mystery_graph_bot.py:43-44 | the walk from the empty path; carried by `PrintExample` |
| `ErrorPaths.GoThroughReports` | mystery_graph_bot.py:47-59 | the walk raises exactly when a node is neither a list nor a dictionary or a list sits at an unrenderable path; otherwise it prints one ` - path : messages` line per list of messages, depth first in dictionary order |
| `ErrorPaths.EntriesReport` | mystery_graph_bot.py:50-52 | the same for the entries of one dictionary, each under its key appended to the path |
| `ErrorPaths.PrintedLineCount` | mystery_graph_bot.py:43-54 | a walk that does not raise prints as many lines as there are lists of messages |
| `ErrorPaths.ExamplePaths` | mystery_graph_bot/util.py:21-35 | `["token"]` renders as "token" and `["chat_whitelist", 0]` as "chat_whitelist[0]" |
| `ErrorPaths.ExampleLineToken` | mystery_graph_bot.py:57-59 | the line for a missing token |
| `ErrorPaths.ExampleLineChat` | mystery_graph_bot.py:57-59 | the line for a bad first whitelist entry |
| `ErrorPaths.PrintExample` | mystery_graph_bot.py:43-54 | a configuration error object with a missing token and a bad first chat prints those two lines in dictionary order, starting from the empty path, without raising |

## Left out

- The HTTP transport (`requests.get`, its URL and 5-second timeout): the
  server is a function from request headers to a response or to one of the
  three transport exceptions the bot catches. Any other `RequestException`
  (`ChunkedEncodingError`, `InvalidURL`, ...) escapes `bare_poll`
  (mystery_graph_bot/mystery_graph_bot.py:41-54) and `poll` in the source;
  the model's server cannot fail that way. Header lookup is by the exact
  key `ETag`; the case-insensitive lookup of `requests` is not modelled.
- Telegram (`Bot`, `sendMessage`, `parse_mode='HTML'`): each send appends the
  chat and the text to `sent`; a failing send is not modelled. In the source a
  `sendMessage` exception (mysterygraphbot.py:64) leaves the loop of
  mysterygraphbot.py:46-47 and escapes `poll` after the record was already
  saved (mysterygraphbot.py:152-157), so later chats never hear of that
  change; `Notifier.FanoutReachesEachChat` and `Bot.CycleAnnouncesDeltas`
  hold only because sends cannot fail here.
- File I/O and JSON: the data file is `FileContents` (absent, garbage, or
  the dump of a record) and each write's outcome is a parameter. The file
  path and the JSON text itself are not modelled.
- Schema decoding (marshmallow, `load_data_with_schema_from_*`,
  `errors.py`): decoding a graph is the `Decoder` parameter, and loading the
  record accepts exactly the complete records. The `Config` schema and
  `load_config` with its exits are not modelled. The messages of an error
  object are strings in the model, so the `TypeError` that `' '.join` raises
  on a non-string message (mystery_graph_bot.py:58) cannot occur.
- Logging: every log message, and `setup_logger`.
- `start()` with its endless loop and `sleep`, `main`, the rx wiring
  (`Observable.create`, `on_subscription`, `do_once`) and the fetcher's
  fields.
- `graph_cruncher.py` (an igraph wrapper) and `graph_saver.py` are not part
  of this model.
- The package files do not run as they stand: `mystery_graph_bot.py` of the
  package uses `requests` and `Response` without importing them and calls
  `update_data_with_response` and `send_changes`, which only the monolith
  defines; `poll_graph` drops the handled result and reads an undefined
  `headers`; `GraphNotifier` reads a `graph_visualization_url` it never sets;
  `DataPair` is not defined in `serializers.py`; the entry script calls
  `path_to_string` without importing it. The model gives the evidently
  intended behaviour: one `MysteryGraphBot` class with the monolith's
  methods over the package's store, `PollGraph` returning the handled
  result, the link as a constructor argument of `GraphNotifier`, and a
  `DataPair` of new counters and optional old counters.
- Bot.MysteryGraphBot.constructor: the monolith builds its own store and the
  package receives one; the model receives it and requires its record to be
  complete or all-null, which every store built from a file satisfies.
- Bot.MysteryGraphBot.PollAndSendChanges and Bot.MysteryGraphBot.SendChanges
  require integer counters, as the source's `assert`s do; the
  `AssertionError` itself is not modelled.
- GraphStore.GraphData.SetData: the setter accepts any value in the source;
  the model stores only records.
- ErrorPaths.PathToString: a `bool` item is an `int` in Python and would
  render as `[True]`; the model has names, indices and "anything else" only.
- The loaded record's truthiness: an empty record cannot come out of a
  successful load (all fields are required), so "not loaded yet" is the
  absence of a cached record.

## Findings

| source | as written | input that shows it | evidently intended | confidence | as-written member | corrected member |
|---|---|---|---|---|---|---|
| mysterygraphbot.py:140 | `response.headers['ETag']` is read with no `KeyError` handler, so the error escapes `update_data_with_response`, `bare_poll` and `poll` | a 200 response with a decodable graph and no `ETag` header, as in test_mysterygraphbot.py:375-393 | return False and leave the record alone, as that test expects and as `parse_graph_from_response` does | not executed | `Bot.MissingEtagRaises` | `Bot.MysteryGraphBot.UpdateDataWithResponse` |
| mystery_graph_bot/graph_data.py:46-49 | `open(self.filepath, 'w')` truncates the file before `self.data` is first evaluated, so an unread store loads the empty file and dumps the all-null record | a `GraphData` over a file holding a complete record, saved before anything read it | write the record that was on disk | not executed | `GraphStore.SaveBeforeFirstReadLosesRecord` | `GraphStore.GraphData.Save` |

The second finding does not reach the bot's own cycle: `update_data` writes
all three fields, and so loads the record, before it saves
(`GraphStore.SaveAgreesOnceLoaded`). The monolith's `save_data`
(mysterygraphbot.py:160-168) has the same shape and is only called from
`update_data`.
