# Telegram movie bot: membership gate, tokens and menus in Dafny

This project models the logic of a small Telegram bot (`bot.py`). The bot
lets a user search the OMDb movie database only when they belong to every
configured channel. It then offers three levels of inline keyboards:
search results, then a title's seasons, then a season's episodes. Nothing
is stored between events. Everything the next step needs travels inside the
button's callback token: `select|<id>`, `season|<id>|<n>` and
`episode|<id>|<season>|<ep>`.

Modules, one per concern of `bot.py`:

- `Optional`: an `Option` type and `dict.get` with and without a default.
- `Text`: the Python string built-ins the bot uses. These are `split` on one
  character, `join`, `strip` with Python's whitespace set, `startswith`
  (written as Dafny's prefix `<=`), `str(int)`, and `int()` restricted to an
  optional `-` followed by decimal digits.
- `Membership`: `is_member`. There is a pure predicate `Admits` and a loop
  method `IsMember` with early return. The method is proved equal to the
  predicate and reports which channels it consulted.
- `Channels`: the `CHANNEL_IDS` comprehension.
- `Tokens`: the token codec (`Action`, `Encode`), the prefix filters
  (`Route`) and the handlers' field extraction (`Parse`, which yields a
  `Command`).
- `Menus`: the three keyboard loops, each proved equal to a pure map. Also
  the details decision: failure, photo, or plain text, with its caption.
- `Handlers`: the three Telegram handlers as functions from the event and
  the outside world's answers to the messages sent (`Reply`). Each has a
  method built from the loop methods and proved equal to its function.

Lookups are parameters. The answers to `get_chat_member` become a function
`(position, channel, user) -> Lookup`, where `Lookup` is `Found(status)` or
`Failed`. Each entry of the channel list is a separate remote call, so a
channel listed twice may be answered differently the second time.
The OMDb answers become functions returning string maps. A handler that
raises (`KeyError`, `ValueError`, `IndexError`) is modelled as a `Reply`
with `raised` set, together with the messages it had already sent.

Behaviour of the code that the model keeps as written:

- A malformed `season|...` token makes `callback_season` raise `ValueError`
  at bot.py:104; the model records a raise with no message sent.
- The season number in a season token is kept as a string and is not
  converted to an integer.
- Button presses are not checked by the membership gate. Only free-text
  messages are, at bot.py:49.
- Search results are dictionaries. A result without `Title`, `Year` or
  `imdbID` raises `KeyError`.

## Model

| member | source | states |
|---|---|---|
| `Membership.IsMember` | bot.py:18-27 | the loop's verdict equals `Admits`; it makes one call per entry up to and including the first rejected one; an empty channel list admits without any call |
| `Membership.Consulted` | bot.py:19-26 | the number of lookups made: every channel before the last one consulted was accepted, and when it stops early the last one consulted was rejected |
| `Membership.AdmitsIff` | bot.py:19-27 | the gate admits exactly when the call for every entry succeeds with status member, administrator or creator |
| `Membership.FailClosed` | bot.py:20-26 | one failed lookup or one non-accepted status anywhere refuses the user |
| `Membership.ConsultedMatchesVerdict` | bot.py:22-27 | admitting means every channel was consulted; refusing means the last channel consulted was the rejected one |
| `Membership.LaterChannelsIgnored` | bot.py:19-26 | answers to calls after the first rejection cannot change the verdict or the number of calls |
| `Membership.AdmitsAppend` | bot.py:19-27 | the gate admits a concatenation of channel lists exactly when it admits the first part and then the second part on the calls that follow |
| `Channels.Kept` | bot.py:10 | the entries the comprehension keeps are non-empty and have no whitespace at either end |
| `Channels.ParsePiecesSpec` | bot.py:10 | the comprehension `ParsePieces` succeeds exactly when every kept entry is an integer, and then gives each kept entry's integer, in order |
| `Channels.ParsePiecesKeptStep` | bot.py:10 | a kept entry adds its integer in front of the rest, or fails the whole parse |
| `Channels.KeptIndex` | bot.py:10 | every piece that is not blank reaches the kept entries, stripped |
| `Channels.BadEntryFailsAll` | bot.py:10 | one non-blank piece that is not an integer makes the whole list fail |
| `Channels.BlankPiecesConfigureNothing` | bot.py:10 | pieces that are all whitespace configure no channel |
| `Channels.UnsetConfiguresNothing` | bot.py:10 | `ChannelIdsFromEnv` of an unset variable, and `ParseChannelIds` of the empty string, configure no channel |
| `Channels.ChannelIdsRoundTrip` | bot.py:10 | writing ids comma-separated and parsing them gives the same ids in the same order |
| `Channels.DecimalsParse` | bot.py:10 | `ParsePieces` applied to the `str()` texts of a list of ids returns exactly those ids, in order |
| `Text.Strip` | bot.py:10 | `strip` gives an empty result exactly for all-whitespace input; otherwise the result neither starts nor ends with whitespace |
| `Text.StripPadded` | bot.py:10 | `strip` removes exactly the whitespace padding around text |
| `Text.StripIdempotent` | bot.py:10 | stripping twice equals stripping once |
| `Text.Split` | bot.py:10 | `split` yields at least one piece and no piece contains the separator |
| `Text.JoinSplit` | bot.py:104 | joining the pieces of a split gives back the string |
| `Text.SplitJoin` | bot.py:104 | splitting a join of one or more separator-free pieces gives back the pieces |
| `Text.ParseIntToString` | bot.py:10 | `int(str(n)) == n` for every integer |
| `Text.ParseIntCanonical` | bot.py:10 | a text `ParseInt` accepts that has no leading zero and no `-0` is exactly `str()` of its value, so `int` and `str` are inverse on such texts |
| `Text.IntToString` | bot.py:96 | `str(n)` is non-empty, holds only digits and a minus sign that appears exactly for negative numbers, and has no leading zero except in "0" |
| `Tokens.RouteFilters` | bot.py:71-101 | the two prefix filters exclude each other: `Route` reaches the select handler exactly for data starting with `select|`, the season handler exactly for data starting with `season|`, and no handler otherwise |
| `Tokens.Parse` | bot.py:71-104 | details only from the `select|` filter; episodes and malformed only from the `season|` filter; unhandled exactly when no filter matches |
| `Tokens.SelectFieldExists` | bot.py:71-74 | a token that passes the `select|` filter always has a field 1, so `SelectArg` never fails |
| `Tokens.EncodeShape` | bot.py:65 | the three token shapes `select|id`, `season|id|n` and `episode|id|s|e` |
| `Tokens.ParseEncode` | bot.py:96-104 | for arguments without `|`, a select token parses back to its id, a season token to its id and season, and an episode token reaches no handler |
| `Tokens.EpisodeTokensUnhandled` | bot.py:118 | an `episode|...` token matches no handler, whatever its arguments |
| `Tokens.ParsedSeasonIsEncoded` | bot.py:104 | a token the season handler accepts is exactly the encoding of the id and season it yields |
| `Tokens.ParsedSelectIsEncoded` | bot.py:74 | a token the select handler accepts starts with `select|<id>`, and anything after that starts with `|` |
| `Tokens.MalformedIff` | bot.py:101-104 | a token is malformed, the unpacking of `SeasonArgs` failing, exactly when it starts with `season|` and does not split into three fields |
| `Tokens.OneArgumentSeasonMalformed` | bot.py:104 | `season|<arg>` with a single argument is malformed |
| `Menus.ResultButtons` | bot.py:63-66 | one button per result, in order, each from its own result; absent exactly when some result lacks a key |
| `Menus.FirstResults` | bot.py:63 | `results[:10]` is a prefix of the results with exactly min(n, 10) entries |
| `Menus.BuildResultsKeyboard` | bot.py:62-66 | the loop builds exactly the pure results keyboard, including the `KeyError` case |
| `Menus.ResultsKeyboardSpec` | bot.py:62-66 | when the first ten results have all three keys: min(n, 10) buttons; button k is labelled `<Title> (<Year>)` of result k, its token is `select|<imdbID>` of result k, and for an id without `|` that token leads the select handler to result k's id |
| `Menus.ResultsKeyboardIgnoresTail` | bot.py:63 | results after the tenth do not affect the keyboard |
| `Menus.BuildSeasonKeyboard` | bot.py:94-97 | the loop over seasons 1 to 5 builds exactly the pure season keyboard |
| `Menus.SeasonKeyboardSpec` | bot.py:93-98 | five buttons; button k has token `season|<id>|<k+1>`, where `<k+1>` is the single digit "1" to "5", which parses to the same id and a season whose integer is k+1 |
| `Menus.BuildEpisodeKeyboard` | bot.py:113-119 | the loop over the episode list builds exactly the pure episode keyboard |
| `Menus.EpisodeKeyboardDeadEnd` | bot.py:113-119 | one button per episode, and every episode button's token reaches no handler |
| `Menus.DetailsDecision` | bot.py:77-91 | `DecideDetails` fails exactly when `Response` is not "True"; otherwise it gives a photo exactly when the poster is present, non-empty and not "N/A", with that poster's URL; both carry the record's caption |
| `Menus.CaptionDefaults` | bot.py:81-86 | without Title, Year and Plot, `Caption` uses "Unknown", an empty year and the fixed no-description text |
| `Handlers.HandleQuery` | bot.py:45-68 | the handler, built from the gate loop and the keyboard loop, sends exactly what `QueryReply` describes |
| `Handlers.CallbackSelect` | bot.py:71-98 | the details handler, built from the season loop, sends exactly what `SelectReply` describes |
| `Handlers.CallbackSeason` | bot.py:101-121 | the season handler, built from the episode loop, sends exactly what `SeasonReply` describes |
| `Handlers.HandleCallback` | bot.py:71-104 | a button press runs the handler its route selects, or does nothing |
| `Handlers.JoinTextLines` | bot.py:50-51 | `JoinText` is the prompt followed by one line per channel, in order, each the channel label and the id in `str()` form, from which `int()` reads the id back |
| `Handlers.RefusedUserOnlySeesChannels` | bot.py:49-52 | a refused user receives only the list of channels to join |
| `Handlers.NoResultsNoKeyboard` | bot.py:35-60 | an admitted user gets the progress note and "nothing found", and no keyboard, exactly when `SearchResults` finds nothing: the answer is not a success, or it is a success with an empty `Search` list |
| `Handlers.ResultsLeadToDetails` | bot.py:57-68 | an admitted search whose first ten results are complete ends with one keyboard of 1 to 10 buttons, and button k leads to result k's details |
| `Handlers.MatrixButton` | bot.py:63-66 | the result The Matrix / 1999 / tt0133093 becomes the button "The Matrix (1999)" with token `select|tt0133093` |
| `Handlers.SeriesOffersFiveSeasons` | bot.py:88-98 | a series gets its details post (the poster with the caption, or the caption alone) and then exactly five season buttons that carry its id on to the season handler |
| `Handlers.OtherTypesNoSeasons` | bot.py:88-93 | any other type gets only its details post: the poster with the caption, or the caption alone |
| `Handlers.SelectLookupFails` | bot.py:76-79 | when the provider does not confirm the title, a select press sends only the details-failure message, with no details post and no season keyboard |
| `Handlers.SeasonLookupFails` | bot.py:104-111 | when the provider does not confirm the season, a season press sends only the no-episodes message, with no episode keyboard |
| `Handlers.SeasonListsEpisodes` | bot.py:104-121 | a season button lists that season of the same title, and pressing any of its episode buttons does nothing |
| `Handlers.MalformedSeasonRaises` | bot.py:101-104 | a season token with a single argument makes the handler raise before sending anything |

## Left out

- Telegram I/O: `send_message`, `send_photo`, `get_chat_member`, `delete_webhook`, `infinity_polling` and the decorator machinery. The model says which handler runs and which messages it would send. It does not model delivery, or how the polling loop reports a handler's exception.
- The recipient of each message. Every message goes to the user who sent the event, so the model leaves it implicit.
- The OMDb HTTP requests, URL building with `urllib.parse.quote`, and JSON decoding. Provider answers are parameters: maps from string keys to string values. JSON values that are not strings, such as `null`, are not represented.
- Reading the environment and the `print` logging at bot.py:25 and bot.py:124. `Channels.ChannelIdsFromEnv` takes the variable's value as an `Option`.
- `Text.ParseInt`: accepts only an optional `-` followed by ASCII decimal digits. Python's `int()` also accepts a leading `+`, underscores between digits, surrounding whitespace and non-ASCII digits.
- Exceptions from the network layer inside `omdb_search`, `omdb_details` and the season request. Only the exceptions raised by the bot's own code on the data are modelled.
- Concurrency of the polling loop, which the bot does not manage itself.
