/** The three Telegram handlers (bot.py:45-121) as functions from what they
    receive, and from what the outside world answers, to the messages they
    send. Every message goes to the user who sent the event, so the
    recipient is left implicit. The answers of Telegram's `get_chat_member`
    and of the movie provider are parameters; nothing here performs I/O. */
module Handlers {
  import opened Optional
  import opened Text
  import opened Membership
  import opened Tokens
  import opened Menus

  /** A message the bot sends. */
  datatype Message =
    | SendText(text: string)
    | SendPhoto(url: string, caption: string)
    | SendKeyboard(text: string, buttons: seq<Button>)

  /** What one handler invocation does: the messages sent, in order, and
      whether it then ended by raising (`KeyError`, `ValueError`,
      `IndexError`) instead of returning. */
  datatype Reply = Reply(sent: seq<Message>, raised: bool)

  const JoinPrompt := "\U{1F512} برای استفاده از ربات باید عضو همه کانال\U{200C}ها بشی:\n"
  const ChannelLine := "\U{1F517} کانال: "
  const Searching := "\U{23F3} در حال جستجو..."
  const NothingFound := "\U{274C} نتیجه\U{200C}ای پیدا نشد. لطفاً اسم دقیق\U{200C}تری وارد کن."
  const ResultsPrompt := "\U{1F3AC} نتایج پیدا شد \U{2014} یکی رو انتخاب کن:"
  const DetailsFailed := "\U{274C} خطا در دریافت اطلاعات."
  const SeasonPrompt := "\U{1F449} یک فصل انتخاب کن:"
  const EpisodesFailed := "\U{274C} اپیزودی پیدا نشد."
  const SeasonHeading := "\U{1F4FA} فصل "

  // ----- free-text messages (handle_query, bot.py:45-68) -----

  /** The provider's answer to a search: its string fields and, when
      present, the `Search` array. */
  datatype SearchPayload = SearchPayload(fields: Record, search: Option<seq<Record>>)

  /** `omdb_search` after the HTTP call (bot.py:35-37): the `Search` array
      when `Response` is "True", no result otherwise; `None` where
      `data["Search"]` raises `KeyError`. */
  function SearchResults(payload: SearchPayload): Option<seq<Record>> {
    if Get(payload.fields, "Response") == Some("True") then payload.search
    else Some([])
  }

  /** The refusal text listing every configured channel (bot.py:50-51). */
  function JoinText(channels: seq<int>): string {
    JoinPrompt + Join(seq(|channels|, k requires 0 <= k < |channels| => ChannelLine + IntToString(channels[k])), '\n')
  }

  /** What `handle_query` sends for the text `text` of user `user`. */
  function QueryReply(user: int, text: string, channels: seq<int>,
                      calls: ChatMemberCalls, search: string -> SearchPayload): Reply
  {
    if !Admits(channels, user, calls) then Reply([SendText(JoinText(channels))], false)
    else
      var searching := [SendText(Searching)];
      match SearchResults(search(Strip(text)))
      case None => Reply(searching, true)
      case Some(results) =>
        if results == [] then Reply(searching + [SendText(NothingFound)], false)
        else
          (match ResultsKeyboard(results)
           case None => Reply(searching, true)
           case Some(buttons) => Reply(searching + [SendKeyboard(ResultsPrompt, buttons)], false))
  }

  method HandleQuery(user: int, text: string, channels: seq<int>,
                     calls: ChatMemberCalls, search: string -> SearchPayload)
    returns (reply: Reply)
    ensures reply == QueryReply(user, text, channels, calls, search)
  {
    var admitted, _ := IsMember(user, channels, calls);
    if !admitted {
      return Reply([SendText(JoinText(channels))], false);
    }
    var query := Strip(text);
    var sent := [SendText(Searching)];
    var results := SearchResults(search(query));
    if results.None? {
      return Reply(sent, true);
    }
    if results.value == [] {
      return Reply(sent + [SendText(NothingFound)], false);
    }
    var markup := BuildResultsKeyboard(results.value);
    if markup.None? {
      return Reply(sent, true);
    }
    return Reply(sent + [SendKeyboard(ResultsPrompt, markup.value)], false);
  }

  // ----- select buttons (callback_select, bot.py:71-98) -----

  /** The message that shows a title's details: the poster with the caption
      under it, or the caption alone. */
  function DetailsMessage(post: DetailsPost): Message
    requires !post.LookupFailed?
  {
    if post.Photo? then SendPhoto(post.url, post.caption) else SendText(post.caption)
  }

  /** What `callback_select` sends for the token `data`, with `details`
      standing for the provider's answer about an id. */
  function SelectReply(data: string, details: string -> Record): Reply {
    match SelectArg(data)
    case None => Reply([], true)
    case Some(imdbId) =>
      var movie := details(imdbId);
      var seasons := if Get(movie, "Type") == Some("series")
                     then [SendKeyboard(SeasonPrompt, SeasonKeyboard(imdbId))] else [];
      var post := DecideDetails(movie);
      if post.LookupFailed? then Reply([SendText(DetailsFailed)], false)
      else Reply([DetailsMessage(post)] + seasons, false)
  }

  method CallbackSelect(data: string, details: string -> Record) returns (reply: Reply)
    ensures reply == SelectReply(data, details)
  {
    var fields := Split(data, Delimiter);
    if |fields| < 2 {
      return Reply([], true);
    }
    var imdbId := fields[1];
    var movie := details(imdbId);
    var post := DecideDetails(movie);
    if post.LookupFailed? {
      return Reply([SendText(DetailsFailed)], false);
    }
    var sent := [DetailsMessage(post)];
    if "Type" in movie && movie["Type"] == "series" {
      var markup := BuildSeasonKeyboard(imdbId);
      sent := sent + [SendKeyboard(SeasonPrompt, markup)];
    }
    return Reply(sent, false);
  }

  // ----- season buttons (callback_season, bot.py:101-121) -----

  /** The provider's answer for one season: its string fields and the
      `Episodes` array, which `r.get("Episodes", [])` reads as empty when it
      is absent. */
  datatype SeasonPayload = SeasonPayload(fields: Record, episodes: Option<seq<Record>>)

  /** What `callback_season` sends for the token `data`, with `listing`
      standing for the provider's answer about an id and a season. */
  function SeasonReply(data: string, listing: (string, string) -> SeasonPayload): Reply {
    match SeasonArgs(data)
    case None => Reply([], true)
    case Some((imdbId, season)) =>
      var payload := listing(imdbId, season);
      if Get(payload.fields, "Response") != Some("True") then Reply([SendText(EpisodesFailed)], false)
      else
        var buttons := EpisodeKeyboard(imdbId, season, payload.episodes.GetOr([]));
        Reply([SendKeyboard(SeasonHeading + season + ":", buttons)], false)
  }

  method CallbackSeason(data: string, listing: (string, string) -> SeasonPayload) returns (reply: Reply)
    ensures reply == SeasonReply(data, listing)
  {
    var fields := Split(data, Delimiter);
    if |fields| != 3 {
      return Reply([], true);
    }
    var imdbId, season := fields[1], fields[2];
    var payload := listing(imdbId, season);
    if !("Response" in payload.fields && payload.fields["Response"] == "True") {
      return Reply([SendText(EpisodesFailed)], false);
    }
    var episodes := if payload.episodes.Some? then payload.episodes.value else [];
    var markup := BuildEpisodeKeyboard(imdbId, season, episodes);
    return Reply([SendKeyboard(SeasonHeading + season + ":", markup)], false);
  }

  // ----- dispatch of button presses -----

  /** A button press reaches the first handler whose filter accepts its
      data; with no such handler nothing happens. */
  function CallbackReply(data: Option<string>, details: string -> Record,
                         listing: (string, string) -> SeasonPayload): Reply
  {
    match Route(data)
    case SelectHandler => SelectReply(data.value, details)
    case SeasonHandler => SeasonReply(data.value, listing)
    case NoHandler => Reply([], false)
  }

  method HandleCallback(data: Option<string>, details: string -> Record,
                        listing: (string, string) -> SeasonPayload) returns (reply: Reply)
    ensures reply == CallbackReply(data, details, listing)
  {
    var handler := Route(data);
    match handler
    case SelectHandler =>
      reply := CallbackSelect(data.value, details);
    case SeasonHandler =>
      reply := CallbackSeason(data.value, listing);
    case NoHandler =>
      reply := Reply([], false);
  }

  // ----- properties of the flow -----

  /** The refusal text is the prompt followed by one line per configured
      channel, in order, each the channel label and the id as `str()` writes
      it, from which `int()` reads the id back. */
  lemma JoinTextLines(channels: seq<int>)
    ensures JoinPrompt <= JoinText(channels)
    ensures channels == [] ==> JoinText(channels) == JoinPrompt
    ensures channels != [] ==>
              var lines := Split(JoinText(channels)[|JoinPrompt|..], '\n');
              && |lines| == |channels|
              && forall k :: 0 <= k < |channels| ==>
                   && lines[k] == ChannelLine + IntToString(channels[k])
                   && ParseInt(lines[k][|ChannelLine|..]) == Some(channels[k])
  {
    var lines := seq(|channels|, k requires 0 <= k < |channels| => ChannelLine + IntToString(channels[k]));
    assert JoinText(channels)[|JoinPrompt|..] == Join(lines, '\n');
    if channels != [] {
      assert '\n' !in ChannelLine;
      forall k | 0 <= k < |lines| ensures '\n' !in lines[k] {
        assert '\n' !in IntToString(channels[k]);
      }
      SplitJoin(lines, '\n');
      forall k | 0 <= k < |channels|
        ensures ParseInt(lines[k][|ChannelLine|..]) == Some(channels[k])
      {
        assert lines[k][|ChannelLine|..] == IntToString(channels[k]);
        ParseIntToString(channels[k]);
      }
    }
  }

  /** A user the gate refuses receives only the list of channels to join:
      the text they sent and the provider play no part. */
  lemma RefusedUserOnlySeesChannels(user: int, text: string, channels: seq<int>,
                                    calls: ChatMemberCalls, search: string -> SearchPayload)
    requires !Admits(channels, user, calls)
    ensures QueryReply(user, text, channels, calls, search) == Reply([SendText(JoinText(channels))], false)
  {
  }

  /** An admitted user gets the progress note, then the "nothing found"
      message and no keyboard, exactly when the provider's answer is not a
      success or is a success with an empty `Search` list. */
  lemma NoResultsNoKeyboard(user: int, text: string, channels: seq<int>,
                            calls: ChatMemberCalls, search: string -> SearchPayload)
    requires Admits(channels, user, calls)
    ensures QueryReply(user, text, channels, calls, search) ==
            Reply([SendText(Searching), SendText(NothingFound)], false)
            <==>
            var payload := search(Strip(text));
            Get(payload.fields, "Response") != Some("True") || payload.search == Some([])
  {
    var reply := QueryReply(user, text, channels, calls, search);
    match SearchResults(search(Strip(text)))
    case None =>
      assert reply.raised;
    case Some(results) =>
      if results != [] {
        assert reply.raised || reply.sent[|reply.sent| - 1].SendKeyboard?;
      }
  }

  /** An admitted search with complete results ends with one keyboard of at
      most ten buttons; pressing button `k` asks the details handler for
      result `k`. */
  lemma ResultsLeadToDetails(user: int, text: string, channels: seq<int>,
                             calls: ChatMemberCalls, search: string -> SearchPayload,
                             results: seq<Record>)
    requires Admits(channels, user, calls)
    requires SearchResults(search(Strip(text))) == Some(results) && results != []
    requires forall k :: 0 <= k < |results| && k < MaxResults ==>
               "Title" in results[k] && "Year" in results[k] && "imdbID" in results[k]
    requires forall k :: 0 <= k < |results| && k < MaxResults ==> Delimiter !in results[k]["imdbID"]
    ensures var reply := QueryReply(user, text, channels, calls, search);
            && !reply.raised && |reply.sent| == 2
            && reply.sent[1].SendKeyboard?
            && 0 < |reply.sent[1].buttons| <= MaxResults
            && forall k :: 0 <= k < |reply.sent[1].buttons| ==>
                 Parse(Some(reply.sent[1].buttons[k].callbackData)) == ShowDetails(results[k]["imdbID"])
  {
    ResultsKeyboardSpec(results);
  }

  /** A search whose results are
      `{Title: "The Matrix", Year: "1999", imdbID: "tt0133093"}` gets the
      button "The Matrix (1999)" with token `select|tt0133093`. */
  lemma MatrixButton()
    ensures ResultsKeyboard([map["Title" := "The Matrix", "Year" := "1999", "imdbID" := "tt0133093"]]) ==
            Some([Button("The Matrix (1999)", "select|tt0133093")])
  {
    EncodeShape(Select("tt0133093"));
    var item := map["Title" := "The Matrix", "Year" := "1999", "imdbID" := "tt0133093"];
    assert "select|" + "tt0133093" == "select|tt0133093";
    assert "The Matrix" + " (" + "1999" + ")" == "The Matrix (1999)";
    assert item["Title"] == "The Matrix" && item["Year"] == "1999" && item["imdbID"] == "tt0133093";
    assert ResultButton(item) == Some(Button("The Matrix (1999)", "select|tt0133093"));
    var none: seq<Record> := [];
    assert [item][..0] == none;
    assert ResultButtons(none) == Some([]);
    var b := Button("The Matrix (1999)", "select|tt0133093");
    assert [] + [b] == [b];
    assert ResultButtons([item]) == Some([b]);
    assert FirstResults([item]) == [item];
  }

  /** Pressing the select button of a series shows its details and then
      exactly five season buttons whose tokens carry the same id on to the
      season handler, with season numbers 1 to 5. */
  lemma SeriesOffersFiveSeasons(imdbId: string, details: string -> Record,
                                listing: (string, string) -> SeasonPayload)
    requires Delimiter !in imdbId
    requires Get(details(imdbId), "Response") == Some("True")
    requires Get(details(imdbId), "Type") == Some("series")
    ensures var reply := CallbackReply(Some(Encode(Select(imdbId))), details, listing);
            && !reply.raised && |reply.sent| == 2
            && reply.sent[0] == DetailsMessage(DecideDetails(details(imdbId)))
            && reply.sent[1] == SendKeyboard(SeasonPrompt, SeasonKeyboard(imdbId))
            && |reply.sent[1].buttons| == SeasonCount
            && forall k :: 0 <= k < SeasonCount ==>
                 Parse(Some(reply.sent[1].buttons[k].callbackData)) == ShowEpisodes(imdbId, IntToString(k + 1))
  {
    var a := Select(imdbId);
    assert Fields(a) == ["select", imdbId];
    ParseEncode(a);
    SelectFieldExists(Encode(a));
    assert SelectArg(Encode(a)) == Some(imdbId);
    forall k | 0 <= k < SeasonCount
      ensures Parse(Some(SeasonKeyboard(imdbId)[k].callbackData)) == ShowEpisodes(imdbId, IntToString(k + 1))
    {
      SeasonKeyboardSpec(imdbId, k);
    }
  }

  /** A title of any other type gets its details post and no season
      keyboard. */
  lemma OtherTypesNoSeasons(imdbId: string, details: string -> Record,
                            listing: (string, string) -> SeasonPayload)
    requires Delimiter !in imdbId
    requires Get(details(imdbId), "Response") == Some("True")
    requires Get(details(imdbId), "Type") != Some("series")
    ensures var reply := CallbackReply(Some(Encode(Select(imdbId))), details, listing);
            && !reply.raised && |reply.sent| == 1
            && reply.sent[0] == DetailsMessage(DecideDetails(details(imdbId)))
  {
    var a := Select(imdbId);
    assert Fields(a) == ["select", imdbId];
    ParseEncode(a);
    SelectFieldExists(Encode(a));
    assert SelectArg(Encode(a)) == Some(imdbId);
  }

  /** When the provider does not confirm the title, the select handler sends
      only the failure message: no details post and no season keyboard. */
  lemma SelectLookupFails(data: string, imdbId: string, details: string -> Record,
                          listing: (string, string) -> SeasonPayload)
    requires "select|" <= data && SelectArg(data) == Some(imdbId)
    requires Get(details(imdbId), "Response") != Some("True")
    ensures CallbackReply(Some(data), details, listing) == Reply([SendText(DetailsFailed)], false)
  {
    SelectFieldExists(data);
  }

  /** When the provider does not confirm the season, the season handler sends
      only the failure message and no episode keyboard. */
  lemma SeasonLookupFails(data: string, imdbId: string, season: string, details: string -> Record,
                          listing: (string, string) -> SeasonPayload)
    requires "season|" <= data && SeasonArgs(data) == Some((imdbId, season))
    requires Get(listing(imdbId, season).fields, "Response") != Some("True")
    ensures CallbackReply(Some(data), details, listing) == Reply([SendText(EpisodesFailed)], false)
  {
    RouteFilters(Some(data));
  }

  /** Pressing a season button lists that season of the same title, and
      every episode button it sends is a dead end. */
  lemma SeasonListsEpisodes(imdbId: string, season: string, details: string -> Record,
                            listing: (string, string) -> SeasonPayload)
    requires Delimiter !in imdbId && Delimiter !in season
    requires Get(listing(imdbId, season).fields, "Response") == Some("True")
    ensures var reply := CallbackReply(Some(Encode(Season(imdbId, season))), details, listing);
            var episodes := listing(imdbId, season).episodes.GetOr([]);
            && !reply.raised && |reply.sent| == 1
            && reply.sent[0] == SendKeyboard(SeasonHeading + season + ":", EpisodeKeyboard(imdbId, season, episodes))
            && forall k :: 0 <= k < |reply.sent[0].buttons| ==>
                 CallbackReply(Some(reply.sent[0].buttons[k].callbackData), details, listing) == Reply([], false)
  {
    var a := Season(imdbId, season);
    assert Fields(a) == ["season", imdbId, season];
    ParseEncode(a);
    EncodeShape(a);
    var episodes := listing(imdbId, season).episodes.GetOr([]);
    EpisodeKeyboardDeadEnd(imdbId, season, episodes);
  }

  /** A season token with a single argument makes the season handler raise
      before it sends anything. */
  lemma MalformedSeasonRaises(arg: string, details: string -> Record,
                              listing: (string, string) -> SeasonPayload)
    requires Delimiter !in arg
    ensures CallbackReply(Some("season|" + arg), details, listing) == Reply([], true)
  {
    OneArgumentSeasonMalformed(arg);
  }
}
