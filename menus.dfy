/** The inline keyboards and the details post (bot.py:62-66, 77-98,
    113-119). A keyboard is the list of its buttons in the order
    `markup.add` receives them; each `add` call here gets one button, so
    every button sits on a row of its own. Provider records are JSON objects
    whose values are strings: a `map<string, string>`, where a missing key is
    a key absent from the map. */
module Menus {
  import opened Optional
  import opened Text
  import opened Tokens

  type Record = map<string, string>

  datatype Button = Button(text: string, callbackData: string)

  const MaxResults := 10
  const SeasonCount := 5

  // ----- search results (bot.py:62-66) -----

  /** The button for one search result; `None` where `item['Title']`,
      `item['Year']` or `item['imdbID']` raises `KeyError`. */
  function ResultButton(item: Record): Option<Button> {
    if "Title" in item && "Year" in item && "imdbID" in item then
      Some(Button(item["Title"] + " (" + item["Year"] + ")", Encode(Select(item["imdbID"]))))
    else None
  }

  /** The buttons for a list of results, one per result and in the same
      order, or `None` when some result lacks a key. */
  function ResultButtons(items: seq<Record>): (r: Option<seq<Button>>)
    ensures r.Some? <==> forall k :: 0 <= k < |items| ==> ResultButton(items[k]).Some?
    ensures r.Some? ==> |r.value| == |items| &&
                        forall k :: 0 <= k < |items| ==> ResultButton(items[k]) == Some(r.value[k])
  {
    if |items| == 0 then Some([])
    else
      var init := items[..|items| - 1];
      match ResultButtons(init)
      case None => None
      case Some(buttons) =>
        (match ResultButton(items[|items| - 1])
         case None => None
         case Some(b) => Some(buttons + [b]))
  }

  /** `results[:10]`. */
  function FirstResults(results: seq<Record>): (shown: seq<Record>)
    ensures shown <= results
    ensures |shown| == if |results| < MaxResults then |results| else MaxResults
  {
    if |results| <= MaxResults then results else results[..MaxResults]
  }

  function ResultsKeyboard(results: seq<Record>): Option<seq<Button>> {
    ResultButtons(FirstResults(results))
  }

  /** The loop at bot.py:62-66: one button per result among the first ten,
      appended in provider order; a result without one of the three keys
      ends the loop with `KeyError`. */
  method BuildResultsKeyboard(results: seq<Record>) returns (markup: Option<seq<Button>>)
    ensures markup == ResultsKeyboard(results)
  {
    var shown := FirstResults(results);
    var keyboard: seq<Button> := [];
    for i := 0 to |shown|
      invariant ResultButtons(shown[..i]) == Some(keyboard)
    {
      var item := shown[i];
      assert shown[..i + 1][..i] == shown[..i];
      if !("Title" in item && "Year" in item && "imdbID" in item) {
        assert ResultButton(shown[..i + 1][i]).None?;
        assert ResultButton(shown[i]).None?;
        return None;
      }
      var caption := item["Title"] + " (" + item["Year"] + ")";
      var cb := Encode(Select(item["imdbID"]));
      keyboard := keyboard + [Button(caption, cb)];
    }
    assert shown[..|shown|] == shown;
    return Some(keyboard);
  }

  /** The results keyboard has at most ten buttons; button `k` is labelled
      `<Title> (<Year>)` of result `k`, its token is `select|<imdbID>` of
      result `k`, and, when that id has no delimiter, the token takes the
      select handler to it. */
  lemma ResultsKeyboardSpec(results: seq<Record>)
    requires forall k :: 0 <= k < |results| && k < MaxResults ==>
               "Title" in results[k] && "Year" in results[k] && "imdbID" in results[k]
    ensures ResultsKeyboard(results).Some?
    ensures var buttons := ResultsKeyboard(results).value;
            && |buttons| == (if |results| < MaxResults then |results| else MaxResults)
            && forall k :: 0 <= k < |buttons| ==>
                 && buttons[k].text == results[k]["Title"] + " (" + results[k]["Year"] + ")"
                 && buttons[k].callbackData == "select|" + results[k]["imdbID"]
                 && (Delimiter !in results[k]["imdbID"] ==>
                       Parse(Some(buttons[k].callbackData)) == ShowDetails(results[k]["imdbID"]))
  {
    var shown := FirstResults(results);
    assert forall k :: 0 <= k < |shown| ==> shown[k] == results[k];
    var buttons := ResultsKeyboard(results).value;
    forall k | 0 <= k < |buttons|
      ensures buttons[k].callbackData == "select|" + results[k]["imdbID"]
      ensures Delimiter !in results[k]["imdbID"] ==>
                Parse(Some(buttons[k].callbackData)) == ShowDetails(results[k]["imdbID"])
    {
      assert ResultButton(shown[k]) == Some(buttons[k]);
      var id := results[k]["imdbID"];
      EncodeShape(Select(id));
      if Delimiter !in id {
        assert Fields(Select(id)) == ["select", id];
        ParseEncode(Select(id));
      }
    }
  }

  /** Any result past the tenth has no effect on the keyboard. */
  lemma ResultsKeyboardIgnoresTail(results: seq<Record>, more: seq<Record>)
    requires |results| >= MaxResults
    ensures ResultsKeyboard(results + more) == ResultsKeyboard(results)
  {
    assert (results + more)[..MaxResults] == results[..MaxResults];
    if |results + more| <= MaxResults {
      assert more == [] && results + more == results;
    }
    assert FirstResults(results + more) == FirstResults(results);
  }

  // ----- seasons (bot.py:93-98) -----

  const SeasonLabel := "\U{1F4FA} فصل "

  /** The button of season `n`: labelled with the number, token
      `season|<id>|<n>`. */
  function SeasonButton(imdbId: string, n: int): Button {
    Button(SeasonLabel + IntToString(n), Encode(Season(imdbId, IntToString(n))))
  }

  /** Seasons 1 to 5, whatever the title's real number of seasons. */
  function SeasonKeyboard(imdbId: string): seq<Button> {
    seq(SeasonCount, k requires 0 <= k < SeasonCount => SeasonButton(imdbId, k + 1))
  }

  /** The loop over `range(1, 6)` at bot.py:95-97. */
  method BuildSeasonKeyboard(imdbId: string) returns (markup: seq<Button>)
    ensures markup == SeasonKeyboard(imdbId)
  {
    markup := [];
    for season := 1 to SeasonCount + 1
      invariant |markup| == season - 1
      invariant forall k :: 0 <= k < |markup| ==> markup[k] == SeasonButton(imdbId, k + 1)
    {
      var cb := Encode(Season(imdbId, IntToString(season)));
      markup := markup + [Button(SeasonLabel + IntToString(season), cb)];
    }
  }

  /** The season keyboard has exactly five buttons; button `k` carries the
      token `season|<id>|<k+1>`, which takes the season handler to the same
      title and to a season number between 1 and 5. */
  lemma SeasonKeyboardSpec(imdbId: string, k: nat)
    requires Delimiter !in imdbId
    requires k < SeasonCount
    ensures |SeasonKeyboard(imdbId)| == SeasonCount
    ensures var data := SeasonKeyboard(imdbId)[k].callbackData;
            && data == "season|" + imdbId + "|" + IntToString(k + 1)
            && Parse(Some(data)) == ShowEpisodes(imdbId, IntToString(k + 1))
            && ParseInt(IntToString(k + 1)) == Some(k + 1)
    ensures IntToString(k + 1) == ["12345"[k]]
  {
    var n := IntToString(k + 1);
    var a := Season(imdbId, n);
    assert Delimiter !in n;
    assert Fields(a) == ["season", imdbId, n];
    EncodeShape(a);
    ParseEncode(a);
    ParseIntToString(k + 1);
  }

  // ----- episodes (bot.py:113-119) -----

  /** The button of one episode: `ep.get("Title", "Unknown")` and
      `ep.get("Episode")`, which prints as `None` when absent. */
  function EpisodeButton(imdbId: string, season: string, ep: Record): Button {
    var title := GetOrDefault(ep, "Title", "Unknown");
    var number := GetOrDefault(ep, "Episode", "None");
    Button("قسمت " + number + ": " + title, Encode(Episode(imdbId, season, number)))
  }

  function EpisodeKeyboard(imdbId: string, season: string, episodes: seq<Record>): seq<Button> {
    seq(|episodes|, k requires 0 <= k < |episodes| => EpisodeButton(imdbId, season, episodes[k]))
  }

  /** The loop over the episode list at bot.py:115-119. */
  method BuildEpisodeKeyboard(imdbId: string, season: string, episodes: seq<Record>) returns (markup: seq<Button>)
    ensures markup == EpisodeKeyboard(imdbId, season, episodes)
  {
    markup := [];
    for i := 0 to |episodes|
      invariant |markup| == i
      invariant forall k :: 0 <= k < i ==> markup[k] == EpisodeButton(imdbId, season, episodes[k])
    {
      var ep := episodes[i];
      var title := if "Title" in ep then ep["Title"] else "Unknown";
      var number := if "Episode" in ep then ep["Episode"] else "None";
      var cb := Encode(Episode(imdbId, season, number));
      markup := markup + [Button("قسمت " + number + ": " + title, cb)];
    }
  }

  /** One button per episode, in order, and every episode button is a dead
      end: its token reaches no handler. */
  lemma EpisodeKeyboardDeadEnd(imdbId: string, season: string, episodes: seq<Record>)
    ensures |EpisodeKeyboard(imdbId, season, episodes)| == |episodes|
    ensures forall k :: 0 <= k < |episodes| ==>
              Parse(Some(EpisodeKeyboard(imdbId, season, episodes)[k].callbackData)) == Unhandled
  {
  }

  // ----- details (bot.py:77-91) -----

  const NoPlot := "بدون توضیح"

  /** `f"🎬 {title} ({year})\n\n{plot}"` with the defaults of bot.py:81-83. */
  function Caption(movie: Record): string {
    "\U{1F3AC} " + GetOrDefault(movie, "Title", "Unknown") + " ("
      + GetOrDefault(movie, "Year", "") + ")\n\n" + GetOrDefault(movie, "Plot", NoPlot)
  }

  /** How the details of a title are shown. */
  datatype DetailsPost =
    | LookupFailed                            // `Response` is not "True"
    | Photo(url: string, caption: string)    // `send_photo`
    | PlainText(caption: string)             // `send_message`

  /** The decision of bot.py:77-91. A poster is used when the key is present
      and its value is truthy (not empty) and not "N/A". */
  function DecideDetails(movie: Record): DetailsPost {
    if Get(movie, "Response") != Some("True") then LookupFailed
    else if "Poster" in movie && movie["Poster"] != "" && movie["Poster"] != "N/A" then
      Photo(movie["Poster"], Caption(movie))
    else PlainText(Caption(movie))
  }

  /** Failure exactly when `Response` is absent or not "True"; otherwise a
      photo exactly when the poster is present, non-empty and not "N/A",
      and in both cases the caption is the one built from the record. */
  lemma DetailsDecision(movie: Record)
    ensures DecideDetails(movie).LookupFailed? <==> !("Response" in movie && movie["Response"] == "True")
    ensures !DecideDetails(movie).LookupFailed? ==>
              (DecideDetails(movie).Photo? <==> "Poster" in movie && movie["Poster"] !in {"", "N/A"})
    ensures DecideDetails(movie).Photo? ==> DecideDetails(movie).url == movie["Poster"]
    ensures !DecideDetails(movie).LookupFailed? ==> DecideDetails(movie).caption == Caption(movie)
  {
  }

  /** With none of Title, Year and Plot present, the caption falls back on
      "Unknown", an empty year and the fixed no-description text. */
  lemma CaptionDefaults(movie: Record)
    requires "Title" !in movie && "Year" !in movie && "Plot" !in movie
    ensures Caption(movie) == "\U{1F3AC} Unknown ()\n\n" + NoPlot
  {
  }
}
