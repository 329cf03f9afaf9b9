/** Callback tokens: the `callback_data` strings attached to buttons, built as
    `select|<id>`, `season|<id>|<n>` and `episode|<id>|<season>|<ep>`, and
    read back by telebot's prefix filters and the handlers' `split("|")`
    (bot.py:65, 71, 74, 96, 101, 104, 118). */
module Tokens {
  import opened Optional
  import opened Text

  const Delimiter := '|'

  /** What a button asks for, before it is written into a token. */
  datatype Action =
    | Select(imdbId: string)
    | Season(imdbId: string, season: string)
    | Episode(imdbId: string, season: string, episode: string)

  function Fields(a: Action): seq<string> {
    match a
    case Select(id) => ["select", id]
    case Season(id, season) => ["season", id, season]
    case Episode(id, season, episode) => ["episode", id, season, episode]
  }

  /** The token of an action: its fields joined by `|`. */
  function Encode(a: Action): string {
    Join(Fields(a), Delimiter)
  }

  /** No argument of the action contains the delimiter. */
  predicate Plain(a: Action) {
    forall k :: 0 <= k < |Fields(a)| ==> Delimiter !in Fields(a)[k]
  }

  /** The callback handlers, in the order they are registered. */
  datatype Handler = SelectHandler | SeasonHandler | NoHandler

  /** The handler filters `c.data and c.data.startswith(...)`: absent or empty
      data and any other prefix reach no handler. */
  function Route(data: Option<string>): Handler {
    match data
    case None => NoHandler
    case Some(d) =>
      if "select|" <= d then SelectHandler
      else if "season|" <= d then SeasonHandler
      else NoHandler
  }

  /** The two prefix filters exclude each other, so each handler is reached
      exactly by the data its own filter accepts, whatever the order of
      registration. */
  lemma RouteFilters(data: Option<string>)
    ensures Route(data) == SelectHandler <==> data.Some? && "select|" <= data.value
    ensures Route(data) == SeasonHandler <==> data.Some? && "season|" <= data.value
    ensures Route(data) == NoHandler <==> data.None? || (!("select|" <= data.value) && !("season|" <= data.value))
  {
    if data.Some? && "season|" <= data.value {
      assert data.value[2] == 'a';
    }
  }

  /** `call.data.split("|")[1]`; `None` where Python raises `IndexError`. */
  function SelectArg(data: string): Option<string> {
    var fields := Split(data, Delimiter);
    if |fields| > 1 then Some(fields[1]) else None
  }

  /** `_, imdb_id, season = call.data.split("|")`; `None` where the unpacking
      raises `ValueError` (any field count other than three). */
  function SeasonArgs(data: string): Option<(string, string)> {
    var fields := Split(data, Delimiter);
    if |fields| == 3 then Some((fields[1], fields[2])) else None
  }

  /** What a button press leads to. */
  datatype Command =
    | ShowDetails(imdbId: string)
    | ShowEpisodes(imdbId: string, season: string)
    | Malformed  // the matching handler raised while unpacking the token
    | Unhandled  // no handler's filter accepts the token

  /** The routing filter followed by the chosen handler's field extraction.
      Only `season|` tokens can be malformed: a token that passes the
      `select|` filter always has a field 1. */
  function Parse(data: Option<string>): (c: Command)
    ensures c.ShowDetails? ==> Route(data) == SelectHandler
    ensures c.ShowEpisodes? || c.Malformed? ==> Route(data) == SeasonHandler
    ensures c.Unhandled? <==> Route(data) == NoHandler
  {
    match Route(data)
    case SelectHandler =>
      SelectFieldExists(data.value);
      ShowDetails(SelectArg(data.value).value)
    case SeasonHandler =>
      (match SeasonArgs(data.value)
       case Some((id, season)) => ShowEpisodes(id, season)
       case None => Malformed)
    case NoHandler => Unhandled
  }

  /** Splitting text that starts with `head|`, where `head` has no
      delimiter, yields `head` and then the pieces of the rest. */
  lemma SplitAfterPrefix(head: string, t: string)
    requires Delimiter !in head && head + [Delimiter] <= t
    ensures Split(t, Delimiter) == [head] + Split(t[|head| + 1..], Delimiter)
  {
    assert t == head + [Delimiter] + t[|head| + 1..];
    SplitAtFirst(head, Delimiter, t[|head| + 1..]);
  }

  lemma SelectFieldExists(d: string)
    requires "select|" <= d
    ensures SelectArg(d).Some?
  {
    SplitAfterPrefix("select", d);
  }

  /** The three token shapes spelled out. */
  lemma EncodeShape(a: Action)
    ensures Encode(a) ==
            match a
            case Select(id) => "select|" + id
            case Season(id, season) => "season|" + id + "|" + season
            case Episode(id, season, episode) => "episode|" + id + "|" + season + "|" + episode
  {
    match a
    case Select(id) =>
      assert Fields(a)[1..] == [id];
    case Season(id, season) =>
      assert Fields(a)[1..] == [id, season];
      assert [id, season][1..] == [season];
      assert Join([id, season], Delimiter) == id + "|" + season;
    case Episode(id, season, episode) =>
      assert Fields(a)[1..] == [id, season, episode];
      assert [id, season, episode][1..] == [season, episode];
      assert [season, episode][1..] == [episode];
      assert Join([season, episode], Delimiter) == season + "|" + episode;
      assert Join([id, season, episode], Delimiter) == id + "|" + season + "|" + episode;
  }

  /** Every plain action's token parses back to the command its handler
      acts on: `select` and `season` tokens give back their arguments as
      strings, and `episode` tokens reach no handler at all. */
  lemma ParseEncode(a: Action)
    requires Plain(a)
    ensures Parse(Some(Encode(a))) ==
            match a
            case Select(id) => ShowDetails(id)
            case Season(id, season) => ShowEpisodes(id, season)
            case Episode(_, _, _) => Unhandled
  {
    var t := Encode(a);
    SplitJoin(Fields(a), Delimiter);
    EncodeShape(a);
    if a.Season? {
      assert t[2] == 'a';
    } else if a.Episode? {
      assert t[2] == 'i';
    }
  }

  /** `episode|...` tokens match no handler, whatever their arguments. */
  lemma EpisodeTokensUnhandled(id: string, season: string, episode: string)
    ensures Route(Some(Encode(Episode(id, season, episode)))) == NoHandler
  {
    var t := Encode(Episode(id, season, episode));
    EncodeShape(Episode(id, season, episode));
    assert t[2] == 'i';
  }

  /** A token the season handler accepts is exactly the encoding of the
      command it yields, and its arguments are free of the delimiter. */
  lemma ParsedSeasonIsEncoded(t: string, id: string, season: string)
    requires Parse(Some(t)) == ShowEpisodes(id, season)
    ensures t == Encode(Season(id, season)) && Plain(Season(id, season))
  {
    var fields := Split(t, Delimiter);
    SplitAfterPrefix("season", t);
    assert fields == ["season", id, season];
    JoinSplit(t, Delimiter);
    assert Fields(Season(id, season)) == fields;
  }

  /** A token the select handler accepts starts with the encoding of the
      command it yields; whatever follows is ignored and begins with the
      delimiter. */
  lemma ParsedSelectIsEncoded(t: string, id: string)
    requires Parse(Some(t)) == ShowDetails(id)
    ensures Encode(Select(id)) <= t && Plain(Select(id))
    ensures |t| > |Encode(Select(id))| ==> t[|Encode(Select(id))|] == Delimiter
  {
    var rest := t[7..];
    SplitAfterPrefix("select", t);
    var parts := Split(rest, Delimiter);
    assert id == parts[0];
    JoinSplit(rest, Delimiter);
    JoinStartsWithHead(parts);
    EncodeShape(Select(id));
    assert t == "select|" + rest;
    assert Fields(Select(id))[1] == parts[0];
  }

  lemma JoinStartsWithHead(parts: seq<string>)
    requires |parts| >= 1
    ensures parts[0] <= Join(parts, Delimiter)
    ensures |parts| > 1 ==> |Join(parts, Delimiter)| > |parts[0]| && Join(parts, Delimiter)[|parts[0]|] == Delimiter
  {
  }

  /** Exactly the `season|` tokens whose split does not give three fields are
      malformed. */
  lemma MalformedIff(t: string)
    ensures Parse(Some(t)).Malformed? <==> "season|" <= t && |Split(t, Delimiter)| != 3
  {
    if "season|" <= t {
      assert !("select|" <= t) by { assert t[2] == 'a'; }
    }
  }

  /** A season token with only one argument, such as `season|onlyonearg`,
      is reported as malformed. */
  lemma OneArgumentSeasonMalformed(arg: string)
    requires Delimiter !in arg
    ensures Parse(Some("season|" + arg)) == Malformed
  {
    var t := "season|" + arg;
    assert t[7..] == arg;
    SplitAfterPrefix("season", t);
    SplitPlain(arg, Delimiter);
    assert t[2] == 'a';
  }
}
