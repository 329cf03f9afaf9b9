/** The channel list read at start-up (bot.py:10): the `CHANNEL_IDS`
    environment variable (the empty string when it is unset) is split on
    commas, every piece is stripped, pieces left empty are dropped, and each
    remaining piece is converted with `int()`. A piece `int()` rejects makes
    the whole comprehension raise, which `None` stands for here. */
module Channels {
  import opened Optional
  import opened Text

  /** The channel ids configured by the (possibly unset) variable. */
  function ChannelIdsFromEnv(env: Option<string>): Option<seq<int>> {
    ParseChannelIds(env.GetOr(""))
  }

  function ParseChannelIds(raw: string): Option<seq<int>> {
    ParsePieces(Split(raw, ','))
  }

  /** The comprehension over the pieces, in order. */
  function ParsePieces(pieces: seq<string>): Option<seq<int>> {
    if |pieces| == 0 then Some([])
    else
      var entry := Strip(pieces[0]);
      if entry == "" then ParsePieces(pieces[1..])
      else match ParseInt(entry)
        case None => None
        case Some(id) =>
          match ParsePieces(pieces[1..])
          case None => None
          case Some(ids) => Some([id] + ids)
  }

  /** The stripped pieces that the comprehension keeps, in order. */
  function Kept(pieces: seq<string>): (kept: seq<string>)
    ensures forall k :: 0 <= k < |kept| ==>
              kept[k] != "" && !IsSpace(kept[k][0]) && !IsSpace(kept[k][|kept[k]| - 1])
  {
    if |pieces| == 0 then []
    else
      var entry := Strip(pieces[0]);
      if entry == "" then Kept(pieces[1..]) else [entry] + Kept(pieces[1..])
  }

  /** The parse succeeds exactly when every kept entry is an integer, and
      then yields, in order, the integer of each kept entry. */
  predicate ParsesKept(pieces: seq<string>) {
    var kept := Kept(pieces);
    && (ParsePieces(pieces).Some? <==> forall k :: 0 <= k < |kept| ==> ParseInt(kept[k]).Some?)
    && (ParsePieces(pieces).Some? ==>
          var ids := ParsePieces(pieces).value;
          |ids| == |kept| && forall k :: 0 <= k < |ids| ==> ParseInt(kept[k]) == Some(ids[k]))
  }

  lemma {:induction false} ParsePiecesSpec(pieces: seq<string>)
    ensures ParsesKept(pieces)
  {
    if |pieces| > 0 {
      ParsePiecesSpec(pieces[1..]);
      if Strip(pieces[0]) == "" {
        assert Kept(pieces) == Kept(pieces[1..]);
        assert ParsePieces(pieces) == ParsePieces(pieces[1..]);
      } else {
        ParsePiecesKeptStep(pieces);
      }
    }
  }

  /** The inductive step for a piece that is kept. */
  lemma ParsePiecesKeptStep(pieces: seq<string>)
    requires |pieces| > 0 && Strip(pieces[0]) != ""
    requires ParsesKept(pieces[1..])
    ensures ParsesKept(pieces)
  {
    var entry := Strip(pieces[0]);
    var kept := Kept(pieces);
    var rest := Kept(pieces[1..]);
    assert kept == [entry] + rest;
    assert forall k :: 1 <= k < |kept| ==> kept[k] == rest[k - 1];
    match ParseInt(entry)
    case None =>
      assert ParsePieces(pieces) == None;
      assert !ParseInt(kept[0]).Some?;
    case Some(id) =>
      match ParsePieces(pieces[1..])
      case None =>
        assert ParsePieces(pieces) == None;
        var k :| 0 <= k < |rest| && !ParseInt(rest[k]).Some?;
        assert !ParseInt(kept[k + 1]).Some?;
      case Some(ids) =>
        assert ParsePieces(pieces) == Some([id] + ids);
        assert forall k :: 1 <= k < |kept| ==> ([id] + ids)[k] == ids[k - 1];
  }

  /** An unset or empty variable, or one holding only commas and whitespace,
      configures no channel (so the gate lets everybody through). */
  lemma {:induction false} BlankPiecesConfigureNothing(pieces: seq<string>)
    requires forall k :: 0 <= k < |pieces| ==> AllSpace(pieces[k])
    ensures ParsePieces(pieces) == Some([])
  {
    if |pieces| > 0 {
      BlankPiecesConfigureNothing(pieces[1..]);
    }
  }

  lemma UnsetConfiguresNothing()
    ensures ChannelIdsFromEnv(None) == Some([])
    ensures ParseChannelIds("") == Some([])
  {
  }

  /** A single entry that is not an integer makes the whole list fail. */
  lemma BadEntryFailsAll(raw: string, k: nat)
    requires k < |Split(raw, ',')|
    requires Strip(Split(raw, ',')[k]) != "" && ParseInt(Strip(Split(raw, ',')[k])).None?
    ensures ParseChannelIds(raw) == None
  {
    var pieces := Split(raw, ',');
    ParsePiecesSpec(pieces);
    var j := KeptIndex(pieces, k);
  }

  /** A non-blank piece survives into the kept entries, stripped. */
  lemma {:induction false} KeptIndex(pieces: seq<string>, k: nat) returns (j: nat)
    requires k < |pieces| && Strip(pieces[k]) != ""
    ensures j < |Kept(pieces)| && Kept(pieces)[j] == Strip(pieces[k])
  {
    var entry := Strip(pieces[0]);
    if k == 0 {
      assert Kept(pieces) == [entry] + Kept(pieces[1..]);
      j := 0;
    } else {
      assert pieces[1..][k - 1] == pieces[k];
      var i := KeptIndex(pieces[1..], k - 1);
      if entry == "" {
        assert Kept(pieces) == Kept(pieces[1..]);
        j := i;
      } else {
        assert Kept(pieces) == [entry] + Kept(pieces[1..]);
        j := i + 1;
      }
    }
  }

  /** The decimal texts of a list of ids. */
  function Decimals(ids: seq<int>): (texts: seq<string>)
    ensures |texts| == |ids|
    ensures forall k :: 0 <= k < |ids| ==> texts[k] == IntToString(ids[k])
  {
    if |ids| == 0 then [] else [IntToString(ids[0])] + Decimals(ids[1..])
  }

  /** Writing ids out comma-separated and reading them back gives the same
      list, in the same order. */
  lemma ChannelIdsRoundTrip(ids: seq<int>)
    ensures ParseChannelIds(Join(Decimals(ids), ',')) == Some(ids)
  {
    var texts := Decimals(ids);
    if |ids| == 0 {
      UnsetConfiguresNothing();
    } else {
      forall k | 0 <= k < |texts| ensures ',' !in texts[k] {
        assert texts[k] == IntToString(ids[k]);
      }
      SplitJoin(texts, ',');
    }
    DecimalsParse(ids);
  }

  lemma {:induction false} DecimalsParse(ids: seq<int>)
    ensures ParsePieces(Decimals(ids)) == Some(ids)
  {
    if |ids| > 0 {
      DecimalsParse(ids[1..]);
      var first := IntToString(ids[0]);
      StripIntToString(ids[0]);
      ParseIntToString(ids[0]);
      ParsePiecesCons(first, Decimals(ids[1..]));
      assert Decimals(ids) == [first] + Decimals(ids[1..]);
      assert ids == [ids[0]] + ids[1..];
    }
  }

  /** One step of the comprehension on a piece that is kept. */
  lemma ParsePiecesCons(first: string, rest: seq<string>)
    requires Strip(first) == first != ""
    ensures ParsePieces([first] + rest) ==
            match (ParseInt(first), ParsePieces(rest))
            case (Some(id), Some(ids)) => Some([id] + ids)
            case _ => None
  {
  }
}
