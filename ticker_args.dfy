/** The reading of the comma-separated `--tickers` argument in `main` of
    stock_forecast_with_sentiment.py. */
module TickerArgs {
  import opened Text

  /** A ticker as the command line leaves it: non-empty, stripped,
      upper-case and free of the separator. */
  predicate IsNormalTicker(t: string) {
    t != [] && IsStripped(t) && IsUpper(t) && ',' !in t
  }

  /** Upper-casing a stripped piece that is free of commas gives a normal
      ticker (or nothing, when the piece was blank). */
  lemma NormalPiece(p: string)
    requires ',' !in p
    ensures Strip(p) != [] ==> IsNormalTicker(Upper(Strip(p)))
  {
    var s := Strip(p);
    StripAddsNothing(p, ',');
    UpperIsUpper(s);
    if s != [] {
      UpperKeepsStripped(s);
    }
  }

  /** What the comprehension keeps of one piece: the piece stripped and
      upper-cased, or nothing when it is blank. */
  function NormalisePiece(p: string): (ts: seq<string>)
    ensures |ts| <= 1
  {
    var t := Strip(p);
    if t != [] then [Upper(t)] else []
  }

  /** The shape of the comprehension: every piece is turned into what it
      contributes (`keep`), and the contributions are joined in order. */
  function Collect(pieces: seq<string>, keep: string -> seq<string>): (ts: seq<string>)
    ensures (forall p :: |keep(p)| <= 1) ==> |ts| <= |pieces|
    decreases |pieces|
  {
    if pieces == [] then [] else keep(pieces[0]) + Collect(pieces[1..], keep)
  }

  /** The comprehension `[t.strip().upper() for t in pieces if t.strip()]`. */
  function NormalisePieces(pieces: seq<string>): (ts: seq<string>)
    ensures |ts| <= |pieces|
  {
    Collect(pieces, NormalisePiece)
  }

  /** The outcome of reading the `--tickers` argument: the list of tickers,
      or the rejection ("No valid tickers provided.") on which the program
      exits with status 1. */
  datatype TickerList = Tickers(tickers: seq<string>) | NoValidTickers

  /** Lines 264-267 of `main`: split on commas, strip and upper-case every
      piece, drop blank pieces; an empty result is rejected. */
  function ParseTickers(raw: string): (r: TickerList)
    ensures r.Tickers? ==> r.tickers != []
  {
    var ts := NormalisePieces(Split(raw, ','));
    if ts == [] then NoValidTickers else Tickers(ts)
  }

  /** Collecting two runs of pieces is collecting each in turn. */
  lemma {:induction false} CollectAppend(xs: seq<string>, ys: seq<string>, keep: string -> seq<string>)
    ensures Collect(xs + ys, keep) == Collect(xs, keep) + Collect(ys, keep)
    decreases |xs|
  {
    if xs == [] {
      assert xs + ys == ys;
    } else {
      assert (xs + ys)[0] == xs[0];
      assert (xs + ys)[1..] == xs[1..] + ys;
      CollectAppend(xs[1..], ys, keep);
    }
  }

  /** Whatever holds of every contribution holds of every collected item. */
  lemma {:induction false} CollectAll(pieces: seq<string>, keep: string -> seq<string>, ok: string -> bool)
    requires forall k, j :: 0 <= k < |pieces| && 0 <= j < |keep(pieces[k])| ==> ok(keep(pieces[k])[j])
    ensures forall i :: 0 <= i < |Collect(pieces, keep)| ==> ok(Collect(pieces, keep)[i])
    decreases |pieces|
  {
    if pieces != [] {
      var head, tail := keep(pieces[0]), Collect(pieces[1..], keep);
      forall k, j | 0 <= k < |pieces[1..]| && 0 <= j < |keep(pieces[1..][k])|
        ensures ok(keep(pieces[1..][k])[j])
      {
        assert pieces[1..][k] == pieces[k + 1];
      }
      CollectAll(pieces[1..], keep, ok);
      forall i | 0 <= i < |head + tail|
        ensures ok((head + tail)[i])
      {
        if i < |head| {
          assert (head + tail)[i] == keep(pieces[0])[i];
        } else {
          assert (head + tail)[i] == tail[i - |head|];
        }
      }
    }
  }

  /** Nothing is collected exactly when no piece contributes anything. */
  lemma {:induction false} CollectEmpty(pieces: seq<string>, keep: string -> seq<string>)
    ensures Collect(pieces, keep) == [] <==> forall k :: 0 <= k < |pieces| ==> keep(pieces[k]) == []
    decreases |pieces|
  {
    if pieces != [] {
      CollectEmpty(pieces[1..], keep);
      if Collect(pieces, keep) == [] {
        forall k | 0 <= k < |pieces| ensures keep(pieces[k]) == [] {
          if k > 0 {
            assert pieces[k] == pieces[1..][k - 1];
          }
        }
      } else if keep(pieces[0]) == [] {
        var k :| 0 <= k < |pieces[1..]| && keep(pieces[1..][k]) != [];
        assert pieces[1..][k] == pieces[k + 1];
      }
    }
  }

  /** Pieces that each contribute exactly themselves are collected as they
      are. */
  lemma {:induction false} CollectItself(pieces: seq<string>, keep: string -> seq<string>)
    requires forall k :: 0 <= k < |pieces| ==> keep(pieces[k]) == [pieces[k]]
    ensures Collect(pieces, keep) == pieces
    decreases |pieces|
  {
    if pieces != [] {
      forall k | 0 <= k < |pieces[1..]| ensures keep(pieces[1..][k]) == [pieces[1..][k]] {
        assert pieces[1..][k] == pieces[k + 1];
      }
      CollectItself(pieces[1..], keep);
      assert [pieces[0]] + pieces[1..] == pieces;
    }
  }

  /** Normalisation works piece by piece, so it keeps the input order:
      normalising two runs of pieces is normalising each in turn. */
  lemma NormalisePiecesAppend(xs: seq<string>, ys: seq<string>)
    ensures NormalisePieces(xs + ys) == NormalisePieces(xs) + NormalisePieces(ys)
  {
    CollectAppend(xs, ys, NormalisePiece);
  }

  /** Every ticker produced from comma-free pieces is normal. */
  lemma NormalisePiecesNormal(pieces: seq<string>)
    requires forall k :: 0 <= k < |pieces| ==> ',' !in pieces[k]
    ensures forall k :: 0 <= k < |NormalisePieces(pieces)| ==> IsNormalTicker(NormalisePieces(pieces)[k])
  {
    forall k, j | 0 <= k < |pieces| && 0 <= j < |NormalisePiece(pieces[k])|
      ensures IsNormalTicker(NormalisePiece(pieces[k])[j])
    {
      NormalisePieceNormal(pieces[k], j);
    }
    CollectAll(pieces, NormalisePiece, IsNormalTicker);
  }

  /** What a comma-free piece contributes is normal. */
  lemma NormalisePieceNormal(p: string, j: nat)
    requires ',' !in p && j < |NormalisePiece(p)|
    ensures IsNormalTicker(NormalisePiece(p)[j])
  {
    NormalPiece(p);
  }

  /** A list of pieces made of whitespace only, each of them. */
  predicate AllBlank(pieces: seq<string>) {
    forall k :: 0 <= k < |pieces| ==> IsBlank(pieces[k])
  }

  /** Normalisation produces nothing exactly when every piece is blank. */
  lemma NormalisePiecesEmpty(pieces: seq<string>)
    ensures NormalisePieces(pieces) == [] <==> AllBlank(pieces)
  {
    forall k | 0 <= k < |pieces|
      ensures NormalisePiece(pieces[k]) == [] <==> IsBlank(pieces[k])
    {
      StripEmptyIffBlank(pieces[k]);
    }
    CollectEmpty(pieces, NormalisePiece);
  }

  /** Normal tickers pass through normalisation unchanged. */
  lemma NormalisePiecesOfNormal(ts: seq<string>)
    requires forall k :: 0 <= k < |ts| ==> IsNormalTicker(ts[k])
    ensures NormalisePieces(ts) == ts
  {
    forall k | 0 <= k < |ts|
      ensures NormalisePiece(ts[k]) == [ts[k]]
    {
      StripFixesStripped(ts[k]);
      UpperOfUpper(ts[k]);
    }
    CollectItself(ts, NormalisePiece);
  }

  /** Every accepted ticker is non-empty, stripped, upper-case and free of
      commas. */
  lemma {:induction false} ParseTickersSound(raw: string)
    ensures ParseTickers(raw).Tickers? ==>
      forall k :: 0 <= k < |ParseTickers(raw).tickers| ==> IsNormalTicker(ParseTickers(raw).tickers[k])
  {
    var pieces := Split(raw, ',');
    assert forall k :: 0 <= k < |pieces| ==> ',' !in pieces[k];
    NormalisePiecesNormal(pieces);
    var ts := NormalisePieces(pieces);
    assert ParseTickers(raw) == if ts == [] then NoValidTickers else Tickers(ts);
  }

  /** The argument is rejected exactly when every comma-separated piece of it
      is blank (this includes the empty argument). */
  lemma {:induction false} ParseTickersRejects(raw: string)
    ensures ParseTickers(raw) == NoValidTickers <==>
      AllBlank(Split(raw, ','))
  {
    var pieces := Split(raw, ',');
    NormalisePiecesEmpty(pieces);
    assert ParseTickers(raw) == NoValidTickers <==> NormalisePieces(pieces) == [];
  }

  /** A comma-joined list of normal tickers is read back as that list. */
  lemma ParseTickersJoin(ts: seq<string>)
    requires ts != []
    requires forall k :: 0 <= k < |ts| ==> IsNormalTicker(ts[k])
    ensures ParseTickers(Join(ts, ',')) == Tickers(ts)
  {
    SplitJoin(ts, ',');
    NormalisePiecesOfNormal(ts);
  }

  /** Normalising is idempotent: writing the accepted list back out as an
      argument and reading it again changes nothing. */
  lemma ParseTickersIdempotent(raw: string)
    requires ParseTickers(raw).Tickers?
    ensures ParseTickers(Join(ParseTickers(raw).tickers, ',')) == ParseTickers(raw)
  {
    ParseTickersSound(raw);
    ParseTickersJoin(ParseTickers(raw).tickers);
  }
}
