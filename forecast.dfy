/** `adjust_forecast` in stock_forecast_with_sentiment.py: the forecast
    values, scaled by one plus the mean headline sentiment. Forecast values
    and the sentiment are real numbers here; the dates that index the forecast
    are not modelled, only the values in order. */
module Forecast {

  /** Every forecast value multiplied by (1 + s); the length is kept. */
  function AdjustForecast(forecast: seq<real>, s: real): (adjusted: seq<real>)
    ensures |adjusted| == |forecast|
    ensures forall i :: 0 <= i < |forecast| ==> adjusted[i] == forecast[i] * (1.0 + s)
  {
    seq(|forecast|, i requires 0 <= i < |forecast| => forecast[i] * (1.0 + s))
  }

  /** A neutral sentiment leaves the forecast as it is. */
  lemma AdjustNeutral(forecast: seq<real>)
    ensures AdjustForecast(forecast, 0.0) == forecast
  {
  }

  /** A positive sentiment raises a positive forecast value and a negative
      one lowers it, as the doc-comment of `adjust_forecast` states; below -1
      the sign of the value flips, which the linear rule does not prevent. */
  lemma AdjustDirection(forecast: seq<real>, s: real, i: nat)
    requires i < |forecast| && forecast[i] > 0.0
    ensures s > 0.0 ==> AdjustForecast(forecast, s)[i] > forecast[i]
    ensures s < 0.0 ==> AdjustForecast(forecast, s)[i] < forecast[i]
    ensures s < -1.0 ==> AdjustForecast(forecast, s)[i] < 0.0
  {
    var f := forecast[i];
    assert AdjustForecast(forecast, s)[i] == f + f * s;
    if s < -1.0 {
      assert f * (1.0 + s) < 0.0;
    }
  }

  /** With a sentiment above -1 the adjustment keeps the order of any two
      forecast values. */
  lemma AdjustKeepsOrder(forecast: seq<real>, s: real, i: nat, j: nat)
    requires i < |forecast| && j < |forecast| && s > -1.0
    ensures forecast[i] <= forecast[j] <==> AdjustForecast(forecast, s)[i] <= AdjustForecast(forecast, s)[j]
  {
    var a := AdjustForecast(forecast, s);
    var c := 1.0 + s;
    var x, y := forecast[i], forecast[j];
    assert a[i] == x * c && a[j] == y * c;
    assert a[j] - a[i] == (y - x) * c;
    if x <= y {
      assert (y - x) * c >= 0.0;
    } else {
      assert (x - y) * c > 0.0;
    }
  }

  /** Two adjustments in a row are one adjustment by the combined factor. */
  lemma AdjustCompose(forecast: seq<real>, s: real, t: real)
    ensures AdjustForecast(AdjustForecast(forecast, s), t) == AdjustForecast(forecast, s + t + s * t)
  {
    var lhs := AdjustForecast(AdjustForecast(forecast, s), t);
    var rhs := AdjustForecast(forecast, s + t + s * t);
    forall i | 0 <= i < |forecast| ensures lhs[i] == rhs[i] {
      var f := forecast[i];
      assert (f * (1.0 + s)) * (1.0 + t) == f * (1.0 + (s + t + s * t));
    }
  }

  /** Unless s is -1, the adjustment by s is undone by the adjustment by
      -s / (1 + s): the raw forecast can be recovered from the adjusted one. */
  lemma AdjustUndo(forecast: seq<real>, s: real)
    requires s != -1.0
    ensures AdjustForecast(AdjustForecast(forecast, s), -s / (1.0 + s)) == forecast
  {
    var u := -s / (1.0 + s);
    assert s + u + s * u == 0.0 by {
      assert u * (1.0 + s) == -s;
    }
    AdjustCompose(forecast, s, u);
    AdjustNeutral(forecast);
  }
}
