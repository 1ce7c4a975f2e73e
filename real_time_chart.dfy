/** The small chart of the selected sensor on the dashboard: the warm-up fill of
    its points, and the choice between the line chart and the placeholder. */
module RealTimeChart {
  import opened Values
  import SentinelFill

  /** What the card shows: the line chart over the filled points, or the
      "waiting for data" placeholder. */
  datatype View = LineChart(points: seq<Point>) | Placeholder

  /** The card's content for the chart data it is given. */
  function Render(chartData: seq<Point>): (view: View)
    ensures view.LineChart? <==> |chartData| > 0
  {
    var filteredData := SentinelFill.Fill(chartData);
    if |filteredData| > 0 then LineChart(filteredData) else Placeholder
  }

  /** The line chart holds one point per input point, with the same time
      stamps, and none of them is `-1`; rendering the points it shows again
      shows the same points. */
  lemma RenderedPoints(chartData: seq<Point>)
    requires |chartData| > 0
    ensures var view := Render(chartData);
      view.LineChart? && |view.points| == |chartData| &&
      SentinelFill.SentinelFree(view.points) &&
      Render(view.points) == view &&
      forall i :: 0 <= i < |chartData| ==>
        view.points[i].fullTimestamp == chartData[i].fullTimestamp &&
        view.points[i].timestamp == chartData[i].timestamp
  {
    SentinelFill.FillKeepsTimes(chartData);
    SentinelFill.FillSentinelFree(chartData);
    SentinelFill.FillIdempotent(chartData);
  }
}
