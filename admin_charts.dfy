/** The chart-type labels and icons and the delete handler of
    p-1/frontend/src/pages/admin/AdminCharts.jsx. The Previous / Next /
    numbered buttons are the Pager module. */
module AdminCharts {
  import opened Models
  import opened Notices

  /** getChartTypeName: the display name of a type string. */
  function ChartTypeName(t: string): (name: string)
    ensures name == "Unknown" <==> ParseChartType(t).None?
  {
    if t == "bar" then "Bar Chart"
    else if t == "bar3d" then "3D Bar Chart"
    else if t == "pie" then "Pie Chart"
    else if t == "pie3d" then "3D Pie Chart"
    else if t == "line" then "Line Chart"
    else if t == "area" then "Area Chart"
    else if t == "scatter" then "Scatter Plot"
    else "Unknown"
  }

  /** Every type the chart schema accepts has a name of its own. */
  lemma ChartTypeNamesDistinct(a: ChartType, b: ChartType)
    ensures ChartTypeName(ChartTypeString(a)) == ChartTypeName(ChartTypeString(b)) <==> a == b
  {
  }

  datatype Shape = BarChart3 | PieChart | LineChart | Activity | TrendingUp
  datatype Icon = Icon(shape: Shape, colour: string)

  /** getChartIcon: the lucide icon and its colour class. */
  function ChartIcon(t: string): (icon: Icon)
    ensures icon.colour == "text-gray-500" <==> ParseChartType(t).None?
  {
    if t == "bar" || t == "bar3d" then Icon(BarChart3, "text-blue-500")
    else if t == "pie" || t == "pie3d" then Icon(PieChart, "text-green-500")
    else if t == "line" then Icon(LineChart, "text-purple-500")
    else if t == "area" then Icon(Activity, "text-orange-500")
    else if t == "scatter" then Icon(TrendingUp, "text-red-500")
    else Icon(BarChart3, "text-gray-500")
  }

  /** The flat and 3D variants share an icon; otherwise two schema types
      share an icon only if they are the same type. */
  lemma ChartIconSharing(a: ChartType, b: ChartType)
    ensures ChartIcon(ChartTypeString(a)) == ChartIcon(ChartTypeString(b)) <==>
      a == b || {a, b} == {Bar, Bar3d} || {a, b} == {Pie, Pie3d}
  {
  }

  /** handleDeleteChart. `confirmed` is the answer to window.confirm and
      `deleted` whether the delete request succeeded; `reload` says whether
      the list is requested again. */
  function HandleDeleteChart(confirmed: bool, deleted: bool): (r: (bool, Notice))
    ensures r.0 <==> confirmed && deleted
    ensures !confirmed ==> r.1 == Quiet
    ensures confirmed && deleted ==> r.1 == Success("Chart deleted successfully")
    ensures confirmed && !deleted ==> r.1 == Failure("Failed to delete chart")
  {
    if !confirmed then (false, Quiet)
    else if deleted then (true, Success("Chart deleted successfully"))
    else (false, Failure("Failed to delete chart"))
  }
}
