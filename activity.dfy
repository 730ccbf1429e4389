/**
 * EarthquakeActivity.java: the request URL built for the loader, and the refill of the
 * adapter's list when a load finishes or the loader is reset. Views, menus, intents and
 * the connectivity check are not modelled.
 */
module Activity {
  import opened Wrappers
  import opened InfoRecord
  import opened Adapter
  import opened Loader

  /** USGS_REQUEST_URL */
  const UsgsRequestUrl: string := "http://earthquake.usgs.gov/fdsnws/event/1/query"

  /** The number of events asked for. */
  const Limit: string := "10"

  /** One query parameter, in the order Uri.Builder appends it. */
  datatype QueryParameter = QueryParameter(key: string, value: string)

  /** A URI as a base and an ordered list of query parameters. */
  datatype Uri = Uri(base: string, query: seq<QueryParameter>)

  /** The parameters, each written key=value, joined by '&'. */
  function QueryString(query: seq<QueryParameter>): string
  {
    if query == [] then ""
    else if |query| == 1 then query[0].key + "=" + query[0].value
    else query[0].key + "=" + query[0].value + "&" + QueryString(query[1..])
  }

  /** Uri.toString, without percent-encoding: the base, then '?' and the query if there is one. */
  function UriString(uri: Uri): string
  {
    if uri.query == [] then uri.base else uri.base + "?" + QueryString(uri.query)
  }

  /** Uri.Builder as obtained from Uri.parse(base).buildUpon(). */
  class UriBuilder {
    var base: string
    var query: seq<QueryParameter>

    /** Uri.parse(uri).buildUpon() for a URI without a query. */
    constructor BuildUpon(uri: string)
      ensures base == uri && query == []
    {
      base := uri;
      query := [];
    }

    /** appendQueryParameter: the new parameter goes after all earlier ones. */
    method AppendQueryParameter(key: string, value: string)
      modifies this
      ensures base == old(base)
      ensures query == old(query) + [QueryParameter(key, value)]
    {
      query := query + [QueryParameter(key, value)];
    }

    /** Uri.Builder.build */
    function Build(): Uri
      reads this
    {
      Uri(base, query)
    }
  }

  /** The list a finished load leaves in the adapter: that list, unless it is null or empty. */
  function ShownAfterLoad(earthquakes: Option<seq<Info>>): seq<Info>
  {
    if earthquakes.Some? && earthquakes.value != [] then earthquakes.value else []
  }

  class EarthquakeActivity {
    var adapter: InfoAdapter

    /** onCreate, as far as the list goes: the adapter starts with an empty list. */
    constructor OnCreate()
      ensures fresh(adapter)
      ensures adapter.items == []
    {
      adapter := new InfoAdapter([]);
    }

    /**
     * The URI onCreateLoader builds: the fixed endpoint with exactly four parameters,
     * format=geojson, limit=10, then the two preference strings unchanged.
     */
    method RequestUri(minMagnitude: string, orderBy: string) returns (uri: Uri)
      ensures uri.base == UsgsRequestUrl
      ensures |uri.query| == 4
      ensures uri.query[0] == QueryParameter("format", "geojson")
      ensures uri.query[1] == QueryParameter("limit", Limit)
      ensures uri.query[2] == QueryParameter("minmag", minMagnitude)
      ensures uri.query[3] == QueryParameter("orderby", orderBy)
    {
      var uriBuilder := new UriBuilder.BuildUpon(UsgsRequestUrl);
      uriBuilder.AppendQueryParameter("format", "geojson");
      uriBuilder.AppendQueryParameter("limit", Limit);
      uriBuilder.AppendQueryParameter("minmag", minMagnitude);
      uriBuilder.AppendQueryParameter("orderby", orderBy);
      uri := uriBuilder.Build();
    }

    /**
     * onCreateLoader, given the two strings read from the shared preferences: the loader
     * receives the text of the fixed endpoint followed by the four parameters.
     */
    method OnCreateLoader(minMagnitude: string, orderBy: string) returns (loader: InfoLoader)
      ensures loader.url == Some(UriString(Uri(UsgsRequestUrl, [
        QueryParameter("format", "geojson"), QueryParameter("limit", Limit),
        QueryParameter("minmag", minMagnitude), QueryParameter("orderby", orderBy)])))
    {
      var uri := RequestUri(minMagnitude, orderBy);
      assert uri.query == [uri.query[0], uri.query[1], uri.query[2], uri.query[3]];
      loader := InfoLoader(Some(UriString(uri)));
    }

    /**
     * onLoadFinished: the adapter is cleared, then refilled with the loaded list when it
     * is neither null nor empty; nothing shown before survives.
     */
    method OnLoadFinished(earthquakes: Option<seq<Info>>)
      modifies adapter
      ensures adapter == old(adapter)
      ensures earthquakes.Some? && earthquakes.value != [] ==> adapter.items == earthquakes.value
      ensures earthquakes.None? || earthquakes.value == [] ==> adapter.items == []
      ensures adapter.items == ShownAfterLoad(earthquakes)
    {
      adapter.Clear();
      if earthquakes.Some? && earthquakes.value != [] {
        adapter.AddAll(earthquakes.value);
      }
    }

    /** onLoaderReset: the adapter is cleared. */
    method OnLoaderReset()
      modifies adapter
      ensures adapter == old(adapter)
      ensures adapter.items == []
    {
      adapter.Clear();
    }
  }

  /**
   * The emptiness test of onLoadFinished changes nothing: adding an empty list after
   * clearing the adapter leaves it empty as well, so after clear and addAll the list shown
   * is always the loaded one, and the empty list for null.
   */
  lemma EmptinessTestIsRedundant(earthquakes: Option<seq<Info>>)
    ensures ShownAfterLoad(earthquakes) == if earthquakes.Some? then earthquakes.value else []
  {
  }
}
