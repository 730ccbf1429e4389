/** InfoLoader.java: the one decision the background loader makes before fetching. */
module Loader {
  import opened Wrappers
  import opened Json
  import opened InfoRecord
  import opened QueryUtils

  /** An InfoLoader is fixed by the URL text it was constructed with (mUrl, possibly null). */
  datatype InfoLoader = InfoLoader(url: Option<string>)

  /**
   * loadInBackground: a null URL gives a null list, any other URL the list
   * fetchEarthquakeData produces for it.
   */
  method LoadInBackground(loader: InfoLoader, isValidUrl: string -> bool, exchange: Exchange,
                          parse: string -> Option<Value>, formatDate: int -> string)
    returns (earthquakes: Option<seq<Info>>)
    ensures loader.url.None? ==> earthquakes.None?
    ensures loader.url.Some? ==>
      (earthquakes.Some? && earthquakes.value
       == Extracted(parse(HttpResponseText(CreateUrl(loader.url.value, isValidUrl), exchange)), formatDate))
  {
    if loader.url.None? {
      return None;
    }
    var list := FetchEarthquakeData(loader.url.value, isValidUrl, exchange, parse, formatDate);
    earthquakes := Some(list);
  }
}
