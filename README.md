# QuakeReport: feed decoding and list refresh, modelled in Dafny

QuakeReport is an Android app that asks the USGS earthquake service for a GeoJSON
feed, decodes it into a list of `Info` records and shows them in a list view. This
project models the app's logic that does not depend on the platform:

- `QueryUtils`: building the URL object, the outcome rules of the HTTP request,
  reading the response body line by line, and the tolerant decoder that walks the
  FeatureCollection's `features` array (RFC 7946 section 3.3) and reads each Feature's
  `properties` object (RFC 7946 section 3.2);
- `Info`: the immutable four-field record;
- `InfoAdapter`: the split of the place text at the first `" of "`, the colour bucket
  for a magnitude, and the adapter's backing list;
- `EarthquakeActivity`: the four query parameters on the fixed USGS endpoint, and the
  replacement of the adapter's list when a load finishes or the loader is reset;
- `InfoLoader`: the null-URL check in front of the fetch.

Modules follow the source files: `QueryUtils` (query_utils.dfy), `InfoRecord`
(info_record.dfy), `Adapter` (adapter.dfy), `Activity` (activity.dfy), `Loader`
(loader.dfy). Three small modules carry what the Java platform provides: `Wrappers`
(an `Option` for nullable references), `Numbers` (a Java `double` as `Finite(real)` or
`NaN`, and the `long`/`int` casts with their saturation written out), and `Json` (JSON
values as org.json hands them over, with the `get*` and `opt*` accessors the decoder
uses).

What the model cannot compute enters as a parameter:

- `parse: string -> Option<Value>` is org.json's text parser (None: no value could be read);
- `isValidUrl: string -> bool` says whether `java.net.URL` accepts a string;
- `formatDate: int -> string` is the `SimpleDateFormat` of the device's locale and time zone;
- the network's behaviour for one request is an `Exchange` value. It is either
  `ConnectionFailed` (an `IOException` before the body is read) or
  `Responded(code, body, bodyReadFails)`.

The decoder (`ExtractEarthquakes`), the stream reader (`ReadFromStream`) and the
request (`MakeHttpRequest`) are methods shaped like the Java code: their loops and
locals stay, and each is proved equal to a specification function. The lemmas about
those functions state the properties. The adapter and the activity are classes whose
methods replace the `seq<Info>` the adapter holds.

Three behaviours of the code that a reader might not expect are kept as they are:

- a missing or non-numeric `mag` gives `optDouble`'s `NaN` (not 0.0), which
  `getMagnitudeColor` floors to 0 and draws as `magnitude1`;
- `Info.time` holds the date string already formatted by `extractEarthquakes`, not the
  instant;
- a place text without `" of "` is shown under the distance `"Near the"`.

## Model

| member | source | states |
|---|---|---|
| `InfoRecord.GettersReturnConstructorArguments` | QuakeReportLoader/app/src/main/java/com/example/android/quakereport/Info.java:14-35 | getLocation, getMag, getTime and getUrl return exactly the constructor's four arguments; a datatype cannot be changed after construction |
| `Numbers.ToLong` | QuakeReportLoader/app/src/main/java/com/example/android/quakereport/QueryUtils.java:166 | the cast optLong applies to a number truncates toward zero when the result fits in 64 bits, saturates at LONG_MAX/LONG_MIN otherwise, and so always lies in the long range |
| `Numbers.FloorToInt` | QuakeReportLoader/app/src/main/java/com/example/android/quakereport/InfoAdapter.java:102 | (int) Math.floor gives 0 for NaN, the floor for a value in the int range, and saturates at INT_MIN/INT_MAX otherwise |
| `QueryUtils.ReadLineTextIsPlain` | QuakeReportLoader/app/src/main/java/com/example/android/quakereport/QueryUtils.java:134-137 | a line returned by readLine contains no '\n' or '\r' |
| `QueryUtils.ConcatLinesDropsTerminators` | QuakeReportLoader/app/src/main/java/com/example/android/quakereport/QueryUtils.java:129-141 | appending every line readLine yields gives exactly the input with all line terminator characters removed |
| `QueryUtils.ReadFromStream` | QuakeReportLoader/app/src/main/java/com/example/android/quakereport/QueryUtils.java:129-141 | a null stream gives ""; otherwise the result is the concatenation of all lines, which equals the input without its terminators |
| `QueryUtils.CreateUrl` | QuakeReportLoader/app/src/main/java/com/example/android/quakereport/QueryUtils.java:74-82 | the URL is non-null exactly when the text is accepted, and then it is that text |
| `QueryUtils.MakeHttpRequest` | QuakeReportLoader/app/src/main/java/com/example/android/quakereport/QueryUtils.java:88-122 | "" for a null URL, a failed connection, a status other than 200 or a body read that throws; otherwise the whole body without line terminators; a non-empty result implies success |
| `QueryUtils.PropertiesOf` | QuakeReportLoader/app/src/main/java/com/example/android/quakereport/QueryUtils.java:159-160 | a feature has a properties object exactly when it is an object holding an object under "properties", and then it is that object's members |
| `QueryUtils.FeatureRecord` | QuakeReportLoader/app/src/main/java/com/example/android/quakereport/QueryUtils.java:161-175 | the record's magnitude is NaN exactly when "mag" is missing or not a number; a string under "place" or "url" is taken verbatim |
| `QueryUtils.FeatureRecordFields` | QuakeReportLoader/app/src/main/java/com/example/android/quakereport/QueryUtils.java:161-175 | each field is the value under its key when it has the right kind, else the fallback: "" for place and url, the formatted instant 0 for time, NaN for mag; time holds the formatted string |
| `QueryUtils.DecodeFeatures` | QuakeReportLoader/app/src/main/java/com/example/android/quakereport/QueryUtils.java:158-176 | never more records than features; record k comes from feature k's properties; if the result is shorter than the array, the next feature has no properties object |
| `QueryUtils.ExtractedByEnvelope` | QuakeReportLoader/app/src/main/java/com/example/android/quakereport/QueryUtils.java:154-156 | a root that is not an object or has no array under "features" gives the empty list; otherwise the decode of that array |
| `QueryUtils.DecodeFeatureArray` | QuakeReportLoader/app/src/main/java/com/example/android/quakereport/QueryUtils.java:158-186 | the loop, with its exit on the first element without a properties object, returns exactly the specified decode of the array |
| `QueryUtils.ExtractEarthquakes` | QuakeReportLoader/app/src/main/java/com/example/android/quakereport/QueryUtils.java:143-187 | the result is Extracted of the parsed text: by ExtractedByEnvelope empty on a broken envelope, the decode of the features array otherwise |
| `QueryUtils.DecodeKeepsEveryWellFormedFeature` | QuakeReportLoader/app/src/main/java/com/example/android/quakereport/QueryUtils.java:158-176 | when every feature has a properties object, there is exactly one record per feature, in array order |
| `QueryUtils.DecodeStopsAtFirstMalformed` | QuakeReportLoader/app/src/main/java/com/example/android/quakereport/QueryUtils.java:158-186 | when feature i is the first without a properties object, the result has length i and equals the decode of features 0..i-1 |
| `QueryUtils.DecodeIsPrefixOfLongerFeed` | QuakeReportLoader/app/src/main/java/com/example/android/quakereport/QueryUtils.java:158-176 | the decode of a feature array is a prefix of the decode of any extension of it: records are never reordered or dropped from the middle |
| `QueryUtils.EmptyPropertiesGiveFallbacks` | QuakeReportLoader/app/src/main/java/com/example/android/quakereport/QueryUtils.java:162-175 | a properties object without any of the four keys still gives one record, made only of fallbacks |
| `QueryUtils.EmptyFeatureArrayGivesNothing` | QuakeReportLoader/app/src/main/java/com/example/android/quakereport/QueryUtils.java:154-158 | an envelope whose features array is empty decodes to the empty list |
| `QueryUtils.SampleFeedDecodes` | QuakeReportLoader/app/src/main/java/com/example/android/quakereport/QueryUtils.java:154-176 | the one-feature sample feed decodes to one record with magnitude 6.6, the place text verbatim, the formatted time 1457112929000 and url "http://x" |
| `QueryUtils.FetchEarthquakeData` | QuakeReportLoader/app/src/main/java/com/example/android/quakereport/QueryUtils.java:44-69 | the result is the decode of the response text; as "" does not parse, a malformed URL, a failed connection or a status other than 200 gives the empty list |
| `Loader.LoadInBackground` | QuakeReportLoader/app/src/main/java/com/example/android/quakereport/InfoLoader.java:37-45 | a null URL gives a null list; any other URL exactly what fetchEarthquakeData gives for it |
| `Adapter.SplitLocation` | QuakeReportLoader/app/src/main/java/com/example/android/quakereport/InfoAdapter.java:68-78 | when the place text contains " of ", distance, a space and primary give the text back; otherwise the parts are "Near the" and the whole text |
| `Adapter.SplitAtFirstSeparator` | QuakeReportLoader/app/src/main/java/com/example/android/quakereport/InfoAdapter.java:71-75 | when the first " of " starts at i, distance is full[0..i+3] and primary is full[i+4..] |
| `Adapter.SplitReconstructs` | QuakeReportLoader/app/src/main/java/com/example/android/quakereport/InfoAdapter.java:71-75 | when the text contains " of ", distance + " " + primary is the text again |
| `Adapter.DistanceEndsWithOf` | QuakeReportLoader/app/src/main/java/com/example/android/quakereport/InfoAdapter.java:72-74 | when the text contains " of ", distance ends with " of" and contains no " of " itself |
| `Adapter.SplitWithoutSeparator` | QuakeReportLoader/app/src/main/java/com/example/android/quakereport/InfoAdapter.java:68-78 | without " of ", distance is "Near the" and primary is the whole text |
| `Adapter.PrimaryMayKeepSeparator` | QuakeReportLoader/app/src/main/java/com/example/android/quakereport/InfoAdapter.java:72-73 | only the first " of " splits: "5km N of Foo of Bar" gives "5km N of" and "Foo of Bar" |
| `Adapter.SampleFirstSeparator` | QuakeReportLoader/app/src/main/java/com/example/android/quakereport/InfoAdapter.java:71-72 | in "100km WSW of Valparaiso, Chile" the first " of " begins at index 9 |
| `Adapter.SampleLocationSplits` | QuakeReportLoader/app/src/main/java/com/example/android/quakereport/InfoAdapter.java:68-78 | "100km WSW of Valparaiso, Chile" splits into "100km WSW of" and "Valparaiso, Chile" |
| `Adapter.GetMagnitudeColor` | QuakeReportLoader/app/src/main/java/com/example/android/quakereport/InfoAdapter.java:104-127 | magnitude1 exactly for floors 0 and 1; floors 2..9 get the bucket of their own number, and only they; magnitude10plus exactly for negative floors and floors of 10 and more |
| `Adapter.MagnitudeColorOf` | QuakeReportLoader/app/src/main/java/com/example/android/quakereport/InfoAdapter.java:101-102 | a NaN magnitude is drawn as magnitude1; a finite one gets the bucket of its mathematical floor, the int saturation never changing it |
| `Adapter.InfoAdapter.constructor` | QuakeReportLoader/app/src/main/java/com/example/android/quakereport/InfoAdapter.java:25-27 | the adapter holds the list it is created with |
| `Adapter.InfoAdapter.Clear` | QuakeReportLoader/app/src/main/java/com/example/android/quakereport/EarthquakeActivity.java:178 | after clear the adapter's list is empty |
| `Adapter.InfoAdapter.AddAll` | QuakeReportLoader/app/src/main/java/com/example/android/quakereport/EarthquakeActivity.java:183 | addAll appends the collection after the current contents, in its order |
| `Activity.UriBuilder.BuildUpon` | QuakeReportLoader/app/src/main/java/com/example/android/quakereport/EarthquakeActivity.java:159-160 | the builder starts from the base with no query parameters |
| `Activity.UriBuilder.AppendQueryParameter` | QuakeReportLoader/app/src/main/java/com/example/android/quakereport/EarthquakeActivity.java:162-165 | each parameter is appended after the earlier ones; the base is unchanged |
| `Activity.EarthquakeActivity.OnCreate` | QuakeReportLoader/app/src/main/java/com/example/android/quakereport/EarthquakeActivity.java:70 | the activity's adapter starts with an empty list |
| `Activity.EarthquakeActivity.RequestUri` | QuakeReportLoader/app/src/main/java/com/example/android/quakereport/EarthquakeActivity.java:159-165 | the URI is the fixed endpoint with exactly four parameters in the order format=geojson, limit=10, minmag, orderby; the last two carry the preference strings unchanged |
| `Activity.EarthquakeActivity.OnCreateLoader` | QuakeReportLoader/app/src/main/java/com/example/android/quakereport/EarthquakeActivity.java:147-168 | the loader receives the text of that URI |
| `Activity.EarthquakeActivity.OnLoadFinished` | QuakeReportLoader/app/src/main/java/com/example/android/quakereport/EarthquakeActivity.java:173-185 | a non-null, non-empty list becomes the adapter's contents in the same order; a null or empty one leaves the adapter empty; nothing earlier survives |
| `Activity.EarthquakeActivity.OnLoaderReset` | QuakeReportLoader/app/src/main/java/com/example/android/quakereport/EarthquakeActivity.java:188-191 | the adapter is left empty |
| `Activity.EmptinessTestIsRedundant` | QuakeReportLoader/app/src/main/java/com/example/android/quakereport/EarthquakeActivity.java:178-184 | the list shown after a load is the loaded list (or empty for null) whether or not the emptiness test is made |

## Left out

- Networking: `HttpURLConnection`, the 1000 ms read and 15000 ms connect timeouts, the GET method, `disconnect` and `close`. The exchange is an abstract `Exchange` value.
- The cast `(HttpURLConnection) url.openConnection()` throws an uncaught `ClassCastException` for a URL that `java.net.URL` accepts but that is not HTTP (`file:`, `ftp:`), and the app crashes. This crash is not modelled: `FetchEarthquakeData` and `Loader.LoadInBackground` give a decode, or `[]` through `ConnectionFailed`, instead. The app only ever passes the `http:` USGS URL.
- `close()` throwing in the `finally` of makeHttpRequest: the exception reaches fetchEarthquakeData, `jsonResponse` stays null and org.json fails on null. `Exchange` has no such case, so this path is not modelled.
- JSON text parsing (org.json) is the `parse` parameter. The only fact about it that is used is `parse("") == None`, and it is stated where it is needed.
- org.json's coercions are not modelled: a string read by `optLong`/`optDouble`, and any non-string value read by `optString` (which turns every non-null value into text). The model gives the fallback for a value of another kind.
- Floating point: a double is an exact real, so rounding is not modelled. `DecimalFormat("0.0")` is out, being display formatting.
- Date formatting: `SimpleDateFormat` depends on locale and time zone and is the `formatDate` parameter.
- UTF-8 decoding of the response bytes: the body is given as characters.
- URL syntax: whether `java.net.URL` accepts a string is the `isValidUrl` parameter.
- Activity.EarthquakeActivity.OnCreateLoader: `UriString` writes keys and values without the percent-encoding that `Uri.Builder` applies.
- Shared preferences: the two preference strings are parameters of `OnCreateLoader`. Their keys and default values live in resource files that are not part of this model.
- Threading and the loader lifecycle: `AsyncTaskLoader`, `forceLoad`, `onStartLoading`, `LoaderManager.initLoader`.
- UI: view inflation and `TextView`s in `getView`, `ContextCompat.getColor` (the bucket is returned as an enumeration), the progress bar, the empty-state and no-internet views, the connectivity check, menus, and the intents for settings and item clicks.
- Logging: the `Log.e` calls.
