/**
 * QueryUtils.java: the fetch-and-decode pipeline. The network exchange, the JSON text
 * parser, URL validation and date formatting are not reproduced; each enters as a
 * parameter (an Exchange value or a function), so every rule the class applies on
 * top of them can be stated and proved.
 */
module QueryUtils {
  import opened Wrappers
  import opened Numbers
  import opened Json
  import opened InfoRecord

  // ---------------------------------------------------------------------------
  // readFromStream: BufferedReader.readLine in a loop
  // ---------------------------------------------------------------------------

  /** The characters BufferedReader.readLine treats as ending a line. */
  predicate IsTerminator(c: char)
  {
    c == '\n' || c == '\r'
  }

  /** One answer of readLine: the line without its terminator, and what remains unread. */
  datatype LineRead = LineRead(text: string, rest: seq<char>)

  /** The index of the first terminator in s, or |s| if there is none. */
  function TerminatorIndex(s: seq<char>): (i: nat)
    ensures i <= |s|
    ensures forall k :: 0 <= k < i ==> !IsTerminator(s[k])
    ensures i < |s| ==> IsTerminator(s[i])
  {
    if s == [] || IsTerminator(s[0]) then 0 else 1 + TerminatorIndex(s[1..])
  }

  /**
   * BufferedReader.readLine on the unread input s: null (None) at the end of the
   * stream; otherwise the characters up to "\n", "\r" or "\r\n", which is consumed.
   */
  function ReadLine(s: seq<char>): (r: Option<LineRead>)
    ensures r.None? <==> s == []
    ensures r.Some? ==> |r.value.rest| < |s|
  {
    if s == [] then None
    else
      var i := TerminatorIndex(s);
      if i == |s| then Some(LineRead(s, []))
      else if s[i] == '\r' && i + 1 < |s| && s[i + 1] == '\n' then Some(LineRead(s[..i], s[i + 2..]))
      else Some(LineRead(s[..i], s[i + 1..]))
  }

  /** Every line readLine yields from s, in order. */
  function Lines(s: seq<char>): seq<string>
    decreases |s|
  {
    match ReadLine(s)
    case None => []
    case Some(line) => [line.text] + Lines(line.rest)
  }

  /** The lines appended one after another, as StringBuilder.append does. */
  function Concat(lines: seq<string>): string
  {
    if lines == [] then "" else lines[0] + Concat(lines[1..])
  }

  /** s with every line terminator character dropped: the reference for readFromStream. */
  function RemoveTerminators(s: seq<char>): string
  {
    if s == [] then ""
    else if IsTerminator(s[0]) then RemoveTerminators(s[1..])
    else [s[0]] + RemoveTerminators(s[1..])
  }

  lemma {:induction false} RemoveTerminatorsAppend(a: seq<char>, b: seq<char>)
    ensures RemoveTerminators(a + b) == RemoveTerminators(a) + RemoveTerminators(b)
  {
    if a != [] {
      assert (a + b)[0] == a[0];
      assert (a + b)[1..] == a[1..] + b;
      RemoveTerminatorsAppend(a[1..], b);
    } else {
      assert a + b == b;
    }
  }

  lemma {:induction false} RemoveTerminatorsKeepsPlainText(s: seq<char>)
    requires forall k :: 0 <= k < |s| ==> !IsTerminator(s[k])
    ensures RemoveTerminators(s) == s
  {
    if s != [] {
      RemoveTerminatorsKeepsPlainText(s[1..]);
    }
  }

  /** The line readLine returns holds no terminator. */
  lemma ReadLineTextIsPlain(s: seq<char>)
    requires s != []
    ensures forall k :: 0 <= k < |ReadLine(s).value.text| ==> !IsTerminator(ReadLine(s).value.text[k])
  {
  }

  /** One readLine call: its line, followed by the rest, carries the same text as s. */
  lemma ReadLineStep(s: seq<char>)
    requires s != []
    ensures RemoveTerminators(s) == ReadLine(s).value.text + RemoveTerminators(ReadLine(s).value.rest)
  {
    var i := TerminatorIndex(s);
    var line := ReadLine(s).value;
    assert s == s[..i] + s[i..];
    RemoveTerminatorsAppend(s[..i], s[i..]);
    RemoveTerminatorsKeepsPlainText(s[..i]);
    if i < |s| {
      assert s[i..][1..] == s[i + 1..];
      if s[i] == '\r' && i + 1 < |s| && s[i + 1] == '\n' {
        assert s[i + 1..][1..] == s[i + 2..];
      }
    }
  }

  /** The lines of s are the first line followed by the lines of what remains. */
  lemma ConcatLinesStep(s: seq<char>)
    requires s != []
    ensures Concat(Lines(s)) == ReadLine(s).value.text + Concat(Lines(ReadLine(s).value.rest))
  {
    var line := ReadLine(s).value;
    assert Lines(s) == [line.text] + Lines(line.rest);
    assert ([line.text] + Lines(line.rest))[1..] == Lines(line.rest);
  }

  /** The concatenated lines are exactly the input with its terminators dropped. */
  lemma {:induction false} ConcatLinesDropsTerminators(s: seq<char>)
    ensures Concat(Lines(s)) == RemoveTerminators(s)
    decreases |s|
  {
    if s != [] {
      ConcatLinesStep(s);
      ConcatLinesDropsTerminators(ReadLine(s).value.rest);
      ReadLineStep(s);
    }
  }

  /** readFromStream: a null stream gives ""; otherwise every line, terminators dropped. */
  method ReadFromStream(inputStream: Option<seq<char>>) returns (output: string)
    ensures inputStream.None? ==> output == ""
    ensures inputStream.Some? ==> output == Concat(Lines(inputStream.value))
    ensures inputStream.Some? ==> output == RemoveTerminators(inputStream.value)
  {
    output := "";
    if inputStream.Some? {
      var rest := inputStream.value;
      var line := ReadLine(rest);
      while line.Some?
        invariant line == ReadLine(rest)
        invariant output + Concat(Lines(rest)) == Concat(Lines(inputStream.value))
        decreases |rest|
      {
        ConcatLinesStep(rest);
        assert output + Concat(Lines(rest)) == (output + line.value.text) + Concat(Lines(line.value.rest));
        output := output + line.value.text;
        rest := line.value.rest;
        line := ReadLine(rest);
      }
      assert rest == [] && Concat(Lines(rest)) == "";
      ConcatLinesDropsTerminators(inputStream.value);
    }
  }

  // ---------------------------------------------------------------------------
  // createUrl and makeHttpRequest over an abstract exchange
  // ---------------------------------------------------------------------------

  /**
   * What the network does for one request once the URL exists: an IOException before
   * the body is read (opening, connecting, asking for the status), or a status code
   * with the body text and whether reading that body throws an IOException.
   */
  datatype Exchange =
    | ConnectionFailed
    | Responded(code: int, body: seq<char>, bodyReadFails: bool)

  /** createUrl: the URL object, or null when java.net.URL rejects the text. */
  function CreateUrl(stringUrl: string, isValidUrl: string -> bool): (url: Option<string>)
    ensures url.Some? <==> isValidUrl(stringUrl)
    ensures url.Some? ==> url.value == stringUrl
  {
    if isValidUrl(stringUrl) then Some(stringUrl) else None
  }

  /** The string makeHttpRequest returns for a URL and the network's behaviour. */
  function HttpResponseText(url: Option<string>, exchange: Exchange): string
  {
    if url.None? then ""
    else
      match exchange
      case ConnectionFailed => ""
      case Responded(code, body, bodyReadFails) =>
        if code == 200 && !bodyReadFails then Concat(Lines(body)) else ""
  }

  /** True when makeHttpRequest reads a body: a URL, status 200 and a body that reads without error. */
  predicate Succeeds(url: Option<string>, exchange: Exchange)
  {
    url.Some? && exchange.Responded? && exchange.code == 200 && !exchange.bodyReadFails
  }

  /**
   * makeHttpRequest: "" for a null URL, a caught IOException or a status other than
   * 200; otherwise the whole body as readFromStream delivers it.
   */
  method MakeHttpRequest(url: Option<string>, exchange: Exchange) returns (jsonResponse: string)
    ensures jsonResponse == HttpResponseText(url, exchange)
    ensures url.None? ==> jsonResponse == ""
    ensures exchange.ConnectionFailed? ==> jsonResponse == ""
    ensures exchange.Responded? && exchange.code != 200 ==> jsonResponse == ""
    ensures exchange.Responded? && exchange.bodyReadFails ==> jsonResponse == ""
    ensures Succeeds(url, exchange) ==> jsonResponse == RemoveTerminators(exchange.body)
    ensures jsonResponse != "" ==> Succeeds(url, exchange)
  {
    jsonResponse := "";
    if url.None? {
      return;
    }
    match exchange {
      case ConnectionFailed =>
        // the IOException is caught and jsonResponse stays ""
      case Responded(code, body, bodyReadFails) =>
        if code == 200 {
          if !bodyReadFails {
            jsonResponse := ReadFromStream(Some(body));
          }
          // otherwise readFromStream throws, the IOException is caught, jsonResponse stays ""
        }
    }
  }

  // ---------------------------------------------------------------------------
  // extractEarthquakes
  // ---------------------------------------------------------------------------

  /**
   * The "properties" object of one element of "features": getJSONObject(i) followed by
   * getJSONObject("properties"); None where either throws JSONException.
   */
  function PropertiesOf(feature: Value): (properties: Option<map<string, Value>>)
    ensures properties.Some? <==>
      feature.Object? && "properties" in feature.members && feature.members["properties"].Object?
    ensures properties.Some? ==> properties.value == feature.members["properties"].members
  {
    if feature.Object? then GetObject(feature.members, "properties") else None
  }

  /** The record extractEarthquakes builds from one properties object with new Info(...). */
  function FeatureRecord(properties: map<string, Value>, formatDate: int -> string): (r: Info)
    ensures r.mag.NaN? <==> !("mag" in properties && properties["mag"].Number?)
    ensures "place" in properties && properties["place"].Str? ==> r.location == properties["place"].s
    ensures "url" in properties && properties["url"].Str? ==> r.url == properties["url"].s
  {
    var mag := OptDouble(properties, "mag");
    var location := OptString(properties, "place");
    var timeInMilliseconds := OptLong(properties, "time");
    var dateString := formatDate(timeInMilliseconds);
    var urlStr := OptString(properties, "url");
    Info(location, mag, dateString, urlStr)
  }

  /**
   * Each field of a record is the value found under its key when that value has the
   * right kind, and the fallback otherwise ("" for place and url, the formatted instant 0
   * for time, NaN for mag). No content of the properties object prevents the record.
   */
  lemma FeatureRecordFields(properties: map<string, Value>, formatDate: int -> string)
    ensures var r := FeatureRecord(properties, formatDate);
      && ("place" in properties && properties["place"].Str? ==> r.location == properties["place"].s)
      && (!("place" in properties && properties["place"].Str?) ==> r.location == "")
      && ("mag" in properties && properties["mag"].Number? ==> r.mag == Finite(properties["mag"].n))
      && (!("mag" in properties && properties["mag"].Number?) ==> r.mag == NaN)
      && ("time" in properties && properties["time"].Number? ==> r.time == formatDate(ToLong(properties["time"].n)))
      && (!("time" in properties && properties["time"].Number?) ==> r.time == formatDate(0))
      && ("url" in properties && properties["url"].Str? ==> r.url == properties["url"].s)
      && (!("url" in properties && properties["url"].Str?) ==> r.url == "")
  {
  }

  /**
   * The records the loop over "features" produces: one per element, in order, up to
   * the first element whose properties object cannot be had, where JSONException
   * leaves the loop.
   */
  function DecodeFeatures(features: seq<Value>, formatDate: int -> string): (r: seq<Info>)
    ensures |r| <= |features|
    ensures forall k :: 0 <= k < |r| ==>
      PropertiesOf(features[k]).Some? && r[k] == FeatureRecord(PropertiesOf(features[k]).value, formatDate)
    ensures |r| < |features| ==> PropertiesOf(features[|r|]).None?
  {
    if features == [] then []
    else
      match PropertiesOf(features[0])
      case None => []
      case Some(properties) =>
        var tail := DecodeFeatures(features[1..], formatDate);
        assert forall k :: 1 <= k < |features| ==> features[k] == features[1..][k - 1];
        [FeatureRecord(properties, formatDate)] + tail
  }

  /** One turn of the loop over "features", seen from the decode of the remaining elements. */
  lemma DecodeFrom(features: seq<Value>, i: nat, formatDate: int -> string)
    requires i < |features|
    ensures PropertiesOf(features[i]).None? ==> DecodeFeatures(features[i..], formatDate) == []
    ensures PropertiesOf(features[i]).Some? ==>
      DecodeFeatures(features[i..], formatDate)
      == [FeatureRecord(PropertiesOf(features[i]).value, formatDate)] + DecodeFeatures(features[i + 1..], formatDate)
  {
    assert features[i..][0] == features[i];
    assert features[i..][1..] == features[i + 1..];
  }

  /** The "features" array of a parsed root: None unless the root is an object holding such an array. */
  function FeaturesOf(root: Option<Value>): Option<seq<Value>>
  {
    if root.Some? && root.value.Object? then GetArray(root.value.members, "features") else None
  }

  /** What extractEarthquakes returns for a parsed root (None: the text did not parse). */
  function Extracted(root: Option<Value>, formatDate: int -> string): seq<Info>
  {
    match FeaturesOf(root)
    case None => []
    case Some(features) => DecodeFeatures(features, formatDate)
  }

  /**
   * The envelope the decoder needs: the text parsed, as an object, holding an array
   * under "features" (RFC 7946 section 3.3).
   */
  predicate HasFeatureArray(root: Option<Value>)
  {
    root.Some? && root.value.Object? && "features" in root.value.members
    && root.value.members["features"].Array?
  }

  /** The envelope rule: without the array nothing is decoded, with it the decode of its elements. */
  lemma ExtractedByEnvelope(root: Option<Value>, formatDate: int -> string)
    ensures !HasFeatureArray(root) ==> Extracted(root, formatDate) == []
    ensures HasFeatureArray(root) ==>
      Extracted(root, formatDate) == DecodeFeatures(root.value.members["features"].elements, formatDate)
  {
  }

  /**
   * The loop of extractEarthquakes over the "features" array: records are appended in
   * order until an element has no properties object, where the JSONException ends it.
   */
  method DecodeFeatureArray(features: seq<Value>, formatDate: int -> string) returns (earthquakes: seq<Info>)
    ensures earthquakes == DecodeFeatures(features, formatDate)
  {
    earthquakes := [];
    var i := 0;
    while i < |features|
      invariant 0 <= i <= |features|
      invariant earthquakes + DecodeFeatures(features[i..], formatDate) == DecodeFeatures(features, formatDate)
    {
      var propertyObject := PropertiesOf(features[i]);
      DecodeFrom(features, i, formatDate);
      if propertyObject.None? {
        // JSONException: caught after the loop, the list decoded so far is returned
        break;
      }
      earthquakes := earthquakes + [FeatureRecord(propertyObject.value, formatDate)];
      i := i + 1;
    }
    assert i == |features| ==> features[i..] == [];
  }

  /**
   * extractEarthquakes. A root that does not parse as an object, or has no "features"
   * array, gives the empty list; otherwise the list holds the records decoded before
   * the loop stopped.
   */
  method ExtractEarthquakes(earthquakeJson: string, parse: string -> Option<Value>, formatDate: int -> string)
    returns (earthquakes: seq<Info>)
    ensures earthquakes == Extracted(parse(earthquakeJson), formatDate)
  {
    earthquakes := [];
    var rootObject := parse(earthquakeJson);
    if rootObject.None? || !rootObject.value.Object? {
      return;
    }
    var jsonArray := GetArray(rootObject.value.members, "features");
    if jsonArray.None? {
      return;
    }
    earthquakes := DecodeFeatureArray(jsonArray.value, formatDate);
  }

  /** When every feature has a properties object, there is one record per feature, in order. */
  lemma DecodeKeepsEveryWellFormedFeature(features: seq<Value>, formatDate: int -> string)
    requires forall k :: 0 <= k < |features| ==> PropertiesOf(features[k]).Some?
    ensures |DecodeFeatures(features, formatDate)| == |features|
    ensures forall k :: 0 <= k < |features| ==>
      DecodeFeatures(features, formatDate)[k] == FeatureRecord(PropertiesOf(features[k]).value, formatDate)
  {
  }

  /**
   * When feature i is the first without a properties object, the result is exactly the
   * records of features 0 .. i-1.
   */
  lemma DecodeStopsAtFirstMalformed(features: seq<Value>, i: nat, formatDate: int -> string)
    requires i < |features|
    requires forall k :: 0 <= k < i ==> PropertiesOf(features[k]).Some?
    requires PropertiesOf(features[i]).None?
    ensures |DecodeFeatures(features, formatDate)| == i
    ensures DecodeFeatures(features, formatDate) == DecodeFeatures(features[..i], formatDate)
  {
    var r := DecodeFeatures(features, formatDate);
    var p := DecodeFeatures(features[..i], formatDate);
    assert |r| == i;
    DecodeKeepsEveryWellFormedFeature(features[..i], formatDate);
  }

  /** Decoding never reorders: the decode of a feed is a prefix of the decode of any longer feed. */
  lemma {:induction false} DecodeIsPrefixOfLongerFeed(features: seq<Value>, more: seq<Value>, formatDate: int -> string)
    ensures DecodeFeatures(features, formatDate) <= DecodeFeatures(features + more, formatDate)
  {
    if features != [] {
      assert (features + more)[0] == features[0];
      assert (features + more)[1..] == features[1..] + more;
      DecodeIsPrefixOfLongerFeed(features[1..], more, formatDate);
    }
  }

  /** A properties object with none of the four keys still gives a record, all fallbacks. */
  lemma EmptyPropertiesGiveFallbacks(formatDate: int -> string)
    ensures DecodeFeatures([Object(map["properties" := Object(map[])])], formatDate)
         == [Info("", NaN, formatDate(0), "")]
  {
  }

  /** An envelope whose "features" array is empty decodes to the empty list. */
  lemma EmptyFeatureArrayGivesNothing(formatDate: int -> string)
    ensures Extracted(Some(Object(map["features" := Array([])])), formatDate) == []
  {
  }

  /** The single-feature sample feed decodes to one record carrying its fields verbatim. */
  lemma SampleFeedDecodes(parse: string -> Option<Value>, text: string, formatDate: int -> string)
    requires parse(text) == Some(Object(map["features" := Array([
      Object(map["properties" := Object(map[
        "mag" := Number(6.6),
        "place" := Str("100km WSW of Valparaiso, Chile"),
        "time" := Number(1457112929000 as real),
        "url" := Str("http://x")])])])]))
    ensures Extracted(parse(text), formatDate)
         == [Info("100km WSW of Valparaiso, Chile", Finite(6.6), formatDate(1457112929000), "http://x")]
  {
  }

  // ---------------------------------------------------------------------------
  // fetchEarthquakeData
  // ---------------------------------------------------------------------------

  /**
   * fetchEarthquakeData: createUrl, then makeHttpRequest, then extractEarthquakes on the
   * response. Since org.json cannot parse "" as an object, a malformed URL, a failed
   * connection or a status other than 200 ends in the empty list.
   */
  method FetchEarthquakeData(requestUrl: string, isValidUrl: string -> bool, exchange: Exchange,
                             parse: string -> Option<Value>, formatDate: int -> string)
    returns (earthquake: seq<Info>)
    ensures earthquake == Extracted(parse(HttpResponseText(CreateUrl(requestUrl, isValidUrl), exchange)), formatDate)
    ensures parse("") == None && !Succeeds(CreateUrl(requestUrl, isValidUrl), exchange) ==> earthquake == []
    ensures parse("") == None && !isValidUrl(requestUrl) ==> earthquake == []
    ensures parse("") == None && exchange.Responded? && exchange.code != 200 ==> earthquake == []
  {
    var url := CreateUrl(requestUrl, isValidUrl);
    var jsonResponse := MakeHttpRequest(url, exchange);
    earthquake := ExtractEarthquakes(jsonResponse, parse, formatDate);
  }
}
