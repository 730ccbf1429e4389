/** The Info record (Info.java): one decoded earthquake, immutable once built. */
module InfoRecord {
  import opened Numbers

  /**
   * location is the feed's "place" text, mag its magnitude, time a display string
   * already formatted from the epoch milliseconds, url the event's detail page.
   */
  datatype Info = Info(location: string, mag: Double, time: string, url: string)

  /** The getters return exactly what the constructor was given. */
  lemma GettersReturnConstructorArguments(loc: string, magnitude: Double, t: string, urlString: string)
    ensures Info(loc, magnitude, t, urlString).location == loc
    ensures Info(loc, magnitude, t, urlString).mag == magnitude
    ensures Info(loc, magnitude, t, urlString).time == t
    ensures Info(loc, magnitude, t, urlString).url == urlString
  {
  }
}
