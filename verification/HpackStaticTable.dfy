/** The 61 predefined header fields. */
module HpackStaticTable {
  import opened Headers
  import opened HpackTable

  function Field(name: string, value: string): ShortHeader
    requires |name| <= 64 && |value| <= 64
  {
    Header(Ascii(name), Ascii(value))
  }

  function StaticTable(): (r: seq<ShortHeader>)
    ensures |r| == 61
  {
    Fields1() + Fields15() + Fields27() + Fields36() + Fields45() + Fields54()
  }

  /** Indices 1 to 14. */
  function Fields1(): (r: seq<ShortHeader>)
    ensures |r| == 14
  {
    [
      Field(":authority", ""),
      Field(":method", "GET"),
      Field(":method", "POST"),
      Field(":path", "/"),
      Field(":path", "/index.html"),
      Field(":scheme", "http"),
      Field(":scheme", "https"),
      Field(":status", "200"),
      Field(":status", "204"),
      Field(":status", "206"),
      Field(":status", "304"),
      Field(":status", "400"),
      Field(":status", "404"),
      Field(":status", "500")
    ]
  }

  /** Indices 15 to 26. */
  function Fields15(): (r: seq<ShortHeader>)
    ensures |r| == 12
  {
    [
      Field("accept-charset", ""),
      Field("accept-encoding", "gzip, deflate"),
      Field("accept-language", ""),
      Field("accept-ranges", ""),
      Field("accept", ""),
      Field("access-control-allow-origin", ""),
      Field("age", ""),
      Field("allow", ""),
      Field("authorization", ""),
      Field("cache-control", ""),
      Field("content-disposition", ""),
      Field("content-encoding", "")
    ]
  }

  /** Indices 27 to 35. */
  function Fields27(): (r: seq<ShortHeader>)
    ensures |r| == 9
  {
    [
      Field("content-language", ""),
      Field("content-length", ""),
      Field("content-location", ""),
      Field("content-range", ""),
      Field("content-type", ""),
      Field("cookie", ""),
      Field("date", ""),
      Field("etag", ""),
      Field("expect", "")
    ]
  }

  /** Indices 36 to 44. */
  function Fields36(): (r: seq<ShortHeader>)
    ensures |r| == 9
  {
    [
      Field("expires", ""),
      Field("from", ""),
      Field("host", ""),
      Field("if-match", ""),
      Field("if-modified-since", ""),
      Field("if-none-match", ""),
      Field("if-range", ""),
      Field("if-unmodified-since", ""),
      Field("last-modified", "")
    ]
  }

  /** Indices 45 to 53. */
  function Fields45(): (r: seq<ShortHeader>)
    ensures |r| == 9
  {
    [
      Field("link", ""),
      Field("location", ""),
      Field("max-forwards", ""),
      Field("proxy-authenticate", ""),
      Field("proxy-authorization", ""),
      Field("range", ""),
      Field("referer", ""),
      Field("refresh", ""),
      Field("retry-after", "")
    ]
  }

  /** Indices 54 to 61. */
  function Fields54(): (r: seq<ShortHeader>)
    ensures |r| == 8
  {
    [
      Field("server", ""),
      Field("set-cookie", ""),
      Field("strict-transport-security", ""),
      Field("transfer-encoding", ""),
      Field("user-agent", ""),
      Field("vary", ""),
      Field("via", ""),
      Field("www-authenticate", "")
    ]
  }
}
