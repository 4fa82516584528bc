/**
 * Data URLs as in RFC 2397, restricted to the base64 form the profile-image
 * route writes: `data:<mediatype>;base64,<payload>`. The parser is the
 * partner of the builder: it reads back the media type and the bytes.
 */
module DataUrl {
  import opened Values
  import opened Text
  import opened Base64

  const Scheme: string := "data:"
  const Base64Marker: string := ";base64"

  /** `data:${type};base64,${buffer.toString('base64')}`. */
  function Build(mediaType: string, bytes: seq<byte>): (url: string)
    ensures StartsWith(url, Scheme)
    ensures StartsWith(mediaType, "image/") ==> StartsWith(url, "data:image/")
    ensures |url| == |Scheme| + |mediaType| + |Base64Marker| + 1 + 4 * ((|bytes| + 2) / 3)
  {
    var url := Scheme + mediaType + Base64Marker + "," + Encode(bytes);
    assert url[..|Scheme|] == Scheme;
    assert StartsWith(mediaType, "image/") ==> url[..11] == Scheme + mediaType[..6];
    url
  }

  /** Reads a base64 data URL back: the payload is what follows the last
      comma, and the header must be the scheme, a media type and the
      base64 marker. */
  function Parse(url: string): (r: Option<(string, seq<byte>)>)
    ensures r.Some? ==> StartsWith(url, Scheme)
  {
    match LastIndexOf(url, ',')
    case None => None
    case Some(k) =>
      var header := url[..k];
      if |header| < |Scheme| + |Base64Marker| then None
      else if header[..|Scheme|] != Scheme then None
      else if header[|header| - |Base64Marker|..] != Base64Marker then None
      else
        match Decode(url[k + 1..])
        case None => None
        case Some(bytes) =>
          assert url[..|Scheme|] == header[..|Scheme|];
          Some((header[|Scheme|..|header| - |Base64Marker|], bytes))
  }

  /** Parsing a built data URL recovers the media type and the bytes, whatever
      the media type contains: the base64 payload has no comma in it. */
  lemma ParseBuild(mediaType: string, bytes: seq<byte>)
    ensures Parse(Build(mediaType, bytes)) == Some((mediaType, bytes))
  {
    var payload := Encode(bytes);
    var header := Scheme + mediaType + Base64Marker;
    var url := Build(mediaType, bytes);
    assert url == header + [','] + payload;
    PayloadHasNoComma(bytes);
    LastIndexAfter(header, ',', payload);
    var k := |header|;
    assert url[k + 1..] == payload;
    assert url[..k] == header;
    HeaderParts(mediaType);
    DecodeEncode(bytes);
  }

  /** The base64 alphabet and padding hold no comma. */
  lemma PayloadHasNoComma(bytes: seq<byte>)
    ensures ',' !in Encode(bytes)
  {
    var payload := Encode(bytes);
    forall j | 0 <= j < |payload| ensures payload[j] != ',' {
      assert IsEncodedChar(payload[j]);
    }
  }

  /** The last `c` of `pre + [c] + post` is the one after `pre` when `post`
      has none. */
  lemma LastIndexAfter(pre: string, c: char, post: string)
    requires c !in post
    ensures LastIndexOf(pre + [c] + post, c) == Some(|pre|)
  {
    var s := pre + [c] + post;
    assert s[|pre|] == c;
    assert s[|pre| + 1..] == post;
  }

  /** The header of a built URL splits back into scheme, media type and marker. */
  lemma HeaderParts(mediaType: string)
    ensures var header := Scheme + mediaType + Base64Marker;
            && |header| >= |Scheme| + |Base64Marker|
            && header[..|Scheme|] == Scheme
            && header[|header| - |Base64Marker|..] == Base64Marker
            && header[|Scheme|..|header| - |Base64Marker|] == mediaType
  {
    var header := Scheme + mediaType + Base64Marker;
    assert header[..|Scheme|] == Scheme;
    assert header[|header| - |Base64Marker|..] == Base64Marker;
    assert header[|Scheme|..|header| - |Base64Marker|] == mediaType;
  }
}
