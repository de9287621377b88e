/**
 * The "data" URL scheme of section 3 of RFC 2397, in the base64 form that the
 * chat client builds for each attachment: "data:" mediatype ";base64," data.
 */
module DataUrl {
  import opened Wrappers
  import Base64

  const Scheme := "data:"
  const Base64Marker := ";base64"

  /** The URL that carries `content` with media type `mediaType`. */
  function Make(mediaType: string, content: seq<Base64.byte>): string {
    Scheme + mediaType + Base64Marker + "," + Base64.Encode(content)
  }

  /** The position of the last occurrence of `c` in `s`, if any. */
  function LastIndexOf(s: string, c: char): (r: Option<nat>)
    ensures r.Some? ==> r.value < |s| && s[r.value] == c
    ensures r.Some? ==> forall j :: r.value < j < |s| ==> s[j] != c
    ensures r.None? ==> forall j :: 0 <= j < |s| ==> s[j] != c
    decreases |s|
  {
    if |s| == 0 then None
    else if s[|s| - 1] == c then Some(|s| - 1)
    else LastIndexOf(s[..|s| - 1], c)
  }

  /**
   * Splits a base64 data URL into its media type and decoded content. The
   * data part is what follows the last comma: the base64 alphabet has none,
   * so a media type that contains one does not confuse the split.
   */
  function Parse(url: string): Option<(string, seq<Base64.byte>)> {
    if |url| < |Scheme| || url[..|Scheme|] != Scheme then None
    else match LastIndexOf(url, ',')
      case None => None
      case Some(k) =>
        if k < |Scheme| + |Base64Marker| || url[k - |Base64Marker|..k] != Base64Marker then None
        else match Base64.Decode(url[k + 1..])
          case None => None
          case Some(content) => Some((url[|Scheme|..k - |Base64Marker|], content))
  }

  /** Parsing a URL made from a media type and content gives back both. */
  lemma ParseMake(mediaType: string, content: seq<Base64.byte>)
    ensures Parse(Make(mediaType, content)) == Some((mediaType, content))
  {
    var encoded := Base64.Encode(content);
    var url := Make(mediaType, content);
    var k := |Scheme| + |mediaType| + |Base64Marker|;
    assert url[k] == ',';
    forall j | k < j < |url| ensures url[j] != ',' {
      assert url[j] == encoded[j - k - 1];
      assert Base64.IsEncodingChar(encoded[j - k - 1]);
    }
    assert LastIndexOf(url, ',') == Some(k);
    assert url[..|Scheme|] == Scheme;
    assert url[k - |Base64Marker|..k] == Base64Marker;
    assert url[k + 1..] == encoded;
    assert url[|Scheme|..k - |Base64Marker|] == mediaType;
    Base64.DecodeEncode(content);
  }
}
