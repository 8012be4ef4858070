/**
 * The YouTube resolvers: `searchVideo` takes the first search result, and `getVideoInfo`
 * extracts a video id from the URL and asks the Data API for that video. The search
 * library and the HTTP endpoint are given as functions from the request to the response.
 */
module YouTube {
  import opened Common
  import opened Strings

  const YOUTUBE_API_URL := "https://www.googleapis.com/youtube/v3"

  /** `pieces[i]`, or `undefined` past the end. */
  function PieceAt(pieces: seq<string>, i: nat): Option<string> {
    if i < |pieces| then Some(pieces[i]) else None
  }

  /**
   * `videoUrl.split('v=')[1] || videoUrl.split('be/')[1]`: the text after the first `v=`
   * unless it is missing or empty (both falsy), else the text after the first `be/`,
   * which may be empty or missing.
   */
  function VideoId(videoUrl: string): Option<string> {
    var afterV := PieceAt(Split(videoUrl, "v="), 1);
    if afterV.Some? && afterV.value != [] then afterV
    else PieceAt(Split(videoUrl, "be/"), 1)
  }

  lemma BorderFreeMarkers()
    ensures BorderFree("v=") && BorderFree("be/")
  {
    assert "v="[..1] == "v" && "v="[1..] == "=";
    assert "be/"[..1] == "b" && "be/"[2..] == "/";
    assert "be/"[..2] == "be" && "be/"[1..] == "e/";
  }

  /** A `watch?v=` URL: the id is everything after the marker when no other `v=` follows (query parameters included). */
  lemma VideoIdToEnd(pre: string, id: string)
    requires !Includes(pre, "v=") && !Includes(id, "v=") && id != []
    ensures VideoId(pre + "v=" + id) == Some(id)
  {
    BorderFreeMarkers();
    SplitJoin([pre, id], "v=");
    assert Join([pre, id], "v=") == pre + "v=" + id;
  }

  /** The id stops at the next `v=`, whatever follows it. */
  lemma VideoIdToNextMarker(pre: string, id: string, rest: string)
    requires !Includes(pre, "v=") && !Includes(id, "v=") && id != []
    ensures VideoId(pre + "v=" + id + "v=" + rest) == Some(id)
  {
    BorderFreeMarkers();
    var tail := id + "v=" + rest;
    var s := pre + "v=" + tail;
    assert s == pre + "v=" + id + "v=" + rest;
    FirstSeparatorOfJoin([pre, tail], "v=");
    assert Join([pre, tail], "v=") == s;
    assert Split(s, "v=") == [pre] + Split(tail, "v=") by {
      assert s[..|pre|] == pre && s[|pre| + 2..] == tail;
    }
    FirstSeparatorOfJoin([id, rest], "v=");
    assert Join([id, rest], "v=") == tail;
    assert Split(tail, "v=")[0] == id by {
      assert tail[..|id|] == id;
    }
  }

  /** A `youtu.be/` URL without any `v=`: the id is what follows `be/`, up to the end. */
  lemma VideoIdOfShortUrl(pre: string, id: string)
    requires !Includes(pre + "be/" + id, "v=")
    requires !Includes(pre, "be/") && !Includes(id, "be/")
    ensures VideoId(pre + "be/" + id) == Some(id)
  {
    BorderFreeMarkers();
    SplitJoin([pre, id], "be/");
    assert Join([pre, id], "be/") == pre + "be/" + id;
  }

  /** With neither marker in the URL the id is `undefined`. */
  lemma VideoIdWithoutMarkers(videoUrl: string)
    requires !Includes(videoUrl, "v=") && !Includes(videoUrl, "be/")
    ensures VideoId(videoUrl) == None
  {
  }

  /** An empty text after a `v=` at the very end is falsy, so the `be/` piece is taken instead. */
  lemma EmptyAfterVFallsBack(pre: string)
    requires !Includes(pre, "v=")
    ensures VideoId(pre + "v=") == PieceAt(Split(pre + "v=", "be/"), 1)
  {
    BorderFreeMarkers();
    SplitJoin([pre, []], "v=");
    assert Join([pre, []], "v=") == pre + "v=";
  }

  /** The Data API request: `videos?part=snippet%2CcontentDetails&id=<videoId>&key=<key>`. */
  function VideosRequestUrl(videoId: Option<string>, apiKey: Option<string>): string {
    YOUTUBE_API_URL + "/videos?part=snippet%2CcontentDetails&id=" + Stringify(videoId) + "&key=" + Stringify(apiKey)
  }

  /** One entry of the API's `items`: its `id`, `snippet.title`, `contentDetails.duration` and `snippet.thumbnails.default.url`. */
  datatype VideoItem = VideoItem(id: string, title: string, duration: string, thumbnailUrl: string)

  /**
   * What the awaited `fetch` and `response.json()` produce. `VideosFailed` stands for any
   * rejection or thrown error on the way (network, JSON, a missing field).
   */
  datatype VideosResponse = VideosFailed | VideosReply(ok: bool, items: seq<VideoItem>)

  /**
   * `getVideoInfo(videoUrl)`: null (`NotFound`) on a failure, a non-ok status or an empty
   * `items`; otherwise the first item, whose `url` is the API's video id rather than the
   * URL that was passed in. It never rejects.
   */
  function GetVideoInfo(videoUrl: string, apiKey: Option<string>, videosApi: string -> VideosResponse): (r: Lookup)
    ensures r != Threw
    ensures var response := videosApi(VideosRequestUrl(VideoId(videoUrl), apiKey));
            r.Found? <==> response.VideosReply? && response.ok && |response.items| > 0
    ensures var response := videosApi(VideosRequestUrl(VideoId(videoUrl), apiKey));
            r.Found? ==>
              var video := response.items[0];
              r.song == Song(video.title, video.id, Text(video.duration), video.thumbnailUrl)
  {
    match videosApi(VideosRequestUrl(VideoId(videoUrl), apiKey))
    case VideosFailed => NotFound
    case VideosReply(ok, items) =>
      if !ok then NotFound
      else if |items| > 0 then
        var video := items[0];
        Found(Song(video.title, video.id, Text(video.duration), video.thumbnailUrl))
      else NotFound
  }

  /** The queued `url` is the bare id the API returns, not a playable URL: for `https://youtu.be/abc` it is `abc`. */
  lemma GetVideoInfoStoresTheId(apiKey: Option<string>)
    ensures var url := "https://youtu.be/abc";
            var api := (request: string) => VideosReply(true, [VideoItem("abc", "A song", "PT3M", "https://i.ytimg.com/abc.jpg")]);
            GetVideoInfo(url, apiKey, api) == Found(Song("A song", "abc", Text("PT3M"), "https://i.ytimg.com/abc.jpg"))
            && GetVideoInfo(url, apiKey, api).song.url != url
  {
  }

  /** A URL with neither marker asks the API for the literal id `undefined`. */
  lemma MarkerlessUrlAsksForUndefined(videoUrl: string, apiKey: Option<string>)
    requires !Includes(videoUrl, "v=") && !Includes(videoUrl, "be/")
    ensures VideosRequestUrl(VideoId(videoUrl), apiKey)
            == YOUTUBE_API_URL + "/videos?part=snippet%2CcontentDetails&id=undefined&key=" + Stringify(apiKey)
  {
    VideoIdWithoutMarkers(videoUrl);
  }

  /** One search result as the search library reports it. */
  datatype SearchItem = SearchItem(title: string, url: string, duration: string, thumbnail: string)

  /** The awaited search: a rejection, or the result items. */
  datatype SearchResponse = SearchFailed | SearchResults(items: seq<SearchItem>)

  /** The `limit` option passed to the search. */
  const SEARCH_LIMIT: nat := 1

  /**
   * `searchVideo(query)`: search with limit 1 and take the first item's four fields;
   * null (`NotFound`) when there is no item or the search rejects. It never rejects.
   */
  function SearchVideo(query: string, search: (string, nat) -> SearchResponse): (r: Lookup)
    ensures r != Threw
    ensures r.Found? <==> search(query, SEARCH_LIMIT).SearchResults? && |search(query, SEARCH_LIMIT).items| > 0
    ensures r.Found? ==>
              var first := search(query, SEARCH_LIMIT).items[0];
              r.song == Song(first.title, first.url, Text(first.duration), first.thumbnail)
  {
    match search(query, SEARCH_LIMIT)
    case SearchFailed => NotFound
    case SearchResults(items) =>
      if |items| > 0 then
        var video := items[0];
        Found(Song(video.title, video.url, Text(video.duration), video.thumbnail))
      else NotFound
  }
}
