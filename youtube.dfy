/** The video-platform client: the `Result` records it hands out, the content of the
    last downloaded track, and the shaping of upstream search and playlist listings
    into results. The upstream library itself is not modelled: what it returns is a
    parameter, `None` standing for a listing whose retrieval raised. */
module YouTubeModel {
  import opened Wrappers
  import opened Text
  import opened Sequences

  /** One search hit or playlist entry handed to the caller; never stored. */
  datatype Result = Result(title: string, thumb: string, url: string, author: string)
  {
    /** `__str__`: url, thumb and title in a brace-wrapped block; the author is not printed. */
    function ToString(): (s: string)
      ensures "{\n" <= s && EndsWith(s, "\n},")
      ensures Contains(s, url) && Contains(s, thumb) && Contains(s, title)
    {
      var pieces := ["{\n", "    url: ", url, ",\n    thumb: ", thumb, "\n    title: ", title, "\n},"];
      ConcatEnds(pieces);
      ConcatContains(pieces, 2);
      ConcatContains(pieces, 4);
      ConcatContains(pieces, 6);
      Concat(pieces)
    }
  }

  /** The printed form of a result does not depend on its author. */
  lemma ToStringOmitsAuthor(r: Result, otherAuthor: string)
    ensures r.(author := otherAuthor).ToString() == r.ToString()
  {
  }

  /** An upstream video, with the four attributes the client reads. */
  datatype Video = Video(title: string, thumbnailUrl: string, watchUrl: string, author: string)

  /** The `Result(title, thumbnail_url, watch_url, author)` built for a video. */
  function ResultOf(v: Video): Result
  {
    Result(v.title, v.thumbnailUrl, v.watchUrl, v.author)
  }

  /** A playlist entry is kept when none of its four attributes is empty. */
  predicate IsComplete(v: Video)
  {
    v.author != "" && v.title != "" && v.watchUrl != "" && v.thumbnailUrl != ""
  }

  function PickComplete(v: Video): Option<Result>
  {
    if IsComplete(v) then Some(ResultOf(v)) else None
  }

  /** The results a playlist listing is shaped into. */
  function CompleteResults(videos: seq<Video>): seq<Result>
  {
    Collect(videos, PickComplete)
  }

  /** The playlist shaping keeps a video exactly when it is complete, builds each
      result field by field from its video, keeps upstream order and never grows. */
  lemma CompleteResultsSpec(videos: seq<Video>)
    ensures |CompleteResults(videos)| <= |videos|
    ensures |PickedIndices(videos, PickComplete)| == |CompleteResults(videos)|
    ensures forall k :: 0 <= k < |CompleteResults(videos)| ==>
      PickedIndices(videos, PickComplete)[k] < |videos|
      && IsComplete(videos[PickedIndices(videos, PickComplete)[k]])
      && CompleteResults(videos)[k] == ResultOf(videos[PickedIndices(videos, PickComplete)[k]])
    ensures forall k, l :: 0 <= k < l < |CompleteResults(videos)| ==>
      PickedIndices(videos, PickComplete)[k] < PickedIndices(videos, PickComplete)[l]
    ensures forall i :: 0 <= i < |videos| ==>
      (IsComplete(videos[i]) <==> i in PickedIndices(videos, PickComplete))
  {
    CollectSpec(videos, PickComplete);
    var idx := PickedIndices(videos, PickComplete);
    forall i | 0 <= i < |videos| && i in idx
      ensures IsComplete(videos[i])
    {
      var k :| 0 <= k < |idx| && idx[k] == i;
    }
  }

  /** The client object. Python creates the four content attributes on the first
      `setContent`; here they start out empty. */
  class YouTube {
    var title: string
    var thumb: string
    var url: string
    var author: string

    constructor()
      ensures title == "" && thumb == "" && url == "" && author == ""
    {
      title, thumb, url, author := "", "", "", "";
    }

    /** `setContent`: the instance now describes the given result. */
    method SetContent(music: Result)
      modifies this
      ensures title == music.title && thumb == music.thumb && url == music.url && author == music.author
    {
      title := music.title;
      thumb := music.thumb;
      url := music.url;
      author := music.author;
    }

    /** `search`: one result per upstream hit, in upstream order, nothing filtered;
        `None` when the upstream search raised. */
    method Search(upstream: Option<seq<Video>>) returns (results: Option<seq<Result>>)
      ensures results.Some? <==> upstream.Some?
      ensures upstream.Some? ==> |results.value| == |upstream.value|
      ensures upstream.Some? ==> forall i :: 0 <= i < |upstream.value| ==>
        results.value[i] == ResultOf(upstream.value[i])
    {
      if upstream.None? {
        return None;
      }
      var videos := upstream.value;
      var out: seq<Result> := [];
      for i := 0 to |videos|
        invariant |out| == i
        invariant forall k :: 0 <= k < i ==> out[k] == ResultOf(videos[k])
      {
        var v := videos[i];
        out := out + [ResultOf(v)];
      }
      results := Some(out);
    }

    /** `playlist`: the complete entries of the upstream listing, as results, in
        upstream order; `None` when iterating the listing raised. */
    method Playlist(upstream: Option<seq<Video>>) returns (results: Option<seq<Result>>)
      ensures results.Some? <==> upstream.Some?
      ensures upstream.Some? ==> results.value == CompleteResults(upstream.value)
    {
      if upstream.None? {
        return None;
      }
      var videos := upstream.value;
      var out: seq<Result> := [];
      for i := 0 to |videos|
        invariant out == CompleteResults(videos[..i])
      {
        var v := videos[i];
        assert videos[..i + 1] == videos[..i] + [v];
        CollectSnoc(videos[..i], v, PickComplete);
        if IsComplete(v) {
          out := out + [ResultOf(v)];
        }
      }
      assert videos[..|videos|] == videos;
      results := Some(out);
    }
  }
}
