/** One track (`Music`): a plain record with a dictionary view and a printable form. */
module MusicModel {
  import opened Wrappers
  import opened Text
  import opened Values

  /** The constructor's parameter order is id, title, thumb, url, author. */
  datatype Music = Music(id: int, title: string, thumb: string, url: string, author: string)
  {
    /** `__str__`: a brace-wrapped block listing url, thumb, title and author (not the id). */
    function ToString(): (s: string)
      ensures "{\n" <= s && EndsWith(s, "\n},")
      ensures Contains(s, url) && Contains(s, thumb) && Contains(s, title) && Contains(s, author)
    {
      var pieces := ["{\n", "    url: ", url, ",\n    thumb: ", thumb, "\n    title: ", title, "\n author: ", author, "\n},"];
      ConcatEnds(pieces);
      ConcatContains(pieces, 2);
      ConcatContains(pieces, 4);
      ConcatContains(pieces, 6);
      ConcatContains(pieces, 8);
      Concat(pieces)
    }

    /** `to_dict`: exactly the five fields under their own names, and nothing lost. */
    function ToDict(): (d: map<string, Value>)
      ensures d.Keys == {"id", "title", "thumb", "url", "author"}
      ensures MusicFromDict(d) == Some(this)
    {
      map["id" := Int(id), "title" := Str(title), "thumb" := Str(thumb), "url" := Str(url), "author" := Str(author)]
    }
  }

  /** Reads a track back from its dictionary view; `None` when a field is missing or of the wrong kind. */
  function MusicFromDict(d: map<string, Value>): Option<Music>
  {
    if "id" in d && d["id"].Int? && "title" in d && d["title"].Str? && "thumb" in d && d["thumb"].Str?
       && "url" in d && d["url"].Str? && "author" in d && d["author"].Str?
    then Some(Music(d["id"].i, d["title"].s, d["thumb"].s, d["url"].s, d["author"].s))
    else None
  }

  /** The dictionary view gives each field back unchanged under its own key. */
  lemma ToDictFields(m: Music)
    ensures m.ToDict()["id"] == Int(m.id) && m.ToDict()["title"] == Str(m.title)
    ensures m.ToDict()["thumb"] == Str(m.thumb) && m.ToDict()["url"] == Str(m.url)
    ensures m.ToDict()["author"] == Str(m.author)
  {
  }

  /** The printed form does not depend on the id. */
  lemma ToStringOmitsId(m: Music, otherId: int)
    ensures m.(id := otherId).ToString() == m.ToString()
  {
  }
}
