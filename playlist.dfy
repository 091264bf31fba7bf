/** A playlist: its store id, its upstream link and its tracks, with a dictionary
    view (tracks rendered through their own dictionary view) and a printable form. */
module PlaylistModel {
  import opened Wrappers
  import opened Text
  import opened Values
  import opened MusicModel

  /** The constructor stores id, link and the track list as given. */
  datatype Playlist = Playlist(id: int, link: string, musics: seq<Music>)
  {
    /** `to_dict`: keys id, link and musics; the tracks keep their number and order,
        each replaced by its own dictionary view. */
    function ToDict(): (d: map<string, Value>)
      ensures d.Keys == {"id", "link", "musics"}
      ensures d["id"] == Int(id) && d["link"] == Str(link)
      ensures d["musics"].List? && |d["musics"].items| == |musics|
      ensures forall i :: 0 <= i < |musics| ==> d["musics"].items[i] == Object(musics[i].ToDict())
    {
      map["id" := Int(id), "link" := Str(link), "musics" := List(MusicValues(musics))]
    }

    /** `__str__`: `Playlist(id=…, link=…, musics=[…])`. Python prints each track
        with its default object representation, which depends on object identity,
        so the representation of a track is a parameter. */
    function ToString(reprOf: Music -> string): (s: string)
      ensures "Playlist(id=" <= s && EndsWith(s, ")")
      ensures Contains(s, IntToDecimal(id)) && Contains(s, link) && Contains(s, ListRepr(musics, reprOf))
    {
      var pieces := ["Playlist(id=", IntToDecimal(id), ", link=", link, ", musics=", ListRepr(musics, reprOf), ")"];
      ConcatEnds(pieces);
      ConcatContains(pieces, 1);
      ConcatContains(pieces, 3);
      ConcatContains(pieces, 5);
      Concat(pieces)
    }
  }

  /** The list comprehension `[music.to_dict() for music in musics]`. */
  function MusicValues(musics: seq<Music>): (vs: seq<Value>)
    ensures |vs| == |musics|
    ensures forall i :: 0 <= i < |musics| ==> vs[i] == Object(musics[i].ToDict())
  {
    if musics == [] then [] else [Object(musics[0].ToDict())] + MusicValues(musics[1..])
  }

  /** Python's rendering of a list: `[` then the elements' representations in list
      order, separated by `, `, then `]`. */
  function ListRepr(musics: seq<Music>, reprOf: Music -> string): (s: string)
    ensures "[" <= s && EndsWith(s, "]")
    ensures musics == [] ==> s == "[]"
    ensures |musics| == 1 ==> s == "[" + reprOf(musics[0]) + "]"
    ensures forall i :: 0 <= i < |musics| ==> Contains(s, reprOf(musics[i]))
  {
    var body := JoinReprs(musics, reprOf);
    JoinReprsContains(musics, reprOf);
    BracketsKeepContents(body);
    assert ("[" + body + "]")[|"[" + body + "]"| - 1..] == "]";
    "[" + body + "]"
  }

  /** The representations of the tracks, separated by `, `. */
  function JoinReprs(musics: seq<Music>, reprOf: Music -> string): string
  {
    if musics == [] then ""
    else if |musics| == 1 then reprOf(musics[0])
    else reprOf(musics[0]) + ", " + JoinReprs(musics[1..], reprOf)
  }

  lemma {:induction false} JoinReprsContains(musics: seq<Music>, reprOf: Music -> string)
    ensures forall i :: 0 <= i < |musics| ==> Contains(JoinReprs(musics, reprOf), reprOf(musics[i]))
  {
    if |musics| == 1 {
      ContainsPrefix(reprOf(musics[0]), "");
      assert reprOf(musics[0]) + "" == JoinReprs(musics, reprOf);
    } else if |musics| > 1 {
      var head, rest := reprOf(musics[0]), JoinReprs(musics[1..], reprOf);
      JoinReprsContains(musics[1..], reprOf);
      ContainsPrefix(head, ", " + rest);
      assert head + (", " + rest) == JoinReprs(musics, reprOf);
      forall i | 1 <= i < |musics|
        ensures Contains(JoinReprs(musics, reprOf), reprOf(musics[i]))
      {
        assert musics[i] == musics[1..][i - 1];
        ContainsShift(head + ", ", rest, reprOf(musics[i]));
      }
    }
  }

  lemma BracketsKeepContents(body: string)
    ensures forall sub :: Contains(body, sub) ==> Contains("[" + body + "]", sub)
  {
    forall sub | Contains(body, sub)
      ensures Contains("[" + body + "]", sub)
    {
      ContainsWithin("[", body, "]", sub);
    }
  }

  /** Appending a track to a non-empty list turns the closing `]` of its rendering
      into `, ` and the new track's representation, then `]`. */
  lemma {:induction false} ListReprSnoc(musics: seq<Music>, m: Music, reprOf: Music -> string)
    requires musics != []
    ensures var before := ListRepr(musics, reprOf);
      ListRepr(musics + [m], reprOf) == before[..|before| - 1] + ", " + reprOf(m) + "]"
  {
    JoinReprsSnoc(musics, m, reprOf);
    var body := JoinReprs(musics, reprOf);
    assert ("[" + body + "]")[..|"[" + body + "]"| - 1] == "[" + body;
  }

  lemma {:induction false} JoinReprsSnoc(musics: seq<Music>, m: Music, reprOf: Music -> string)
    requires musics != []
    ensures JoinReprs(musics + [m], reprOf) == JoinReprs(musics, reprOf) + ", " + reprOf(m)
  {
    var all := musics + [m];
    if |musics| == 1 {
      assert all[1..] == [m];
    } else {
      assert all[1..] == musics[1..] + [m];
      JoinReprsSnoc(musics[1..], m, reprOf);
    }
  }

  /** Reads tracks back from a list of dictionary views. */
  function MusicsFromValues(vs: seq<Value>): Option<seq<Music>>
  {
    if vs == [] then Some([])
    else if !vs[0].Object? then None
    else match (MusicFromDict(vs[0].fields), MusicsFromValues(vs[1..]))
      case (Some(m), Some(ms)) => Some([m] + ms)
      case _ => None
  }

  /** Reads a playlist back from its dictionary view; `None` when it is malformed. */
  function PlaylistFromDict(d: map<string, Value>): Option<Playlist>
  {
    if "id" in d && d["id"].Int? && "link" in d && d["link"].Str? && "musics" in d && d["musics"].List?
    then match MusicsFromValues(d["musics"].items)
      case Some(ms) => Some(Playlist(d["id"].i, d["link"].s, ms))
      case None => None
    else None
  }

  lemma {:induction false} MusicsRoundTrip(musics: seq<Music>)
    ensures MusicsFromValues(MusicValues(musics)) == Some(musics)
  {
    if musics != [] {
      MusicsRoundTrip(musics[1..]);
      assert [musics[0]] + musics[1..] == musics;
    }
  }

  /** Nothing is lost by the dictionary view: the playlist can be read back from it. */
  lemma ToDictRoundTrip(p: Playlist)
    ensures PlaylistFromDict(p.ToDict()) == Some(p)
  {
    MusicsRoundTrip(p.musics);
  }
}
