/** The playlist store: three tables and the operations the service runs on them.

    `playlist(id SERIAL PRIMARY KEY, link TEXT NOT NULL)`
    `music(id SERIAL PRIMARY KEY, title TEXT, thumb TEXT, author TEXT, url TEXT)`
    `playlist_music_relation(playlist_id REFERENCES playlist, music_id REFERENCES music,
                             PRIMARY KEY (playlist_id, music_id))`

    Each table is a sequence of rows in insertion order; each SERIAL column is a
    counter holding the value its sequence hands out next. */
module DatabaseModel {
  import opened Wrappers
  import opened Sequences
  import opened MusicModel
  import opened PlaylistModel

  datatype PlaylistRow = PlaylistRow(id: int, link: string)

  /** A `music` row, columns in table order: id, title, thumb, author, url. */
  datatype MusicRow = MusicRow(id: int, title: string, thumb: string, author: string, url: string)

  datatype RelationRow = RelationRow(playlistId: int, musicId: int)

  /** One row of the `find_first` query: columns 0 and 1 come from the playlist,
      columns 2 to 6 are the music columns (id, title, thumb, author, url), all NULL
      (`None`) when the LEFT JOINs matched no relation or no music row. */
  datatype JoinRow = JoinRow(playlistId: int, playlistLink: string, music: Option<MusicRow>)

  // ---------------------------------------------------------------------------
  // Table contents and integrity

  predicate HasPlaylistId(playlists: seq<PlaylistRow>, id: int)
  {
    exists i | 0 <= i < |playlists| :: playlists[i].id == id
  }

  predicate HasMusicId(musics: seq<MusicRow>, id: int)
  {
    exists i | 0 <= i < |musics| :: musics[i].id == id
  }

  /** No two music rows share an id, and every id is positive (as SERIAL values are). */
  ghost predicate UniqueMusicIds(musics: seq<MusicRow>)
  {
    && (forall a :: 0 <= a < |musics| ==> musics[a].id >= 1)
    && (forall a, b :: 0 <= a < b < |musics| ==> musics[a].id != musics[b].id)
  }

  /** Every relation's music row exists (the foreign key to `music`). */
  ghost predicate MusicsExist(musics: seq<MusicRow>, rels: seq<RelationRow>)
  {
    forall k :: 0 <= k < |rels| ==> HasMusicId(musics, rels[k].musicId)
  }

  /** What the schema and the SERIAL counters guarantee: ids are positive, unique and
      below their counter; relations reference existing rows (the foreign keys) and
      no relation pair occurs twice (the composite primary key). */
  ghost predicate WellFormed(playlists: seq<PlaylistRow>, musics: seq<MusicRow>, relations: seq<RelationRow>,
                             nextPlaylistId: int, nextMusicId: int)
    ensures WellFormed(playlists, musics, relations, nextPlaylistId, nextMusicId) ==>
      forall i :: 0 <= i < |relations| ==>
        1 <= relations[i].playlistId < nextPlaylistId && 1 <= relations[i].musicId < nextMusicId
  {
    && 1 <= nextPlaylistId && 1 <= nextMusicId
    && (forall i :: 0 <= i < |playlists| ==> 1 <= playlists[i].id < nextPlaylistId)
    && (forall i, j :: 0 <= i < j < |playlists| ==> playlists[i].id != playlists[j].id)
    && (forall i :: 0 <= i < |musics| ==> musics[i].id < nextMusicId)
    && UniqueMusicIds(musics)
    && (forall i :: 0 <= i < |relations| ==> HasPlaylistId(playlists, relations[i].playlistId))
    && MusicsExist(musics, relations)
    && (forall i, j :: 0 <= i < j < |relations| ==> relations[i] != relations[j])
  }

  /** At most one playlist row per link: the `link` column has no UNIQUE constraint,
      so only the way `create_playlist` inserts can keep this. */
  ghost predicate UniqueLinks(playlists: seq<PlaylistRow>)
  {
    forall i, j :: 0 <= i < j < |playlists| ==> playlists[i].link != playlists[j].link
  }

  /** The track built from a stored music row by `find_first`. */
  function MusicOf(m: MusicRow): Music
  {
    Music(m.id, m.title, m.thumb, m.url, m.author)
  }

  /** `track` is the stored music row with id `musicId`, read back as a track. */
  ghost predicate StoredTrack(musics: seq<MusicRow>, musicId: int, track: Music)
  {
    exists j | 0 <= j < |musics| :: musics[j].id == musicId && track == MusicOf(musics[j])
  }

  // ---------------------------------------------------------------------------
  // The LEFT JOIN of `find_first`, rows in table order

  /** The rows produced for playlist `p` all carry its id and link in columns 0 and 1. */
  ghost predicate RowsOf(p: PlaylistRow, rows: seq<JoinRow>)
  {
    forall i :: 0 <= i < |rows| ==> rows[i].playlistId == p.id && rows[i].playlistLink == p.link
  }

  /** The relations of one playlist, in table order. */
  function RelationsOf(relations: seq<RelationRow>, playlistId: int): seq<RelationRow>
  {
    if relations == [] then []
    else
      var last := relations[|relations| - 1];
      RelationsOf(relations[..|relations| - 1], playlistId) + (if last.playlistId == playlistId then [last] else [])
  }

  /** The music rows with a given id, in table order. */
  function MusicsWithId(musics: seq<MusicRow>, id: int): seq<MusicRow>
  {
    if musics == [] then []
    else
      var last := musics[|musics| - 1];
      MusicsWithId(musics[..|musics| - 1], id) + (if last.id == id then [last] else [])
  }

  /** `LEFT JOIN music m ON pmr.music_id = m.id` for one relation of playlist `p`. */
  function RowsForMusicId(p: PlaylistRow, musicId: int, musics: seq<MusicRow>): (rows: seq<JoinRow>)
    ensures |rows| >= 1 && RowsOf(p, rows)
  {
    var found := MusicsWithId(musics, musicId);
    if found == [] then [JoinRow(p.id, p.link, None)] else RowsWithMusic(p, found)
  }

  /** One joined row per matching music row. */
  function RowsWithMusic(p: PlaylistRow, found: seq<MusicRow>): (rows: seq<JoinRow>)
    ensures |rows| == |found| && RowsOf(p, rows)
  {
    if found == [] then [] else [JoinRow(p.id, p.link, Some(found[0]))] + RowsWithMusic(p, found[1..])
  }

  function RowsForRelations(p: PlaylistRow, rels: seq<RelationRow>, musics: seq<MusicRow>): (rows: seq<JoinRow>)
    ensures rels != [] ==> |rows| >= 1
    ensures RowsOf(p, rows)
  {
    if rels == [] then []
    else RowsForRelations(p, rels[..|rels| - 1], musics) + RowsForMusicId(p, rels[|rels| - 1].musicId, musics)
  }

  /** `LEFT JOIN playlist_music_relation` for one playlist: a playlist without
      relations still yields one row, with NULL music columns. */
  function RowsForPlaylist(p: PlaylistRow, relations: seq<RelationRow>, musics: seq<MusicRow>): (rows: seq<JoinRow>)
    ensures |rows| >= 1 && RowsOf(p, rows)
  {
    var rels := RelationsOf(relations, p.id);
    if rels == [] then [JoinRow(p.id, p.link, None)] else RowsForRelations(p, rels, musics)
  }

  /** All rows of the `find_first` query for `link`: each one carries, in columns 0
      and 1, a stored playlist row whose link is the queried one. */
  function JoinRows(playlists: seq<PlaylistRow>, relations: seq<RelationRow>, musics: seq<MusicRow>, link: string)
    : (rows: seq<JoinRow>)
    ensures forall i :: 0 <= i < |rows| ==>
      rows[i].playlistLink == link && PlaylistRow(rows[i].playlistId, link) in playlists
  {
    if playlists == [] then []
    else
      var last := playlists[|playlists| - 1];
      JoinRows(playlists[..|playlists| - 1], relations, musics, link)
        + (if last.link == link then RowsForPlaylist(last, relations, musics) else [])
  }

  // ---------------------------------------------------------------------------
  // Folding the joined rows into one Playlist

  /** The track a joined row contributes: only a row whose music id (column 2) is
      truthy, i.e. neither NULL nor 0, and then id, title and thumb from columns 2-4,
      url from column 6 and author from column 5. */
  function PickMusic(row: JoinRow): Option<Music>
  {
    match row.music
    case Some(m) => if m.id != 0 then Some(MusicOf(m)) else None
    case None => None
  }

  /** The playlist `find_first` assembles from its rows: none without rows, otherwise
      id and link from the first row and the tracks of all rows in row order. */
  function AssembledPlaylist(rows: seq<JoinRow>): Option<Playlist>
  {
    if rows == [] then None
    else Some(Playlist(rows[0].playlistId, rows[0].playlistLink, Collect(rows, PickMusic)))
  }

  /** The row-assembly loop of `find_first`. */
  method AssemblePlaylist(rows: seq<JoinRow>) returns (r: Option<Playlist>)
    ensures r.None? <==> rows == []
    ensures r.Some? ==> r.value.id == rows[0].playlistId && r.value.link == rows[0].playlistLink
    ensures r == AssembledPlaylist(rows)
  {
    if rows == [] {
      return None;
    }
    var info := Playlist(rows[0].playlistId, rows[0].playlistLink, []);
    for i := 0 to |rows|
      invariant info.id == rows[0].playlistId && info.link == rows[0].playlistLink
      invariant info.musics == Collect(rows[..i], PickMusic)
    {
      var row := rows[i];
      assert rows[..i + 1] == rows[..i] + [row];
      CollectSnoc(rows[..i], row, PickMusic);
      if row.music.Some? && row.music.value.id != 0 {
        info := info.(musics := info.musics + [MusicOf(row.music.value)]);
      }
    }
    assert rows[..|rows|] == rows;
    r := Some(info);
  }

  // ---------------------------------------------------------------------------
  // Lemmas about the fold

  /** Every assembled track comes from a row with a truthy music id, with its fields
      taken column by column, and the tracks keep row order. */
  lemma AssembledTracksSpec(rows: seq<JoinRow>)
    requires rows != []
    ensures var ms, idx := AssembledPlaylist(rows).value.musics, PickedIndices(rows, PickMusic);
      && |idx| == |ms| <= |rows|
      && (forall k :: 0 <= k < |ms| ==>
            && idx[k] < |rows|
            && var row := rows[idx[k]];
               && row.music.Some? && row.music.value.id != 0
               && ms[k] == MusicOf(row.music.value))
      && (forall k, l :: 0 <= k < l < |ms| ==> idx[k] < idx[l])
  {
    CollectSpec(rows, PickMusic);
  }

  /** No row with a truthy music id is skipped: each one is among the rows the
      assembled tracks come from. */
  lemma AssembledTracksComplete(rows: seq<JoinRow>)
    ensures forall i :: 0 <= i < |rows| && rows[i].music.Some? && rows[i].music.value.id != 0 ==>
      i in PickedIndices(rows, PickMusic)
  {
    CollectSpec(rows, PickMusic);
  }

  /** Rows without music data (NULL or 0 in column 2) add no track: a playlist whose
      rows carry none has an empty track list, not no playlist. */
  lemma RowsWithoutMusic(rows: seq<JoinRow>)
    requires rows != []
    requires forall i :: 0 <= i < |rows| ==> rows[i].music.None? || rows[i].music.value.id == 0
    ensures AssembledPlaylist(rows) == Some(Playlist(rows[0].playlistId, rows[0].playlistLink, []))
  {
    CollectNothing(rows, PickMusic);
  }

  // ---------------------------------------------------------------------------
  // Lemmas about the join

  /** The query yields no rows exactly when no playlist row has the link. */
  lemma {:induction false} JoinRowsEmpty(playlists: seq<PlaylistRow>, relations: seq<RelationRow>,
                                         musics: seq<MusicRow>, link: string)
    ensures JoinRows(playlists, relations, musics, link) == []
        <==> forall i :: 0 <= i < |playlists| ==> playlists[i].link != link
  {
    if playlists != [] {
      var init := playlists[..|playlists| - 1];
      JoinRowsEmpty(init, relations, musics, link);
      if forall i :: 0 <= i < |playlists| ==> playlists[i].link != link {
        assert forall i :: 0 <= i < |init| ==> init[i] == playlists[i];
      }
    }
  }

  lemma {:induction false} RelationsOfNone(relations: seq<RelationRow>, playlistId: int)
    requires forall i :: 0 <= i < |relations| ==> relations[i].playlistId != playlistId
    ensures RelationsOf(relations, playlistId) == []
  {
    if relations != [] {
      RelationsOfNone(relations[..|relations| - 1], playlistId);
    }
  }

  /** The relations of a playlist all belong to it and all come from the table. */
  lemma {:induction false} RelationsOfFromTable(relations: seq<RelationRow>, playlistId: int)
    ensures forall k :: 0 <= k < |RelationsOf(relations, playlistId)| ==>
      RelationsOf(relations, playlistId)[k] in relations
  {
    if relations != [] {
      var init := relations[..|relations| - 1];
      RelationsOfFromTable(init, playlistId);
      var rels := RelationsOf(relations, playlistId);
      forall k | 0 <= k < |rels|
        ensures rels[k] in relations
      {
        if k < |RelationsOf(init, playlistId)| {
          assert rels[k] in init;
        }
      }
    }
  }

  /** With unique ids, the music row of an existing id is found exactly once. */
  lemma {:induction false} MusicsWithIdUnique(musics: seq<MusicRow>, j: nat)
    requires j < |musics|
    requires forall a, b :: 0 <= a < b < |musics| ==> musics[a].id != musics[b].id
    ensures MusicsWithId(musics, musics[j].id) == [musics[j]]
  {
    var init := musics[..|musics| - 1];
    var last := musics[|musics| - 1];
    if j == |musics| - 1 {
      assert forall a :: 0 <= a < |init| ==> init[a].id != last.id;
      MusicsWithIdNone(init, last.id);
    } else {
      assert init[j] == musics[j];
      MusicsWithIdUnique(init, j);
    }
  }

  lemma {:induction false} MusicsWithIdNone(musics: seq<MusicRow>, id: int)
    requires forall a :: 0 <= a < |musics| ==> musics[a].id != id
    ensures MusicsWithId(musics, id) == []
  {
    if musics != [] {
      MusicsWithIdNone(musics[..|musics| - 1], id);
    }
  }

  /** Only the playlist row carrying the link contributes rows when it is the only one. */
  lemma {:induction false} JoinRowsSingle(playlists: seq<PlaylistRow>, relations: seq<RelationRow>,
                                          musics: seq<MusicRow>, k: nat)
    requires k < |playlists|
    requires forall i :: 0 <= i < |playlists| && playlists[i].link == playlists[k].link ==> i == k
    ensures JoinRows(playlists, relations, musics, playlists[k].link)
         == RowsForPlaylist(playlists[k], relations, musics)
  {
    var link := playlists[k].link;
    var init := playlists[..|playlists| - 1];
    if k == |playlists| - 1 {
      assert forall i :: 0 <= i < |init| ==> init[i].link != link;
      JoinRowsEmpty(init, relations, musics, link);
    } else {
      assert init[k] == playlists[k];
      JoinRowsSingle(init, relations, musics, k);
    }
  }

  /** One relation whose music row exists once contributes exactly that track. */
  lemma RelationTrack(p: PlaylistRow, musics: seq<MusicRow>, j: nat)
    requires j < |musics|
    requires forall a, b :: 0 <= a < b < |musics| ==> musics[a].id != musics[b].id
    requires musics[j].id != 0
    ensures Collect(RowsForMusicId(p, musics[j].id, musics), PickMusic) == [MusicOf(musics[j])]
  {
    MusicsWithIdUnique(musics, j);
    var row := JoinRow(p.id, p.link, Some(musics[j]));
    assert RowsWithMusic(p, [musics[j]]) == [row];
    CollectSnoc([], row, PickMusic);
    assert [] + [row] == [row];
  }

  /** `tracks` holds, relation by relation and in relation order, the stored music
      row each relation points to. */
  ghost predicate TracksMatch(musics: seq<MusicRow>, rels: seq<RelationRow>, tracks: seq<Music>)
  {
    |tracks| == |rels| && forall k :: 0 <= k < |rels| ==> StoredTrack(musics, rels[k].musicId, tracks[k])
  }

  lemma MusicsExistSplit(musics: seq<MusicRow>, rels: seq<RelationRow>)
    requires rels != [] && MusicsExist(musics, rels)
    ensures MusicsExist(musics, rels[..|rels| - 1]) && HasMusicId(musics, rels[|rels| - 1].musicId)
  {
    var init := rels[..|rels| - 1];
    forall k | 0 <= k < |init|
      ensures HasMusicId(musics, init[k].musicId)
    {
      assert init[k] == rels[k];
    }
  }

  /** The last relation of a list adds the track of its music row after the others. */
  lemma TracksSnoc(p: PlaylistRow, rels: seq<RelationRow>, musics: seq<MusicRow>, j: nat)
    requires rels != [] && j < |musics|
    requires UniqueMusicIds(musics)
    requires musics[j].id == rels[|rels| - 1].musicId
    ensures Collect(RowsForRelations(p, rels, musics), PickMusic)
         == Collect(RowsForRelations(p, rels[..|rels| - 1], musics), PickMusic) + [MusicOf(musics[j])]
  {
    RelationTrack(p, musics, j);
    CollectConcat(RowsForRelations(p, rels[..|rels| - 1], musics), RowsForMusicId(p, musics[j].id, musics), PickMusic);
  }

  lemma StoredTracksSnoc(musics: seq<MusicRow>, rels: seq<RelationRow>, tracks: seq<Music>, j: nat)
    requires rels != [] && TracksMatch(musics, rels[..|rels| - 1], tracks)
    requires j < |musics| && musics[j].id == rels[|rels| - 1].musicId
    ensures TracksMatch(musics, rels, tracks + [MusicOf(musics[j])])
  {
    forall k | 0 <= k < |rels|
      ensures StoredTrack(musics, rels[k].musicId, (tracks + [MusicOf(musics[j])])[k])
    {
      if k < |rels| - 1 {
        assert rels[k] == rels[..|rels| - 1][k];
      }
    }
  }

  /** The tracks gathered over a list of relations whose music rows all exist, ids
      being unique and positive: one per relation, in relation order, each the stored
      music row with the relation's music id. */
  lemma {:induction false} TracksOfRelations(p: PlaylistRow, rels: seq<RelationRow>, musics: seq<MusicRow>)
    requires UniqueMusicIds(musics) && MusicsExist(musics, rels)
    ensures TracksMatch(musics, rels, Collect(RowsForRelations(p, rels, musics), PickMusic))
  {
    if rels != [] {
      var init := rels[..|rels| - 1];
      var last := rels[|rels| - 1];
      MusicsExistSplit(musics, rels);
      TracksOfRelations(p, init, musics);
      var j :| 0 <= j < |musics| && musics[j].id == last.musicId;
      TracksSnoc(p, rels, musics, j);
      StoredTracksSnoc(musics, rels, Collect(RowsForRelations(p, init, musics), PickMusic), j);
    }
  }

  /** What `find_first` returns for a link held by exactly one playlist row of a
      well-formed store: that playlist, with one track per relation of it, in
      relation order, each built from the stored music row; in particular no
      relations give an empty track list. */
  lemma FindFirstStored(playlists: seq<PlaylistRow>, musics: seq<MusicRow>, relations: seq<RelationRow>,
                        nextPlaylistId: int, nextMusicId: int, k: nat)
    requires WellFormed(playlists, musics, relations, nextPlaylistId, nextMusicId)
    requires k < |playlists|
    requires forall i :: 0 <= i < |playlists| && playlists[i].link == playlists[k].link ==> i == k
    ensures var r := AssembledPlaylist(JoinRows(playlists, relations, musics, playlists[k].link));
      && r.Some? && r.value.id == playlists[k].id && r.value.link == playlists[k].link
      && TracksMatch(musics, RelationsOf(relations, playlists[k].id), r.value.musics)
  {
    var p := playlists[k];
    JoinRowsSingle(playlists, relations, musics, k);
    var rels := RelationsOf(relations, p.id);
    if rels == [] {
      RowsWithoutMusic(RowsForPlaylist(p, relations, musics));
    } else {
      RelationsOfMusicsExist(musics, relations, p.id);
      TracksOfRelations(p, rels, musics);
    }
  }

  /** In a well-formed store the relations of any playlist point at existing music rows. */
  lemma RelationsOfMusicsExist(musics: seq<MusicRow>, relations: seq<RelationRow>, playlistId: int)
    requires MusicsExist(musics, relations)
    ensures MusicsExist(musics, RelationsOf(relations, playlistId))
  {
    RelationsOfFromTable(relations, playlistId);
    var rels := RelationsOf(relations, playlistId);
    forall t | 0 <= t < |rels|
      ensures HasMusicId(musics, rels[t].musicId)
    {
      var i :| 0 <= i < |relations| && relations[i] == rels[t];
    }
  }

  // ---------------------------------------------------------------------------
  // How the inserts keep the tables well formed

  lemma AddPlaylistRow(playlists: seq<PlaylistRow>, musics: seq<MusicRow>, relations: seq<RelationRow>,
                       nextPlaylistId: int, nextMusicId: int, link: string)
    requires WellFormed(playlists, musics, relations, nextPlaylistId, nextMusicId)
    ensures !HasPlaylistId(playlists, nextPlaylistId)
    ensures forall i :: 0 <= i < |relations| ==> relations[i].playlistId != nextPlaylistId
    ensures WellFormed(playlists + [PlaylistRow(nextPlaylistId, link)], musics, relations,
                       nextPlaylistId + 1, nextMusicId)
  {
    var all := playlists + [PlaylistRow(nextPlaylistId, link)];
    forall i | 0 <= i < |relations|
      ensures HasPlaylistId(all, relations[i].playlistId)
      ensures relations[i].playlistId != nextPlaylistId
    {
      assert HasPlaylistId(playlists, relations[i].playlistId);
      var j :| 0 <= j < |playlists| && playlists[j].id == relations[i].playlistId;
      assert all[j] == playlists[j];
    }
  }

  /** Inserting a row for an absent link under the next playlist id keeps the store
      well formed and the links unique, and the query then finds just that row. */
  lemma InsertPlaylistRow(playlists: seq<PlaylistRow>, musics: seq<MusicRow>, relations: seq<RelationRow>,
                          nextPlaylistId: int, nextMusicId: int, link: string)
    requires WellFormed(playlists, musics, relations, nextPlaylistId, nextMusicId)
    requires forall i :: 0 <= i < |playlists| ==> playlists[i].link != link
    ensures !HasPlaylistId(playlists, nextPlaylistId)
    ensures WellFormed(playlists + [PlaylistRow(nextPlaylistId, link)], musics, relations,
                       nextPlaylistId + 1, nextMusicId)
    ensures forall i :: 0 <= i < |relations| ==> relations[i].playlistId != nextPlaylistId
    ensures UniqueLinks(playlists) ==> UniqueLinks(playlists + [PlaylistRow(nextPlaylistId, link)])
  {
    AddPlaylistRow(playlists, musics, relations, nextPlaylistId, nextMusicId, link);
  }

  lemma SkipMusicId(playlists: seq<PlaylistRow>, musics: seq<MusicRow>, relations: seq<RelationRow>,
                    nextPlaylistId: int, nextMusicId: int)
    requires WellFormed(playlists, musics, relations, nextPlaylistId, nextMusicId)
    ensures WellFormed(playlists, musics, relations, nextPlaylistId, nextMusicId + 1)
  {
  }

  lemma AddMusicRow(playlists: seq<PlaylistRow>, musics: seq<MusicRow>, relations: seq<RelationRow>,
                    nextPlaylistId: int, nextMusicId: int, row: MusicRow, playlistId: int)
    requires WellFormed(playlists, musics, relations, nextPlaylistId, nextMusicId)
    requires row.id == nextMusicId && HasPlaylistId(playlists, playlistId)
    ensures !HasMusicId(musics, nextMusicId)
    ensures RelationRow(playlistId, nextMusicId) !in relations
    ensures WellFormed(playlists, musics + [row], relations + [RelationRow(playlistId, nextMusicId)],
                       nextPlaylistId, nextMusicId + 1)
  {
    var ms := musics + [row];
    var rs := relations + [RelationRow(playlistId, nextMusicId)];
    assert ms[|musics|] == row;
    forall i | 0 <= i < |rs|
      ensures HasMusicId(ms, rs[i].musicId) && HasPlaylistId(playlists, rs[i].playlistId)
    {
      if i < |relations| {
        assert HasMusicId(musics, relations[i].musicId);
        var j :| 0 <= j < |musics| && musics[j].id == relations[i].musicId;
        assert ms[j] == musics[j];
      }
    }
    forall i | 0 <= i < |relations|
      ensures relations[i].musicId < nextMusicId
    {
      assert HasMusicId(musics, relations[i].musicId);
      var j :| 0 <= j < |musics| && musics[j].id == relations[i].musicId;
    }
  }

  /** A newly inserted playlist row whose link was absent and whose id no relation
      uses is all the query finds for that link: one row with NULL music columns. */
  lemma NewPlaylistJoin(playlists: seq<PlaylistRow>, relations: seq<RelationRow>, musics: seq<MusicRow>,
                        id: int, link: string)
    requires forall i :: 0 <= i < |playlists| ==> playlists[i].link != link
    requires forall i :: 0 <= i < |relations| ==> relations[i].playlistId != id
    ensures JoinRows(playlists + [PlaylistRow(id, link)], relations, musics, link) == [JoinRow(id, link, None)]
    ensures AssembledPlaylist([JoinRow(id, link, None)]) == Some(Playlist(id, link, []))
  {
    var all := playlists + [PlaylistRow(id, link)];
    assert all[..|all| - 1] == playlists;
    JoinRowsEmpty(playlists, relations, musics, link);
    RelationsOfNone(relations, id);
    RowsWithoutMusic([JoinRow(id, link, None)]);
  }

  // ---------------------------------------------------------------------------
  // The store

  class Database {
    var playlistTable: seq<PlaylistRow>
    var musicTable: seq<MusicRow>
    var relationTable: seq<RelationRow>
    /** The values the two SERIAL sequences hand out next. */
    var nextPlaylistId: int
    var nextMusicId: int

    ghost predicate Valid()
      reads this
    {
      WellFormed(playlistTable, musicTable, relationTable, nextPlaylistId, nextMusicId)
    }

    /** A store whose tables `create_tables` has just created. */
    constructor()
      ensures Valid() && UniqueLinks(playlistTable)
      ensures playlistTable == [] && musicTable == [] && relationTable == []
      ensures nextPlaylistId == 1 && nextMusicId == 1
    {
      playlistTable, musicTable, relationTable := [], [], [];
      nextPlaylistId, nextMusicId := 1, 1;
    }

    /** `find_first`: run the join for `link` and fold its rows. No playlist exactly
        when no row has the link; in a well-formed store whose links are unique, the
        playlist with that link and, relation by relation, its stored tracks. */
    method FindFirst(link: string) returns (r: Option<Playlist>)
      ensures r == AssembledPlaylist(JoinRows(playlistTable, relationTable, musicTable, link))
      ensures r.None? <==> forall i :: 0 <= i < |playlistTable| ==> playlistTable[i].link != link
      ensures r.Some? ==> r.value.link == link && PlaylistRow(r.value.id, link) in playlistTable
      ensures r.Some? && Valid() && UniqueLinks(playlistTable) ==>
        TracksMatch(musicTable, RelationsOf(relationTable, r.value.id), r.value.musics)
    {
      var rows := JoinRows(playlistTable, relationTable, musicTable, link);
      JoinRowsEmpty(playlistTable, relationTable, musicTable, link);
      r := AssemblePlaylist(rows);
      if r.Some? {
        if Valid() && UniqueLinks(playlistTable) {
          var k :| 0 <= k < |playlistTable| && playlistTable[k].link == link;
          FindFirstStored(playlistTable, musicTable, relationTable, nextPlaylistId, nextMusicId, k);
        }
      }
    }

    /** `create_playlist`: find-or-insert by link. A link already present returns
        what `find_first` finds and changes nothing; a new link gets one row under a
        fresh id and comes back with no tracks. Links stay unique if they were. */
    method CreatePlaylist(link: string) returns (p: Playlist)
      requires Valid()
      modifies this
      ensures Valid()
      ensures musicTable == old(musicTable) && relationTable == old(relationTable)
      ensures nextMusicId == old(nextMusicId)
      ensures old(UniqueLinks(playlistTable)) ==> UniqueLinks(playlistTable)
      ensures p.link == link
      ensures (exists i :: 0 <= i < |old(playlistTable)| && old(playlistTable)[i].link == link) ==>
        && playlistTable == old(playlistTable) && nextPlaylistId == old(nextPlaylistId)
        && Some(p) == AssembledPlaylist(JoinRows(playlistTable, relationTable, musicTable, link))
      ensures (forall i :: 0 <= i < |old(playlistTable)| ==> old(playlistTable)[i].link != link) ==>
        && playlistTable == old(playlistTable) + [PlaylistRow(old(nextPlaylistId), link)]
        && nextPlaylistId == old(nextPlaylistId) + 1
        && !HasPlaylistId(old(playlistTable), p.id)
        && p == Playlist(old(nextPlaylistId), link, [])
    {
      var existing := FindFirst(link);
      if existing.Some? {
        return existing.value;
      }
      var id := InsertPlaylist(link);
      NewPlaylistJoin(old(playlistTable), relationTable, musicTable, id, link);
      var found := FindFirst(link);
      p := found.value;
    }

    /** `INSERT INTO playlist (link) VALUES (%s) RETURNING id`, committed: one row
        under the next SERIAL value, which no row or relation uses yet. */
    method InsertPlaylist(link: string) returns (id: int)
      requires Valid()
      requires forall i :: 0 <= i < |playlistTable| ==> playlistTable[i].link != link
      modifies this
      ensures Valid()
      ensures id == old(nextPlaylistId) && nextPlaylistId == id + 1
      ensures playlistTable == old(playlistTable) + [PlaylistRow(id, link)]
      ensures musicTable == old(musicTable) && relationTable == old(relationTable) && nextMusicId == old(nextMusicId)
      ensures !HasPlaylistId(old(playlistTable), id)
      ensures forall i :: 0 <= i < |relationTable| ==> relationTable[i].playlistId != id
      ensures old(UniqueLinks(playlistTable)) ==> UniqueLinks(playlistTable)
    {
      id := nextPlaylistId;
      var table := playlistTable + [PlaylistRow(id, link)];
      InsertPlaylistRow(playlistTable, musicTable, relationTable, nextPlaylistId, nextMusicId, link);
      playlistTable, nextPlaylistId := table, id + 1;
    }

    /** `create_music`: one `music` row under the next SERIAL id, then the relation
        to the playlist, and that id back. The id is unused so far, so the relation
        pair is new. An unknown playlist id violates the foreign key: the statement
        fails, nothing is committed and `None` comes back, but the music id drawn
        from the sequence stays consumed. */
    method CreateMusic(title: string, thumb: string, author: string, url: string, playlistId: int)
      returns (r: Option<int>)
      requires Valid()
      modifies this
      ensures Valid()
      ensures nextMusicId == old(nextMusicId) + 1
      ensures playlistTable == old(playlistTable) && nextPlaylistId == old(nextPlaylistId)
      ensures r.Some? <==> HasPlaylistId(playlistTable, playlistId)
      ensures r.None? ==> musicTable == old(musicTable) && relationTable == old(relationTable)
      ensures r.Some? ==>
        && r.value == old(nextMusicId)
        && !HasMusicId(old(musicTable), r.value)
        && RelationRow(playlistId, r.value) !in old(relationTable)
        && musicTable == old(musicTable) + [MusicRow(r.value, title, thumb, author, url)]
        && relationTable == old(relationTable) + [RelationRow(playlistId, r.value)]
    {
      var musicId := nextMusicId;
      if !HasPlaylistId(playlistTable, playlistId) {
        SkipMusicId(playlistTable, musicTable, relationTable, nextPlaylistId, nextMusicId);
        nextMusicId := nextMusicId + 1;
        return None;
      }
      var row := MusicRow(musicId, title, thumb, author, url);
      AddMusicRow(playlistTable, musicTable, relationTable, nextPlaylistId, nextMusicId, row, playlistId);
      nextMusicId := nextMusicId + 1;
      musicTable := musicTable + [row];
      relationTable := relationTable + [RelationRow(playlistId, musicId)];
      r := Some(musicId);
    }
  }
}
