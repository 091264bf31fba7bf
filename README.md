# MuPyApi playlist store and result shaping, in Dafny

MuPyApi is a small Python HTTP backend. It searches a video platform, lists the
entries of upstream playlists and keeps playlists and their tracks in a
PostgreSQL database. This project models three parts of it and proves what they
guarantee:

- **The playlist store** (`service/Database.py`). It has three tables:
  `playlist(id SERIAL, link)`, `music(id SERIAL, title, thumb, author, url)` and
  `playlist_music_relation(playlist_id, music_id)`, whose primary key is the pair.
  The store is a class, `DatabaseModel.Database`. It holds one sequence of rows
  per table and one counter per SERIAL sequence. Its operations are:
  - `create_playlist`: find the playlist by link, or insert it.
  - `create_music`: insert a track and link it to a playlist.
  - `find_first`: run a LEFT JOIN and fold the joined rows into one playlist.

  The join is a function over the tables (`JoinRows`). The fold is both a loop
  (`AssemblePlaylist`) and a function (`AssembledPlaylist`), and the loop is proved
  to compute the function.
- **Result shaping** (`YouTube/YouTube.py`). `search` turns every upstream hit into
  a `Result`. `playlist` keeps only the upstream entries whose four fields are all
  non-empty. `setContent` copies a result into the client object. What the
  upstream video library returns is a parameter: a sequence of `Video` records,
  or `None` when fetching it raised.
- **Value types** (`model/music.py`, `model/Playlist.py`). `Music` and `Playlist`
  are datatypes. Their `to_dict` views are maps to a JSON-like `Value`, and each
  view is proved to lose nothing: it reads back into the original. Their
  `__str__` forms are built from the same pieces as the source's f-strings.

Modules: `Wrappers` (Option), `Text` (substrings, suffixes, decimal numerals),
`Sequences` (`Collect`, an order-preserving filter-and-map with its
characterisation), `Values`, `MusicModel`, `PlaylistModel`, `YouTubeModel`,
`DatabaseModel`.

The `Music`, `Playlist` and `Result` constructors only store their arguments, so
each is a datatype constructor with the source's parameter order.

Two facts about the code shape the model:

- The `link` column has no UNIQUE constraint (`service/Database.py:26`). The
  model allows duplicate links and proves that `create_playlist` keeps unique
  links unique (`UniqueLinks`).
- `playlist` drops an entry when any of its four fields is empty
  (`YouTube/YouTube.py:98-103`). `search` drops nothing.

## Model

| member | source | states |
|---|---|---|
| `DatabaseModel.Database.constructor` | service/Database.py:21-41 | A freshly created store has three empty tables, both SERIAL sequences start at 1, and the store is well formed with unique links |
| `DatabaseModel.Database.FindFirst` | service/Database.py:73-101 | Returns the fold of the joined rows for the link. Returns no playlist exactly when no playlist row has the link. A returned playlist's id and link are those of a stored playlist row with the queried link. In a well-formed store with unique links, its tracks are the stored music rows of its relations, one per relation, in relation order |
| `DatabaseModel.AssemblePlaylist` | service/Database.py:86-101 | The row-assembly loop. No rows give `None`. Otherwise id and link come from the first row, and the tracks are those the rows contribute, in row order. The loop computes `AssembledPlaylist` |
| `DatabaseModel.AssembledTracksSpec` | service/Database.py:91-99 | Each assembled track comes from a row whose music id is truthy. A track's id, title and thumb come from columns 2-4, its url from column 6 and its author from column 5. Tracks keep row order, and there are never more tracks than rows |
| `DatabaseModel.AssembledTracksComplete` | service/Database.py:91-99 | Every row whose music id is truthy adds a track: its index is among those the tracks come from. With `AssembledTracksSpec`, the tracks correspond exactly, in order, to the rows with a truthy music id |
| `DatabaseModel.RowsWithoutMusic` | service/Database.py:91-92 | Rows whose music id is NULL or 0 add no track. A playlist with only such rows comes back with an empty track list, not as `None` |
| `DatabaseModel.JoinRowsEmpty` | service/Database.py:75-87 | The LEFT JOIN yields no rows exactly when no playlist row has the link |
| `DatabaseModel.JoinRows` | service/Database.py:75-82 | The query `SELECT … FROM playlist LEFT JOIN playlist_music_relation LEFT JOIN music WHERE p.link = %s`: every row carries the queried link in column 1, and its columns 0 and 1 form a stored playlist row |
| `DatabaseModel.WellFormed` | service/Database.py:24-41 | The schema's guarantees: ids positive, unique and below their SERIAL counters, both foreign keys of `playlist_music_relation`, and its composite primary key. It follows that every relation refers to ids below both counters |
| `DatabaseModel.JoinRowsSingle` | service/Database.py:78-81 | When exactly one playlist row has the link, the join yields only that playlist's rows |
| `DatabaseModel.FindFirstStored` | service/Database.py:75-99 | For a link held by one playlist row of a well-formed store, the result is that playlist, with one track per relation, in relation order. Each track is the stored music row with the relation's music id, with url and author in their own fields |
| `DatabaseModel.TracksOfRelations` | service/Database.py:77-80 | Over relations whose music rows exist, with unique positive ids, the joined rows give exactly one track per relation, each equal to the stored row |
| `DatabaseModel.NewPlaylistJoin` | service/Database.py:65-69 | After a row is inserted for a link that was absent, under an id no relation uses, the join yields one row with NULL music columns, and the fold gives that playlist with no tracks |
| `DatabaseModel.Database.CreatePlaylist` | service/Database.py:56-69 | For a link already present, returns what `find_first` finds and changes nothing. For a new link, appends exactly one row under the next SERIAL id (an id no row had) and returns that playlist with no tracks. The music and relation tables are untouched. Unique links stay unique, and the store stays well formed |
| `DatabaseModel.Database.InsertPlaylist` | service/Database.py:65-67 | `INSERT … RETURNING id`: one row appended under the old counter value, which the counter then passes. The id is used by no earlier row and no relation |
| `DatabaseModel.InsertPlaylistRow` | service/Database.py:24-27 | Appending a row for an absent link under the next id keeps the tables well formed and keeps links unique |
| `DatabaseModel.AddPlaylistRow` | service/Database.py:24-25 | The next SERIAL value is not the id of any playlist row or relation, and appending a row under it keeps the tables well formed |
| `DatabaseModel.Database.CreateMusic` | service/Database.py:117-132 | For an existing playlist id: appends one music row under the next SERIAL id (unused so far) and the relation (playlist id, music id), which was not yet present, and returns that id. For an unknown playlist id: the foreign key fails, no row is kept and `None` comes back. In both cases the sequence advances and the playlist table is untouched |
| `DatabaseModel.AddMusicRow` | service/Database.py:37-41 | A music row and a relation under the next music id keep both foreign keys satisfied and the (playlist_id, music_id) primary key unique |
| `DatabaseModel.SkipMusicId` | service/Database.py:122-124 | Consuming a music id without inserting keeps the store well formed |
| `YouTubeModel.Result.ToString` | YouTube/YouTube.py:19-23 | Starts with `{` and a newline, ends with a newline and `},`, and contains url, thumb and title |
| `YouTubeModel.ToStringOmitsAuthor` | YouTube/YouTube.py:19-23 | The printed form of a result does not depend on its author |
| `YouTubeModel.YouTube.constructor` | YouTube/YouTube.py:26-31 | A new client holds empty content fields |
| `YouTubeModel.YouTube.SetContent` | YouTube/YouTube.py:27-31 | Title, thumb, url and author become those of the given result. Nothing else changes |
| `YouTubeModel.YouTube.Search` | YouTube/YouTube.py:73-90 | `None` exactly when the upstream search raised. Otherwise one result per hit, same length and order, nothing filtered. Each result maps title to title, thumbnail_url to thumb, watch_url to url and author to author |
| `YouTubeModel.YouTube.Playlist` | YouTube/YouTube.py:92-115 | `None` exactly when iterating the listing raised. Otherwise the results are `CompleteResults` of the listing |
| `YouTubeModel.CompleteResultsSpec` | YouTube/YouTube.py:97-111 | The shaped playlist keeps an entry exactly when author, title, watch_url and thumbnail_url are all non-empty. Each kept result is built field by field from its entry. Upstream order is kept, and the output is never longer than the input |
| `MusicModel.Music.ToString` | model/music.py:9-11 | Starts with `{` and a newline, ends with a newline and `},`, and contains url, thumb, title and author |
| `MusicModel.ToStringOmitsId` | model/music.py:9-11 | The printed form of a track does not depend on its id |
| `MusicModel.Music.ToDict` | model/music.py:13-20 | Keys are exactly id, title, thumb, url and author, and the track reads back from the dictionary unchanged |
| `MusicModel.ToDictFields` | model/music.py:14-20 | Each dictionary value is the field of the same name |
| `PlaylistModel.Playlist.ToDict` | model/Playlist.py:13-18 | Keys are exactly id, link and musics. id and link equal the fields. musics has the same length and order as the track list, and element i is the dictionary view of track i |
| `PlaylistModel.MusicValues` | model/Playlist.py:17 | The comprehension gives one dictionary view per track, in track order |
| `PlaylistModel.ToDictRoundTrip` | model/Playlist.py:13-18 | A playlist reads back from its dictionary view unchanged, tracks included |
| `PlaylistModel.Playlist.ToString` | model/Playlist.py:10-11 | Starts with `Playlist(id=` and ends with `)`. Contains the decimal id, the link and the rendered track list |
| `PlaylistModel.ListRepr` | model/Playlist.py:11 | A rendered list is bracketed. The empty list renders as `[]` and a one-track list as `[` + repr + `]`. Every track's representation occurs in the rendering |
| `PlaylistModel.ListReprSnoc` | model/Playlist.py:11 | Appending a track to a non-empty list replaces the closing `]` with `, `, the new track's representation and `]`. Together with the empty and one-track cases, this fixes the rendering of every list: the elements in order, separated by `, ` |
| `Text.IntToDecimal` | model/Playlist.py:11 | The decimal rendering of an integer is non-empty and has a leading minus exactly for negative values. After any minus come only digits, with no leading zero, and 0 renders as `0`. It reads back to the same integer, so it is the canonical numeral `str()` writes |

## Left out

- Connecting to PostgreSQL, reading the environment, `close_connection`, `__del__`, and the execution of `create_tables` (`service/Database.py:9-19`, `43-46`, `109-115`). These are driver and I/O plumbing. The schema they create is modelled as the class's tables and `WellFormed`.
- `DatabaseModel.Database.constructor`: the model starts from an empty database. `create_tables` uses `CREATE TABLE IF NOT EXISTS` (`service/Database.py:24`, `29`, `37`). So on an existing database, `Database()` keeps the stored rows and the sequence positions, and unique links are not established there.
- Driver failures, and the handlers that print them and return `None` or re-raise (`service/Database.py:70-71`, `103-104`, `133-134`). The one failure the model keeps is the foreign-key violation in `create_music`.
- `DatabaseModel.Database.CreateMusic`: after a failed statement, psycopg2 leaves the transaction aborted until a rollback that the code never issues. Later statements on that connection would fail. The model lets later operations run on the committed tables.
- `DatabaseModel.JoinRows`: the query has no ORDER BY, so PostgreSQL may return rows in any order. The model fixes one order: playlists, then relations, then music rows, each in table order. The guarantees about track order hold for that order.
- The text columns are nullable in the schema. The model stores strings, because the only inserter, `create_music`, writes strings.
- `DatabaseModel.Database.CreatePlaylist`, `DatabaseModel.Database.CreateMusic`: ids are unbounded integers. PostgreSQL's SERIAL is a 32-bit integer and fails after 2147483647.
- `YouTube.download` (`YouTube/YouTube.py:33-71`): network fetches, the file download, JPEG conversion and MP4 tagging are all foreign calls or file I/O.
- `YouTubeModel.YouTube.Playlist`: the upstream playlist handle is constructed outside the `try` (`YouTube/YouTube.py:93`), so a failure there propagates instead of giving `None`. The model covers only failures while iterating the listing.
- `YouTubeModel.YouTube.Search`: the query string goes to the external search library, so the model takes that library's answer as its input instead of the query.
- `YouTubeModel.YouTube.constructor`: Python creates the four content attributes on the first `setContent`, so reading them earlier raises. The model starts them as empty strings.
- `PlaylistModel.Playlist.ToString`: Python prints tracks with their default object representation, which contains a memory address. The representation of a track is therefore a parameter.
- Dictionary key order: the `to_dict` views are maps, so insertion order is not modelled.
- `service/Database.py:5` and `model/Playlist.py:1` import `model.Muisc`. The model takes that to be the `Music` class of `model/music.py`.
- `service/Service.py`, `index.py`, `app.py`: the HTTP layer. The Kotlin Android client: user interface and network calls.
- The playlist sync and backfill workflow, the LRU result cache, `get_videos` and `stream` do not appear in these files. The race between two concurrent `create_playlist` calls for the same link is a concurrency question, and the model is sequential.
