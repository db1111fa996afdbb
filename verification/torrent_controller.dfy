/** The torrent endpoints (server/src/controllers/torrentController.js), over the
    registry of `Torrents`. A handler whose answer waits for an engine callback returns
    None; the answer it later sends is the matching `...Reply` function. */
module TorrentApi {
  import opened Wrappers
  import opened Strings
  import opened Http
  import opened Torrents
  import TorrentSearch

  datatype TorrentBody =
    | Error(error: string)
    | Added(torrent: SerializedTorrent)
    | TorrentList(torrents: seq<SerializedTorrent>, count: nat)
    | OneTorrent(torrent: SerializedTorrent)
    | ProgressReport(progress: TorrentProgress)
    | Message(message: string)

  const NotFound := "Torrent not found"

  /** The error an `addTorrent` body is refused with, if any: a missing or empty
      magnetURI, or one that does not start with "magnet:?". */
  function MagnetError(magnetURI: Option<string>): (e: Option<string>)
    ensures e.None? <==> magnetURI.Some? && StartsWith(magnetURI.value, TorrentSearch.MagnetPrefix)
    ensures magnetURI.None? || magnetURI == Some("") ==> e == Some("magnetURI is required")
  {
    if magnetURI.None? || magnetURI.value == "" then Some("magnetURI is required")
    else if !StartsWith(magnetURI.value, TorrentSearch.MagnetPrefix) then Some("Invalid magnet URI format")
    else None
  }

  /** The answer once the registry's promise settles: 201 with the torrent, or the
      error passed on. */
  function AddedReply(settled: Result<SerializedTorrent, string>): (r: Reply<TorrentBody>)
    ensures r.Json? <==> settled.Success?
    ensures settled.Success? ==> r == Json(201, true, Added(settled.value))
  {
    match settled
    case Success(t) => Json(201, true, Added(t))
    case Failure(e) => ToErrorHandler(e)
  }

  /** `addTorrent`: a refused body answers 400 and the registry is not touched; a magnet
      URI already registered answers 201 at once; any other goes to the engine and the
      answer waits for it. */
  method AddTorrent(m: TorrentManager, magnetURI: Option<string>) returns (reply: Option<Reply<TorrentBody>>)
    requires m.Valid()
    modifies m`engineAdds
    ensures m.Valid() && m.entries == old(m.entries)
    ensures MagnetError(magnetURI).Some? ==>
      reply == Some(Json(400, false, Error(MagnetError(magnetURI).value))) && m.engineAdds == old(m.engineAdds)
    ensures MagnetError(magnetURI).None? && FindByKey(m.entries, magnetURI.value).Some? ==>
      reply == Some(AddedReply(Success(Serialize(m.entries[FindByKey(m.entries, magnetURI.value).value].torrent))))
      && m.engineAdds == old(m.engineAdds)
    ensures MagnetError(magnetURI).None? && FindByKey(m.entries, magnetURI.value).None? ==>
      reply.None? && m.engineAdds == old(m.engineAdds) + [magnetURI.value]
  {
    var e := MagnetError(magnetURI);
    if e.Some? {
      return Some(Json(400, false, Error(e.value)));
    }
    var existing := m.AddTorrent(magnetURI.value);
    if existing.Some? {
      reply := Some(AddedReply(Success(existing.value)));
    } else {
      reply := None;
    }
  }

  /** Every magnet link the search service produces passes `addTorrent`'s checks: a
      search result can be handed straight to the registry. */
  lemma SearchResultsAreAddable(movies: seq<TorrentSearch.YtsMovie>, now: string, encode: string -> string, k: nat)
    requires k < |TorrentSearch.Flatten(movies, now, encode)|
    ensures MagnetError(Some(TorrentSearch.Flatten(movies, now, encode)[k].magnetURI)).None?
  {
  }

  /** `getAllTorrents`: 200 with every registered torrent, in registration order, and
      their count. */
  function GetAllTorrents(m: TorrentManager): (r: Reply<TorrentBody>)
    reads m
    ensures r.Json? && r.status == 200 && r.body.TorrentList?
    ensures r.body.count == |m.entries| == |r.body.torrents|
    ensures forall k :: 0 <= k < |m.entries| ==> r.body.torrents[k] == Serialize(m.entries[k].torrent)
  {
    var all := m.AllTorrents();
    Json(200, true, TorrentList(all, |all|))
  }

  /** `getTorrent`: 404 exactly when no registered torrent has the infoHash; otherwise
      200 with the first one's serialisation. */
  function GetTorrent(m: TorrentManager, infoHash: string): (r: Reply<TorrentBody>)
    reads m
    ensures r.Json?
    ensures r.status == 404 <==> forall k :: 0 <= k < |m.entries| ==> m.entries[k].torrent.infoHash != infoHash
    ensures r.status == 404 ==> r == Json(404, false, Error(NotFound))
    ensures r.status != 404 ==> r.status == 200 && r.body.OneTorrent? && r.body.torrent.infoHash == infoHash
    ensures r.status == 200 ==>
      FindByInfoHash(m.entries, infoHash).Some?
      && r.body.torrent == Serialize(m.entries[FindByInfoHash(m.entries, infoHash).value].torrent)
  {
    match FindByInfoHash(m.entries, infoHash)
    case None => Json(404, false, Error(NotFound))
    case Some(i) => Json(200, true, OneTorrent(Serialize(m.entries[i].torrent)))
  }

  /** `getTorrentProgress`: 404 exactly when no registered torrent has the infoHash. */
  function GetTorrentProgress(m: TorrentManager, infoHash: string): (r: Reply<TorrentBody>)
    reads m
    ensures r.Json?
    ensures r.status == 404 <==> forall k :: 0 <= k < |m.entries| ==> m.entries[k].torrent.infoHash != infoHash
    ensures r.status != 404 ==> r.status == 200 && r.body.ProgressReport? && r.body.progress.infoHash == infoHash
  {
    match m.TorrentProgressOf(infoHash)
    case None => Json(404, false, Error(NotFound))
    case Some(p) => Json(200, true, ProgressReport(p))
  }

  /** The `deleteData` query flag: only the exact text "true" asks for the files to be
      deleted. */
  function DeleteDataFlag(query: Option<string>): (b: bool)
    ensures b <==> query == Some("true")
  {
    query.Some? && query.value == "true"
  }

  const RemovedReply: Reply<TorrentBody> := Json(200, true, Message("Torrent removed successfully"))

  /** `removeTorrent`: an unknown infoHash is answered as removed at once; a known one
      is answered once the engine has destroyed it. The answer is always success. */
  method RemoveTorrent(m: TorrentManager, infoHash: string, deleteData: Option<string>)
    returns (reply: Option<Reply<TorrentBody>>)
    modifies m`engineDestroys
    ensures reply.None? <==> FindByInfoHash(m.entries, infoHash).Some?
    ensures reply.Some? ==> reply.value == RemovedReply && m.engineDestroys == old(m.engineDestroys)
    ensures reply.None? ==> m.engineDestroys == old(m.engineDestroys) + [(infoHash, DeleteDataFlag(deleteData))]
  {
    var found := m.RemoveTorrent(infoHash, DeleteDataFlag(deleteData));
    if found {
      reply := None;
    } else {
      reply := Some(RemovedReply);
    }
  }

  /** `pauseTorrent`: 404 exactly when no registered torrent has the infoHash. */
  method PauseTorrent(m: TorrentManager, infoHash: string) returns (reply: Reply<TorrentBody>)
    requires m.Valid()
    modifies m`entries
    ensures m.Valid()
    ensures reply.Json?
    ensures reply.status == 404 <==> FindByInfoHash(old(m.entries), infoHash).None?
    ensures reply.status != 404 ==> reply == Json(200, true, Message("Torrent paused"))
    ensures reply.status == 404 ==> reply == Json(404, false, Error(NotFound)) && m.entries == old(m.entries)
  {
    var ok := m.PauseTorrent(infoHash);
    if !ok {
      return Json(404, false, Error(NotFound));
    }
    reply := Json(200, true, Message("Torrent paused"));
  }

  /** `resumeTorrent`: 404 exactly when no registered torrent has the infoHash. */
  method ResumeTorrent(m: TorrentManager, infoHash: string) returns (reply: Reply<TorrentBody>)
    requires m.Valid()
    modifies m`entries
    ensures m.Valid()
    ensures reply.Json?
    ensures reply.status == 404 <==> FindByInfoHash(old(m.entries), infoHash).None?
    ensures reply.status != 404 ==> reply == Json(200, true, Message("Torrent resumed"))
    ensures reply.status == 404 ==> reply == Json(404, false, Error(NotFound)) && m.entries == old(m.entries)
  {
    var ok := m.ResumeTorrent(infoHash);
    if !ok {
      return Json(404, false, Error(NotFound));
    }
    reply := Json(200, true, Message("Torrent resumed"));
  }

  /** Pausing a registered torrent shows in its serialisation: afterwards `getTorrent`
      reports it paused with no download speed. */
  lemma PausedTorrentReportsNoSpeed(entries: seq<Entry>, infoHash: string)
    requires FindByInfoHash(entries, infoHash).Some?
    ensures var i := FindByInfoHash(entries, infoHash).value;
            var after := entries[i := entries[i].(torrent := entries[i].torrent.(paused := true))];
            FindByInfoHash(after, infoHash) == Some(i)
            && Serialize(after[i].torrent).paused && Serialize(after[i].torrent).downloadSpeed == 0
  {
    var i := FindByInfoHash(entries, infoHash).value;
    var after := entries[i := entries[i].(torrent := entries[i].torrent.(paused := true))];
    FirstMatchIsFound(after, infoHash, i);
  }
}
