/** The server's torrent registry (server/src/torrent/TorrentManager.js): a map from
    magnet URI to the engine's torrent object, kept in insertion order as a JavaScript
    `Map` is, plus the serialisation used by every API response. The peer-to-peer engine
    is outside the model: its torrent objects are values handed to the manager, and its
    "ready", "error" and "destroyed" callbacks are methods of their own. */
module Torrents {
  import opened Wrappers

  datatype TorrentFile = TorrentFile(name: string, path: string, length: int)

  /** What the manager reads from an engine torrent. `name` is None while the engine has
      no metadata yet. */
  datatype Torrent = Torrent(
    infoHash: string, name: Option<string>, magnetURI: string, paused: bool,
    progress: real, downloadSpeed: int, uploadSpeed: int, downloaded: int, uploaded: int,
    length: int, numPeers: int, files: seq<TorrentFile>)

  datatype SerializedFile = SerializedFile(name: string, path: string, length: int, index: nat)

  datatype SerializedTorrent = SerializedTorrent(
    infoHash: string, name: string, magnetURI: string, paused: bool,
    progress: real, downloadSpeed: int, uploadSpeed: int, downloaded: int, uploaded: int,
    length: int, numPeers: int, files: seq<SerializedFile>)

  /** The progress report; the upload/download ratio is left out (floating point). */
  datatype TorrentProgress = TorrentProgress(
    infoHash: string, progress: real, downloadSpeed: int, uploadSpeed: int,
    downloaded: int, uploaded: int, numPeers: int)

  datatype Entry = Entry(magnetURI: string, torrent: Torrent)

  const LoadingName := "Loading metadata..."

  function SerializeFiles(files: seq<TorrentFile>): (r: seq<SerializedFile>)
    ensures |r| == |files|
    ensures forall k :: 0 <= k < |files| ==>
      r[k] == SerializedFile(files[k].name, files[k].path, files[k].length, k)
  {
    seq(|files|, k requires 0 <= k < |files| =>
      SerializedFile(files[k].name, files[k].path, files[k].length, k))
  }

  /** `serializeTorrent`: a paused torrent reports no download speed, a torrent without
      a (non-empty) name reports the placeholder, and the file at position k carries
      index k. Every other field is copied. */
  function Serialize(t: Torrent): (s: SerializedTorrent)
    ensures s.infoHash == t.infoHash && s.magnetURI == t.magnetURI && s.paused == t.paused
    ensures s.downloadSpeed == (if t.paused then 0 else t.downloadSpeed)
    ensures s.name == (if t.name == None || t.name == Some("") then LoadingName else t.name.value)
    ensures |s.files| == |t.files|
    ensures forall k :: 0 <= k < |t.files| ==> s.files[k].index == k && s.files[k].name == t.files[k].name
  {
    SerializedTorrent(
      t.infoHash,
      if t.name.Some? && t.name.value != "" then t.name.value else LoadingName,
      t.magnetURI, t.paused, t.progress,
      if t.paused then 0 else t.downloadSpeed,
      t.uploadSpeed, t.downloaded, t.uploaded, t.length, t.numPeers,
      SerializeFiles(t.files))
  }

  /** A `Map` holds each key once. */
  ghost predicate DistinctKeys(entries: seq<Entry>) {
    forall i, j :: 0 <= i < j < |entries| ==> entries[i].magnetURI != entries[j].magnetURI
  }

  /** The position of the first entry whose torrent has `infoHash`, in insertion order. */
  function FindByInfoHash(entries: seq<Entry>, infoHash: string): (r: Option<nat>)
    ensures r.Some? ==> r.value < |entries| && entries[r.value].torrent.infoHash == infoHash
    ensures r.Some? ==> forall k :: 0 <= k < r.value ==> entries[k].torrent.infoHash != infoHash
    ensures r.None? <==> forall k :: 0 <= k < |entries| ==> entries[k].torrent.infoHash != infoHash
    decreases |entries|
  {
    if |entries| == 0 then None
    else if entries[0].torrent.infoHash == infoHash then Some(0)
    else match FindByInfoHash(entries[1..], infoHash)
      case None => None
      case Some(i) => Some(i + 1)
  }

  /** The position of the entry with key `magnetURI`, if any. */
  function FindByKey(entries: seq<Entry>, magnetURI: string): (r: Option<nat>)
    ensures r.Some? ==> r.value < |entries| && entries[r.value].magnetURI == magnetURI
    ensures r.None? <==> forall k :: 0 <= k < |entries| ==> entries[k].magnetURI != magnetURI
    decreases |entries|
  {
    if |entries| == 0 then None
    else if entries[0].magnetURI == magnetURI then Some(0)
    else match FindByKey(entries[1..], magnetURI)
      case None => None
      case Some(i) => Some(i + 1)
  }

  /** The entries without the one at position i, order kept. */
  function RemoveAt(entries: seq<Entry>, i: nat): (r: seq<Entry>)
    requires i < |entries|
    ensures |r| == |entries| - 1
    ensures DistinctKeys(entries) ==> DistinctKeys(r)
  {
    var r := entries[..i] + entries[i + 1..];
    assert forall k :: 0 <= k < |r| ==> r[k] == entries[if k < i then k else k + 1];
    r
  }

  /** `Map.prototype.set`: an existing key keeps its place and gets the new value; a new
      key goes last. */
  function SetEntry(entries: seq<Entry>, magnetURI: string, t: Torrent): (r: seq<Entry>)
    requires DistinctKeys(entries)
    ensures DistinctKeys(r)
    ensures FindByKey(r, magnetURI).Some? && r[FindByKey(r, magnetURI).value].torrent == t
    ensures FindByKey(entries, magnetURI).None? ==> r == entries + [Entry(magnetURI, t)]
    ensures FindByKey(entries, magnetURI).Some? ==>
      r == entries[FindByKey(entries, magnetURI).value := Entry(magnetURI, t)]
  {
    match FindByKey(entries, magnetURI)
    case None =>
      var r := entries + [Entry(magnetURI, t)];
      KeyPositionIsUnique(r, magnetURI, |entries|);
      r
    case Some(i) =>
      var r := entries[i := Entry(magnetURI, t)];
      KeyPositionIsUnique(r, magnetURI, i);
      r
  }

  /** `Map.prototype.delete`. */
  function DeleteKey(entries: seq<Entry>, magnetURI: string): (r: seq<Entry>)
    requires DistinctKeys(entries)
    ensures DistinctKeys(r)
    ensures forall k :: 0 <= k < |r| ==> r[k].magnetURI != magnetURI
    ensures FindByKey(entries, magnetURI).None? ==> r == entries
    ensures FindByKey(entries, magnetURI).Some? ==> r == RemoveAt(entries, FindByKey(entries, magnetURI).value)
  {
    match FindByKey(entries, magnetURI)
    case None => entries
    case Some(i) =>
      var r := RemoveAt(entries, i);
      assert forall k :: 0 <= k < |r| ==> r[k] == entries[if k < i then k else k + 1];
      r
  }

  class TorrentManager {
    /** The `torrents` map, as (magnet URI, torrent) pairs in insertion order. */
    var entries: seq<Entry>
    /** Magnet URIs handed to the engine's `add`, in call order. */
    var engineAdds: seq<string>
    /** (infoHash, destroyStore) of every torrent the manager asked the engine to destroy. */
    var engineDestroys: seq<(string, bool)>
    /** Whether the engine client itself has been destroyed. */
    var engineDestroyed: bool

    ghost predicate Valid()
      reads this
    {
      DistinctKeys(entries)
    }

    constructor ()
      ensures Valid()
      ensures entries == [] && engineAdds == [] && engineDestroys == [] && !engineDestroyed
    {
      entries := [];
      engineAdds := [];
      engineDestroys := [];
      engineDestroyed := false;
    }

    /** `getTorrentByInfoHash`: the search loop over the map's values. */
    method GetTorrentByInfoHash(infoHash: string) returns (found: Option<Torrent>)
      ensures found.Some? <==> FindByInfoHash(entries, infoHash).Some?
      ensures found.Some? ==> found.value == entries[FindByInfoHash(entries, infoHash).value].torrent
      ensures found.Some? ==> found.value.infoHash == infoHash
    {
      var k := 0;
      while k < |entries|
        invariant 0 <= k <= |entries|
        invariant forall j :: 0 <= j < k ==> entries[j].torrent.infoHash != infoHash
      {
        if entries[k].torrent.infoHash == infoHash {
          FirstMatchIsFound(entries, infoHash, k);
          return Some(entries[k].torrent);
        }
        k := k + 1;
      }
      return None;
    }

    /** `addTorrent`, up to the engine call: a magnet URI already in the map resolves at
        once to its torrent's serialisation and nothing is added; any other URI is handed
        to the engine, whose callbacks are `OnTorrentReady` and `OnTorrentError`. */
    method AddTorrent(magnetURI: string) returns (existing: Option<SerializedTorrent>)
      requires Valid()
      modifies this`engineAdds
      ensures Valid() && entries == old(entries)
      ensures existing.Some? <==> FindByKey(entries, magnetURI).Some?
      ensures existing.Some? ==>
        existing.value == Serialize(entries[FindByKey(entries, magnetURI).value].torrent)
        && engineAdds == old(engineAdds)
      ensures existing.None? ==> engineAdds == old(engineAdds) + [magnetURI]
    {
      match FindByKey(entries, magnetURI)
      case Some(i) =>
        existing := Some(Serialize(entries[i].torrent));
      case None =>
        engineAdds := engineAdds + [magnetURI];
        existing := None;
    }

    /** The engine's "added" callback: the torrent is stored under its magnet URI and
        the caller's promise resolves to its serialisation. */
    method OnTorrentReady(magnetURI: string, t: Torrent) returns (added: SerializedTorrent)
      requires Valid()
      modifies this`entries
      ensures Valid()
      ensures entries == SetEntry(old(entries), magnetURI, t)
      ensures added == Serialize(t)
    {
      entries := SetEntry(entries, magnetURI, t);
      added := Serialize(t);
    }

    /** The engine's "error" event: the magnet URI's entry is dropped and the caller's
        promise is rejected with the engine's message. Once "ready" has resolved that
        promise, the rejection has no effect on the caller. */
    method OnTorrentError(magnetURI: string, message: string) returns (rejection: string)
      requires Valid()
      modifies this`entries
      ensures Valid()
      ensures entries == DeleteKey(old(entries), magnetURI)
      ensures forall k :: 0 <= k < |entries| ==> entries[k].magnetURI != magnetURI
      ensures rejection == "Torrent error: " + message
    {
      entries := DeleteKey(entries, magnetURI);
      rejection := "Torrent error: " + message;
    }

    /** `removeTorrent`, up to the engine call: an unknown infoHash resolves at once with
        nothing changed; otherwise the engine is asked to destroy the torrent (and its
        files when `deleteData`), and `OnTorrentDestroyed` finishes the removal. */
    method RemoveTorrent(infoHash: string, deleteData: bool) returns (found: bool)
      modifies this`engineDestroys
      ensures found <==> FindByInfoHash(entries, infoHash).Some?
      ensures !found ==> engineDestroys == old(engineDestroys)
      ensures found ==> engineDestroys == old(engineDestroys) + [(infoHash, deleteData)]
    {
      var t := GetTorrentByInfoHash(infoHash);
      if t.None? {
        return false;
      }
      engineDestroys := engineDestroys + [(infoHash, deleteData)];
      return true;
    }

    /** The engine's destroy callback: the loop over the map's entries deletes the first
        one, in insertion order, whose torrent has the infoHash, and stops. */
    method OnTorrentDestroyed(infoHash: string)
      requires Valid()
      modifies this`entries
      ensures Valid()
      ensures FindByInfoHash(old(entries), infoHash).None? ==> entries == old(entries)
      ensures FindByInfoHash(old(entries), infoHash).Some? ==>
        entries == RemoveAt(old(entries), FindByInfoHash(old(entries), infoHash).value)
    {
      var k := 0;
      while k < |entries|
        invariant 0 <= k <= |entries|
        invariant forall j :: 0 <= j < k ==> entries[j].torrent.infoHash != infoHash
      {
        if entries[k].torrent.infoHash == infoHash {
          FirstMatchIsFound(entries, infoHash, k);
          entries := RemoveAt(entries, k);
          return;
        }
        k := k + 1;
      }
    }

    /** `pauseTorrent`: true exactly when a torrent has the infoHash; the engine then
        marks that torrent paused. */
    method PauseTorrent(infoHash: string) returns (ok: bool)
      requires Valid()
      modifies this`entries
      ensures Valid()
      ensures ok <==> FindByInfoHash(old(entries), infoHash).Some?
      ensures !ok ==> entries == old(entries)
      ensures ok ==> var i := FindByInfoHash(old(entries), infoHash).value;
        entries == old(entries)[i := old(entries)[i].(torrent := old(entries)[i].torrent.(paused := true))]
    {
      match FindByInfoHash(entries, infoHash)
      case None =>
        ok := false;
      case Some(i) =>
        entries := entries[i := entries[i].(torrent := entries[i].torrent.(paused := true))];
        assert forall k :: 0 <= k < |entries| ==> entries[k].magnetURI == old(entries)[k].magnetURI;
        ok := true;
    }

    /** `resumeTorrent`: true exactly when a torrent has the infoHash; the engine then
        clears that torrent's paused mark. */
    method ResumeTorrent(infoHash: string) returns (ok: bool)
      requires Valid()
      modifies this`entries
      ensures Valid()
      ensures ok <==> FindByInfoHash(old(entries), infoHash).Some?
      ensures !ok ==> entries == old(entries)
      ensures ok ==> var i := FindByInfoHash(old(entries), infoHash).value;
        entries == old(entries)[i := old(entries)[i].(torrent := old(entries)[i].torrent.(paused := false))]
    {
      match FindByInfoHash(entries, infoHash)
      case None =>
        ok := false;
      case Some(i) =>
        entries := entries[i := entries[i].(torrent := entries[i].torrent.(paused := false))];
        assert forall k :: 0 <= k < |entries| ==> entries[k].magnetURI == old(entries)[k].magnetURI;
        ok := true;
    }

    /** `getAllTorrents`: one serialisation per map value, in map order. */
    function AllTorrents(): (all: seq<SerializedTorrent>)
      reads this
      ensures |all| == |entries|
      ensures forall k :: 0 <= k < |entries| ==> all[k] == Serialize(entries[k].torrent)
    {
      seq(|entries|, k requires 0 <= k < |entries| reads this => Serialize(entries[k].torrent))
    }

    /** `getTorrentProgress`: null exactly when no torrent has the infoHash. */
    function TorrentProgressOf(infoHash: string): (p: Option<TorrentProgress>)
      reads this
      ensures p.None? <==> forall k :: 0 <= k < |entries| ==> entries[k].torrent.infoHash != infoHash
      ensures p.Some? ==> p.value.infoHash == infoHash
    {
      match FindByInfoHash(entries, infoHash)
      case None => None
      case Some(i) =>
        var t := entries[i].torrent;
        Some(TorrentProgress(t.infoHash, t.progress, t.downloadSpeed, t.uploadSpeed,
                             t.downloaded, t.uploaded, t.numPeers))
    }

    /** `destroy`: the engine is shut down and the map emptied. */
    method Destroy()
      modifies this`entries, this`engineDestroyed
      ensures Valid() && entries == [] && engineDestroyed
    {
      engineDestroyed := true;
      entries := [];
    }
  }

  /** The first position where the infoHash matches is what `FindByInfoHash` finds. */
  lemma FirstMatchIsFound(entries: seq<Entry>, infoHash: string, k: nat)
    requires k < |entries| && entries[k].torrent.infoHash == infoHash
    requires forall j :: 0 <= j < k ==> entries[j].torrent.infoHash != infoHash
    ensures FindByInfoHash(entries, infoHash) == Some(k)
  {
    var r := FindByInfoHash(entries, infoHash);
    assert r.Some?;
    assert !(r.value < k) && !(k < r.value);
  }

  /** An engine error after the torrent became ready leaves the map as if the magnet URI
      had never been set: ready followed by error is undone. */
  lemma ErrorUndoesReady(entries: seq<Entry>, magnetURI: string, t: Torrent)
    requires DistinctKeys(entries)
    ensures DeleteKey(SetEntry(entries, magnetURI, t), magnetURI) == DeleteKey(entries, magnetURI)
  {
    var r := SetEntry(entries, magnetURI, t);
    match FindByKey(entries, magnetURI)
    case None =>
      KeyPositionIsUnique(r, magnetURI, |entries|);
      assert DeleteKey(r, magnetURI) == RemoveAt(r, |entries|);
      assert RemoveAt(r, |entries|) == entries;
    case Some(i) =>
      KeyPositionIsUnique(r, magnetURI, i);
      assert DeleteKey(r, magnetURI) == RemoveAt(r, i);
      assert RemoveAt(r, i) == RemoveAt(entries, i);
  }

  /** With distinct keys, the one position holding a key is where `FindByKey` looks. */
  lemma KeyPositionIsUnique(entries: seq<Entry>, magnetURI: string, i: nat)
    requires DistinctKeys(entries)
    requires i < |entries| && entries[i].magnetURI == magnetURI
    ensures FindByKey(entries, magnetURI) == Some(i)
  {
  }
}
