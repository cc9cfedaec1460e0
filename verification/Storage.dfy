/** The receiver's two stores: layer files on disk and the ledger database. */
module Storage {
  import opened Wrappers
  import opened Digests

  /** What the disk does with one cached layer: the file cannot be created, or the copy stops. */
  datatype WriteEvent = NoCreate | Stops(copied: nat) | Writes

  function FirstBytes(data: Bytes, n: nat): Bytes {
    if n < |data| then data[..n] else data
  }

  /** The cached files after one layer: creating its file truncates it, so a copy that stops leaves
      it torn. */
  function Written(files: map<string, Bytes>, digest: string, data: Bytes, event: WriteEvent): map<string, Bytes> {
    match event
    case NoCreate => files
    case Stops(copied) => files[CacheDir(digest) := FirstBytes(data, copied)]
    case Writes => files[CacheDir(digest) := data]
  }

  /** Cached layer files, keyed by their directory name. */
  class LayerCache {
    var files: map<string, Bytes>

    constructor ()
      ensures files == map[]
    {
      files := map[];
    }

    /** writeCachedLayer: an existing file is overwritten in place. */
    method WriteCachedLayer(digest: string, data: Bytes, event: WriteEvent) returns (ok: bool)
      modifies this
      ensures ok <==> event.Writes?
      ensures files == Written(old(files), digest, data, event)
      ensures event.Stops? && event.copied <= |data| ==> files == old(files)[CacheDir(digest) := data[..event.copied]]
      ensures event.Writes? ==> files == old(files)[CacheDir(digest) := data]
      ensures event.NoCreate? ==> files == old(files)
    {
      if event.NoCreate? {
        return false;
      }
      files := files[CacheDir(digest) := []];
      var copied := if event.Stops? then FirstBytes(data, event.copied) else data;
      files := files[CacheDir(digest) := copied];
      assert data[..|data|] == data;
      return event.Writes?;
    }
  }

  class Ledger {
    var known: set<string>
    var history: map<string, string>

    constructor ()
      ensures known == {} && history == map[]
    {
      known, history := {}, map[];
    }

    method HasLayer(layer: string) returns (has: bool)
      ensures has <==> layer in known
    {
      has := layer in known;
    }

    method MarkLayersAsOwned(layers: seq<string>)
      modifies this`known
      ensures known == old(known) + set d | d in layers
    {
      for i := 0 to |layers|
        invariant known == old(known) + set d | d in layers[..i]
      {
        known := known + {layers[i]};
      }
    }

    /** A commit is stored under its timestamp and hash. */
    method RecordCommit(key: string, status: string)
      modifies this`history
      ensures history == old(history)[key := status]
    {
      history := history[key := status];
    }

    /** Wipes the transfer history; the cache memory stays. */
    method ClearLedgerOnly()
      modifies this`history
      ensures history == map[]
    {
      history := map[];
    }

    /** Wipes the cache memory; history and cached files stay. */
    method ClearCacheMemory()
      modifies this`known
      ensures known == {}
    {
      known := {};
    }
  }
}
