/**
 * The process-local store of uploaded files: a mutable map from generated
 * identifiers to records, with put, get, exists and list operations.
 */
module Storage {
  import opened Wrappers

  /** The fields of a browser `File` that the store copies. */
  datatype File = File(name: string, mimeType: string, size: nat)

  /** Optional author metadata; each field may be given without the other. */
  datatype Metadata = Metadata(author: Option<string>, authorIcon: Option<string>)

  /** The default argument `{}`: neither field given. */
  const NoMetadata := Metadata(None, None)

  /**
   * One stored upload. `data` is the read result (a data URL, opaque here),
   * `createdAt` the insertion time as supplied by the caller.
   */
  datatype StoredFile = StoredFile(
    id: string,
    name: string,
    mimeType: string,
    size: nat,
    data: string,
    createdAt: int,
    author: Option<string>,
    authorIcon: Option<string>)

  /** The message of the error a failed read rejects with. */
  const ReadFailed := "Failed to read file"

  /** The record `storeFile` builds for a successful read. */
  function NewRecord(id: string, file: File, data: string, createdAt: int, metadata: Metadata): StoredFile
  {
    StoredFile(id, file.name, file.mimeType, file.size, data, createdAt, metadata.author, metadata.authorIcon)
  }

  /** No key occurs twice. */
  predicate NoDuplicates(keys: seq<string>)
  {
    forall i, j :: 0 <= i < j < |keys| ==> keys[i] != keys[j]
  }

  /** A duplicate-free sequence that lists exactly the elements of a set has the set's size. */
  lemma {:induction false} DuplicateFreeListingSize(keys: seq<string>, s: set<string>)
    requires NoDuplicates(keys)
    requires forall i :: 0 <= i < |keys| ==> keys[i] in s
    requires forall k :: k in s ==> k in keys
    ensures |keys| == |s|
  {
    if keys == [] {
      assert forall k :: k !in s;
      assert s == {};
    } else {
      var rest := s - {keys[0]};
      forall i | 0 <= i < |keys[1..]|
        ensures keys[1..][i] in rest
      {
        assert keys[1..][i] == keys[i + 1] != keys[0];
      }
      forall k | k in rest
        ensures k in keys[1..]
      {
        var i :| 0 <= i < |keys| && keys[i] == k;
        assert i != 0;
        assert keys[1..][i - 1] == k;
      }
      DuplicateFreeListingSize(keys[1..], rest);
    }
  }

  class FileStorage {
    /** The records, by identifier. */
    var files: map<string, StoredFile>
    /** The identifiers in the order they were first set: the iteration order of the map. */
    var order: seq<string>

    /** Every record sits under its own id, and `order` lists each key once. */
    ghost predicate Valid()
      reads this
    {
      && (forall k :: k in files ==> files[k].id == k)
      && NoDuplicates(order)
      && (forall i :: 0 <= i < |order| ==> order[i] in files)
      && (forall k :: k in files ==> k in order)
    }

    constructor ()
      ensures Valid()
      ensures files == map[] && order == []
    {
      files := map[];
      order := [];
    }

    /**
     * Stores one file under the supplied identifier. `read` is the outcome of
     * reading the file as a data URL; `None` is a failed read.
     */
    method StoreFile(file: File, metadata: Metadata, read: Option<string>, freshId: string, now: int)
      returns (r: Result<string, string>)
      requires Valid()
      modifies this
      ensures Valid()
      ensures read.None? ==> r == Failure(ReadFailed) && files == old(files) && order == old(order)
      ensures read.Some? ==> r == Success(freshId)
      ensures read.Some? ==> files == old(files)[freshId := NewRecord(freshId, file, read.value, now, metadata)]
      ensures read.Some? ==> GetFile(freshId) == Some(NewRecord(freshId, file, read.value, now, metadata))
      ensures read.Some? ==> order == if freshId in old(files) then old(order) else old(order) + [freshId]
      ensures forall k :: k != freshId ==> GetFile(k) == old(GetFile(k))
    {
      if read.None? {
        return Failure(ReadFailed);
      }
      if freshId !in files {
        order := order + [freshId];
      }
      files := files[freshId := NewRecord(freshId, file, read.value, now, metadata)];
      r := Success(freshId);
    }

    /** The record stored under `id`, or absent. */
    function GetFile(id: string): (r: Option<StoredFile>)
      reads this
      ensures r.Some? <==> id in files
      ensures r.Some? ==> r.value == files[id]
      ensures Valid() && r.Some? ==> r.value.id == id
    {
      if id in files then Some(files[id]) else None
    }

    /** Whether a record is stored under `id`. */
    function FileExists(id: string): (b: bool)
      reads this
      ensures b <==> GetFile(id).Some?
    {
      id in files
    }

    /** Every stored record, once each, in insertion order of the keys. */
    function GetAllFiles(): (all: seq<StoredFile>)
      reads this
      requires Valid()
      ensures |all| == |files| == |order|
      ensures forall i :: 0 <= i < |order| ==> all[i] == files[order[i]]
      ensures forall f :: f in all ==> GetFile(f.id) == Some(f)
      ensures forall k :: k in files ==> files[k] in all
      ensures forall i, j :: 0 <= i < j < |all| ==> all[i].id != all[j].id
    {
      DuplicateFreeListingSize(order, files.Keys);
      var all := seq(|order|, i requires 0 <= i < |order| && order[i] in files reads this => files[order[i]]);
      assert forall k :: k in files ==> files[k] in all by {
        forall k | k in files
          ensures files[k] in all
        {
          var i :| 0 <= i < |order| && order[i] == k;
          assert all[i] == files[k];
        }
      }
      all
    }
  }
}
