/**
 * The upload page: picks the first file of a drop or a picker selection,
 * stores it, tracks the uploading / uploaded-id / copied state, and builds
 * and copies the shareable link.
 */
module Uploader {
  import opened Wrappers
  import opened Storage

  /** The path segment that precedes the id in a shareable link. */
  const ViewPath := "/view/"

  /** The shareable link: the origin, then `/view/`, then the id. */
  function ShareableLink(origin: string, fileId: string): (link: string)
    ensures |link| == |origin| + |ViewPath| + |fileId|
    ensures link[..|origin|] == origin
    ensures link[|origin|..|origin| + |ViewPath|] == ViewPath
    ensures link[|origin| + |ViewPath|..] == fileId
  {
    origin + ViewPath + fileId
  }

  /** On one origin, distinct ids give distinct links. */
  lemma ShareableLinkInjective(origin: string, a: string, b: string)
    requires ShareableLink(origin, a) == ShareableLink(origin, b)
    ensures a == b
  {
  }

  /** The file a drop uploads: the first of the list, none when it is empty. */
  function FirstFile(files: seq<File>): (f: Option<File>)
    ensures f.None? <==> files == []
    ensures f.Some? ==> f.value == files[0]
  {
    if |files| > 0 then Some(files[0]) else None
  }

  /** The file a picker change uploads: as a drop, and none when the list is null. */
  function PickedFile(files: Option<seq<File>>): (f: Option<File>)
    ensures f.None? <==> files.None? || files.value == []
    ensures f.Some? ==> f == FirstFile(files.value)
  {
    if files.Some? then FirstFile(files.value) else None
  }

  class FileUploader {
    /** The page origin the links are built on. */
    const origin: string
    /** The store uploads go to. */
    const storage: FileStorage
    var isUploading: bool
    var uploadedFileId: Option<string>
    var copied: bool

    constructor (origin: string, storage: FileStorage)
      ensures this.origin == origin && this.storage == storage
      ensures !isUploading && uploadedFileId == None && !copied
    {
      this.origin := origin;
      this.storage := storage;
      isUploading := false;
      uploadedFileId := None;
      copied := false;
    }

    /**
     * The state after one upload of `file` with no metadata: the uploading
     * flag is down again; on a successful read the record is stored under
     * `freshId` and that id is remembered; on a failed read neither the store
     * nor the remembered id changes. A new id joins the end of the store's key order. `copied` is not touched.
     */
    twostate predicate UploadFinished(file: File, read: Option<string>, freshId: string, now: int)
      reads this, storage
    {
      && !isUploading
      && copied == old(copied)
      && (read.Some? ==>
            && uploadedFileId == Some(freshId)
            && storage.files == old(storage.files)[freshId := NewRecord(freshId, file, read.value, now, NoMetadata)]
            && storage.files[freshId].author.None?
            && storage.files[freshId].authorIcon.None?
            && storage.order == if freshId in old(storage.files) then old(storage.order) else old(storage.order) + [freshId])
      && (read.None? ==>
            && uploadedFileId == old(uploadedFileId)
            && storage.files == old(storage.files)
            && storage.order == old(storage.order))
    }

    /** Uploads one file; `read` is the outcome of reading it and `freshId` the generated id. */
    method HandleFileUpload(file: File, read: Option<string>, freshId: string, now: int)
      requires storage.Valid()
      modifies this, storage
      ensures storage.Valid()
      ensures UploadFinished(file, read, freshId, now)
    {
      isUploading := true;
      var r := storage.StoreFile(file, NoMetadata, read, freshId, now);
      if r.Success? {
        uploadedFileId := Some(r.value);
      }
      isUploading := false;
    }

    /** A drop: uploads the first dropped file, and does nothing when none was dropped. */
    method HandleDrop(files: seq<File>, read: Option<string>, freshId: string, now: int)
      requires storage.Valid()
      modifies this, storage
      ensures storage.Valid()
      ensures files == [] ==> unchanged(this, storage)
      ensures files != [] ==> UploadFinished(files[0], read, freshId, now)
    {
      var first := FirstFile(files);
      if first.Some? {
        HandleFileUpload(first.value, read, freshId, now);
      }
    }

    /** A picker change: uploads the first chosen file, and does nothing on a null or empty list. */
    method HandleFileChange(files: Option<seq<File>>, read: Option<string>, freshId: string, now: int)
      requires storage.Valid()
      modifies this, storage
      ensures storage.Valid()
      ensures PickedFile(files).None? ==> unchanged(this, storage)
      ensures PickedFile(files).Some? ==> UploadFinished(PickedFile(files).value, read, freshId, now)
    {
      var picked := PickedFile(files);
      if picked.Some? {
        HandleFileUpload(picked.value, read, freshId, now);
      }
    }

    /**
     * Copies the link of the uploaded file. Returns the text handed to the
     * clipboard, none when there is no (non-empty) uploaded id; `clipboardOk`
     * is the clipboard's outcome. Only a successful write sets `copied`.
     */
    method CopyToClipboard(clipboardOk: bool) returns (written: Option<string>)
      modifies this`copied
      ensures Falsy(uploadedFileId) ==> written == None && copied == old(copied)
      ensures !Falsy(uploadedFileId) ==> written == Some(ShareableLink(origin, uploadedFileId.value))
      ensures !Falsy(uploadedFileId) && clipboardOk ==> copied
      ensures !clipboardOk ==> copied == old(copied)
    {
      if Falsy(uploadedFileId) {
        return None;
      }
      var link := ShareableLink(origin, uploadedFileId.value);
      written := Some(link);
      if clipboardOk {
        copied := true;
      }
    }
  }
}
