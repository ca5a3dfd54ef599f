/**
 * The viewer page: resolves the route's file id against the store, picks the
 * screen to show, chooses a rendering mode from the MIME type, and builds the
 * download link.
 */
module Viewer {
  import opened Wrappers
  import opened Storage

  /** The four fields of a record that the viewer keeps in its `file` state. */
  datatype FileView = FileView(id: string, name: string, mimeType: string, data: string)

  /** What resolving a route id against the store gives. */
  datatype Lookup = NoFileId | NotFound | Found(view: FileView)

  const NoIdMessage := "No file ID provided"
  const NotFoundMessage := "File not found"

  /** The viewer's copy of a stored record. */
  function ViewOf(rec: StoredFile): FileView
  {
    FileView(rec.id, rec.name, rec.mimeType, rec.data)
  }

  /**
   * How the page's load step resolves `fileId`: a missing or empty id is
   * refused before any lookup, an unknown id is not found, and a known id
   * yields a copy of the record's fields.
   */
  function ResolveFileId(fileId: Option<string>, files: map<string, StoredFile>): (r: Lookup)
    ensures r == NoFileId <==> Falsy(fileId)
    ensures r == NotFound <==> !Falsy(fileId) && fileId.value !in files
    ensures r.Found? <==> !Falsy(fileId) && fileId.value in files
    ensures r.Found? ==> r.view == ViewOf(files[fileId.value])
  {
    if Falsy(fileId) then NoFileId
    else if fileId.value !in files then NotFound
    else Found(ViewOf(files[fileId.value]))
  }

  /** Case-sensitive prefix test, as `String.prototype.startsWith`. */
  predicate StartsWith(s: string, prefix: string)
  {
    |prefix| <= |s| && s[..|prefix|] == prefix
  }

  predicate IsImage(mimeType: string) { StartsWith(mimeType, "image/") }
  predicate IsPdf(mimeType: string) { mimeType == "application/pdf" }
  predicate IsVideo(mimeType: string) { StartsWith(mimeType, "video/") }
  predicate IsAudio(mimeType: string) { StartsWith(mimeType, "audio/") }

  /** No MIME type satisfies two of the four preview tests. */
  lemma PreviewTestsExclusive(mimeType: string)
    ensures !(IsImage(mimeType) && IsPdf(mimeType))
    ensures !(IsImage(mimeType) && IsVideo(mimeType))
    ensures !(IsImage(mimeType) && IsAudio(mimeType))
    ensures !(IsPdf(mimeType) && IsVideo(mimeType))
    ensures !(IsPdf(mimeType) && IsAudio(mimeType))
    ensures !(IsVideo(mimeType) && IsAudio(mimeType))
  {
    if |mimeType| >= 2 {
      assert IsImage(mimeType) ==> mimeType[0] == 'i';
      assert IsVideo(mimeType) ==> mimeType[0] == 'v';
      assert IsAudio(mimeType) ==> mimeType[..2] == "au";
      assert IsPdf(mimeType) ==> mimeType[..2] == "ap";
    }
  }

  /** One content block of the page. */
  datatype Block =
    | InlineImage(src: string)
    | PdfFrame(src: string)
    | VideoPlayer(src: string)
    | AudioPlayer(src: string)
    | CannotPreview

  /**
   * The content blocks of the page, in page order: each preview block is
   * rendered under its own test, and the download prompt when none holds.
   */
  function ContentBlocks(mimeType: string, data: string): seq<Block>
  {
    var image := IsImage(mimeType);
    var pdf := IsPdf(mimeType);
    var video := IsVideo(mimeType);
    var audio := IsAudio(mimeType);
    (if image then [InlineImage(data)] else [])
    + (if pdf then [PdfFrame(data)] else [])
    + (if video then [VideoPlayer(data)] else [])
    + (if audio then [AudioPlayer(data)] else [])
    + (if !image && !pdf && !video && !audio then [CannotPreview] else [])
  }

  /** The rendering mode of a MIME type. */
  datatype RenderMode = ImageMode | PdfMode | VideoMode | AudioMode | DownloadOnly

  /** Each mode is chosen exactly when its own test holds. */
  function Classify(mimeType: string): (m: RenderMode)
    ensures m == ImageMode <==> IsImage(mimeType)
    ensures m == PdfMode <==> IsPdf(mimeType)
    ensures m == VideoMode <==> IsVideo(mimeType)
    ensures m == AudioMode <==> IsAudio(mimeType)
    ensures m == DownloadOnly <==> !IsImage(mimeType) && !IsPdf(mimeType) && !IsVideo(mimeType) && !IsAudio(mimeType)
  {
    PreviewTestsExclusive(mimeType);
    if IsImage(mimeType) then ImageMode
    else if IsPdf(mimeType) then PdfMode
    else if IsVideo(mimeType) then VideoMode
    else if IsAudio(mimeType) then AudioMode
    else DownloadOnly
  }

  /** The single block a rendering mode shows for `data`. */
  function BlockFor(m: RenderMode, data: string): Block
  {
    match m
    case ImageMode => InlineImage(data)
    case PdfMode => PdfFrame(data)
    case VideoMode => VideoPlayer(data)
    case AudioMode => AudioPlayer(data)
    case DownloadOnly => CannotPreview
  }

  /** Exactly one content block renders: the one of the type's mode. */
  lemma ExactlyOneBlock(mimeType: string, data: string)
    ensures ContentBlocks(mimeType, data) == [BlockFor(Classify(mimeType), data)]
  {
  }

  /** The whole page: an error, the loading notice, or the file's title and content. */
  datatype Screen = ErrorScreen(message: string) | Loading | FileScreen(title: string, blocks: seq<Block>)

  /** The anchor `handleDownload` clicks: its target and download name. */
  datatype Anchor = Anchor(href: string, download: string)

  class FileViewer {
    /** The copied record, null until a lookup succeeds. */
    var file: Option<FileView>
    /** The error message, null until a lookup fails. */
    var error: Option<string>

    constructor ()
      ensures file == None && error == None
    {
      file := None;
      error := None;
    }

    /**
     * The load step run for the route's `fileId`. It sets either the error
     * or the file and leaves the other as it was.
     */
    method LoadFile(fileId: Option<string>, storage: FileStorage)
      modifies this
      ensures match ResolveFileId(fileId, storage.files)
              case NoFileId => error == Some(NoIdMessage) && file == old(file)
              case NotFound => error == Some(NotFoundMessage) && file == old(file)
              case Found(v) => file == Some(v) && error == old(error)
    {
      if Falsy(fileId) {
        error := Some(NoIdMessage);
        return;
      }
      var storedFile := storage.GetFile(fileId.value);
      if storedFile.None? {
        error := Some(NotFoundMessage);
        return;
      }
      file := Some(ViewOf(storedFile.value));
    }

    /**
     * The screen shown: a non-empty error wins, then "loading" while there
     * is no file, and otherwise the file with exactly one content block.
     */
    function Render(): (s: Screen)
      reads this
      ensures s.ErrorScreen? <==> !Falsy(error)
      ensures s.ErrorScreen? ==> s.message == error.value
      ensures s == Loading <==> Falsy(error) && file.None?
      ensures s.FileScreen? ==> file.Some? && s.title == file.value.name
      ensures s.FileScreen? ==> s.blocks == [BlockFor(Classify(file.value.mimeType), file.value.data)]
    {
      if !Falsy(error) then ErrorScreen(error.value)
      else if file.None? then Loading
      else
        ExactlyOneBlock(file.value.mimeType, file.value.data);
        FileScreen(file.value.name, ContentBlocks(file.value.mimeType, file.value.data))
    }

    /** The download anchor: none without a file, else the data URL under the file's name. */
    method HandleDownload() returns (link: Option<Anchor>)
      ensures file.None? ==> link == None
      ensures file.Some? ==> link == Some(Anchor(file.value.data, file.value.name))
    {
      if file.None? {
        return None;
      }
      link := Some(Anchor(file.value.data, file.value.name));
    }
  }
}
