/** The whole sharing flow: upload a file, build its link, open the viewer on its id. */
module Sharing {
  import opened Wrappers
  import opened Storage
  import opened Viewer
  import opened Uploader

  /**
   * Over a store that may already hold uploads (even one at `freshId`, which
   * is overwritten): dropping one file whose read succeeds, copying its link,
   * and loading a viewer over the SAME store on the id read back from the link
   * gives the viewer a copy of exactly the stored record, which it renders.
   * The id must be non-empty, as the viewer refuses an empty id.
   */
  method ShareRoundTrip(origin: string, storage: FileStorage, file: File, data: string, freshId: string, now: int)
    returns (link: string, viewer: FileViewer)
    requires storage.Valid()
    requires freshId != ""
    modifies storage
    ensures storage.Valid()
    ensures link == origin + ViewPath + freshId
    ensures storage.GetFile(freshId) == Some(NewRecord(freshId, file, data, now, NoMetadata))
    ensures viewer.file == Some(FileView(freshId, file.name, file.mimeType, data))
    ensures viewer.Render() == FileScreen(file.name, [BlockFor(Classify(file.mimeType), data)])
  {
    var uploader := new FileUploader(origin, storage);
    uploader.HandleDrop([file], Some(data), freshId, now);
    var written := uploader.CopyToClipboard(true);
    link := written.value;
    viewer := new FileViewer();
    viewer.LoadFile(Some(link[|origin| + |ViewPath|..]), storage);
  }

  /**
   * Opening a link in a new page: the store there is a new, empty one, so any
   * non-empty id is not found and the page shows the "File not found" error.
   */
  method NewPageCannotFind(fileId: string) returns (screen: Screen)
    requires fileId != ""
    ensures screen == ErrorScreen(NotFoundMessage)
  {
    var storage := new FileStorage();
    var viewer := new FileViewer();
    viewer.LoadFile(Some(fileId), storage);
    screen := viewer.Render();
  }

  /** A plain-text upload cannot be previewed and is offered for download. */
  lemma PlainTextIsDownloadOnly(data: string)
    ensures ContentBlocks("text/plain", data) == [CannotPreview]
  {
  }

  /** A JPEG renders inline, its source being the stored data. */
  lemma JpegRendersInline(data: string)
    ensures ContentBlocks("image/jpeg", data) == [InlineImage(data)]
  {
  }
}
