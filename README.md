# Shareable file embedder — a Dafny model

This project models the core of a browser file-sharing page. A user drops or picks a
file; the page reads it as a data URL and stores it in a process-local in-memory store
under a generated identifier; the page shows the shareable link `<origin>/view/<id>`
and copies it on request; the viewer page resolves the id from its route against the
store and shows the file inline (image, PDF, video, audio) or offers it for download.

Modules:

- `Wrappers` (`wrappers.dfy`): `Option`, `Result`, and `Falsy`, the JavaScript falsiness
  of a `string | null` value (null or the empty string), which the source's `!fileId`
  and `!uploadedFileId` guards test.
- `Storage` (`file_storage.dfy`): the `StoredFile` record and the `FileStorage` class.
  Its `files` map is the store; its `order` field lists the keys in the order they were
  first set, which is the iteration order of a JavaScript `Map` and so the order of
  `getAllFiles`. `Valid()` keeps every record under its own id and `order` a
  duplicate-free listing of the keys. `StoreFile` takes the read outcome
  (`Option<string>`: the data URL, or a failed read), the generated id and the current
  time as parameters.
- `Viewer` (`file_viewer.dfy`): `ResolveFileId`, the decision of the load step; the
  four MIME tests and the content blocks they select; the `FileViewer` class with its
  `file` and `error` state, the load step `LoadFile`, the screen `Render`, and
  `HandleDownload`.
- `Uploader` (`file_uploader.dfy`): `ShareableLink`, the first-file rule for drop and
  picker, and the `FileUploader` class with its `isUploading`, `uploadedFileId` and
  `copied` state; each handler is one sequential step whose asynchronous outcomes
  (read result, clipboard result) are parameters.
- `Sharing` (`sharing.dfy`): the whole flow, upload then link then viewer, and two
  scenarios (a plain-text file and a JPEG). The round trip holds only when the viewer
  reads the same in-memory store object the uploader wrote to. The store is a
  module-level singleton that lives as long as the page, and the uploader only shows and
  copies the link; it never navigates to it. Opening the copied link loads a new page
  whose store is empty, so the viewer there shows "File not found". `NewPageCannotFind`
  states this.

Points where the model follows the code rather than the intended design:

- Identifiers are meant never to collide, but the code performs no
  collision check, so `StoreFile` overwrites an existing entry at the supplied id
  (the key keeps its original place in `order`), and nothing in the model assumes
  the ids are distinct.
- The load step never clears a previous `error` or `file`: a failed lookup leaves
  `file` as it was, and a successful one leaves `error` as it was, so an earlier error
  keeps winning on the screen. `LoadFile` states exactly this.
- An empty id counts as "no file ID provided", and an empty uploaded id disables the
  copy, because the source tests these strings for falsiness.

## Model

| member | source | states |
|---|---|---|
| `Storage.FileStorage.constructor` | src/lib/fileStorage.ts:17 | A new store is empty and satisfies the store invariant. |
| `Storage.FileStorage.StoreFile` | src/lib/fileStorage.ts:26-57 | A failed read rejects with "Failed to read file" and leaves the store unchanged; a successful read returns the supplied id, after which `GetFile(id)` is the record built from the file's name, type and size, the read data, the time and the metadata as given; every other id maps as before; an existing entry at the id is overwritten; the invariant is kept. |
| `Storage.FileStorage.GetFile` | src/lib/fileStorage.ts:60-62 | The lookup is present exactly when the id is a key, is then the stored record, and under the invariant carries that same id; an unknown id gives absence. |
| `Storage.FileStorage.FileExists` | src/lib/fileStorage.ts:65-67 | True exactly when `GetFile` returns a record. |
| `Storage.FileStorage.GetAllFiles` | src/lib/fileStorage.ts:70-72 | One record per key, listed in the order the keys were first set (the map's iteration order), ids pairwise distinct, every stored record listed, and every listed record is the one stored under its id. |
| `Storage.DuplicateFreeListingSize` | src/lib/fileStorage.ts:70-72 | A duplicate-free listing of a key set has exactly as many entries as the set: why the list of all files has one entry per key. |
| `Viewer.ResolveFileId` | src/components/FileViewer.tsx:19-37 | A missing or empty id gives "no id" before any lookup; otherwise an unknown id gives "not found", and a known id gives a copy of the record's id, name, type and data. |
| `Viewer.PreviewTestsExclusive` | src/components/FileViewer.tsx:73-76 | No MIME type passes two of the tests "starts with image/", "is application/pdf", "starts with video/", "starts with audio/". |
| `Viewer.Classify` | src/components/FileViewer.tsx:73-76 | Each rendering mode is chosen exactly when its own test holds, and download-only exactly when none holds. |
| `Viewer.ExactlyOneBlock` | src/components/FileViewer.tsx:86-132 | The page renders exactly one content block, the one of the type's mode, whose source is the file data; the "cannot be previewed" block appears only when no test holds. |
| `Viewer.FileViewer.constructor` | src/components/FileViewer.tsx:11-17 | A fresh viewer has neither file nor error. |
| `Viewer.FileViewer.LoadFile` | src/components/FileViewer.tsx:19-37 | No id sets the error "No file ID provided"; an unknown id sets "File not found"; in both cases `file` keeps its value. A known id sets `file` to the record's four fields and keeps `error`. |
| `Viewer.FileViewer.Render` | src/components/FileViewer.tsx:50-132 | A non-empty error wins and shows its message; otherwise the loading notice shows exactly while there is no file; otherwise the file's name and exactly one content block of its mode. |
| `Viewer.FileViewer.HandleDownload` | src/components/FileViewer.tsx:39-48 | Nothing without a file; otherwise an anchor whose target is the file data and whose download name is the file name. |
| `Uploader.ShareableLink` | src/components/FileUploader.tsx:26-28 | The link is the origin, then `/view/`, then exactly the id, and nothing else. |
| `Uploader.ShareableLinkInjective` | src/components/FileUploader.tsx:26-28 | On one origin, equal links mean equal ids: the id can be recovered from the link. |
| `Uploader.FirstFile` | src/components/FileUploader.tsx:34-36 | A drop uploads nothing when the list is empty and otherwise only the first file. |
| `Uploader.PickedFile` | src/components/FileUploader.tsx:40-42 | A picker change uploads nothing when the list is null or empty and otherwise only the first file. |
| `Uploader.FileUploader.constructor` | src/components/FileUploader.tsx:11-14 | A fresh uploader is not uploading, has no uploaded id and has not copied. |
| `Uploader.FileUploader.HandleFileUpload` | src/components/FileUploader.tsx:45-64 | After the step `isUploading` is false whatever the outcome; on success the record, stored with no author and no author icon, is in the store, a new id joins the end of the key order, and `uploadedFileId` is its id; on failure the store and `uploadedFileId` are unchanged; `copied` is untouched. |
| `Uploader.FileUploader.HandleDrop` | src/components/FileUploader.tsx:30-37 | An empty drop changes nothing; otherwise the step is the upload of the first file. |
| `Uploader.FileUploader.HandleFileChange` | src/components/FileUploader.tsx:39-43 | A null or empty selection changes nothing; otherwise the step is the upload of the first file. |
| `Uploader.FileUploader.CopyToClipboard` | src/components/FileUploader.tsx:66-86 | With no (or an empty) uploaded id nothing is written and nothing changes; otherwise the shareable link of that id is written; only a clipboard success sets `copied`, and a failure leaves it as it was. |
| `Sharing.ShareRoundTrip` | src/components/FileUploader.tsx:30-49 | Over any valid store, even one that already holds uploads or an entry at the new id: dropping a file whose read succeeds, copying its link, and loading a viewer over the same store object on the id read back from the link gives the link `origin/view/id`; the store then holds, under that id, the record built from the file and the read data with no author fields; the viewer's copy is that record's id, name, exact MIME type and data; and the screen shows the file's name and the single content block of its type over the same data. This assumes the viewer shares the uploader's store. |
| `Sharing.NewPageCannotFind` | src/lib/fileStorage.ts:76 | A viewer over a new, empty store, which is what a freshly opened link gets, shows the "File not found" error for any non-empty id. |
| `Sharing.PlainTextIsDownloadOnly` | src/components/FileViewer.tsx:122-132 | A `text/plain` file renders only the "cannot be previewed" block. |
| `Sharing.JpegRendersInline` | src/components/FileViewer.tsx:86-92 | An `image/jpeg` file renders only an inline image whose source is the stored data. |

## Left out

- Identifier generation (`generateId`, two base-36 fragments of `Math.random()`): floating point and randomness; the id is a parameter of `StoreFile`, and the model makes no claim that ids are distinct.
- Reading the file as an RFC 2397 data URL (`FileReader.readAsDataURL`): a browser foreign call; its outcome is a parameter, `Some` with the opaque result or `None` for a non-string result or an error event. Encoding and decoding of the data URL are not modelled.
- `createdAt: new Date()`: the clock; the time is a parameter stored as an opaque integer.
- Promises, React hooks and re-render timing: each handler is one sequential step. The intermediate `isUploading == true` state, seen by renders while the read is pending, is set and cleared inside `HandleFileUpload` but is not observable in the model.
- Navigation between the uploader and the viewer: the link is only shown and copied. The round trip in `Sharing` gives the viewer the uploader's store object; a page opened from the link has a new, empty store (`NewPageCannotFind`).
- Route matching (`/view/:fileId`) is done by the application's router, which is not part of this model; the viewer receives the id directly.
- The `setTimeout` that clears `copied` after 2000 ms, the toasts, `console.error`, the clipboard API and `window.location`: the clipboard outcome and the origin are parameters.
- The `isDragging` flag and the drag-over and drag-leave handlers: visual feedback only.
- DOM work in `handleDownload` beyond the anchor's target and download name (append, click, remove), and all JSX markup, styling and the static link-preview mock.
- The page layout and DOM bootstrap files hold no logic and are not modelled.
