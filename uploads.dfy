/** Files handed over by the chat input widget. */
module Uploads {
  import opened Wrappers
  import Base64

  /** An uploaded file: its name, the MIME type the browser reported, and its bytes. */
  datatype UploadedFile = UploadedFile(name: string, mimeType: string, content: seq<Base64.byte>)

  /** The files of an optional list; none when it is absent (Python's None). */
  function FileList(files: Option<seq<UploadedFile>>): seq<UploadedFile> {
    if files.Some? then files.value else []
  }
}
