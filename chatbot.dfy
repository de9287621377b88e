/**
 * The chat page's own logic: the content parts of a chat-completions request
 * built from the user's text and attachments, the guard against an empty
 * submission, and the list of messages the page keeps between reruns.
 */
module Chatbot {
  import opened Wrappers
  import DataUrl
  import opened Uploads
  import opened ErrorDisplay
  import StreamDecoder

  const PdfMimeType := "application/pdf"
  const UserRole := "user"
  const AssistantRole := "assistant"
  const UserName := "User"
  const AssistantName := "AI Assistant"
  const EmptyInputTitle := "**\U{274C} Error**"
  const EmptyInputMessage := "Please enter a message or upload a file before sending."

  /** One element of the "content" array of the user message. */
  datatype ContentPart =
    | TextPart(text: string)                         // {"type": "text", "text": ...}
    | FilePart(filename: string, fileData: string)   // {"type": "file", "file": {"filename": ..., "file_data": ...}}
    | ImageUrlPart(url: string)                      // {"type": "image_url", "image_url": {"url": ...}}

  /** A message of the page's message list; `files` is absent on assistant messages. */
  datatype ChatMessage = ChatMessage(role: string, content: string, files: Option<seq<UploadedFile>>, name: string, timestamp: string)

  /** is_list_not_empty: a list that is present and has an element. */
  function IsListNotEmpty(list: Option<seq<UploadedFile>>): (r: bool)
    ensures r <==> list != None && list != Some([])
  {
    match list
    case None => false
    case Some(items) => |items| > 0
  }

  /** How a MIME guess reads inside an f-string: an unknown type prints as "None". */
  function MimeText(mimeType: Option<string>): string {
    if mimeType.Some? then mimeType.value else "None"
  }

  /** The data URL of a file, with the MIME type guessed from its name. */
  function FileData(file: UploadedFile, guessType: string -> Option<string>): string {
    DataUrl.Make(MimeText(guessType(file.name)), file.content)
  }

  /** The part for one file: a PDF is sent as a file, anything else as an image. */
  function PartFor(file: UploadedFile, guessType: string -> Option<string>): ContentPart {
    if guessType(file.name) == Some(PdfMimeType) then FilePart(file.name, FileData(file, guessType))
    else ImageUrlPart(FileData(file, guessType))
  }

  function PartsFor(files: seq<UploadedFile>, guessType: string -> Option<string>): seq<ContentPart>
    decreases |files|
  {
    if files == [] then []
    else PartsFor(files[..|files| - 1], guessType) + [PartFor(files[|files| - 1], guessType)]
  }

  function TextParts(text: string): seq<ContentPart> {
    if text != "" then [TextPart(text)] else []
  }

  /** The content parts of the request: the text if any, then one part per file. */
  function InputContent(text: string, files: Option<seq<UploadedFile>>, guessType: string -> Option<string>): seq<ContentPart> {
    TextParts(text) + PartsFor(FileList(files), guessType)
  }

  /** The URL a file part carries. */
  function UrlOf(part: ContentPart): string {
    match part
    case TextPart(_) => ""
    case FilePart(_, fileData) => fileData
    case ImageUrlPart(url) => url
  }

  /**
   * get_input_content: appends a text part when there is text, then a part
   * per file, reading each file's bytes into a base64 data URL.
   */
  method GetInputContent(text: string, files: Option<seq<UploadedFile>>, guessType: string -> Option<string>)
    returns (content: seq<ContentPart>)
    ensures content == InputContent(text, files, guessType)
  {
    content := [];
    if text != "" {
      content := content + [TextPart(text)];
    }
    if IsListNotEmpty(files) {
      var fs := files.value;
      for i := 0 to |fs|
        invariant content == TextParts(text) + PartsFor(fs[..i], guessType)
      {
        assert fs[..i + 1][..i] == fs[..i];
        var mimeType := guessType(fs[i].name);
        var fileData := DataUrl.Make(MimeText(mimeType), fs[i].content);
        if mimeType == Some(PdfMimeType) {
          content := content + [FilePart(fs[i].name, fileData)];
        } else {
          content := content + [ImageUrlPart(fileData)];
        }
      }
      assert fs[..|fs|] == fs;
    }
  }

  lemma {:induction false} PartsForAt(files: seq<UploadedFile>, guessType: string -> Option<string>)
    ensures |PartsFor(files, guessType)| == |files|
    ensures forall i :: 0 <= i < |files| ==> PartsFor(files, guessType)[i] == PartFor(files[i], guessType)
    decreases |files|
  {
    if files != [] {
      var init := files[..|files| - 1];
      PartsForAt(init, guessType);
      assert forall i :: 0 <= i < |init| ==> init[i] == files[i];
    }
  }

  /** What the part for one file says about it. */
  ghost predicate CarriesFile(part: ContentPart, file: UploadedFile, guessType: string -> Option<string>) {
    && (part.FilePart? <==> guessType(file.name) == Some(PdfMimeType))
    && (part.FilePart? ==> part.filename == file.name)
    && (part.ImageUrlPart? <==> !part.FilePart?)
    && DataUrl.Parse(UrlOf(part)) == Some((MimeText(guessType(file.name)), file.content))
  }

  /**
   * A file whose guessed type is application/pdf becomes a file part under
   * its own name, any other an image part; either carries a data URL that
   * gives back the guessed type and the file's exact bytes.
   */
  lemma PartForCarriesFile(file: UploadedFile, guessType: string -> Option<string>)
    ensures CarriesFile(PartFor(file, guessType), file, guessType)
  {
    DataUrl.ParseMake(MimeText(guessType(file.name)), file.content);
  }

  /**
   * The request starts with a text part exactly when the text is non-empty,
   * followed by exactly one part per file, in the order given, each carrying
   * its file.
   */
  lemma InputContentParts(text: string, files: Option<seq<UploadedFile>>, guessType: string -> Option<string>)
    ensures var content := InputContent(text, files, guessType);
      var offset := if text != "" then 1 else 0;
      && |content| == offset + |FileList(files)|
      && (text != "" <==> |content| > 0 && content[0] == TextPart(text))
      && forall i :: 0 <= i < |FileList(files)| ==> CarriesFile(content[offset + i], FileList(files)[i], guessType)
  {
    var fs := FileList(files);
    var content := InputContent(text, files, guessType);
    var offset := if text != "" then 1 else 0;
    PartsForAt(fs, guessType);
    forall i | 0 <= i < |fs| ensures CarriesFile(content[offset + i], fs[i], guessType) {
      assert content[offset + i] == PartsFor(fs, guessType)[i];
      PartForCarriesFile(fs[i], guessType);
    }
    if text == "" && |content| > 0 {
      assert content[0] == PartFor(fs[0], guessType);
    }
  }

  /**
   * is_list_not_empty, applied to the uploaded files, holds exactly when the
   * request gets at least one file part.
   */
  lemma FileGuardMeansFileParts(files: Option<seq<UploadedFile>>, guessType: string -> Option<string>)
    ensures IsListNotEmpty(files) <==> |PartsFor(FileList(files), guessType)| > 0
  {
    PartsForAt(FileList(files), guessType);
  }

  /**
   * The guard at the top of the submission handler: a submission with no text
   * and no file is refused with an error box and no request is built; a
   * request that is built is never empty.
   */
  function CheckSubmission(text: string, files: Option<seq<UploadedFile>>, guessType: string -> Option<string>)
    : (r: Result<seq<ContentPart>, string>)
    ensures r.Failure? <==> text == "" && !IsListNotEmpty(files)
    ensures r.Failure? ==> r.error == ErrorText(EmptyInputTitle, "", EmptyInputMessage)
    ensures r.Success? ==> |r.value| > 0 && r.value == InputContent(text, files, guessType)
  {
    if text == "" && !IsListNotEmpty(files) then Failure(ErrorText(EmptyInputTitle, "", EmptyInputMessage))
    else
      PartsForAt(FileList(files), guessType);
      Success(InputContent(text, files, guessType))
  }

  /** The page's session state: the list of messages shown on every rerun. */
  class ChatSession {
    var messages: seq<ChatMessage>

    constructor ()
      ensures messages == []
    {
      messages := [];
    }

    /**
     * Handles a submission: refuses an empty one, leaving the list as it was;
     * otherwise records the user's message and returns the request content.
     */
    method SubmitUserInput(text: string, files: Option<seq<UploadedFile>>, guessType: string -> Option<string>, timestamp: string)
      returns (request: Result<seq<ContentPart>, string>)
      modifies this
      ensures request == CheckSubmission(text, files, guessType)
      ensures request.Failure? ==> messages == old(messages)
      ensures request.Success? ==> messages == old(messages) + [ChatMessage(UserRole, text, files, UserName, timestamp)]
    {
      if text == "" && !IsListNotEmpty(files) {
        var msg := DisplayErrorMessage(EmptyInputTitle, "", EmptyInputMessage);
        request := Failure(msg);
      } else {
        var content := GetInputContent(text, files, guessType);
        messages := messages + [ChatMessage(UserRole, text, files, UserName, timestamp)];
        request := Success(content);
      }
    }

    /**
     * generate_assistant_response: reads the whole body and then appends
     * exactly one assistant message holding the reply, whether or not the
     * body ended with [DONE]. Returns what was shown while reading.
     */
    method GenerateAssistantResponse(lines: seq<string>, parse: string -> StreamDecoder.Frame, timestamp: string)
      returns (events: seq<StreamDecoder.Event>)
      modifies this
      ensures events == StreamDecoder.Decode(lines, parse).events
      ensures messages == old(messages) + [ChatMessage(AssistantRole, StreamDecoder.Decode(lines, parse).text, None, AssistantName, timestamp)]
    {
      var text, shown, _ := StreamDecoder.DecodeStream(lines, parse);
      events := shown;
      messages := messages + [ChatMessage(AssistantRole, text, None, AssistantName, timestamp)];
    }
  }
}
