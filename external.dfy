/**
 * The external collaborators of the pipelines, reduced to what the code observes of them:
 * HTTP status codes and bodies, the generative model's reply, and the object store's
 * answer to an upload. Each is an oracle function in `Web`; every pipeline also returns
 * the list of external calls it made, in order.
 */
module External {
  import opened Wrappers

  /** Model identifiers passed to `client.models.generate_content`. */
  const ProModel := "gemini-2.5-pro-preview-03-25"
  const ThinkingModel := "gemini-2.5-flash-preview-04-17-thinking"
  const ValidatorModel := "gemini-1.5-pro"
  const ImageModel := "gemini-2.0-flash-exp-image-generation"

  /** The value of `part.inline_data.data`: image bytes, or some other Python value. */
  datatype ImageData = Bytes(content: seq<bv8>) | NotBytes(truthy: bool) {
    /** `if not data:` */
    predicate Truthy() {
      match this
      case Bytes(content) => content != []
      case NotBytes(truthy) => truthy
    }
  }

  /** One part of the first candidate of an image-generation reply; `inline_data` may be `None`. */
  datatype Part = Part(inlineData: Option<ImageData>)

  /** The object store's answer to `upload`: success, a returned `StorageException`, or a raised exception. */
  datatype UploadReply = Uploaded | StorageError | UploadRaised

  /** The ingredient-search endpoint's reply: its status and the `name` of each entry of `results`. */
  datatype SearchReply = SearchReply(status: int, resultNames: seq<string>)

  /** A streamed download: a response (status, content) or a `requests.RequestException` before one. */
  datatype DownloadReply = Downloaded(status: int, content: seq<bv8>) | ConnectionFailed

  /** The text-generation reply: `response.text`, or the message of the exception the call raised. */
  datatype ModelReply = Reply(text: string) | CallFailed(message: string)

  /** The outside world seen by the image pipelines. */
  datatype Web = Web(
    get: string -> int,                               // status of `requests.get(url)`
    search: string -> SearchReply,                    // `requests.get(search_url)` decoded
    download: string -> DownloadReply,                // `requests.get(url, stream=True)`
    generate: (string, string) -> seq<Part>,          // parts for (model, prompt)
    upload: (string, string, ImageData) -> UploadReply)  // (bucket, key, data)

  /** One external call, as recorded in a pipeline's trace. */
  datatype Call =
    | HttpGet(url: string)
    | StreamedGet(url: string)
    | GenerateContent(model: string, prompt: string)
    | StorageUpload(bucket: string, key: string, data: ImageData)

  /** The public URL of an object: `{SUPABASE_URL}/storage/v1/object/public/{bucket}/{key}`. */
  function PublicUrl(base: string, bucket: string, key: string): string {
    base + "/storage/v1/object/public/" + bucket + "/" + key
  }

  /** The data of the first part that carries inline data, if any. */
  function FirstInline(parts: seq<Part>): (d: Option<ImageData>)
    ensures d.None? <==> forall i :: 0 <= i < |parts| ==> parts[i].inlineData.None?
    ensures d.Some? ==> exists i :: 0 <= i < |parts| && parts[i].inlineData == d
                                    && forall j :: 0 <= j < i ==> parts[j].inlineData.None?
  {
    if parts == [] then None
    else if parts[0].inlineData.Some? then parts[0].inlineData
    else FirstInline(parts[1..])
  }

  /** The `for part in parts` loop of both image generators: return the first inline data. */
  method FirstInlineData(parts: seq<Part>) returns (data: Option<ImageData>)
    ensures data == FirstInline(parts)
  {
    for i := 0 to |parts|
      invariant FirstInline(parts[i..]) == FirstInline(parts)
    {
      if parts[i].inlineData.Some? {
        return parts[i].inlineData;
      }
      assert parts[i..][1..] == parts[i + 1..];
    }
    return None;
  }
}
