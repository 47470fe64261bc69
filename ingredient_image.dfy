/**
 * The ingredient-image pipeline: a store lookup under a space-to-underscore key, then a
 * Spoonacular image whose link must answer 200 and whose bytes are copied into the store,
 * then image generation with an upload that may fail silently.
 */
module IngredientImage {
  import opened Wrappers
  import opened Text
  import opened External

  /** `SUPABASE_BUCKET_INGREDIENTS`, also the literal passed to `from_`. */
  const IngredientBucket := "ingredients"

  const SearchEndpoint := "https://api.spoonacular.com/food/ingredients/search?query="
  const CdnPrefix := "https://spoonacular.com/cdn/ingredients_100x100/"

  /**
   * The storage key: the name with every space turned into `_`, then `.png`; nothing else
   * of the name changes (no case folding, no punctuation removal).
   */
  function IngredientFileName(name: string): (r: string)
    ensures |r| == |name| + 4 && r[|name|..] == ".png"
    ensures forall i :: 0 <= i < |name| ==> r[i] == (if name[i] == ' ' then '_' else name[i])
  {
    ReplaceChar(name, ' ', '_');
    ReplaceAll(name, " ", "_") + ".png"
  }

  /** A name without spaces is its own key body. */
  lemma FileNameWithoutSpaces(name: string)
    requires forall i :: 0 <= i < |name| ==> name[i] != ' '
    ensures IngredientFileName(name) == name + ".png"
  {
    var r := IngredientFileName(name);
    assert r[..|name|] == name;
    assert r == r[..|name|] + r[|name|..];
  }

  /** A space and an underscore in the same place give the same key. */
  lemma SpaceUnderscoreCollide(x: string, y: string)
    ensures IngredientFileName(x + " " + y) == IngredientFileName(x + "_" + y)
  {
    var a, b := IngredientFileName(x + " " + y), IngredientFileName(x + "_" + y);
    assert forall i :: 0 <= i < |a| ==> a[i] == b[i];
  }

  /** The public URL under which the ingredient's image is both looked up and published. */
  function IngredientUrl(base: string, name: string): string {
    PublicUrl(base, IngredientBucket, IngredientFileName(name))
  }

  /** The Spoonacular search request for the name. */
  function SearchUrl(name: string, apiKey: string): string {
    SearchEndpoint + name + "&apiKey=" + apiKey
  }

  /** The CDN file name of a search result: spaces become `-`, then lower case. */
  function CdnName(resultName: string): (m: string)
    ensures |m| == |resultName|
    ensures forall i :: 0 <= i < |m| ==> m[i] == LowerChar(if resultName[i] == ' ' then '-' else resultName[i])
    ensures forall i :: 0 <= i < |m| ==> m[i] != ' ' && !IsUpper(m[i])
  {
    ReplaceChar(resultName, ' ', '-');
    Lower(ReplaceAll(resultName, " ", "-"))
  }

  /** The CDN image URL of a search result. */
  function CdnImageUrl(resultName: string): string {
    CdnPrefix + CdnName(resultName) + ".jpg"
  }

  /** The candidate image of a search reply: status 200 and a non-empty `results`, first result's name. */
  function SpoonacularCandidate(reply: SearchReply): (u: Option<string>)
    ensures u.Some? <==> reply.status == 200 && reply.resultNames != []
    ensures u.Some? ==> u.value == CdnImageUrl(reply.resultNames[0])
  {
    if reply.status == 200 && reply.resultNames != [] then Some(CdnImageUrl(reply.resultNames[0])) else None
  }

  /** `raise_for_status()` raises for a 4xx or 5xx status. */
  predicate IsErrorStatus(status: int) {
    400 <= status < 600
  }

  /** `check_supabase_image_ingredient`: one GET of the ingredient's URL; a 200 answer returns it. */
  method CheckSupabaseImageIngredient(base: string, name: string, web: Web) returns (url: Option<string>, calls: seq<Call>)
    ensures calls == [HttpGet(IngredientUrl(base, name))]
    ensures url.Some? <==> web.get(IngredientUrl(base, name)) == 200
    ensures url.Some? ==> url.value == IngredientUrl(base, name)
  {
    var imageUrl := IngredientUrl(base, name);
    var status := web.get(imageUrl);
    calls := [HttpGet(imageUrl)];
    url := if status == 200 then Some(imageUrl) else None;
  }

  /** `fetch_spoonacular_image`: search, then a liveness GET of the first result's CDN image. */
  method FetchSpoonacularImage(name: string, apiKey: string, web: Web) returns (url: Option<string>, calls: seq<Call>)
    ensures var candidate := SpoonacularCandidate(web.search(SearchUrl(name, apiKey)));
      if candidate.Some? then
        calls == [HttpGet(SearchUrl(name, apiKey)), HttpGet(candidate.value)] &&
        url == (if web.get(candidate.value) == 200 then candidate else None)
      else
        calls == [HttpGet(SearchUrl(name, apiKey))] && url == None
    ensures url.Some? ==> exists r :: url.value == CdnImageUrl(r)
  {
    var search := SearchUrl(name, apiKey);
    var reply := web.search(search);
    calls := [HttpGet(search)];
    url := None;
    if reply.status == 200 {
      if reply.resultNames != [] {
        var imageUrl := CdnImageUrl(reply.resultNames[0]);
        var status := web.get(imageUrl);
        calls := calls + [HttpGet(imageUrl)];
        if status == 200 {
          url := Some(imageUrl);
        }
      }
    }
  }

  /** The bytes a streamed download yields: none after a connection error or a 4xx/5xx status. */
  function DownloadedContent(reply: DownloadReply): (d: Option<seq<bv8>>)
    ensures d.Some? <==> reply.Downloaded? && !IsErrorStatus(reply.status)
    ensures d.Some? ==> d.value == reply.content
  {
    match reply
    case ConnectionFailed => None
    case Downloaded(status, content) => if IsErrorStatus(status) then None else Some(content)
  }

  /** `download_image_data_ingredient`: an absent or empty URL is not fetched at all. */
  method DownloadImageDataIngredient(url: Option<string>, web: Web) returns (data: Option<seq<bv8>>, calls: seq<Call>)
    ensures url.None? || url.value == "" ==> data.None? && calls == []
    ensures url.Some? && url.value != "" ==>
      calls == [StreamedGet(url.value)] && data == DownloadedContent(web.download(url.value))
  {
    if url.None? || url.value == "" {
      return None, [];
    }
    var reply := web.download(url.value);
    calls := [StreamedGet(url.value)];
    data := DownloadedContent(reply);
  }

  /** `upload_to_supabase_ingredient`: absent or falsy data is refused before storage is touched. */
  method UploadToSupabaseIngredient(base: string, name: string, data: Option<ImageData>, web: Web)
    returns (url: Option<string>, calls: seq<Call>)
    ensures data.None? || !data.value.Truthy() ==> url.None? && calls == []
    ensures data.Some? && data.value.Truthy() ==>
      calls == [StorageUpload(IngredientBucket, IngredientFileName(name), data.value)] &&
      (url.Some? <==> web.upload(IngredientBucket, IngredientFileName(name), data.value) == Uploaded)
    ensures url.Some? ==> url.value == IngredientUrl(base, name)
  {
    if data.None? || !data.value.Truthy() {
      return None, [];
    }
    var fileName := IngredientFileName(name);
    var reply := web.upload(IngredientBucket, fileName, data.value);
    calls := [StorageUpload(IngredientBucket, fileName, data.value)];
    url := if reply == Uploaded then Some(IngredientUrl(base, name)) else None;
  }

  const IngredientPromptHead := "A clear, isolated stock photo of "
  const IngredientPromptTail :=
    ", sliced or whole, " +
    "on a clean white background. The ingredient should be fresh, realistic, " +
    "and photographed from a top-down or slightly angled view. No shadows, no additional objects. " +
    "The image should have a smooth, uniform white background similar to stock grocery images. " +
    "Ensure it is a small, centered object with no extra styling. " +
    "The image should be crisp, sharp, and look like a real food stock image. " +
    "Size should be 100x100 pixels, perfectly framed, no blur or artistic details."

  /** The image prompt names the ingredient, verbatim, between a fixed head and tail. */
  function IngredientImagePrompt(name: string): (p: string)
    ensures |p| == |IngredientPromptHead| + |name| + |IngredientPromptTail|
    ensures p[|IngredientPromptHead|..|IngredientPromptHead| + |name|] == name
  {
    IngredientPromptHead + name + IngredientPromptTail
  }

  /** `generate_ingredient_image_from_gemini`: one image-model call; the first part with inline data wins. */
  method GenerateIngredientImageFromGemini(name: string, web: Web) returns (data: Option<ImageData>, calls: seq<Call>)
    ensures calls == [GenerateContent(ImageModel, IngredientImagePrompt(name))]
    ensures data == FirstInline(web.generate(ImageModel, IngredientImagePrompt(name)))
  {
    var prompt := IngredientImagePrompt(name);
    var parts := web.generate(ImageModel, prompt);
    calls := [GenerateContent(ImageModel, prompt)];
    data := FirstInlineData(parts);
  }

  /**
   * What `generate_ingredient_image` returns or raises: `{"image_url": url}`, an
   * `HTTPException`, or `None` (an empty body) when the falling-off-the-end path is taken.
   */
  datatype IngredientImageResponse = ImageUrl(url: string) | HttpError(status: int, detail: string) | NullBody

  const GenerationFailed := "Failed to generate AI image"
  const InvalidFormat := "Invalid AI image format"

  /** No call of the trace asks the generative model for anything. */
  predicate NoGeneration(calls: seq<Call>) {
    forall i :: 0 <= i < |calls| ==> !calls[i].GenerateContent?
  }

  /** The Spoonacular image the pipeline would use: a candidate whose link answered 200. */
  function LiveCandidate(name: string, apiKey: string, web: Web): (u: Option<string>)
    ensures u.Some? ==> SpoonacularCandidate(web.search(SearchUrl(name, apiKey))) == u
  {
    var candidate := SpoonacularCandidate(web.search(SearchUrl(name, apiKey)));
    if candidate.Some? && web.get(candidate.value) == 200 then candidate else None
  }

  /** The calls `fetch_spoonacular_image` makes: the search, then the link check of a candidate. */
  function FetchTrace(name: string, apiKey: string, web: Web): seq<Call> {
    var candidate := SpoonacularCandidate(web.search(SearchUrl(name, apiKey)));
    [HttpGet(SearchUrl(name, apiKey))] + (if candidate.Some? then [HttpGet(candidate.value)] else [])
  }

  /** Whether a live Spoonacular image downloads to non-empty bytes, and those bytes. */
  function CopiedBytes(name: string, apiKey: string, web: Web): Option<seq<bv8>> {
    var live := LiveCandidate(name, apiKey, web);
    if live.None? then None
    else
      var content := DownloadedContent(web.download(live.value));
      if content.Some? && content.value != [] then content else None
  }

  /** `generate_ingredient_image`: store, then Spoonacular with a copy into the store, then generation. */
  method GenerateIngredientImage(base: string, apiKey: string, name: string, web: Web)
    returns (r: IngredientImageResponse, calls: seq<Call>)
    // A store hit answers at once: nothing else is asked.
    ensures web.get(IngredientUrl(base, name)) == 200 ==>
      r == ImageUrl(IngredientUrl(base, name)) && calls == [HttpGet(IngredientUrl(base, name))]
    // A live Spoonacular image with bytes is copied; its link is the fallback if the copy fails.
    ensures var live := LiveCandidate(name, apiKey, web);
      var copied := CopiedBytes(name, apiKey, web);
      web.get(IngredientUrl(base, name)) != 200 && copied.Some? ==>
        var upload := StorageUpload(IngredientBucket, IngredientFileName(name), Bytes(copied.value));
        r == ImageUrl(if web.upload(IngredientBucket, IngredientFileName(name), Bytes(copied.value)) == Uploaded
                      then IngredientUrl(base, name) else live.value) &&
        calls == [HttpGet(IngredientUrl(base, name))] + FetchTrace(name, apiKey, web) + [StreamedGet(live.value), upload] &&
        NoGeneration(calls)
    // Otherwise the generator decides, last of all.
    ensures var live := LiveCandidate(name, apiKey, web);
      var prompt := IngredientImagePrompt(name);
      var data := FirstInline(web.generate(ImageModel, prompt));
      var tried := [HttpGet(IngredientUrl(base, name))] + FetchTrace(name, apiKey, web)
        + (if live.Some? then [StreamedGet(live.value)] else []) + [GenerateContent(ImageModel, prompt)];
      web.get(IngredientUrl(base, name)) != 200 && CopiedBytes(name, apiKey, web).None? ==>
        (data.None? || !data.value.Truthy() ==> r == HttpError(500, GenerationFailed) && calls == tried) &&
        (data.Some? && data.value.Truthy() && !data.value.Bytes? ==> r == HttpError(500, InvalidFormat) && calls == tried) &&
        (data.Some? && data.value.Bytes? && data.value.content != [] ==>
           r == (if web.upload(IngredientBucket, IngredientFileName(name), data.value) == Uploaded
                 then ImageUrl(IngredientUrl(base, name)) else NullBody) &&
           calls == tried + [StorageUpload(IngredientBucket, IngredientFileName(name), data.value)])
    ensures r.ImageUrl? ==> r.url == IngredientUrl(base, name) || r.url == LiveCandidate(name, apiKey, web).value
  {
    var existing, lookup := CheckSupabaseImageIngredient(base, name, web);
    calls := lookup;
    if existing.Some? {
      return ImageUrl(existing.value), calls;
    }
    var spoonacular, fetch := FetchSpoonacularImage(name, apiKey, web);
    calls := calls + fetch;
    if spoonacular.Some? {
      var imageData, download := DownloadImageDataIngredient(spoonacular, web);
      calls := calls + download;
      if imageData.Some? && imageData.value != [] {
        var stored, upload := UploadToSupabaseIngredient(base, name, Some(Bytes(imageData.value)), web);
        calls := calls + upload;
        return ImageUrl(if stored.Some? then stored.value else spoonacular.value), calls;
      }
    }
    var generated, generation := GenerateIngredientImageFromGemini(name, web);
    calls := calls + generation;
    if generated.None? || !generated.value.Truthy() {
      return HttpError(500, GenerationFailed), calls;
    }
    if !generated.value.Bytes? {
      return HttpError(500, InvalidFormat), calls;
    }
    var stored, upload := UploadToSupabaseIngredient(base, name, generated, web);
    calls := calls + upload;
    if stored.Some? {
      return ImageUrl(stored.value), calls;
    }
    return NullBody, calls;
  }
}
