/** The two image-string helpers: stripping a data-URI header before the
    payload goes to the backend (api/extract.js and biometria.js use the same
    comma rule), and re-wrapping the original image as a data URI for the
    `imagem_original` echo (api/extract.js only). */
module DataUri {
  import opened JsText

  const DataScheme := "data:"
  const JpegHeader := "data:image/jpeg;base64,"

  /** `image.includes(",") ? image.split(",")[1] : image`: the text between
      the first comma and the next comma (or the end), or the whole image
      when it has no comma. */
  function CleanBase64(image: string): (r: string)
    ensures ',' !in r
    ensures ',' !in image ==> r == image
  {
    if ',' in image then Split(image, ',')[1] else image
  }

  /** The piece `CleanBase64` keeps, located in its input. */
  lemma CleanBase64Segment(image: string)
    requires ',' in image
    ensures var i := IndexOf(image, ',');
            var rest := image[i + 1..];
            var j := if ',' in rest then i + 1 + IndexOf(rest, ',') else |image|;
            i < j <= |image| && CleanBase64(image) == image[i + 1..j]
  {
    var i := IndexOf(image, ',');
    var rest := image[i + 1..];
    SplitRest(image, ',');
    SplitFirst(rest, ',');
    assert CleanBase64(image) == Split(image, ',')[1..][0];
  }

  /** `image.startsWith("data:") ? image : "data:image/jpeg;base64," + image` */
  function WrapDataUri(image: string): (r: string)
    ensures StartsWith(r, DataScheme)
    ensures StartsWith(image, DataScheme) ==> r == image
    ensures !StartsWith(image, DataScheme) ==> r == JpegHeader + image
  {
    if StartsWith(image, DataScheme) then image else JpegHeader + image
  }

  lemma WrapDataUriIdempotent(image: string)
    ensures WrapDataUri(WrapDataUri(image)) == WrapDataUri(image)
  {
  }

  /** The echoed `imagem_original` carries the same payload as the one sent
      to the backend, whenever the input is a data URI or has no comma. */
  lemma EchoCarriesSentPayload(image: string)
    requires StartsWith(image, DataScheme) || ',' !in image
    ensures CleanBase64(WrapDataUri(image)) == CleanBase64(image)
  {
    if !StartsWith(image, DataScheme) {
      var w := JpegHeader + image;
      assert w[22] == ',' && ',' !in w[..22];
      assert IndexOf(w, ',') == 22;
      assert w[23..] == image;
      assert Split(w, ',') == [w[..22]] + Split(image, ',');
    }
  }
}
