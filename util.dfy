/** Image URLs of the vendor's API. */
module Util {
  import opened Wrappers
  import opened Strings
  import Api

  /** The image widths the API serves. */
  predicate IsImageWidth(width: int) {
    width == 750 || width == 3750
  }

  /** `format_image_url`: the URL of image `id` at `width`; a panic for a
      width the API does not serve. */
  function FormatImageUrl(id: string, width: int): (r: Result<string>)
    ensures r.Ok? <==> IsImageWidth(width)
    ensures r.Ok? ==> r.value == Api.BaseUrl + "/images/" + id + "?width=" + NatToDecimal(width)
    ensures r.Err? ==> r.error.Panic?
  {
    if IsImageWidth(width) then Ok(Api.BaseUrl + "/images/" + id + "?width=" + NatToDecimal(width as nat))
    else Err(Panic("invalid width"))
  }

  /** The width is written unchanged: the numeral at the end of the URL reads
      back as the width asked for, and the id sits between the fixed parts. */
  lemma ImageUrlCarriesWidth(id: string, width: int)
    requires IsImageWidth(width)
    ensures var url := FormatImageUrl(id, width).value;
            var prefix := Api.BaseUrl + "/images/" + id + "?width=";
            && |prefix| < |url| && url[..|prefix|] == prefix
            && AllDigits(url[|prefix|..]) && DecimalValue(url[|prefix|..]) == width
            && url[|Api.BaseUrl + "/images/"|..|prefix| - 7] == id
  {
    var url := FormatImageUrl(id, width).value;
    var prefix := Api.BaseUrl + "/images/" + id + "?width=";
    assert url == prefix + NatToDecimal(width);
    assert url[|prefix|..] == NatToDecimal(width);
    DecimalRoundTrip(width);
    assert url[..|prefix|] == prefix;
    assert prefix[|Api.BaseUrl + "/images/"|..|prefix| - 7] == id;
  }

  /** The documented example: width 3750. */
  lemma ImageUrlExample(id: string)
    ensures FormatImageUrl(id, 3750) == Ok("https://vlcapi.vertical-life.info/images/" + id + "?width=3750")
  {
    assert NatToDecimal(3) == "3";
    assert NatToDecimal(37) == "37";
    assert NatToDecimal(375) == "375";
    assert NatToDecimal(3750) == "3750";
    var head := "https://vlcapi.vertical-life.info/images/" + id;
    assert Api.BaseUrl + "/images/" + id == head;
    assert head + "?width=" + "3750" == head + "?width=3750";
  }
}
