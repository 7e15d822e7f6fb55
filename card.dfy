/** The decisions the `Card` component makes when it renders one file: which
    preview to show for the file's MIME type, whether the delete control and the
    tag band appear, and the band's colour. The JSX markup itself is replaced
    by a `CardView` value that records those decisions. */
module Card {
  import opened Text

  const ImagePrefix: string := "image/"
  const PdfType: string := "application/pdf"
  const WordMarker: string := "word"
  const BlueColor: string := "blue"

  /** The `tag` object a card receives. */
  datatype TagData = TagData(isopen: bool, tagTitle: string, tagColor: string)

  /** The fields of the `data` prop the card reads. */
  datatype CardData = CardData(
    fileType: string,
    fileUrl: string,
    desc: string,
    close: bool,
    tag: TagData)

  /** What `getFileIcon` returns: an inline preview of the file, or one of three icons. */
  datatype FileIcon = ImagePreview(src: string, alt: string) | PdfIcon | WordIcon | GenericIcon

  /** The two background colours of the tag band. */
  datatype BandColor = BlueBand | GreenBand

  /** The tag band at the foot of the card, if shown. */
  datatype Band = NoBand | Band(color: BandColor, title: string)

  /** The rendered card, reduced to its decisions. */
  datatype CardView = CardView(preview: FileIcon, caption: string, showDelete: bool, band: Band)

  /** `getFileIcon`: the rules are tried in order and the first that applies wins. */
  function FileIconFor(data: CardData): (r: FileIcon)
    ensures StartsWith(data.fileType, ImagePrefix) <==> r.ImagePreview?
    ensures r.ImagePreview? ==> r.src == data.fileUrl && r.alt == data.desc
    ensures r.PdfIcon? <==> data.fileType == PdfType
    ensures r.WordIcon? <==>
      !StartsWith(data.fileType, ImagePrefix) && data.fileType != PdfType && Includes(data.fileType, WordMarker)
  {
    if StartsWith(data.fileType, ImagePrefix) then
      PdfIsNotImage();
      ImagePreview(data.fileUrl, data.desc)
    else if data.fileType == PdfType then PdfIcon
    else if Includes(data.fileType, WordMarker) then WordIcon
    else GenericIcon
  }

  /** "application/pdf" does not begin with "image/", so the PDF rule is reachable. */
  lemma PdfIsNotImage()
    ensures !StartsWith(PdfType, ImagePrefix)
  {
    assert PdfType[..|ImagePrefix|][0] != ImagePrefix[0];
  }

  /** The band colour: exactly "blue" is blue, every other value green. */
  function BandFor(tagColor: string): (c: BandColor)
    ensures c == BlueBand <==> tagColor == BlueColor
  {
    if tagColor == BlueColor then BlueBand else GreenBand
  }

  /** The whole card: preview, caption, and the two optional parts. */
  function RenderCard(data: CardData): (v: CardView)
    ensures v.preview == FileIconFor(data) && v.caption == data.desc
    ensures v.showDelete <==> data.close
    ensures v.band.Band? <==> data.tag.isopen
    ensures v.band.Band? ==> v.band.title == data.tag.tagTitle
    ensures v.band.Band? ==> (v.band.color == BlueBand <==> data.tag.tagColor == BlueColor)
  {
    CardView(
      FileIconFor(data),
      data.desc,
      data.close,
      if data.tag.isopen then Band(BandFor(data.tag.tagColor), data.tag.tagTitle) else NoBand)
  }

  /** Every image type gets the preview, since that rule is tried first; this
      holds even for an image type whose name includes "word". */
  lemma ImageBeatsWord(data: CardData)
    requires StartsWith(data.fileType, ImagePrefix)
    ensures FileIconFor(data) == ImagePreview(data.fileUrl, data.desc)
  {
  }

  /** Any "application/..." type that mentions "word" gets the Word icon: it is not
      an image, and it cannot be "application/pdf", which has no "w" in it. */
  lemma ApplicationWordGetsWordIcon(data: CardData)
    requires StartsWith(data.fileType, "application/") && Includes(data.fileType, WordMarker)
    ensures FileIconFor(data) == WordIcon
  {
    assert data.fileType[..|ImagePrefix|][0] == data.fileType[..12][0];
    MissingCharExcludes(PdfType, WordMarker);
  }

  /** The classic Word MIME type gets the Word icon. */
  lemma MsWordGetsWordIcon(data: CardData)
    requires data.fileType == "application/msword"
    ensures FileIconFor(data) == WordIcon
  {
    assert data.fileType[..12] == "application/";
    assert StartsWith(data.fileType[14..], WordMarker);
    ApplicationWordGetsWordIcon(data);
  }

  /** A PDF type with parameters is no longer exactly "application/pdf": when it
      does not include "word" it falls through to the generic icon. */
  lemma PdfWithParametersIsGeneric(data: CardData)
    requires StartsWith(data.fileType, PdfType + ";") && !Includes(data.fileType, WordMarker)
    ensures FileIconFor(data) == GenericIcon
  {
    assert data.fileType[0] == (PdfType + ";")[0];
  }

  /** A PDF type with parameters that include "word" gets the Word icon. */
  lemma PdfParameterWithWordGetsWordIcon(data: CardData)
    requires data.fileType == "application/pdf; name=wordlist"
    ensures FileIconFor(data) == WordIcon
  {
    assert data.fileType[..12] == "application/";
    assert StartsWith(data.fileType[22..], WordMarker);
    ApplicationWordGetsWordIcon(data);
  }

  /** A plain-text or empty type gets the generic icon. */
  lemma UnknownTypesGetGenericIcon(data: CardData)
    requires data.fileType == "text/plain" || data.fileType == ""
    ensures FileIconFor(data) == GenericIcon
  {
    if data.fileType != "" {
      assert data.fileType[..|ImagePrefix|][0] != ImagePrefix[0];
    }
    MissingCharExcludes(data.fileType, WordMarker);
  }
}
