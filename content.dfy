/**
 * Image URL resolution and inquiry message templates of the site's content module
 * (src/app/content.ts). Everything here is a pure function of its arguments.
 */
module Content {
  import opened Wrappers

  const CloudinaryCloudName: string := "du85wguro"
  const CloudinaryBaseUrl: string := "https://res.cloudinary.com/" + CloudinaryCloudName + "/image/upload"

  /** The local logo shown whenever a property has no usable images. */
  const FallbackImage: string := "/logo.png"

  /** The image-related fields of a catalog property; an omitted optional field is `None`. */
  datatype ImageFields = ImageFields(
    cloudinaryFolder: Option<string>,
    images: seq<string>,
    showImages: Option<bool>)

  /** The Cloudinary URL of `imageName`, inside `folder` unless the folder is empty. */
  function PropertyImagePath(folder: string, imageName: string): (url: string)
    ensures folder != "" ==> url == CloudinaryBaseUrl + "/" + folder + "/" + imageName
    ensures folder == "" ==> url == CloudinaryBaseUrl + "/" + imageName
  {
    if folder != "" then CloudinaryBaseUrl + "/" + folder + "/" + imageName
    else CloudinaryBaseUrl + "/" + imageName
  }

  /** The folder part of a resolved URL: everything between the base URL and the name. */
  function FolderSegment(folder: string): string {
    if folder != "" then "/" + folder + "/" else "/"
  }

  lemma PathSplits(folder: string, imageName: string)
    ensures PropertyImagePath(folder, imageName) == CloudinaryBaseUrl + FolderSegment(folder) + imageName
  {
    if folder != "" {
      ConcatRegroup(CloudinaryBaseUrl, "/", folder, "/", imageName);
    }
  }

  lemma ConcatRegroup(a: string, b: string, c: string, d: string, e: string)
    ensures a + b + c + d + e == a + (b + c + d) + e
  {
  }

  /** A resolved URL is an absolute https URL, so it is never the local fallback logo. */
  lemma PathIsNotFallback(folder: string, imageName: string)
    ensures PropertyImagePath(folder, imageName) != FallbackImage
  {
    var url := PropertyImagePath(folder, imageName);
    PathSplits(folder, imageName);
    assert url[0] == CloudinaryBaseUrl[0] == 'h';
    assert FallbackImage[0] == '/';
  }

  /** Within one folder, distinct image names resolve to distinct URLs (and back). */
  lemma PathInjective(folder: string, a: string, b: string)
    ensures PropertyImagePath(folder, a) == PropertyImagePath(folder, b) <==> a == b
  {
    var prefix := CloudinaryBaseUrl + FolderSegment(folder);
    PathSplits(folder, a);
    PathSplits(folder, b);
    if PropertyImagePath(folder, a) == PropertyImagePath(folder, b) {
      assert (prefix + a)[|prefix|..] == a;
      assert (prefix + b)[|prefix|..] == b;
    }
  }

  /** `images.map(img => getPropertyImagePath(folder, img))`. */
  function MapPaths(folder: string, names: seq<string>): (urls: seq<string>)
    ensures |urls| == |names|
  {
    if names == [] then []
    else [PropertyImagePath(folder, names[0])] + MapPaths(folder, names[1..])
  }

  lemma {:induction false} MapPathsAt(folder: string, names: seq<string>, i: nat)
    requires i < |names|
    ensures |MapPaths(folder, names)| == |names|
    ensures MapPaths(folder, names)[i] == PropertyImagePath(folder, names[i])
  {
    if i > 0 {
      MapPathsAt(folder, names[1..], i - 1);
    }
  }

  /** True when the property's own images are shown rather than the fallback logo. */
  predicate UsesOwnImages(p: ImageFields) {
    p.showImages != Some(false) && p.images != [] && p.cloudinaryFolder.Some?
  }

  /**
   * The image URLs displayed for a property: the fallback logo when images are switched
   * off, when there are none, or when no Cloudinary folder is configured; otherwise one
   * URL per image name. An empty folder is a valid root-level folder.
   */
  function PropertyImages(p: ImageFields): (urls: seq<string>)
    ensures |urls| >= 1
    ensures !UsesOwnImages(p) ==> urls == [FallbackImage]
    ensures UsesOwnImages(p) ==> |urls| == |p.images|
  {
    if p.showImages == Some(false) then [FallbackImage]
    else if |p.images| == 0 then [FallbackImage]
    else if p.cloudinaryFolder.None? then [FallbackImage]
    else MapPaths(p.cloudinaryFolder.value, p.images)
  }

  /** Element `i` of a property's own image list resolves image name `i`. */
  lemma PropertyImagesAt(p: ImageFields, i: nat)
    requires UsesOwnImages(p) && i < |p.images|
    ensures PropertyImages(p)[i] == PropertyImagePath(p.cloudinaryFolder.value, p.images[i])
  {
    MapPathsAt(p.cloudinaryFolder.value, p.images, i);
  }

  /** The result is exactly the fallback list if and only if one of the fallback rules fired. */
  lemma PropertyImagesFallbackIff(p: ImageFields)
    ensures PropertyImages(p) == [FallbackImage] <==> !UsesOwnImages(p)
  {
    if UsesOwnImages(p) {
      PropertyImagesAt(p, 0);
      PathIsNotFallback(p.cloudinaryFolder.value, p.images[0]);
    }
  }

  // ----- inquiry message templates -----

  datatype InquiryKind = Booking | Information

  const BookingPrefix: string := "I'm interested in booking "
  const BookingSuffix: string := ". Could you please provide more information about availability and booking details?"
  const InformationPrefix: string := "I would like to request information about "
  const InformationSuffix: string := ". Please contact me with more details about this property."

  function TemplatePrefix(kind: InquiryKind): string {
    match kind
    case Booking => BookingPrefix
    case Information => InformationPrefix
  }

  function TemplateSuffix(kind: InquiryKind): string {
    match kind
    case Booking => BookingSuffix
    case Information => InformationSuffix
  }

  /** `contactSection.messageTemplates.booking` / `.information`: the name embedded verbatim. */
  function InquiryMessage(kind: InquiryKind, propertyName: string): (msg: string)
    ensures TemplatePrefix(kind) <= msg
    ensures |msg| == |TemplatePrefix(kind)| + |propertyName| + |TemplateSuffix(kind)|
    ensures msg[|msg| - |TemplateSuffix(kind)|..] == TemplateSuffix(kind)
    ensures msg[|TemplatePrefix(kind)|..|msg| - |TemplateSuffix(kind)|] == propertyName
  {
    JoinParts(TemplatePrefix(kind), propertyName, TemplateSuffix(kind));
    TemplatePrefix(kind) + propertyName + TemplateSuffix(kind)
  }

  /** A string that begins with `pre` and ends with `suf` is `pre + middle + suf`. */
  lemma SplitAround(msg: string, pre: string, suf: string)
    requires |pre| + |suf| <= |msg| && msg[..|pre|] == pre && msg[|msg| - |suf|..] == suf
    ensures msg == pre + msg[|pre|..|msg| - |suf|] + suf
  {
  }

  /** The pieces of `pre + middle + suf` can be read back. */
  lemma JoinParts(pre: string, middle: string, suf: string)
    ensures var msg := pre + middle + suf;
      msg[..|pre|] == pre && msg[|msg| - |suf|..] == suf && msg[|pre|..|msg| - |suf|] == middle
  {
  }

  /** Recovers the property name from a message produced by the template of `kind`. */
  function PropertyNameOf(kind: InquiryKind, msg: string): (name: Option<string>)
    ensures name.Some? ==> InquiryMessage(kind, name.value) == msg
  {
    var pre, suf := TemplatePrefix(kind), TemplateSuffix(kind);
    if |pre| + |suf| <= |msg| && msg[..|pre|] == pre && msg[|msg| - |suf|..] == suf then
      SplitAround(msg, pre, suf);
      Some(msg[|pre|..|msg| - |suf|])
    else None
  }

  /** The property name is embedded verbatim: it can always be read back. */
  lemma InquiryMessageRoundTrip(kind: InquiryKind, propertyName: string)
    ensures PropertyNameOf(kind, InquiryMessage(kind, propertyName)) == Some(propertyName)
  {
    JoinParts(TemplatePrefix(kind), propertyName, TemplateSuffix(kind));
  }

  /** A booking message never reads as an information request, whatever the names. */
  lemma TemplatesDistinct(a: string, b: string)
    ensures InquiryMessage(Booking, a) != InquiryMessage(Information, b)
  {
    var m1, m2 := InquiryMessage(Booking, a), InquiryMessage(Information, b);
    assert BookingPrefix[1] == '\'' && InformationPrefix[1] == ' ';
    assert m1[1] == BookingPrefix[1];
    assert m2[1] == InformationPrefix[1];
  }
}
