/**
 * The Flickr photo and photo set models: farm host prefix, image and page URLs,
 * the Creative Commons licence code and the republishing rights derived from
 * it, and the EXIF dictionary kept as JSON text.
 */
module Photos {
  import opened Wrappers
  import opened Failures
  import opened Strings
  import Urls
  import opened Externals

  /** The short codes of the six Creative Commons licences a photo may carry. */
  const CcCodes: seq<string> := ["by", "by-nd", "by-nc-nd", "by-nc", "by-nc-sa", "by-sa"]

  /** The version 2.0 Creative Commons licence URL of a short code. */
  function CcUrl(code: string): string {
    "http://creativecommons.org/licenses/" + code + "/2.0/"
  }

  /** The licence choices offered for a photo: licence URL and label. */
  const CcLicenses: seq<(string, string)> := [
    (CcUrl("by"), "CC Attribution"),
    (CcUrl("by-nd"), "CC Attribution-NoDerivs"),
    (CcUrl("by-nc-nd"), "CC Attribution-NonCommercial-NoDerivs"),
    (CcUrl("by-nc"), "CC Attribution-NonCommercial"),
    (CcUrl("by-nc-sa"), "CC Attribution-NonCommercial-ShareAlike"),
    (CcUrl("by-sa"), "CC Attribution-ShareAlike")
  ]

  /** The fields of a photo the derivations read; `ccLicense` is "" when the photo has no licence. */
  datatype Photo = Photo(
    photoId: string,
    farmId: Option<int>,
    serverId: int,
    secret: string,
    takenBy: string,
    ccLicense: string,
    title: string,
    exif: string,
    dateUploaded: Option<int>)

  datatype Photoset = Photoset(
    photosetId: string,
    farmId: Option<int>,
    serverId: int,
    secret: string,
    title: string,
    description: string,
    url: string)

  /** The settings the rights decisions read: `FLICKR_USERNAME` (default "") and `SITE_IS_COMMERCIAL` (default false). */
  datatype RightsSettings = RightsSettings(username: string, commercial: bool)

  /**
   * The farm host prefix shared by photos and photo sets: empty for a missing or
   * zero farm id, otherwise "farm", the id's decimal numeral and a dot.
   */
  function Farm(farmId: Option<int>): (r: string)
    ensures r == "" <==> farmId.None? || farmId.value == 0
    ensures r != "" ==> |r| >= 6 && r[..4] == "farm" && r[|r| - 1] == '.'
                        && ParseInt(r[4..|r| - 1]) == Some(farmId.value)
  {
    if farmId.Some? && farmId.value != 0 then
      var n := IntToString(farmId.value);
      IntToStringParses(farmId.value);
      var r := "farm" + n + ".";
      assert r[4..|r| - 1] == n;
      r
    else ""
  }

  function PhotoFarm(p: Photo): string {
    Farm(p.farmId)
  }

  function PhotosetFarm(s: Photoset): string {
    Farm(s.farmId)
  }

  /** The sizes that get a `_<size>` suffix in an image URL. */
  const ImageSizes: string := "mstbo"

  predicate IsImageSize(size: Option<string>) {
    size.Some? && |size.value| == 1 && size.value[0] in ImageSizes
  }

  /** The image URL up to its size suffix: host, server, photo id and secret. */
  function ImageStem(p: Photo): string {
    "http://" + Farm(p.farmId) + "static.flickr.com/" + IntToString(p.serverId) + "/" + p.photoId + "_" + p.secret
  }

  /** `get_image_url(size)`: a known size adds `_<size>` before `.jpg`; anything else, `None` included, adds nothing. */
  function ImageUrl(p: Photo, size: Option<string>): (r: string)
    ensures EndsWith(r, ".jpg")
    ensures IsImageSize(size) ==> EndsWith(r, "_" + size.value + ".jpg")
  {
    if IsImageSize(size) then ImageStem(p) + "_" + size.value + ".jpg" else ImageStem(p) + ".jpg"
  }

  /** A sized image URL is the plain one with the size suffix put in front of `.jpg`. */
  lemma ImageUrlSized(p: Photo, size: Option<string>)
    ensures var plain := ImageUrl(p, None);
      ImageUrl(p, size) == if IsImageSize(size) then plain[..|plain| - 4] + "_" + size.value + ".jpg" else plain
  {
    var plain := ImageUrl(p, None);
    assert plain[..|plain| - 4] == ImageStem(p);
  }

  /** The prefix of every photo page URL. */
  const PhotosBase: string := "http://www.flickr.com/photos/"

  /** `url`: the photo's page under its owner's name. */
  function PageUrl(p: Photo): string {
    PhotosBase + p.takenBy + "/" + p.photoId + "/"
  }

  /** The owner and the photo id can be read back from the page URL's path segments. */
  lemma PageUrlSegments(p: Photo)
    requires '/' !in p.takenBy && '/' !in p.photoId
    ensures Split(PageUrl(p), '/') == ["http:", "", "www.flickr.com", "photos", p.takenBy, p.photoId, ""]
  {
    PageUrlPieces(PageUrl(p), p.takenBy, p.photoId);
  }

  lemma PageUrlPieces(u: string, owner: string, id: string)
    requires '/' !in owner && '/' !in id
    requires u == PhotosBase + owner + "/" + id + "/"
    ensures Split(u, '/') == ["http:", "", "www.flickr.com", "photos", owner, id, ""]
  {
    PageUrlJoin(u, owner, id);
    SplitOfJoin(["http:", "", "www.flickr.com", "photos", owner, id, ""], '/');
  }

  lemma PageUrlJoin(u: string, owner: string, id: string)
    requires u == PhotosBase + owner + "/" + id + "/"
    ensures Join(["http:", "", "www.flickr.com", "photos", owner, id, ""], "/") == u
  {
    var base := ["http:", "", "www.flickr.com", "photos"];
    var tail := [owner, id, ""];
    assert base + tail == ["http:", "", "www.flickr.com", "photos", owner, id, ""];
    PhotosBasePieces();
    JoinAppend(base, tail, "/");
    JoinCons(id, [""], "/");
    JoinCons(owner, [id, ""], "/");
    var jb := Join(base, "/");
    var jt := owner + "/" + (id + "/" + "");
    assert id + "/" + "" == id + "/";
    SeqAssoc(owner + "/", id, "/");
    assert jt == owner + "/" + id + "/";
    SeqAssoc(jb + "/", owner + "/" + id, "/");
    SeqAssoc(jb + "/", owner + "/", id);
    SeqAssoc(jb + "/", owner, "/");
  }

  lemma PhotosBasePieces()
    ensures PhotosBase == Join(["http:", "", "www.flickr.com", "photos"], "/") + "/"
  {
    JoinCons("www.flickr.com", ["photos"], "/");
    JoinCons("", ["www.flickr.com", "photos"], "/");
    JoinCons("http:", ["", "www.flickr.com", "photos"], "/");
    PhotosBaseLiteral();
  }

  lemma PhotosBaseLiteral()
    ensures PhotosBase == "http:" + "/" + ("" + "/" + ("www.flickr.com" + "/" + "photos")) + "/"
  {
  }

  /**
   * `license_code`: `None` without a licence, otherwise the third `/`-piece of the
   * licence URL's path; a path with fewer pieces is an IndexError.
   */
  function LicenseCode(ccLicense: string): (r: Result<Option<string>, Failure>)
    ensures r == Ok(None) <==> ccLicense == ""
    ensures r.Ok? && r.value.Some? ==> '/' !in r.value.value
  {
    if ccLicense == "" then Ok(None)
    else
      var parts := Split(Urls.Parse(ccLicense).path, '/');
      if |parts| < 3 then Err(IndexError("list index out of range")) else Ok(Some(parts[2]))
  }

  /** A Creative Commons licence URL yields the licence's short code. */
  lemma LicenseCodeOfCc(url: string, code: string)
    requires '/' !in code && '?' !in code && '#' !in code && ';' !in code
    requires url == CcUrl(code)
    ensures LicenseCode(url) == Ok(Some(code))
  {
    var path := "/licenses/" + code + "/2.0/";
    CcPathShape(path, code);
    CcUrlPath(url, code);
    CcUrlSplits(url, path);
    CcPathPieces(path, code);
  }

  lemma CcUrlPath(url: string, code: string)
    requires url == CcUrl(code)
    ensures url == "http://creativecommons.org" + ("/licenses/" + code + "/2.0/")
  {
    var h, l, v := "http://creativecommons.org", "/licenses/", "/2.0/";
    assert h + l == "http://creativecommons.org/licenses/";
    SeqAssoc(h, l, code);
    SeqAssoc(h, l + code, v);
  }

  lemma CcPathShape(path: string, code: string)
    requires '/' !in code && '?' !in code && '#' !in code && ';' !in code
    requires path == "/licenses/" + code + "/2.0/"
    ensures path[0] == '/' && '?' !in path && '#' !in path && ';' !in path
  {
    forall k | 0 <= k < |path| ensures path[k] !in {'?', '#', ';'} {
      if 10 <= k < 10 + |code| {
        assert path[k] == code[k - 10];
      }
    }
  }

  lemma CcUrlSplits(url: string, path: string)
    requires |path| > 0 && path[0] == '/' && '?' !in path && '#' !in path && ';' !in path
    requires url == "http://creativecommons.org" + path
    ensures Urls.Parse(url).path == path
  {
    CcUrlAssembled(url, path);
    Urls.SplitAssembled("http", "creativecommons.org", path, None);
  }

  lemma CcUrlAssembled(url: string, path: string)
    requires url == "http://creativecommons.org" + path
    ensures url == "http" + "://" + "creativecommons.org" + path + ""
  {
  }

  lemma CcPathPieces(path: string, code: string)
    requires '/' !in code
    requires path == "/licenses/" + code + "/2.0/"
    ensures Split(path, '/') == ["", "licenses", code, "2.0", ""]
  {
    CcPathJoin(path, code);
    SplitOfJoin(["", "licenses", code, "2.0", ""], '/');
  }

  lemma CcPathJoin(path: string, code: string)
    requires path == "/licenses/" + code + "/2.0/"
    ensures Join(["", "licenses", code, "2.0", ""], "/") == path
  {
    JoinCons("2.0", [""], "/");
    JoinCons(code, ["2.0", ""], "/");
    JoinCons("licenses", [code, "2.0", ""], "/");
    JoinCons("", ["licenses", code, "2.0", ""], "/");
    CcPathLiterals();
    var j3 := "2.0" + "/" + "";
    var j2 := code + "/" + j3;
    var j1 := "licenses" + "/" + j2;
    SeqAssoc(code, "/", j3);
    assert j2 == code + "/2.0/";
    SeqAssoc("licenses", "/", j2);
    assert j1 == "licenses/" + (code + "/2.0/");
    SeqAssoc("/", "licenses/", code + "/2.0/");
    SeqAssoc("/licenses/", code, "/2.0/");
  }

  lemma CcPathLiterals()
    ensures "2.0" + "/" + "" == "2.0/" && "/" + "2.0/" == "/2.0/"
    ensures "licenses" + "/" == "licenses/" && "" + "/" == "/" && "/" + "licenses/" == "/licenses/"
  {
  }

  /** Each of the six licence choices yields its code. */
  lemma CcLicenseCodes()
    ensures forall i :: 0 <= i < |CcLicenses| ==> LicenseCode(CcLicenses[i].0) == Ok(Some(CcCodes[i]))
  {
    forall i | 0 <= i < |CcLicenses| ensures LicenseCode(CcLicenses[i].0) == Ok(Some(CcCodes[i])) {
      CcLicenseShape(i);
      LicenseCodeOfCc(CcLicenses[i].0, CcCodes[i]);
    }
  }

  lemma CcLicenseShape(i: nat)
    requires i < |CcLicenses|
    ensures '/' !in CcCodes[i] && '?' !in CcCodes[i] && '#' !in CcCodes[i] && ';' !in CcCodes[i]
    ensures CcLicenses[i].0 == CcUrl(CcCodes[i])
  {
  }

  predicate TakenByMe(p: Photo, rs: RightsSettings) {
    p.takenBy == rs.username
  }

  /**
   * `can_republish`, in the source's decision order: my own photo always; a photo
   * without a licence never; a non-commercial licence not on a commercial site;
   * otherwise yes. A malformed licence URL raises from `license_code`.
   */
  function CanRepublish(p: Photo, rs: RightsSettings): (r: Result<bool, Failure>)
    ensures TakenByMe(p, rs) ==> r == Ok(true)
    ensures !TakenByMe(p, rs) ==> r.Ok? == LicenseCode(p.ccLicense).Ok?
    ensures r == Ok(false) <==>
      !TakenByMe(p, rs) && LicenseCode(p.ccLicense).Ok?
      && (LicenseCode(p.ccLicense).value.None?
          || (rs.commercial && Contains(LicenseCode(p.ccLicense).value.value, "nc")))
  {
    if TakenByMe(p, rs) then Ok(true)
    else
      match LicenseCode(p.ccLicense)
      case Err(e) => Err(e)
      case Ok(None) => Ok(false)
      case Ok(Some(code)) => Ok(!(rs.commercial && Contains(code, "nc")))
  }

  /** A commercial site never may republish a photo a non-commercial site may not. */
  lemma CommercialIsStricter(p: Photo, rs: RightsSettings)
    ensures CanRepublish(p, rs.(commercial := true)) == Ok(true) ==> CanRepublish(p, rs.(commercial := false)) == Ok(true)
    ensures CanRepublish(p, rs.(commercial := false)) == Ok(false) ==> CanRepublish(p, rs.(commercial := true)) == Ok(false)
  {
  }

  /** Which of the terms "nc", "nd" and "sa" the three fixture codes carry. */
  lemma CcCodeTerms()
    ensures !Contains("by", "nc") && !Contains("by", "nd") && !Contains("by", "sa")
    ensures Contains("by-nc-nd", "nc") && Contains("by-nc-nd", "nd") && !Contains("by-nc-nd", "sa")
    ensures !Contains("by-sa", "nc") && !Contains("by-sa", "nd") && Contains("by-sa", "sa")
  {
    TermsOfBy();
    TermsOfNcNd();
    TermsOfSa();
  }

  lemma TermsOfBy()
    ensures !Contains("by", "nc") && !Contains("by", "nd") && !Contains("by", "sa")
  {
    HeadAbsentNotContained("by", "nc");
    HeadAbsentNotContained("by", "nd");
    HeadAbsentNotContained("by", "sa");
  }

  lemma TermsOfNcNd()
    ensures Contains("by-nc-nd", "nc") && Contains("by-nc-nd", "nd") && !Contains("by-nc-nd", "sa")
  {
    HeadAbsentNotContained("by-nc-nd", "sa");
    OccursContains("by-nc-nd", "nc", 3);
    OccursContains("by-nc-nd", "nd", 6);
  }

  lemma TermsOfSa()
    ensures !Contains("by-sa", "nc") && !Contains("by-sa", "nd") && Contains("by-sa", "sa")
  {
    HeadAbsentNotContained("by-sa", "nc");
    HeadAbsentNotContained("by-sa", "nd");
    OccursContains("by-sa", "sa", 3);
  }

  /**
   * The republishing table for someone else's photo with no licence, or with
   * the codes of CC Attribution, NonCommercial-NoDerivs and ShareAlike (which
   * `CcLicenseCodes` reads off the licence URLs), on a non-commercial site,
   * and the NonCommercial photo on a commercial one.
   */
  lemma RightsOfOthersPhotos(p: Photo, rs: RightsSettings)
    requires !TakenByMe(p, rs)
    ensures p.ccLicense == "" ==>
      CanRepublish(p, rs) == Ok(false) && DerivativeOk(p, rs) == Ok(false) && MustShareAlike(p, rs) == Ok(false)
    ensures !rs.commercial && LicenseCode(p.ccLicense) == Ok(Some("by")) ==>
      CanRepublish(p, rs) == Ok(true) && DerivativeOk(p, rs) == Ok(true) && MustShareAlike(p, rs) == Ok(false)
    ensures !rs.commercial && LicenseCode(p.ccLicense) == Ok(Some("by-nc-nd")) ==>
      CanRepublish(p, rs) == Ok(true) && DerivativeOk(p, rs) == Ok(false) && MustShareAlike(p, rs) == Ok(false)
    ensures !rs.commercial && LicenseCode(p.ccLicense) == Ok(Some("by-sa")) ==>
      CanRepublish(p, rs) == Ok(true) && DerivativeOk(p, rs) == Ok(true) && MustShareAlike(p, rs) == Ok(true)
    ensures rs.commercial && LicenseCode(p.ccLicense) == Ok(Some("by-nc-nd")) ==> CanRepublish(p, rs) == Ok(false)
  {
    CcCodeTerms();
  }

  /**
   * `derivative_ok` as written: republishable and no "nd" in the code. When the
   * photo is mine but unlicensed the code is `None` and `"nd" in None` raises a TypeError.
   */
  function DerivativeOk(p: Photo, rs: RightsSettings): (r: Result<bool, Failure>)
    ensures CanRepublish(p, rs) == Ok(false) ==> r == Ok(false)
    ensures r == Ok(true) ==>
              CanRepublish(p, rs) == Ok(true) && LicenseCode(p.ccLicense).Ok?
              && LicenseCode(p.ccLicense).value.Some? && !Contains(LicenseCode(p.ccLicense).value.value, "nd")
  {
    match CanRepublish(p, rs)
    case Err(e) => Err(e)
    case Ok(false) => Ok(false)
    case Ok(true) =>
      match LicenseCode(p.ccLicense)
      case Err(e) => Err(e)
      case Ok(None) => Err(TypeError("argument of type 'NoneType' is not iterable"))
      case Ok(Some(code)) => Ok(!Contains(code, "nd"))
  }

  /** `must_share_alike` as written: republishable and "sa" in the code, with the same TypeError. */
  function MustShareAlike(p: Photo, rs: RightsSettings): (r: Result<bool, Failure>)
    ensures CanRepublish(p, rs) == Ok(false) ==> r == Ok(false)
    ensures r == Ok(true) ==>
              CanRepublish(p, rs) == Ok(true) && LicenseCode(p.ccLicense).Ok?
              && LicenseCode(p.ccLicense).value.Some? && Contains(LicenseCode(p.ccLicense).value.value, "sa")
  {
    match CanRepublish(p, rs)
    case Err(e) => Err(e)
    case Ok(false) => Ok(false)
    case Ok(true) =>
      match LicenseCode(p.ccLicense)
      case Err(e) => Err(e)
      case Ok(None) => Err(TypeError("argument of type 'NoneType' is not iterable"))
      case Ok(Some(code)) => Ok(Contains(code, "sa"))
  }

  /** The discrepancy: my own unlicensed photo makes both rights questions raise. */
  lemma OwnUnlicensedPhotoRaises(p: Photo, rs: RightsSettings)
    requires TakenByMe(p, rs) && p.ccLicense == ""
    ensures DerivativeOk(p, rs).Err? && DerivativeOk(p, rs).error.TypeError?
    ensures MustShareAlike(p, rs).Err? && MustShareAlike(p, rs).error.TypeError?
  {
  }

  /** `derivative_ok` as evidently intended: a photo without a licence code restricts nothing further. */
  function DerivativeOkIntended(p: Photo, rs: RightsSettings): (r: Result<bool, Failure>)
    ensures TakenByMe(p, rs) && p.ccLicense == "" ==> r == Ok(true)
    ensures r.Err? ==> LicenseCode(p.ccLicense).Err?
  {
    match CanRepublish(p, rs)
    case Err(e) => Err(e)
    case Ok(false) => Ok(false)
    case Ok(true) =>
      match LicenseCode(p.ccLicense)
      case Err(e) => Err(e)
      case Ok(None) => Ok(true)
      case Ok(Some(code)) => Ok(!Contains(code, "nd"))
  }

  /** `must_share_alike` as evidently intended: without a licence there is nothing to share alike. */
  function MustShareAlikeIntended(p: Photo, rs: RightsSettings): (r: Result<bool, Failure>)
    ensures TakenByMe(p, rs) && p.ccLicense == "" ==> r == Ok(false)
    ensures r.Err? ==> LicenseCode(p.ccLicense).Err?
  {
    match CanRepublish(p, rs)
    case Err(e) => Err(e)
    case Ok(false) => Ok(false)
    case Ok(true) =>
      match LicenseCode(p.ccLicense)
      case Err(e) => Err(e)
      case Ok(None) => Ok(false)
      case Ok(Some(code)) => Ok(Contains(code, "sa"))
  }

  /**
   * The intended definitions agree with the written ones wherever those answer,
   * and fail only when the licence URL itself is malformed.
   */
  lemma IntendedRightsAgree(p: Photo, rs: RightsSettings)
    ensures DerivativeOk(p, rs).Ok? ==> DerivativeOkIntended(p, rs) == DerivativeOk(p, rs)
    ensures MustShareAlike(p, rs).Ok? ==> MustShareAlikeIntended(p, rs) == MustShareAlike(p, rs)
    ensures DerivativeOkIntended(p, rs).Ok? <==> LicenseCode(p.ccLicense).Ok?
    ensures MustShareAlikeIntended(p, rs).Ok? <==> LicenseCode(p.ccLicense).Ok?
  {
    var lc := LicenseCode(p.ccLicense);
    if lc.Err? {
      assert TakenByMe(p, rs) || CanRepublish(p, rs).Err?;
    }
  }

  /** `exif` read: empty text reads as an empty dictionary, anything else is decoded. */
  function GetExif(p: Photo, ext: Externals): (r: map<string, string>)
    ensures p.exif == "" ==> r == map[]
  {
    if p.exif != "" then ext.jsonLoads(p.exif) else map[]
  }

  /** `exif` write: the dictionary is stored as JSON text. */
  function SetExif(p: Photo, d: map<string, string>, ext: Externals): (r: Photo)
    ensures r.photoId == p.photoId && r.takenBy == p.takenBy && r.ccLicense == p.ccLicense
  {
    p.(exif := ext.jsonDumps(d))
  }

  /** Writing a dictionary and reading it back gives the same dictionary. */
  lemma ExifRoundTrip(p: Photo, d: map<string, string>, ext: Externals)
    requires JsonRoundTrips(ext)
    ensures GetExif(SetExif(p, d, ext), ext) == d
  {
    assert ext.jsonLoads(ext.jsonDumps(d)) == d && ext.jsonDumps(d) != "";
  }
}
