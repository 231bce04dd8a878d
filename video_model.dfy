/**
 * The video entity: the raw records of the JSON document, the `Video` record the views
 * use, and the pure helpers that build and order them.
 * Fetching the document is not modelled: callers pass the already decoded records.
 * Date parsing (`new Date(createdAt).getTime()`) is the parameter `createdTime`.
 */
module VideoModel {
  import opened Wrappers
  import opened StableSort
  import opened Decimal

  datatype Video = Video(
    id: string,
    title: string,
    description: string,
    category: string,
    releaseYear: string,
    mpaRating: string,
    duration: string,
    coverImage: string,
    logoImage: string,
    videoUrl: Option<string>,
    isFeatured: Option<bool>,
    createdAt: string,
    updatedAt: string)

  /** A trending entry of the JSON document. */
  datatype RawVideoData = RawVideoData(
    Id: string,
    Title: string,
    CoverImage: string,
    TitleImage: string,
    Date: string,
    ReleaseYear: string,
    MpaRating: string,
    Category: string,
    Duration: string,
    VideoUrl: Option<string>,
    Description: string)

  /** The featured entry of the JSON document: a trending entry without a video URL. */
  datatype RawFeaturedData = RawFeaturedData(
    Id: string,
    Title: string,
    CoverImage: string,
    TitleImage: string,
    Date: string,
    ReleaseYear: string,
    MpaRating: string,
    Category: string,
    Duration: string,
    Description: string)

  const PlaceholderPath := "/assets/videos/placeholder.svg"
  const PublicAssets := "/assets/"
  const TrendingLimit := 50
  const SecondsPerHour := 3600
  const SecondsPerMinute := 60

  /** The image files bundled with the application; the bundler gives each one a URL. */
  const BundledImages: set<string> := {
    "FeaturedCoverImage.png", "FeaturedTitleImage.png",
    "https_specials-1.png", "https_specials-2.png", "https_specials-3.png", "https_specials-4.png",
    "https_specials-5.png", "https_specials-6.png", "https_specials-7.png", "https_specials-8.png"
  }

  /** An image map as the bundler builds it: one non-empty URL per bundled image. */
  ghost predicate IsImageMap(imageMap: map<string, string>) {
    imageMap.Keys == BundledImages && forall f :: f in imageMap ==> imageMap[f] != ""
  }

  /** Image URL for a file name of the document: placeholder, bundled URL, or public asset. */
  function GetImagePath(filename: string, imageMap: map<string, string>): (r: string)
    ensures r != ""
    ensures filename == "" ==> r == PlaceholderPath
    ensures filename != "" && filename !in imageMap ==> r == PublicAssets + filename
    ensures filename != "" && filename in imageMap && imageMap[filename] != "" ==> r == imageMap[filename]
  {
    if filename == "" then PlaceholderPath
    else if filename in imageMap && imageMap[filename] != "" then imageMap[filename]
    else PublicAssets + filename
  }

  lemma ImagePathResolution(filename: string, imageMap: map<string, string>)
    requires IsImageMap(imageMap)
    ensures filename == "" ==> GetImagePath(filename, imageMap) == PlaceholderPath
    ensures filename in BundledImages ==> GetImagePath(filename, imageMap) == imageMap[filename]
    ensures filename != "" && filename !in BundledImages ==>
      GetImagePath(filename, imageMap) == PublicAssets + filename
  {
  }

  /** JavaScript's `%` for a positive divisor: the remainder takes the sign of the dividend. */
  function JsRemainder(a: int, b: int): (r: int)
    requires b > 0
    ensures a >= 0 ==> 0 <= r < b
    ensures a < 0 ==> -b < r <= 0
  {
    if a >= 0 then a % b else -((-a) % b)
  }

  /** The text `formatDuration` shows for `hours` and `minutes`. */
  function DurationText(hours: int, minutes: int): string {
    if hours > 0 then IntToString(hours) + "h " + IntToString(minutes) + "m"
    else IntToString(minutes) + "m"
  }

  /**
   * `formatDuration`: the decimal seconds in `durationInSeconds` as hours and minutes.
   * `Math.floor` of a quotient by a positive divisor is Dafny's `/`.
   */
  function FormatDuration(durationInSeconds: string): (r: string)
    ensures |r| >= 2 && r[|r| - 1] == 'm'
    ensures ParseInt(durationInSeconds) == None ==> r == "0m"
  {
    match ParseInt(durationInSeconds)
    case None => "0m"
    case Some(seconds) =>
      DurationText(seconds / SecondsPerHour, JsRemainder(seconds, SecondsPerHour) / SecondsPerMinute)
  }

  /**
   * A non-negative count of seconds, written in decimal and followed by anything that
   * is not a digit, shows as whole hours and the whole minutes left over.
   */
  lemma FormatDurationOfSeconds(n: nat, rest: string)
    requires |rest| == 0 || !IsDigit(rest[0])
    ensures var h, m := n / 3600, n % 3600 / 60;
      && 0 <= m < 60
      && h * 3600 + m * 60 <= n < h * 3600 + m * 60 + 60
      && FormatDuration(NatToString(n) + rest) == DurationText(h, m)
  {
    ParseIntOfIntToString(n, rest);
    assert IntToString(n) == NatToString(n);
  }

  /** Text that holds no digit shows as "0m". */
  lemma FormatDurationNoDigits(s: string)
    requires forall i :: 0 <= i < |s| ==> !IsDigit(s[i])
    ensures FormatDuration(s) == "0m"
  {
    ParseIntNoDigits(s);
  }

  /** Text with a digit that `parseInt` still reads as NaN, because a letter comes first. */
  lemma FormatDurationLetterFirst()
    ensures ParseInt("x5") == None && FormatDuration("x5") == "0m"
  {
    assert !IsStrWhiteSpace('x') && !IsDigit('x');
    assert TrimStart("x5") == "x5";
    assert DigitPrefix("x5") == [];
  }

  /**
   * Negative seconds: `Math.floor` makes the hours negative, so only the minutes are
   * shown, and JavaScript's `%` keeps them between -60 and 0 (-90 seconds show as "-2m").
   */
  lemma FormatDurationNegative(s: string, n: int)
    requires ParseInt(s) == Some(n) && n < 0
    ensures var m := JsRemainder(n, SecondsPerHour) / SecondsPerMinute;
      && -60 <= m <= 0
      && FormatDuration(s) == IntToString(m) + "m"
  {
    assert n / SecondsPerHour < 0;
  }


  /** `transformRawVideoData`: a trending entry as a `Video`. */
  function TransformRawVideoData(raw: RawVideoData, imageMap: map<string, string>): (v: Video)
    ensures v.id == raw.Id && v.title == raw.Title && v.videoUrl == raw.VideoUrl
    ensures v.description == raw.Description && v.category == raw.Category
    ensures v.releaseYear == raw.ReleaseYear && v.mpaRating == raw.MpaRating
    ensures v.coverImage == GetImagePath(raw.CoverImage, imageMap)
    ensures v.logoImage == GetImagePath(raw.TitleImage, imageMap)
    ensures v.createdAt == v.updatedAt == raw.Date
    ensures v.isFeatured == None
    ensures v.duration == FormatDuration(raw.Duration)
  {
    Video(raw.Id, raw.Title, raw.Description, raw.Category, raw.ReleaseYear, raw.MpaRating,
      FormatDuration(raw.Duration), GetImagePath(raw.CoverImage, imageMap),
      GetImagePath(raw.TitleImage, imageMap), raw.VideoUrl, None, raw.Date, raw.Date)
  }

  /** `transformRawFeaturedData`: the featured entry as a `Video`. */
  function TransformRawFeaturedData(raw: RawFeaturedData, imageMap: map<string, string>): (v: Video)
    ensures v.id == raw.Id && v.title == raw.Title
    ensures v.description == raw.Description && v.category == raw.Category
    ensures v.releaseYear == raw.ReleaseYear && v.mpaRating == raw.MpaRating
    ensures v.coverImage == GetImagePath(raw.CoverImage, imageMap)
    ensures v.logoImage == GetImagePath(raw.TitleImage, imageMap)
    ensures v.duration == FormatDuration(raw.Duration)
    ensures v.createdAt == v.updatedAt == raw.Date
    ensures v.isFeatured == Some(true) && v.videoUrl == None
  {
    Video(raw.Id, raw.Title, raw.Description, raw.Category, raw.ReleaseYear, raw.MpaRating,
      FormatDuration(raw.Duration), GetImagePath(raw.CoverImage, imageMap),
      GetImagePath(raw.TitleImage, imageMap), None, Some(true), raw.Date, raw.Date)
  }

  /** The featured entry read as a trending entry that has no video URL. */
  function FeaturedAsTrending(raw: RawFeaturedData): RawVideoData {
    RawVideoData(raw.Id, raw.Title, raw.CoverImage, raw.TitleImage, raw.Date, raw.ReleaseYear,
      raw.MpaRating, raw.Category, raw.Duration, None, raw.Description)
  }

  /** The two transformations differ only in the featured flag. */
  lemma FeaturedTransformIsVideoTransform(raw: RawFeaturedData, imageMap: map<string, string>)
    ensures TransformRawFeaturedData(raw, imageMap)
         == TransformRawVideoData(FeaturedAsTrending(raw), imageMap).(isFeatured := Some(true))
  {
  }

  /** Sort key for "newest first": a later creation time is a smaller key. */
  function NewestKey(createdTime: string -> int): Video -> int {
    (v: Video) => -createdTime(v.createdAt)
  }

  /** The comparator `(a, b) => time(b) - time(a)` under the stable sort. */
  function NewestFirst(videos: seq<Video>, createdTime: string -> int): (r: seq<Video>)
    ensures multiset(r) == multiset(videos)
    ensures |r| == |videos|
    ensures forall i, j :: 0 <= i < j < |r| ==> createdTime(r[i].createdAt) >= createdTime(r[j].createdAt)
  {
    var r := SortBy(videos, NewestKey(createdTime));
    assert |multiset(r)| == |multiset(videos)|;
    assert forall i, j :: 0 <= i < j < |r| ==> NewestKey(createdTime)(r[i]) <= NewestKey(createdTime)(r[j]);
    r
  }

  /** `array.slice(0, end)`: a negative end counts back from the end of the array. */
  function SliceTo<T>(s: seq<T>, end: int): (r: seq<T>)
    ensures |r| <= |s| && r == s[..|r|]
    ensures end >= 0 ==> |r| == if end < |s| then end else |s|
    ensures end < 0 ==> |r| == if |s| + end > 0 then |s| + end else 0
  {
    if end < 0 then (if |s| + end > 0 then s[..|s| + end] else [])
    else if end < |s| then s[..end] else s
  }

  function Min(a: int, b: int): int {
    if a < b then a else b
  }

  /**
   * `getTrendingVideos` as written: a newest-first prefix of a copy of the trending list,
   * cut by `slice(0, Math.min(maxCount, 50))`. A negative `maxCount` reaches `slice` as a
   * negative end, which drops that many videos from the end instead of keeping none.
   */
  function TrendingVideosAsWritten(trending: seq<Video>, maxCount: int, createdTime: string -> int): (r: seq<Video>)
    ensures |r| <= |trending| && r == NewestFirst(trending, createdTime)[..|r|]
    ensures 0 <= maxCount ==> |r| == Min(|trending|, Min(maxCount, TrendingLimit))
    ensures maxCount < 0 ==> |r| == if |trending| + maxCount > 0 then |trending| + maxCount else 0
  {
    SliceTo(NewestFirst(trending, createdTime), Min(maxCount, TrendingLimit))
  }

  /** Sixty trending videos and `maxCount == -1` give 59 videos, above the limit of 50. */
  lemma TrendingLimitExceeded(trending: seq<Video>, createdTime: string -> int)
    requires |trending| == 60
    ensures |TrendingVideosAsWritten(trending, -1, createdTime)| == 59 > TrendingLimit
  {
  }

  /**
   * The sorting and truncation of `getTrendingVideos` as its comment intends: at most
   * `min(maxCount, 50)` of the newest videos, and none for a negative `maxCount`.
   */
  function TrendingVideos(trending: seq<Video>, maxCount: int, createdTime: string -> int): (r: seq<Video>)
    ensures |r| <= TrendingLimit
    ensures |r| <= |trending| && r == NewestFirst(trending, createdTime)[..|r|]
    ensures |r| == Min(|trending|, Min(if maxCount < 0 then 0 else maxCount, TrendingLimit))
    ensures multiset(r) <= multiset(trending)
    ensures forall i, j :: 0 <= i < j < |r| ==> createdTime(r[i].createdAt) >= createdTime(r[j].createdAt)
  {
    var sorted := NewestFirst(trending, createdTime);
    var r := SliceTo(sorted, if maxCount < 0 then 0 else Min(maxCount, TrendingLimit));
    PrefixSubMultiset(sorted, |r|);
    r
  }

  /** A prefix holds no element more often than the whole sequence. */
  lemma PrefixSubMultiset(s: seq<Video>, k: nat)
    requires k <= |s|
    ensures multiset(s[..k]) <= multiset(s)
  {
    assert s == s[..k] + s[k..];
    assert multiset(s) == multiset(s[..k]) + multiset(s[k..]);
  }

  /** The two agree whenever `maxCount` is not negative. */
  lemma TrendingVideosAgree(trending: seq<Video>, maxCount: int, createdTime: string -> int)
    requires 0 <= maxCount
    ensures TrendingVideos(trending, maxCount, createdTime) == TrendingVideosAsWritten(trending, maxCount, createdTime)
  {
  }

  /** `ids.indexOf(id)`: the first position of `id`, or -1. */
  function IndexOf(ids: seq<string>, id: string): (i: int)
    ensures -1 <= i < |ids|
    ensures i == -1 <==> id !in ids
    ensures i >= 0 ==> ids[i] == id && forall j :: 0 <= j < i ==> ids[j] != id
  {
    if |ids| == 0 then -1
    else if ids[0] == id then 0
    else
      var i := IndexOf(ids[1..], id);
      if i == -1 then -1 else i + 1
  }

  /** The videos whose id is in `ids`, in input order. */
  function ViewedIn(videos: seq<Video>, ids: seq<string>): (r: seq<Video>)
    ensures forall i :: 0 <= i < |r| ==> r[i].id in ids
  {
    if |videos| == 0 then []
    else (if videos[0].id in ids then [videos[0]] else []) + ViewedIn(videos[1..], ids)
  }

  /** The videos whose id is not in `ids`, in input order. */
  function NotViewedIn(videos: seq<Video>, ids: seq<string>): (r: seq<Video>)
    ensures forall i :: 0 <= i < |r| ==> r[i].id !in ids
  {
    if |videos| == 0 then []
    else (if videos[0].id in ids then [] else [videos[0]]) + NotViewedIn(videos[1..], ids)
  }

  lemma {:induction false} ViewedPartition(videos: seq<Video>, ids: seq<string>)
    ensures multiset(ViewedIn(videos, ids)) + multiset(NotViewedIn(videos, ids)) == multiset(videos)
  {
    if |videos| > 0 {
      var tail := videos[1..];
      ViewedPartition(tail, ids);
      assert multiset(videos) == multiset{videos[0]} + multiset(tail) by {
        assert videos == [videos[0]] + tail;
      }
      if videos[0].id in ids {
        assert ViewedIn(videos, ids) == [videos[0]] + ViewedIn(tail, ids);
        assert NotViewedIn(videos, ids) == NotViewedIn(tail, ids);
      } else {
        assert ViewedIn(videos, ids) == ViewedIn(tail, ids);
        assert NotViewedIn(videos, ids) == [videos[0]] + NotViewedIn(tail, ids);
      }
    }
  }

  /** Sort key for "most recently viewed first": the position in the viewed list. */
  function ViewOrderKey(ids: seq<string>): Video -> int {
    (v: Video) => IndexOf(ids, v.id)
  }

  /** The first part of `sortVideosByLastViewed`: the viewed videos in the order of `ids`. */
  function ViewedPart(videos: seq<Video>, ids: seq<string>): (s: seq<Video>)
    ensures multiset(s) == multiset(ViewedIn(videos, ids))
    ensures |s| == |ViewedIn(videos, ids)|
    ensures forall i :: 0 <= i < |s| ==> s[i].id in ids
    ensures forall i, j :: 0 <= i < j < |s| ==> IndexOf(ids, s[i].id) <= IndexOf(ids, s[j].id)
    ensures forall p :: WithKey(s, ViewOrderKey(ids), p) == WithKey(ViewedIn(videos, ids), ViewOrderKey(ids), p)
  {
    var v := ViewedIn(videos, ids);
    var key := ViewOrderKey(ids);
    var s := SortBy(v, key);
    SortByElements(v, key);
    ElementsViewed(s, v, ids);
    ViewOrderSorted(s, ids);
    assert forall p :: WithKey(s, key, p) == WithKey(v, key, p) by {
      forall p ensures WithKey(s, key, p) == WithKey(v, key, p) {
        SortByStable(v, key, p);
      }
    }
    s
  }

  /** Videos drawn from the viewed filter all have viewed ids. */
  lemma ElementsViewed(s: seq<Video>, v: seq<Video>, ids: seq<string>)
    requires forall i :: 0 <= i < |v| ==> v[i].id in ids
    requires forall i :: 0 <= i < |s| ==> s[i] in v
    ensures forall i :: 0 <= i < |s| ==> s[i].id in ids
  {
    forall i | 0 <= i < |s| ensures s[i].id in ids {
      var j :| 0 <= j < |v| && v[j] == s[i];
    }
  }

  /** Sorted by the view-order key means ascending positions in the viewed list. */
  lemma ViewOrderSorted(s: seq<Video>, ids: seq<string>)
    requires SortedBy(s, ViewOrderKey(ids))
    ensures forall i, j :: 0 <= i < j < |s| ==> IndexOf(ids, s[i].id) <= IndexOf(ids, s[j].id)
  {
    forall i, j | 0 <= i < j < |s| ensures IndexOf(ids, s[i].id) <= IndexOf(ids, s[j].id) {
      assert ViewOrderKey(ids)(s[i]) <= ViewOrderKey(ids)(s[j]);
    }
  }

  /** The second part of `sortVideosByLastViewed`: the other videos, newest first. */
  function OtherPart(videos: seq<Video>, ids: seq<string>, createdTime: string -> int): (s: seq<Video>)
    ensures multiset(s) == multiset(NotViewedIn(videos, ids))
    ensures forall i :: 0 <= i < |s| ==> s[i].id !in ids
    ensures forall i, j :: 0 <= i < j < |s| ==> createdTime(s[i].createdAt) >= createdTime(s[j].createdAt)
    ensures forall t :: WithKey(s, NewestKey(createdTime), t) == WithKey(NotViewedIn(videos, ids), NewestKey(createdTime), t)
  {
    var v := NotViewedIn(videos, ids);
    var s := NewestFirst(v, createdTime);
    assert s == SortBy(v, NewestKey(createdTime));
    SortByElements(v, NewestKey(createdTime));
    assert forall i :: 0 <= i < |s| ==> s[i].id !in ids by {
      forall i | 0 <= i < |s| ensures s[i].id !in ids {
        assert s[i] in v;
      }
    }
    assert forall t :: WithKey(s, NewestKey(createdTime), t) == WithKey(v, NewestKey(createdTime), t) by {
      forall t ensures WithKey(s, NewestKey(createdTime), t) == WithKey(v, NewestKey(createdTime), t) {
        SortByStable(v, NewestKey(createdTime), t);
      }
    }
    s
  }

  /**
   * `sortVideosByLastViewed` (and the hook's `getSortedVideosByViewed`): the viewed videos
   * in the order of `viewedIds`, then the others newest first, both by the stable sort.
   */
  function SortVideosByLastViewed(videos: seq<Video>, viewedIds: seq<string>, createdTime: string -> int): (r: seq<Video>)
    ensures multiset(r) == multiset(videos)
  {
    ViewedPartition(videos, viewedIds);
    ViewedPart(videos, viewedIds) + OtherPart(videos, viewedIds, createdTime)
  }

  /**
   * The arrangement `SortVideosByLastViewed` produces: first every viewed video, ordered
   * by its position in `viewedIds`, then every other video, newest first.
   */
  lemma LastViewedOrder(videos: seq<Video>, viewedIds: seq<string>, createdTime: string -> int)
    ensures var r := SortVideosByLastViewed(videos, viewedIds, createdTime);
      var k := |ViewedIn(videos, viewedIds)|;
      && k <= |r|
      && (forall i :: 0 <= i < k ==> r[i].id in viewedIds)
      && (forall i :: k <= i < |r| ==> r[i].id !in viewedIds)
      && (forall i, j :: 0 <= i < j < k ==> IndexOf(viewedIds, r[i].id) <= IndexOf(viewedIds, r[j].id))
      && (forall i, j :: k <= i < j < |r| ==> createdTime(r[i].createdAt) >= createdTime(r[j].createdAt))
  {
    ConcatArrangement(ViewedPart(videos, viewedIds), OtherPart(videos, viewedIds, createdTime), viewedIds, createdTime);
  }

  lemma ConcatArrangement(viewed: seq<Video>, others: seq<Video>, viewedIds: seq<string>, createdTime: string -> int)
    requires forall i :: 0 <= i < |viewed| ==> viewed[i].id in viewedIds
    requires forall i :: 0 <= i < |others| ==> others[i].id !in viewedIds
    requires forall i, j :: 0 <= i < j < |viewed| ==> IndexOf(viewedIds, viewed[i].id) <= IndexOf(viewedIds, viewed[j].id)
    requires forall i, j :: 0 <= i < j < |others| ==> createdTime(others[i].createdAt) >= createdTime(others[j].createdAt)
    ensures var r := viewed + others;
      var k := |viewed|;
      && (forall i :: 0 <= i < k ==> r[i].id in viewedIds)
      && (forall i :: k <= i < |r| ==> r[i].id !in viewedIds)
      && (forall i, j :: 0 <= i < j < k ==> IndexOf(viewedIds, r[i].id) <= IndexOf(viewedIds, r[j].id))
      && (forall i, j :: k <= i < j < |r| ==> createdTime(r[i].createdAt) >= createdTime(r[j].createdAt))
  {
    var r := viewed + others;
    var k := |viewed|;
    assert forall i :: k <= i < |r| ==> r[i] == others[i - k];
  }

  /**
   * Unviewed videos created at the same time keep their input order, and so do viewed
   * videos that share a position in `viewedIds` (duplicate ids in the input).
   */
  lemma SortVideosByLastViewedStable(videos: seq<Video>, viewedIds: seq<string>, createdTime: string -> int, t: int, p: int)
    ensures var r := SortVideosByLastViewed(videos, viewedIds, createdTime);
      var k := |ViewedIn(videos, viewedIds)|;
      && k <= |r|
      && WithKey(r[k..], NewestKey(createdTime), -t) == WithKey(NotViewedIn(videos, viewedIds), NewestKey(createdTime), -t)
      && WithKey(r[..k], ViewOrderKey(viewedIds), p) == WithKey(ViewedIn(videos, viewedIds), ViewOrderKey(viewedIds), p)
  {
    var viewed := ViewedPart(videos, viewedIds);
    var others := OtherPart(videos, viewedIds, createdTime);
    var r := viewed + others;
    assert r[..|viewed|] == viewed && r[|viewed|..] == others;
  }
}
