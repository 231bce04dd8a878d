# vecto-tv-test-task in Dafny

This is a Dafny model of the logic behind the TV-style home page of `vecto-tv-test-task`, a React application. It covers:

- the carousel's index and gesture engine (`useCarousel`);
- the session's recently-viewed list and timestamps (`useSessionStorage`);
- the video entity helpers (`model.ts`): duration text, image resolution, record mapping, the newest-first trending list and the viewed-first ordering;
- the featured video's playback state (`useFeaturedVideo`) and the sidebar menu's state (`useMenuState`);
- the asset URL helpers (`paths.ts`);
- the trending carousel widget's click and page-indicator arithmetic (`TrendingCarousel.tsx`).

Each hook becomes a class. Its `useState` record is a datatype held in one field and replaced with `.(field := value)`, the way `setState(prev => ({ ...prev, field }))` replaces it. Each `setState` takes effect at once.

Pure helpers become functions. The lemmas beside them state the properties the code promises.

Anything the browser supplies is a parameter:

- the clock (`now`);
- date parsing (`createdTime: string -> int`);
- the viewport width;
- mouse and touch coordinates and the track's scroll offset;
- the build environment;
- the decoded JSON and session-storage contents.

A storage call that throws is modelled by a count of the calls that succeed before it.

The modules are:

- `Wrappers`: `Option`.
- `StableSort`: the sort of ECMAScript 2019, section 22.1.3.27. It is stable, so its result is unique.
- `Decimal`: `parseInt(s, 10)` from section 18.2.5 of ECMAScript 2019, and the decimal text of integers.
- `AssetPaths`: `paths.ts`.
- `VideoModel`: `model.ts`.
- `Carousel`: `useCarousel.ts`.
- `SessionHistory`: `useSessionStorage.ts`.
- `FeaturedVideo`: `useFeaturedVideo.ts`.
- `Menu`: `useMenuState.ts`.
- `TrendingCarousel`: `TrendingCarousel.tsx`.

Four behaviours of the code that a reader may not expect:

- The arrow steps `scrollLeft`/`scrollRight` clamp to `[0, maxIndex]`; they do not wrap. So End followed by ArrowRight stays at `maxIndex` (`Carousel.EndThenArrowRight`).
- Scroll reconciliation ignores a rounded index outside `[0, maxIndex]`; it does not clamp it.
- The one-second completion timer of `handlePlay` is never cancelled. A pause or a new selection before it fires is overridden (`FeaturedVideo.StaleCompletion`, `FeaturedVideo.PauseBeforeCompletion`).
- Only `setCurrentIndex`/`scrollToIndex` wrap. So a click near the end of the list, or the last page indicator on a partial page, jumps back to the first position (`TrendingCarousel.ClickLastOfTen`, `TrendingCarousel.LastIndicatorWraps`).

## Model

| member | source | states |
|---|---|---|
| AssetPaths.GetAssetPath | src/shared/utils/paths.ts:2-10 | In development the URL is the path itself. Otherwise it is the path under `/vecto-tv-test-task`: the prefix, then exactly the path. |
| AssetPaths.GetImagePath | src/shared/utils/paths.ts:13-16 | The empty name resolves to the placeholder image. The URL of any other name ends with `/assets/` and the name. It starts with `/assets/` in development and with the repository prefix in production. |
| AssetPaths.GetIconPath | src/shared/utils/paths.ts:18-20 | An icon's URL ends with `/assets/icons/` and the name. It is exactly that path in development, and that path under the repository prefix in production. |
| AssetPaths.AssetPathInjective | src/shared/utils/paths.ts:2-10 | Different paths never resolve to the same URL, in either build. |
| AssetPaths.AssetPathNotIdempotent | src/shared/utils/paths.ts:9 | In production, resolving a resolved URL again doubles the repository prefix, so resolution is not idempotent. |
| AssetPaths.ImagePathCollisions | src/shared/utils/paths.ts:13-16 | Two image names share a URL iff they are equal, or one is empty and the other is `videos/placeholder.svg`. The empty name falls back to the placeholder. |
| AssetPaths.IconPathIsImagePath | src/shared/utils/paths.ts:18-20 | An icon's URL is the image URL of the same file under `icons/`. |
| StableSort.SortBy | src/entities/video/model.ts:257-266 | The comparator-driven sort returns a permutation of its input, non-decreasing by key. |
| StableSort.SortByStable | src/entities/video/model.ts:257-266 | For every key, the elements with that key appear in the same order before and after the sort. |
| StableSort.StableSortIsUnique | src/entities/video/model.ts:257-266 | Two key-ordered sequences that hold every key's elements in the same order are equal, so a stable sort's result is determined. |
| StableSort.StableArrangementIsSortBy | src/entities/video/model.ts:257-266 | Any key-ordered arrangement that keeps each key's input order is exactly `SortBy`'s result. |
| StableSort.InsertSorted | src/entities/video/model.ts:257-266 | Inserting into a sorted sequence keeps it sorted and adds exactly the one element. |
| Decimal.TrimStart | src/entities/video/model.ts:100 | `parseInt` first drops the leading StrWhiteSpaceChar code points: the result is a suffix, everything dropped is white space, and the rest does not start with white space. |
| Decimal.DigitPrefix | src/entities/video/model.ts:100 | The longest run of leading decimal digits: a prefix made only of digits and not followed by a digit. |
| Decimal.ParseInt | src/entities/video/model.ts:100 | Blank text is NaN. A non-empty run of digits reads as its value, and a minus sign followed by digits reads as the negated value. |
| Decimal.ParseSigned | src/entities/video/model.ts:100 | After the white space: empty text is NaN, digits read as their value, and `-` then digits as the negated value. |
| Decimal.ParseDigits | src/entities/video/model.ts:100 | A value exists iff the text starts with a digit. It is never negative, and text made only of digits reads as its value. |
| Decimal.NatToString | src/entities/video/model.ts:107 | The decimal text of a count is non-empty, all digits, and has no leading zero except for 0 itself. |
| Decimal.IntToString | src/entities/video/model.ts:107 | The text is non-empty. A negative integer is `-` followed by digits only; any other integer is digits only. `Decimal.ParseIntOfIntToString` reads it back. |
| Decimal.NatToStringValue | src/entities/video/model.ts:107 | Reading the digits of a count's decimal text gives the count back. |
| Decimal.ParseIntOfIntToString | src/entities/video/model.ts:100 | `parseInt` of an integer's decimal text, followed by anything that does not start with a digit, gives that integer. |
| Decimal.ParseNonNegative | src/entities/video/model.ts:100 | `parseInt` of a count's decimal text, followed by a non-digit or nothing, gives the count. |
| Decimal.ParseNegative | src/entities/video/model.ts:100 | `parseInt` reads a minus sign and then digits as the negated value. |
| Decimal.IntToStringInjective | src/entities/video/model.ts:107 | Different integers have different decimal texts. |
| Decimal.ParseIntNoDigits | src/entities/video/model.ts:100-101 | Text without a single digit is NaN to `parseInt`. |
| VideoModel.GetImagePath | src/entities/video/model.ts:50-61 | Never an empty URL. The empty name gives the placeholder. A name with a non-empty bundled URL gives that URL, and a name the map lacks gives `/assets/` plus the name. |
| VideoModel.ImagePathResolution | src/entities/video/model.ts:36-61 | The empty name gives the placeholder, a bundled name its bundled URL, and any other name `/assets/` plus the name. |
| VideoModel.JsRemainder | src/entities/video/model.ts:104 | JavaScript's `%` with a positive divisor: in `[0, b)` for a non-negative dividend, in `(-b, 0]` for a negative one. |
| VideoModel.FormatDurationOfSeconds | src/entities/video/model.ts:99-110 | For `s >= 0` seconds, `h = floor(s/3600)` and `m = floor((s mod 3600)/60)`, with `m < 60`. `h*3600 + m*60` is the largest whole minute not above `s`. The text is `"Hh Mm"` when `h > 0` and `"Mm"` otherwise. |
| VideoModel.FormatDuration | src/entities/video/model.ts:99-110 | The text always ends in `m` after at least one other character. Any text that `parseInt` reads as NaN shows as `"0m"`. |
| VideoModel.FormatDurationNoDigits | src/entities/video/model.ts:100-101 | Text without any digit is NaN to `parseInt` and shows as `"0m"`. |
| VideoModel.FormatDurationLetterFirst | src/entities/video/model.ts:100-101 | `"x5"` holds a digit but starts with a letter, so `parseInt` reads NaN and it shows as `"0m"`. |
| VideoModel.FormatDurationNegative | src/entities/video/model.ts:103-109 | For every negative count of seconds there is no hours part. The text is the JavaScript remainder by 3600, floored to whole minutes, which lies in `[-60, 0]`. |
| VideoModel.TransformRawVideoData | src/entities/video/model.ts:64-79 | A trending entry keeps its id, title, description, category, release year, rating and video URL. Cover and logo are the resolved images of its cover and title image names, and the duration is the formatted duration. Creation and update times are both its `Date`, and the entry is not flagged as featured. |
| VideoModel.TransformRawFeaturedData | src/entities/video/model.ts:81-96 | The featured entry keeps its id, title, description, category, release year and rating. Cover and logo are the resolved images, the duration is the formatted duration, and both times equal its `Date`. It is flagged as featured and has no video URL. |
| VideoModel.FeaturedTransformIsVideoTransform | src/entities/video/model.ts:64-96 | The featured transform is the trending transform of the same entry without a video URL, plus the featured flag. |
| VideoModel.NewestFirst | src/entities/video/model.ts:239-243 | The date comparator's sort is a permutation of the input with creation times non-increasing. |
| VideoModel.SliceTo | src/entities/video/model.ts:244 | `slice(0, end)` is a prefix. A non-negative end keeps `min(end, length)` items; a negative end drops `-end` items from the back. |
| VideoModel.TrendingVideosAsWritten | src/entities/video/model.ts:234-247 | As written: a newest-first prefix of `min(maxCount, 50)` videos for `maxCount >= 0`, and of `length + maxCount` videos for a negative `maxCount`. |
| VideoModel.TrendingLimitExceeded | src/entities/video/model.ts:244 | Sixty trending videos and `maxCount = -1` give 59 videos, more than the 50 the comment promises. |
| VideoModel.TrendingVideos | src/entities/video/model.ts:234-247 | At most 50 videos. The result is the newest-first prefix of the trending list, of length `min(length, max(maxCount, 0), 50)`, a sub-multiset of the list, and ordered by creation time. |
| VideoModel.TrendingVideosAgree | src/entities/video/model.ts:244 | For every non-negative `maxCount` the corrected and the as-written lists are the same. |
| VideoModel.IndexOf | src/entities/video/model.ts:258-259 | `indexOf`: -1 iff the id is absent, otherwise the first position holding the id. |
| VideoModel.ViewedIn | src/entities/video/model.ts:253 | The filter keeps only videos whose id is in the viewed list. |
| VideoModel.NotViewedIn | src/entities/video/model.ts:254 | The complementary filter keeps only videos whose id is not in the viewed list. |
| VideoModel.ViewedPartition | src/entities/video/model.ts:253-254 | Together the two filters hold every input video exactly as often as the input does. |
| VideoModel.ViewedPart | src/entities/video/model.ts:253-261 | The sorted viewed videos are a permutation of the viewed filter, ordered by ascending `indexOf`, with ties in input order. |
| VideoModel.OtherPart | src/entities/video/model.ts:254-266 | The sorted unviewed videos are a permutation of the unviewed filter, newest first, with equal creation times in input order. |
| VideoModel.SortVideosByLastViewed | src/entities/video/model.ts:249-269 | `sortVideosByLastViewed` returns a permutation of its input. |
| VideoModel.LastViewedOrder | src/entities/video/model.ts:249-269 | The result is every viewed video, in ascending order of the viewed list, followed by every unviewed video, newest first. |
| VideoModel.SortVideosByLastViewedStable | src/entities/video/model.ts:257-266 | Unviewed videos with equal creation times keep their input order, and so do viewed videos that share a list position. |
| Carousel.ItemWidth | src/features/video/useCarousel.ts:55-60 | The card width is 120/150/180/200 for viewports up to 480/768/1024/wider. |
| Carousel.ItemWidthMonotone | src/features/video/useCarousel.ts:55-60 | A wider viewport never gives a narrower card. |
| Carousel.ItemPitch | src/features/video/useCarousel.ts:62 | The card pitch is the width plus the 16px gap, and at least 136. |
| Carousel.Wrap | src/features/video/useCarousel.ts:31-36 | The wrapped index is in `[0, maxIndex]`: negative goes to `maxIndex`, beyond goes to 0, and an index in range stays. |
| Carousel.WrapIdempotent | src/features/video/useCarousel.ts:47-52 | Wrapping twice is wrapping once; `scrollToIndex` wraps before `setCurrentIndex` wraps again. |
| Carousel.RoundDiv | src/features/video/useCarousel.ts:279 | `Math.round(offset / width)`: the integer `n` with `n - 1/2 <= offset/width < n + 1/2`. |
| Carousel.RoundDivUnique | src/features/video/useCarousel.ts:279 | Only one integer lies within half a width of the offset. |
| Carousel.RoundDivOfMultiple | src/features/video/useCarousel.ts:62-63 | Rounding back an offset `i * pitch` gives `i`. |
| Carousel.CarouselEngine.constructor | src/features/video/useCarousel.ts:4-15 | The initial state is index 0, not dragging, anchors 0, not auto-scrolling, and touch time and distance 0. |
| Carousel.CarouselEngine.MaxIndex | src/features/video/useCarousel.ts:18 | `maxIndex = max(0, total - visible)`: never negative, and either 0 or `total - visible`. |
| Carousel.CarouselEngine.NeedsScrolling | src/features/video/useCarousel.ts:19 | The items overflow the window exactly when there is a position past the first, that is when `maxIndex` is positive. |
| Carousel.CarouselEngine.AfterSetIndex | src/features/video/useCarousel.ts:27-41 | `setCurrentIndex` changes nothing when scrolling is not needed; otherwise only the index changes, to the wrapped value. |
| Carousel.CarouselEngine.SetCurrentIndex | src/features/video/useCarousel.ts:27-41 | The new state is `AfterSetIndex`. It keeps the index in range, and puts it in range whenever scrolling is needed. |
| Carousel.CarouselEngine.ScrollToIndex | src/features/video/useCarousel.ts:43-73 | The track is sent to `wrap(index) * (width + 16)`, which is never negative; then the index is set. |
| Carousel.CarouselEngine.ScrollLeft | src/features/video/useCarousel.ts:102-114 | Scrolls the track by -216 and sets the index to `max(0, i - 1)`. In range it never wraps, and the index drops iff `canScrollLeft` held. |
| Carousel.CarouselEngine.ScrollRight | src/features/video/useCarousel.ts:116-128 | Scrolls the track by +216 and sets the index to `min(maxIndex, i + 1)`. It never wraps, and the index rises iff `canScrollRight` held (lines 298-300). |
| Carousel.CarouselEngine.ScrollToStart | src/features/video/useCarousel.ts:130-133 | When scrolling is needed: index 0, with the track at 0. Otherwise nothing changes. |
| Carousel.CarouselEngine.ScrollToEnd | src/features/video/useCarousel.ts:135-138 | When scrolling is needed: index `maxIndex`, with the track at its card. Otherwise nothing changes. |
| Carousel.CarouselEngine.HandleMouseDown | src/features/video/useCarousel.ts:140-153 | When scrolling is needed, starts a drag anchored at `pageX - offsetLeft` and the track's offset. The index is untouched. |
| Carousel.CarouselEngine.HandleMouseMove | src/features/video/useCarousel.ts:155-171 | Only while dragging: the track goes to `anchor - 2*(x - startX)` and the default action is prevented. Otherwise nothing happens. |
| Carousel.CarouselEngine.HandleMouseUp | src/features/video/useCarousel.ts:173-175 | Ends the drag; nothing else changes. |
| Carousel.CarouselEngine.HandleMouseLeave | src/features/video/useCarousel.ts:177-179 | Ends the drag; nothing else changes. |
| Carousel.CarouselEngine.HandleTouchStart | src/features/video/useCarousel.ts:181-197 | As mouse down, and the tap clock restarts at `now` with distance 0. |
| Carousel.CarouselEngine.HandleTouchMove | src/features/video/useCarousel.ts:199-217 | As mouse move, and the distance becomes `abs(walk)`. A distance of 10 or more makes `isTouchTap` false for every time (lines 259-264). |
| Carousel.CarouselEngine.HandleTouchEnd | src/features/video/useCarousel.ts:219-221 | Ends the drag; nothing else changes. |
| Carousel.CarouselEngine.HandleKeyDown | src/features/video/useCarousel.ts:223-247 | Handled iff scrolling is needed and the key is ArrowLeft/ArrowRight/Home/End; any other key changes nothing. Home sends the track to 0 at index 0, End to `maxIndex`'s card at index `maxIndex`. ArrowRight steps the track by +216 and the index to `min(maxIndex, i + 1)`; ArrowLeft by -216 and the index to `max(0, i - 1)` (wrapped only from an index out of range). |
| Carousel.CarouselEngine.StartAutoScroll | src/features/video/useCarousel.ts:249-252 | Sets the auto-scroll flag only when scrolling is needed. |
| Carousel.CarouselEngine.StopAutoScroll | src/features/video/useCarousel.ts:254-256 | Always clears the auto-scroll flag. |
| Carousel.CarouselEngine.HandleScroll | src/features/video/useCarousel.ts:266-288 | Adopts `round(offset / pitch)` as the index iff scrolling is needed and it lies in `[0, maxIndex]`. Otherwise the state is unchanged. |
| Carousel.CarouselEngine.ClampToMaxIndex | src/features/video/useCarousel.ts:21-25 | The effect lowers an index above `maxIndex` to `maxIndex` and leaves the rest alone. |
| Carousel.CarouselEngine.Rerender | src/features/video/useCarousel.ts:18-25 | A new item count followed by the clamp effect leaves the index in range. |
| Carousel.EndThenArrowRight | src/features/video/useCarousel.ts:116-138 | With 10 items shown 4 at a time, End then ArrowRight is handled and the index stays at 6. |
| Carousel.DragScenario | src/features/video/useCarousel.ts:140-171 | A drag from x=100 to x=40 over offset 0 sets the track to 120 and keeps index 0. |
| Carousel.ScrollThenSettle | src/features/video/useCarousel.ts:43-73 | The scroll event for the offset `scrollToIndex` commanded leaves the index at the wrapped target (lines 266-288). |
| Carousel.DefaultWindowScenario | src/features/video/useCarousel.ts:4-19 | With the default window of 8, eight items need no scrolling and nine have `maxIndex` 1. |
| SessionHistory.Without | src/features/video/useSessionStorage.ts:42 | The filter keeps exactly the ids other than the given one; a list without that id is unchanged. |
| SessionHistory.WithoutMultiset | src/features/video/useSessionStorage.ts:42 | The filter drops every occurrence of the id and keeps every other id as often as it occurred. |
| SessionHistory.WithoutAppend | src/features/video/useSessionStorage.ts:42 | Filtering a concatenation filters each part, so the kept ids keep their order. |
| SessionHistory.WithoutCons | src/features/video/useSessionStorage.ts:42 | A first element is kept iff it is not the id, in front of the filtered rest. |
| SessionHistory.Take | src/features/video/useSessionStorage.ts:46 | `slice(0, n)` is the prefix of length `min(n, length)`. |
| SessionHistory.Recorded | src/features/video/useSessionStorage.ts:40-46 | The new list has the id at the front and at most 20 entries. After the id come the first 19 other ids in their old order, and no new ids appear. |
| SessionHistory.Occurrences | src/features/video/useSessionStorage.ts:104 | The number of entries equal to the id is positive iff the id is in the list. |
| SessionHistory.RecordedOnce | src/features/video/useSessionStorage.ts:40-46 | After recording, the id is first and occurs exactly once. |
| SessionHistory.RecordedNoDuplicates | src/features/video/useSessionStorage.ts:40-46 | Recording keeps a duplicate-free list duplicate-free. |
| SessionHistory.WithoutNoDuplicates | src/features/video/useSessionStorage.ts:42 | The filter keeps a duplicate-free list duplicate-free. |
| SessionHistory.RecordedKeepsOrder | src/features/video/useSessionStorage.ts:40-46 | Without the recorded id, the new list is a prefix of the old one without it, so other ids keep their relative order. |
| SessionHistory.RecordedIdempotent | src/features/video/useSessionStorage.ts:40-46 | Recording the same id twice in a row equals recording it once. |
| SessionHistory.ViewCountAtMostOne | src/features/video/useSessionStorage.ts:102-107 | In a duplicate-free list every id is counted at most once. |
| SessionHistory.IsRecentlyViewed | src/features/video/useSessionStorage.ts:91-100 | False without a timestamp or with a zero (falsy) one; otherwise true iff `now - ts < threshold * 60000`. |
| SessionHistory.RecentAfterRecording | src/features/video/useSessionStorage.ts:44 | After a view at a non-zero time, the id is recent iff less than the threshold has passed since then (lines 91-100). |
| SessionHistory.RecencyOfOthersUnchanged | src/features/video/useSessionStorage.ts:44 | Recording one id leaves every other id's recency as it was. |
| SessionHistory.ViewHistory.constructor | src/features/video/useSessionStorage.ts:10-13 | The initial list and map are empty; storage holds what it held. |
| SessionHistory.ViewHistory.Restore | src/features/video/useSessionStorage.ts:15-34 | Each storage entry that exists replaces its in-memory value; a missing entry leaves it. |
| SessionHistory.ViewHistory.AddViewedVideo | src/features/video/useSessionStorage.ts:36-64 | The list becomes `Recorded` and the map gets `id := now`, with every other timestamp kept. Storage gets the writes that succeeded. After a failed write the new in-memory state stands, and a valid list stays valid. |
| SessionHistory.ViewHistory.ClearSessionStorage | src/features/video/useSessionStorage.ts:109-118 | The removals come first. Only when both succeed are the list and map emptied; otherwise memory is unchanged. |
| SessionHistory.ViewHistory.GetSortedVideosByViewed | src/features/video/useSessionStorage.ts:66-89 | A permutation of the videos: the viewed ones first in list order, then the rest newest first. |
| SessionHistory.ViewHistory.IsRecentlyViewedAt | src/features/video/useSessionStorage.ts:91-100 | The hook's recency test over the current map; true only for an id with a timestamp. |
| SessionHistory.ViewHistory.GetViewCount | src/features/video/useSessionStorage.ts:102-107 | Positive iff the id is in the list, and at most 1 while the list is valid. |
| SessionHistory.ViewAgainScenario | src/features/video/useSessionStorage.ts:40-46 | Viewing a, b, a leaves `[a, b]`, with a counted once. |
| SessionHistory.DefaultThresholdScenario | src/features/video/useSessionStorage.ts:91-100 | Under the default threshold of 30 minutes, a view is recent 29 minutes later and no longer recent 30 minutes later. |
| FeaturedVideo.FeaturedPlayer.constructor | src/features/video/useFeaturedVideo.ts:4-13 | The initial state is paused, not loading, time 0, duration 0, volume 1 and muted; the video is the initial one. |
| FeaturedVideo.FeaturedPlayer.LoadFeaturedVideo | src/features/video/useFeaturedVideo.ts:15-28 | Without an initial video, a successfully loaded featured video becomes the video; a failure or an initial video leaves it. |
| FeaturedVideo.FeaturedPlayer.SetVideoData | src/features/video/useFeaturedVideo.ts:30-32 | Replaces the video. |
| FeaturedVideo.FeaturedPlayer.SetPlaying | src/features/video/useFeaturedVideo.ts:34-36 | Changes only `isPlaying`. |
| FeaturedVideo.FeaturedPlayer.SetLoading | src/features/video/useFeaturedVideo.ts:38-40 | Changes only `isLoading`. |
| FeaturedVideo.FeaturedPlayer.SetCurrentTime | src/features/video/useFeaturedVideo.ts:42-44 | Changes only `currentTime`. |
| FeaturedVideo.FeaturedPlayer.SetDuration | src/features/video/useFeaturedVideo.ts:46-48 | Changes only `duration`. |
| FeaturedVideo.FeaturedPlayer.SetVolume | src/features/video/useFeaturedVideo.ts:50-52 | Changes only `volume`. |
| FeaturedVideo.FeaturedPlayer.SetMuted | src/features/video/useFeaturedVideo.ts:54-56 | Changes only `isMuted`. |
| FeaturedVideo.FeaturedPlayer.HandlePlay | src/features/video/useFeaturedVideo.ts:58-67 | Without a video nothing happens. Otherwise loading starts and one completion is pending. |
| FeaturedVideo.FeaturedPlayer.CompletePlay | src/features/video/useFeaturedVideo.ts:63-66 | A pending completion sets playing and clears loading, whatever happened since. |
| FeaturedVideo.FeaturedPlayer.HandlePause | src/features/video/useFeaturedVideo.ts:69-71 | Clears only `isPlaying`. |
| FeaturedVideo.FeaturedPlayer.HandleVideoSelect | src/features/video/useFeaturedVideo.ts:73-81 | The new video, stopped, not loading, at time 0; duration, volume and muting are kept. |
| FeaturedVideo.FeaturedPlayer.HandleVideoEnd | src/features/video/useFeaturedVideo.ts:83-86 | Clears `isPlaying` and rewinds to 0; nothing else changes. |
| FeaturedVideo.StaleCompletion | src/features/video/useFeaturedVideo.ts:58-81 | Play, select another video, then the timer fires: the new video is playing and not loading. |
| FeaturedVideo.PauseBeforeCompletion | src/features/video/useFeaturedVideo.ts:58-71 | Play, pause, then the timer fires: the video is playing. |
| FeaturedVideo.PlayWithoutVideo | src/features/video/useFeaturedVideo.ts:58-59 | Without a video, play leaves the initial state and starts no timer. |
| Menu.MenuController.constructor | src/features/menu/useMenuState.ts:4-9 | Collapsed, the given item active, nothing hovered. |
| Menu.MenuController.SetExpanded | src/features/menu/useMenuState.ts:11-13 | Changes only `isExpanded`. |
| Menu.MenuController.SetActiveItem | src/features/menu/useMenuState.ts:15-17 | Changes only `activeItemId`. |
| Menu.MenuController.SetHoveredItem | src/features/menu/useMenuState.ts:19-21 | Changes only `hoveredItemId`. |
| Menu.MenuController.HandleItemClick | src/features/menu/useMenuState.ts:23-31 | The item becomes active and the hover is kept. The menu collapses iff the viewport is at most 1024 wide; otherwise expansion is kept. |
| Menu.MenuController.HandleItemHover | src/features/menu/useMenuState.ts:33-38 | Changes only `hoveredItemId`. |
| Menu.MenuController.HandleMenuHover | src/features/menu/useMenuState.ts:40-45 | Changes only `isExpanded`, to the hover flag. |
| Menu.HoverThenClick | src/features/menu/useMenuState.ts:23-45 | Hovering opens the menu, and a click on an 800px viewport closes it with the item active. |
| Menu.ClickOnDesktop | src/features/menu/useMenuState.ts:23-45 | On a 1280px viewport the menu stays open after a click. |
| TrendingCarousel.FindIndex | src/widgets/TrendingCarousel/TrendingCarousel.tsx:86 | `findIndex`: -1 iff no card has the id, otherwise the first card with it. |
| TrendingCarousel.CenterTarget | src/widgets/TrendingCarousel/TrendingCarousel.tsx:88 | `max(0, i - floor(visible / 2))`: never negative, and not past `i`. |
| TrendingCarousel.PageCount | src/widgets/TrendingCarousel/TrendingCarousel.tsx:299-300 | `ceil(n / visible)`: the least count of pages whose cards cover `n`. |
| TrendingCarousel.ExactlyOneActivePage | src/widgets/TrendingCarousel/TrendingCarousel.tsx:299-307 | With the index in `[0, maxIndex]`, exactly one drawn indicator is active, the one for `floor(index / visible)`. |
| TrendingCarousel.LastIndicatorWraps | src/widgets/TrendingCarousel/TrendingCarousel.tsx:309 | The last indicator's target wraps to 0 iff `n mod visible != 0`; otherwise it is `maxIndex`. |
| TrendingCarousel.CountFromBounds | src/widgets/TrendingCarousel/TrendingCarousel.tsx:300 | Only one page count brackets `n`. |
| TrendingCarousel.CenterTargetWraps | src/widgets/TrendingCarousel/TrendingCarousel.tsx:86-89 | A centre target beyond `maxIndex` sends the carousel to 0; any other target is kept. |
| TrendingCarousel.TrendingWidget.constructor | src/widgets/TrendingCarousel/TrendingCarousel.tsx:11-29 | The first render: nothing selected, no error, no default videos, an empty view history. The carousel is sized to the `videos` prop at index 0. |
| TrendingCarousel.TrendingWidget.Displayed | src/widgets/TrendingCarousel/TrendingCarousel.tsx:51 | The `videos` prop when it is given, even empty; the loaded default list otherwise. |
| TrendingCarousel.TrendingWidget.SortedVideos | src/widgets/TrendingCarousel/TrendingCarousel.tsx:50-53 | The cards are a permutation of `videos || defaultVideos`. The viewed ones come first, in the order of the viewed list, and the others follow newest first. |
| TrendingCarousel.TrendingWidget.LoadTrendingVideos | src/widgets/TrendingCarousel/TrendingCarousel.tsx:30-48 | Without a `videos` prop, a loaded list becomes `getTrendingVideos(maxItems)` as written. For a non-negative `maxItems` that is the newest `min(maxItems, 50)` videos, so at most 50. A failure sets the error. The carousel re-renders to the new count and clamps its index; the track command and touch state are untouched. |
| TrendingCarousel.TrendingWidget.HandleVideoClick | src/widgets/TrendingCarousel/TrendingCarousel.tsx:76-99 | Selects the card and records the view (move-to-front, timestamp, and the storage writes that succeed). Then it scrolls to the centre target of the card's position in the order shown before the click. An id not shown causes no scroll. |
| TrendingCarousel.TrendingWidget.HandleScrollToIndex | src/widgets/TrendingCarousel/TrendingCarousel.tsx:113-118 | Forwards to `scrollToIndex`. |
| TrendingCarousel.TrendingWidget.HandleIndicatorClick | src/widgets/TrendingCarousel/TrendingCarousel.tsx:309 | Indicator `k` sends the track to the card of `k * visible`, wrapped, and sets the index to it. |
| TrendingCarousel.ClickLastOfTen | src/widgets/TrendingCarousel/TrendingCarousel.tsx:76-99 | Ten distinct cards shown four at a time: clicking the last aims at 7, beyond `maxIndex` 6, and lands on 0. |
| TrendingCarousel.NegativeMaxItemsScenario | src/widgets/TrendingCarousel/TrendingCarousel.tsx:37 | Sixty loaded videos and `maxItems = -1` put 59 cards in the carousel: the widget inherits the missing limit (src/entities/video/model.ts:244). |
| TrendingCarousel.DefaultMaxItemsScenario | src/widgets/TrendingCarousel/TrendingCarousel.tsx:14 | With the default `maxItems` of 50 the cards are the corrected trending list: the newest `min(length, 50)` videos. |
| TrendingCarousel.DistinctIdsPermuted | src/widgets/TrendingCarousel/TrendingCarousel.tsx:86 | A reordering of cards with distinct ids still has distinct ids, so `findIndex` finds the clicked card's own position. |

## Left out

- Fetching and decoding the JSON document (`fetchVideoData`, `getVideoData`, the fallback data in `model.ts`). The trending and featured entries are inputs, already decoded.
- Session storage encoding and the `JSON.parse` path of the mount effect are not modelled. The storage entries hold decoded values, so a parse failure part-way through restoring is not modelled.
- `Date.now()` and `new Date(createdAt).getTime()` are parameters, because clocks and ISO-date parsing are outside Dafny.
- Numbers are unbounded integers. Precision above 2^53, NaN and the exponent form of `Number.prototype.toString` are not modelled.
- `Decimal.ParseInt`: the minus sign of `-0` is lost, because the result is an integer.
- `VideoModel.GetImagePath` is keyed by a map, so names like `constructor` or `__proto__` (inherited object keys) are not modelled.
- The `carouselRef` null checks: the track element is taken as always mounted.
- The smooth `scrollTo`/`scrollBy` animation and the browser's own clamping of `scrollLeft` are not modelled. The engine records only the command it sends.
- `scrollToCenterItem` (`useCarousel.ts:76-100`) needs fractional half-width offsets and is not part of this model.
- The progress bar percentage (`TrendingCarousel.tsx:323`) needs fractional arithmetic and is not part of this model.
- The scroll-listener effect (`useCarousel.ts:290-296`) is not modelled; `HandleScroll` is called directly.
- `Carousel.CarouselEngine.IsTouchTap`, `CanScrollLeft` and `CanScrollRight` are predicates without a contract of their own. Their meaning is stated in the contracts of `HandleTouchMove`, `ScrollLeft` and `ScrollRight`.
- Timers are not modelled. The 1 s timer of `handlePlay` is the explicit step `CompletePlay`, and the 2 s autoplay lives in a presentation file outside this model.
- React's update batching and stale closures are not modelled: every `setState` takes effect at once. The one stale value the model keeps is the card order that `handleVideoClick` captured before recording the view.
- Presentation components (sidebar, featured banner, cards, buttons, icons, layout, error boundary, pages) are JSX and CSS only. So are the widget's hover state, loading flag and external `onVideoClick`/`onVideoSelect` callbacks.
- Static menu data and the build config carry no logic.
- `Menu.MenuItem`: the source's `label` field is named `labelText`, because `label` is a Dafny keyword. The `onClick` callback is not modelled.
- `TrendingCarousel.PageCount` requires `visibleItems > 0`. In the source, a `visibleItems` of 0 makes `Array.from` throw.

## Findings

| source | as written | input that shows it | evidently intended | confidence | as-written member | corrected member |
|---|---|---|---|---|---|---|
| src/entities/video/model.ts:244 | `slice(0, Math.min(maxCount, 50))`: a negative `maxCount` becomes a negative slice end, which drops items from the back. | 60 trending videos with `maxCount = -1` give 59 videos, although the line's comment promises at most 50. | At most 50 videos, and none for a negative count. | medium; not executed | VideoModel.TrendingLimitExceeded | VideoModel.TrendingVideos |

The widget calls `getTrendingVideos` as written, so `TrendingWidget.LoadTrendingVideos` uses `TrendingVideosAsWritten`. `TrendingCarousel.NegativeMaxItemsScenario` shows the widget with the defect. For the non-negative counts every caller passes, `VideoModel.TrendingVideosAgree` shows that the two lists are equal. So the widget's limit of 50 is proved through the corrected `TrendingVideos`.
