# oceanmusic core in Dafny

This project models the computational core of oceanmusic, a browser music player with audio
visualisations. Each part comes from one source file and is a Dafny module:

- **Visualizer** (`visualizer.dfy`) is the audio band reducer `getFrequencies`. It reduces three byte
  spectra to scalars with `max` and `avg`, then remaps them with `fractionate`/`modulate` under
  `freqConfig`. Arithmetic is over exact reals. `Math.pow(_, 0.8)` is a function parameter, required
  only to satisfy `pow(0) = 0`, be non-negative and be monotone (`PowLike`).
- **FormatUtils** (`format_utils.dfy`) is `shortener`, which truncates a title and adds an ellipsis.
- **BottomBar** (`bottom_bar.dfy`) is `formatTime` of the player bar. A partner function `ReadBack`
  reads "[[H:]M:]S" text back into seconds.
- **Editor** (`editor_texture.dfy`) is the editor text buffer. It is a class with the fields `text`
  and `line`, driven by `printKey`, plus the pure `cleanText`.
- **Touch** (`touch_texture.dfy`) is the touch trail. It is a class whose `trail` sequence is
  appended to by `addTouch` and aged by `update`. `update` removes points while it iterates, and
  `Sweep` models those exact `forEach`/`splice` semantics.
- **Storage** (`storage.dfy`) covers `generateFirestoreId`, with the random bytes as a parameter, and
  the two storage path templates of `uploadMusic`.
- **Player** (`player.dfy`) holds the `Music` record and the part of the music service that the
  track list drives: the current track, the source file and the playing flag.
- **MusicsPage** (`musics_page.dfy`) is the paginated track list. It models the page count, the page
  contents, the snapshot callback, the page change and the row click.
- **JsStrings** (`js_strings.dfy`) and **Base** (`base.dfy`) hold the JavaScript semantics the rest
  relies on:
  - `slice` with negative and clamped indices;
  - `split`, `join`, `padStart`, `String(n)`, `replaceAll` and `findLastIndex`;
  - `Option`, used for `reduce` without an initial value, which throws on an empty array.

Three behaviours of the source that are easy to misread:

- **Bass divisor.** The bass level is `max(bass) / bass.length`, not `max(bass) / 255`. Full-scale
  input therefore reaches `amp * bass.max = 56` only with exactly 255 bins (`FullScaleAt255Bins`). It
  is not 56 for every length.
- **Mid divisor.** The mid level divides `avg(mid)` by the treble array's length (`MidUsesTrebleLength`).
- **Clamping.** No output is clamped (`TrebleUnclamped`, `BandOvershoot`).

## Model

| member | source | states |
|---|---|---|
| Visualizer.Fractionate | src/_utils/visualizerUtils.ts:14-16 | For `hi != lo`, the result is the fraction `(v - lo) / (hi - lo)`: it times `hi - lo` gives `v - lo`. |
| Visualizer.Modulate | src/_utils/visualizerUtils.ts:18-28 | The remap is affine: `(r - outMin)(hi - lo) = (v - lo)(outMax - outMin)`. |
| Visualizer.ModulateEndpoints | src/_utils/visualizerUtils.ts:18-28 | `lo` maps to `outMin` and `hi` maps to `outMax`. |
| Visualizer.ModulateMonotone | src/_utils/visualizerUtils.ts:18-28 | For `lo < hi` and `outMin <= outMax`, the remap is non-decreasing in `v`. |
| Visualizer.MaxFold | src/_utils/visualizerUtils.ts:37-41 | The running `Math.max` fold is at least its seed, at least every element, and is the seed or an element. |
| Visualizer.SumFold | src/_utils/visualizerUtils.ts:30-33 | The running sum of bytes lies between the seed and the seed plus 255 per element. All zeros add nothing; all 255s add 255 per element. |
| Visualizer.SumFoldIsSum | src/_utils/visualizerUtils.ts:30-33 | The `reduce` fold returns its seed plus `Sum`, the sum of the bytes defined independently from the back. |
| Visualizer.MaxOf | src/_utils/visualizerUtils.ts:37-41 | `max` has no result exactly on an empty array. Otherwise it returns an element that is at least every element. |
| Visualizer.AvgOf | src/_utils/visualizerUtils.ts:30-35 | `avg` has no result exactly on an empty array. Otherwise it is `Sum(arr) / arr.length`, lies in [0, 255], is 0 for all-zero input and is 255 for all-255 input. |
| Visualizer.AvgFacts | src/_utils/visualizerUtils.ts:30-35 | The mean `Sum(arr) / arr.length` of a non-empty byte array lies in [0, 255], is 0 on silence and 255 at full scale. |
| Visualizer.BassLevel | src/_utils/visualizerUtils.ts:63 | `max(bass) / bass.length` lies in [0, 255], and is 0 when every bass byte is 0. |
| Visualizer.MidLevel | src/_utils/visualizerUtils.ts:64 | `avg(mid) / tre.length` lies in [0, 255], and is 0 when every mid byte is 0. |
| Visualizer.TrebleLevel | src/_utils/visualizerUtils.ts:65 | `avg(tre) / tre.length` lies in [0, 255], and is 0 when every treble byte is 0. |
| Visualizer.BandEnergy | src/_utils/visualizerUtils.ts:67-77 | A band's output is `(min + level * (max - min)) * amp`. It is `min * amp` at level 0, and at least `min * amp >= 0` for a non-negative level, an ordered range from 0 up and a non-negative `amp`. |
| Visualizer.BassEnergy | src/_utils/visualizerUtils.ts:63-77 | The bass output is at least `bass.min * amp >= 0` for a power law, an ordered bass range and a non-negative `amp`. It is exactly `bass.min * amp` on an all-zero bass array when `pow(0) = 0`. |
| Visualizer.MidEnergy | src/_utils/visualizerUtils.ts:64-77 | The mid output is at least `mid.min * amp >= 0` for an ordered mid range and a non-negative `amp`. It is exactly `mid.min * amp` on an all-zero mid array. |
| Visualizer.TrebleEnergy | src/_utils/visualizerUtils.ts:65-77 | The treble output is at least `tre.min * amp >= 0` for an ordered treble range and a non-negative `amp`. It is exactly `tre.min * amp` on an all-zero treble array. |
| Visualizer.GetFrequencies | src/_utils/visualizerUtils.ts:59-78 | The call throws (None) exactly when a band is empty. With a power law for `pow`, band ranges ordered from 0 up and a non-negative `amp`, the three outputs are never negative. A band whose bytes are all 0 outputs its range minimum times `amp` (for bass, when `pow(0) = 0`). |
| Visualizer.BandEnergyMonotone | src/_utils/visualizerUtils.ts:67-77 | For a non-reversed range and non-negative `amp`, a band's output does not decrease as its level rises. |
| Visualizer.BassMonotone | src/_utils/visualizerUtils.ts:63-77 | At equal length, a larger bass maximum gives a bass output that is at least as large. |
| Visualizer.MidUsesTrebleLength | src/_utils/visualizerUtils.ts:64-77 | The mid output is `(mid.min + avg(mid) / tre.length * (mid.max - mid.min)) * amp`. |
| Visualizer.MidIgnoresOwnLength | src/_utils/visualizerUtils.ts:64 | Two mid arrays with the same mean give the same mid output, whatever their lengths. |
| Visualizer.MidDividedByTrebleLengthExample | src/_utils/visualizerUtils.ts:64-74 | With `mid = [255]` and `tre = [0, 0]` under `freqConfig`, the mid output is 3570 (255 divided by 2). |
| Visualizer.SilenceIsZero | src/_utils/visualizerUtils.ts:43-78 | Under `freqConfig`, all-zero non-empty arrays give the outputs [0, 0, 0]. |
| Visualizer.SilentBass | src/_utils/visualizerUtils.ts:63-73 | Under `freqConfig`, an all-zero bass array gives a bass output of 0. |
| Visualizer.SilentMid | src/_utils/visualizerUtils.ts:64-74 | Under `freqConfig`, an all-zero mid array gives a mid output of 0. |
| Visualizer.SilentTreble | src/_utils/visualizerUtils.ts:65-75 | Under `freqConfig`, an all-zero treble array gives a treble output of 0. |
| Visualizer.EnergiesNonNegative | src/_utils/visualizerUtils.ts:43-78 | Under `freqConfig`, byte input always gives three non-negative outputs. |
| Visualizer.BandOvershoot | src/_utils/visualizerUtils.ts:67-77 | Nothing clamps: a level above 1 takes the output above `amp * max`. |
| Visualizer.TrebleUnclamped | src/_utils/visualizerUtils.ts:65-77 | When `avg(tre) > tre.length`, the treble output exceeds `amp * tre.max`. |
| Visualizer.BoundedForLongSpectra | src/_utils/visualizerUtils.ts:43-78 | With at least 255 bass and treble bins and `pow(1) = 1`, the outputs lie in [0, 56], [0, 28] and [0, 14]. |
| Visualizer.FullScaleAt255Bins | src/_utils/visualizerUtils.ts:43-77 | All-255 arrays of exactly 255 bins give a bass output of 56 and a treble output of 14. |
| FormatUtils.Shortener | src/_utils/formatUtils.ts:3-6 | Undefined or empty input gives "". Input within `maxChars` is unchanged. Longer input gives its first `maxChars` characters plus "...". A negative `maxChars` cuts from the end. |
| FormatUtils.ShortenerDefault | src/_utils/formatUtils.ts:3 | With the default `maxChars` of 18, the result has at most 21 characters. |
| FormatUtils.ShortenedShape | src/_utils/formatUtils.ts:5 | The result has at most `maxChars + 3` characters. A changed result is a prefix of the input followed by "...". |
| FormatUtils.ShortenerIdempotent | src/_utils/formatUtils.ts:5 | For `maxChars >= 0`, shortening twice gives the same result as shortening once. |
| BottomBar.Hours | src/app/bottomBar.tsx:159 | `Math.floor(d / 3600)` is `floor(d) / 3600` in whole numbers, and is never negative. |
| BottomBar.Minutes | src/app/bottomBar.tsx:160 | `Math.floor((d % 3600) / 60)` is `(floor(d) mod 3600) / 60` in whole numbers, and lies in [0, 60). |
| BottomBar.Seconds | src/app/bottomBar.tsx:161 | `Math.floor(d % 60)` is `floor(d) mod 60`, and lies in [0, 60). |
| BottomBar.FieldsAreFloors | src/app/bottomBar.tsx:159-161 | With `n = floor(d)`, hours is `n / 3600`, minutes is `(n mod 3600) / 60 < 60` and seconds is `n mod 60 < 60`. Together they recompose `n`. |
| BottomBar.Field | src/app/bottomBar.tsx:163-165 | A padded field is all digits and holds no ":". Below 100 it has exactly two characters. |
| BottomBar.FieldReadsBack | src/app/bottomBar.tsx:163-165 | A padded field reads back to its number. |
| BottomBar.FieldWidth | src/app/bottomBar.tsx:163-165 | From 100 up, fields are never cut: they print all of `String(n)`, at least three digits. |
| BottomBar.FormatTime | src/app/bottomBar.tsx:158-174 | In the MM:SS case (no hours) and the HH:MM:SS case (hours and minutes), the text reads back through `ReadBack` to `floor(d)`. |
| BottomBar.ClockReadsBack | src/app/bottomBar.tsx:167-173 | "MM:SS" and "HH:MM:SS" of whole hours, minutes and seconds read back to `3600h + 60m + s`. |
| BottomBar.ClockLayout | src/app/bottomBar.tsx:167-173 | With minutes and seconds below 60: no hours gives "MM:SS" (5 characters, ":" at 2); 1 to 99 hours give "HH:MM:SS" (8 characters, ":" at 2 and 5); 100 hours or more give three ":"-separated fields. |
| BottomBar.FormatTimeLayout | src/app/bottomBar.tsx:158-174 | `formatTime` prints "MM:SS" without hours and "HH:MM:SS" with hours and minutes (three ":"-separated fields from 100 hours on). With hours but zero minutes it prints two characters and no ":". |
| BottomBar.FormatTimeDropsHours | src/app/bottomBar.tsx:170-172 | With hours but zero minutes, only the seconds are printed, and the text reads back to something other than `floor(d)`. |
| BottomBar.FormatTimeExample | src/app/bottomBar.tsx:158-174 | 3605 seconds print as "05". |
| BottomBar.FormatTimeIntended | src/app/bottomBar.tsx:158-174 | With the HH:MM:SS branch used whenever there are hours, every duration reads back to `floor(d)`. |
| BottomBar.FormatTimeIntendedLayout | src/app/bottomBar.tsx:158-174 | The corrected rendering prints "MM:SS" without hours and "HH:MM:SS" whenever there are hours (three ":"-separated fields from 100 hours on). |
| Editor.CleanText | src/_utils/editorTexture.ts:80-93 | The current line contains no newline. It is the whole text when there is no newline. Otherwise it is the suffix after the last newline. |
| Editor.EditorTexture.constructor | src/_utils/editorTexture.ts:12-13 | A new buffer starts with empty text on line 1, so the line count matches the text. |
| Editor.EditorTexture.PrintKey | src/_utils/editorTexture.ts:16-144 | The new text and line are those of the key. For keys without a newline, the line count is preserved, except on Delete of a leading newline. |
| Editor.TypedText | src/_utils/editorTexture.ts:118-143 | Modifier keys leave the text alone. Backspace drops the last character, Delete the first (nothing on empty text). Enter appends a newline. Any other key name is appended verbatim. |
| Editor.TypedLine | src/_utils/editorTexture.ts:118-143 | The line moves by at most one. It rises exactly on Enter, and falls exactly on a Backspace whose removed character is a newline. |
| Editor.PrintKeyKeepsLineCount | src/_utils/editorTexture.ts:13-144 | `line = 1 + number of newlines` is kept by every key without a newline, except Delete on a leading newline. |
| Editor.DeleteLeadingBreakDesyncs | src/_utils/editorTexture.ts:129-132 | Delete on "\n" at line 2 leaves an empty text still at line 2, which breaks the line count. |
| Touch.Force | src/_utils/touchTexture.ts:63-70 | The force lies in [0, 1] and is 0 on an empty trail. |
| Touch.TouchTexture.constructor | src/_utils/touchTexture.ts:19-23 | A new texture has the given size, `maxAge` 120, `radius` 0.15 and an empty trail. |
| Touch.TouchTexture.AddTouch | src/_utils/touchTexture.ts:62-72 | Exactly one point is appended at the end, with the given x and y, age 0 and the force from the last point. Earlier points are unchanged. |
| Touch.TouchTexture.Update | src/_utils/touchTexture.ts:42-48 | The trail becomes the ageing sweep of the old trail. It is never longer, keeps the relative order of the points, and keeps every age within `maxAge` if that held before. When no point is about to expire, every point is one frame older. |
| Touch.Sweep | src/_utils/touchTexture.ts:42-48 | The sweep from position i never lengthens the trail. |
| Touch.Aged | src/_utils/touchTexture.ts:42-48 | The ageing pass never lengthens the trail, keeps the survivors in their old order once ages are ignored, and keeps every age within `maxAge` if that held before. When no point is about to expire, every point stays and is exactly one frame older. |
| Touch.SweepAgesUnexpired | src/_utils/touchTexture.ts:42-48 | While no point from position i on is about to expire, the sweep removes none of them and increments the age of each, leaving earlier positions alone. |
| Touch.SweepKeepsOrder | src/_utils/touchTexture.ts:42-48 | The surviving points are a subsequence of the old trail, once their ages are ignored. |
| Touch.SweepKeepsAgeBound | src/_utils/touchTexture.ts:21-48 | If every age is within `maxAge` before the sweep, every age is within it after. |
| Touch.SweepKeepsPrefix | src/_utils/touchTexture.ts:42-48 | The points before the sweep position are untouched. |
| Touch.SpliceSkipsNext | src/_utils/touchTexture.ts:45-46 | After a removal at i, the point that was at i + 1 sits at i, is not visited in this round and is not aged. |
| Touch.SkipExample | src/_utils/touchTexture.ts:42-48 | Two points of age 120 give a trail holding only the second, unaged. |
| Storage.GenerateFirestoreId | src/lib/firebase/storage.ts:17-30 | The id is the one drawn from the bytes (`IsIdFor`): 20 characters, character i being `chars[byte_i mod 62]`. Every character belongs to the alphabet. |
| Storage.AlphabetLayout | src/lib/firebase/storage.ts:18-19 | The alphabet has 62 characters: upper case, then lower case, then digits. |
| Storage.AlphabetDistinct | src/lib/firebase/storage.ts:18-19 | No alphabet character repeats, and "/" is not one of them. |
| Storage.IdDeterminedByResidues | src/lib/firebase/storage.ts:22-27 | Two draws give the same id exactly when their bytes agree modulo 62. |
| Storage.GeneratedIdHasNoSlash | src/lib/firebase/storage.ts:25-27 | A generated id contains no "/". |
| Storage.UidSegment | src/lib/firebase/storage.ts:106-107 | An empty uid becomes "null". Any other uid is kept. |
| Storage.StoragePath | src/lib/firebase/storage.ts:106-107 | A storage path joins "public", the uid segment, the folder, the id and the file name with "/". For parts without "/", splitting it on "/" gives those five parts back. |
| Storage.FilePath | src/lib/firebase/storage.ts:106 | For a uid, id and file name without "/", the track path splits on "/" into "public", the uid segment, "music", the id and the file name. |
| Storage.FileCoverPath | src/lib/firebase/storage.ts:107 | For a uid, id and cover name without "/", the cover path splits on "/" into "public", the uid segment, "image", the id and the cover name. |
| Player.MusicService.constructor | src/_services/musicService.ts:4-54 | A new service has no track, the source "Digital Dreams.mp3" and is not playing. |
| Player.MusicService.SetMusic | src/_services/musicService.ts:20-45 | Assigning a track sets it as current, loads its audio file and plays. |
| Player.MusicService.SetSrc | src/_services/musicService.ts:30-33 | Assigning a source loads it and plays, and keeps the current track. |
| Player.MusicService.Play | src/_services/musicService.ts:41-45 | Playing sets the playing flag. |
| Player.MusicService.Pause | src/_services/musicService.ts:47-50 | Pausing clears the playing flag. |
| Player.Music.constructor | src/lib/data/music.ts:1-12 | A track holds exactly the given name, optional fields, audio, uid, tags and upload date. |
| MusicsPage.PageCount | src/app/musics/page.tsx:85 | The page count is `ceil(len / 10)`: the fewest pages of 10 that hold every track. |
| MusicsPage.PageItems | src/app/musics/page.tsx:87-90 | Page p is `musics[min((p - 1) * 10, len) .. min(10p, len)]`: at most 10 tracks, from `musics[(p - 1) * 10]` on. It is full when the list reaches `10p`, and empty exactly past the last page. |
| MusicsPage.PagesUpToIsPrefix | src/app/musics/page.tsx:85-89 | Pages 1 to k together are the first `10k` tracks. |
| MusicsPage.PagesCoverList | src/app/musics/page.tsx:85-89 | Pages 1 to the page count together are the whole list. |
| MusicsPage.SnapshotRowsDisagreeWithPage | src/app/musics/page.tsx:18-27 | Because a snapshot resets the rows but not `page`, on any later page of distinct tracks the rows shown are not that page's. |
| MusicsPage.ClickIndexIsPageRelative | src/app/musics/page.tsx:37-68 | On page 2 or later of distinct tracks, `musics[index]` is not the track in row `index`. |
| MusicsPage.Musics.constructor | src/app/musics/page.tsx:18-21 | The list starts on page 1 with no tracks, no rows and `selectedIndex` 0. |
| MusicsPage.Musics.OnSnapshot | src/app/musics/page.tsx:24-27 | A snapshot replaces the list and shows its first page, but leaves `page` as it was. |
| MusicsPage.Musics.OnPageChange | src/app/musics/page.tsx:87-90 | A page change sets `page` and shows that page's tracks. |
| MusicsPage.Musics.HandleListItemClick | src/app/musics/page.tsx:34-40 | The click sets `selectedIndex` and makes `musics[index]` current. The service is reassigned, loaded and played only when that track differs from the current one; otherwise it is unchanged. |
| MusicsPage.Musics.HandleListItemClickIntended | src/app/musics/page.tsx:34-68 | The corrected click makes the track of the clicked row, `onPage[index]`, current. On the shown page that row is `musics[(page - 1) * 10 + index]`. |
| JsStrings.SplitJoinAll | src/lib/firebase/storage.ts:106-107 | Splitting a join of fields without the separator gives back the fields. |
| JsStrings.Slice | src/_utils/editorTexture.ts:125-130 | `slice` never lengthens. For `0 <= start <= end` it is the sub-sequence between the clamped indices. With `start = 0` and a negative `end`, it drops the last `-end` elements, or everything if there are fewer. |
| JsStrings.DecimalRoundTrip | src/app/bottomBar.tsx:163-165 | `String(n)` reads back to `n`. |
| JsStrings.PadStart | src/app/bottomBar.tsx:163-165 | `padStart` gives length `max(len, n)`: the input as a suffix, preceded by the pad character only. |
| JsStrings.LastIndexOf | src/_utils/editorTexture.ts:84 | `findLastIndex` gives -1 exactly when the value is absent. Otherwise it gives the position of the value, with no occurrence after it. |
| JsStrings.RemoveAll | src/_utils/editorTexture.ts:92 | `replaceAll` with "" leaves a subsequence of the input: it keeps the other characters in order, leaves no occurrence, removes exactly the occurrences, and is the identity without one. |

## Left out

- The Web Audio graph, the analysers and `getFrequencyData`/`getAllFrequencyData`
  (src/_utils/visualizerUtils.ts:80-96) are platform calls with no logic of their own. The spectra are
  parameters of `GetFrequencies`.
- `Math.pow(_, 0.8)` is a parameter `pow`. Only `pow(0) = 0`, non-negativity and monotonicity are
  required (plus `pow(1) = 1` where a lemma says so).
- Floating point: every number is an exact real. Rounding and `NaN` are not modelled. A JavaScript
  division by `hi - lo = 0` is excluded by `Fractionate`'s precondition; `fractionate` is only called
  with the range [0, 1].
- Strings are sequences of characters, not UTF-16 code units. A key or a title holding astral
  characters has a different length in JavaScript.
- Drawing is not modelled:
  - `print`, `updateCaret`, the caret blink and `lastLineWidth` in the editor, which come from
    `measureText`;
  - `clear`/`drawTouch` of the touch texture;
  - the canvas and texture objects.
- `crypto.getRandomValues` is a parameter: `GenerateFirestoreId` receives the 20 bytes.
- The uploads, `forkJoin`, `addMusic`, the IndexedDB image cache and the other storage functions
  are network and persistence calls. Only the ids and path templates of `uploadMusic` are modelled.
- `getUserId` (src/lib/firebase/auth.ts:15-17) throws when no user is signed in. The model passes
  the uid in as a string, so only the `|| "null"` fallback for an empty uid is modelled.
- The audio element's playback, `volume`, `audioContext.resume()` and the duplicate service under
  src/app/_services are not modelled. The service keeps only the current track, the source and the
  playing flag.
- The Firestore subscription of the musics page is a parameter: `OnSnapshot` receives each snapshot.
  The pagination control passes page numbers from 1 up, so `OnPageChange` requires `value >= 1`.
- The rest of the bottom bar (hooks, sliders, speed dial) and the React rendering of the list are
  user-interface code.
- Touch.TouchTexture.Update: a trail point is a value, so the in-place `point.age++` on objects
  that other code might also hold is modelled as replacing the point in the sequence.

## Findings

| source | as written | input that shows it | evidently intended | confidence | as-written member | corrected member |
|---|---|---|---|---|---|---|
| src/app/bottomBar.tsx:170-172 | With hours but zero minutes, `formatTime` returns only the seconds field | 3605 seconds prints "05" instead of "01:00:05" | Print "HH:MM:SS" whenever there are hours | high, not executed | BottomBar.FormatTimeDropsHours | BottomBar.FormatTimeIntended |
| src/app/musics/page.tsx:37-38 | `handleListItemClick` reads `musics[index]` with the row index of the current page | On page 2 of 20 distinct tracks, clicking row 0 plays track 0, not track 10 | Play the clicked row's track, `onPage[index]` | high, not executed | MusicsPage.ClickIndexIsPageRelative | MusicsPage.Musics.HandleListItemClickIntended |
