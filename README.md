# IliasDownloaderUniMA in Dafny

IliasDownloaderUniMA downloads the course material of the ILIAS portal of the
University of Mannheim. It works in four steps:

1. It logs in. This is network work and is not modelled.
2. It collects courses. Courses are added by ref id, or picked from the start
   page by a semester pattern and an exclusion list.
3. It crawls every course. Folders, task units and media containers are read
   into a list of file records, each with a course, name, size,
   modification date, URL and local path. A worklist of entries still to be
   scanned drives the crawl.
4. It downloads every record whose local copy is missing or older. Before
   that, it creates the directories the records need.

In tutor mode, submissions of finished task units are queued as placeholders.
These are later matched against the archives the portal's background-task bar
offers.

The repository has two versions of the downloader class:

- `IliasDownloaderUniMA/IliasDL.py` is the current engine.
- `IliasDownloaderUniMA/__init__.py` is an older variant with its own
  parameters, classifier, property parser, folder scan and date translation.

Both are modelled. Web pages are abstract values: a folder page is its
breadcrumb text, its media containers and its container-list items, each item
with an optional link, its text and its property spans. Whatever comes from
outside the program is a parameter of the member that uses it:

- the fetched pages;
- the HTTP status of a download;
- the result of `os.path.isdir`;
- the current date;
- the local file system.

Exceptions the code raises become explicit `Result`/`Option` values. A scan that
raises keeps what it appended before the exception.

| module | file | what it holds |
|---|---|---|
| `Wrappers` | wrappers.dfy | `Option`, `Result` |
| `Text` | text.dfy | Python's `split`, `replace`, `in`, `lower`, `join`, `split(c)`, slicing and greedy `.*` |
| `Seqs` | seqs.dfy | small sequence facts |
| `Numbers` | numbers.dfy | `str(n)`, `int(s)`, `float(s)` on decimal numerals |
| `Urls` | urls.dfy | `createIliasUrl`, the `ref_id=(\d+)` search, `urljoin` against the portal root |
| `Classify` | classify.dfy | `_determineItemType` of both versions |
| `FileProperties` | properties.dfy | `_parseFileProperties` of IliasDL.py |
| `Courses` | courses.dfy | `getCurrentSemester`, the `\[.*\] ` clean-up, `addCourse`, `addAllSemesterCourses` |
| `Listing` | listing.dfy | `parseVideos`, `scanMediaContainer`, `scanContainerList`, the paths of `scanFolder`/`scanTaskUnit`, submissions |
| `Background` | background.dfy | the transliteration and search of `searchBackgroundTaskFile`, the loop of `parseBackgroundTasks` |
| `Download` | download.dfy | `os.path.join`, the decision of `downloadFile`, the directory pre-pass of `downloadAllFiles` |
| `Traversal` | traversal.dfy | `scanHelper` and `searchForFiles` as a sequential worklist, and the loop of `searchForFiles` as written |
| `Downloader` | downloader.dfy | parameters, `scanCourses`, and the class `IliasDownloader` with its lists |
| `LegacyDates` | legacy_dates.dfy | `translate_date` of `__init__.py`, the calendar and `strftime("%d. %b %Y")` |
| `Legacy` | legacy.dfy | the rest of `__init__.py`: parameters, courses, properties, folder scan, class `LegacyDownloader` |

Where the code and its description in prose differ, the model follows the
code:

- A record with the unknown-date sentinel 2000-01-01 is not downloaded again
  on every run. The skip test at IliasDL.py:518 compares the remote time
  strictly with the local one, so once a copy exists the sentinel is older and
  the file is skipped. `Download.FetchedThenSkipped` states this.
- A write that fails after `open` leaves the partly written file behind.
  `Download.DownloadFile` gives it the new time (`Failed(true)`).
- A size text that cannot be read is not a sentinel: `float` and the index
  `size_tmp[1]` raise. The exception ends the container-list scan with the
  records made so far (`Listing.ContainerScanStops`).

## Model

| member | source | states |
|---|---|---|
| Text.Split | IliasDownloaderUniMA/IliasDL.py:212 | `split()` gives non-empty words without spaces, and gives none exactly when the text is all spaces |
| Text.SplitKeepsAllNonSpace | IliasDownloaderUniMA/IliasDL.py:212 | the words of `split()`, put together, are exactly the non-space characters of the text, in order |
| Text.ReplaceAbsent | IliasDownloaderUniMA/__init__.py:152 | `replace` of a key that does not occur leaves the text unchanged |
| Text.SplitOn | IliasDownloaderUniMA/IliasDL.py:328 | `split("\n")` always gives at least one piece, none holding a line break |
| Text.JoinSplitOn | IliasDownloaderUniMA/IliasDL.py:328 | joining the pieces of `split(c)` with `c` gives back the text |
| Text.SliceFromTo | IliasDownloaderUniMA/IliasDL.py:328 | `xs[4:-1]` is the slice from the fifth to the last but one element, or empty when there are too few |
| Text.LastInLineIsLast | IliasDownloaderUniMA/IliasDL.py:244 | the position greedy `.*` stretches to is the last match on the line, and `None` means there is no match |
| Text.LowerIdempotent | IliasDownloaderUniMA/IliasDL.py:221 | lowering twice is lowering once |
| Numbers.DigitsValueOfNatToString | IliasDownloaderUniMA/IliasDL.py:89 | `int(str(n)) == n` for the ref id written into a URL |
| Numbers.ParseFloatOfDigits | IliasDownloaderUniMA/IliasDL.py:222 | `float` of a run of digits is its integer value |
| Numbers.ParseFloatOfDecimal | IliasDownloaderUniMA/IliasDL.py:222 | `float("i.f")` is the exact decimal fraction it spells |
| Urls.CreateIliasUrl | IliasDownloaderUniMA/IliasDL.py:89-91 | a course URL starts with the portal root; the older `createIliasUrl` (__init__.py:71-74) builds the same text and is modelled by this member too |
| Urls.ExtractRefId | IliasDownloaderUniMA/IliasDL.py:176-177 | a ref id is found only where `ref_id=` occurs |
| Urls.ExtractRefIdLeftmost | IliasDownloaderUniMA/IliasDL.py:176-177 | with a match of `ref_id=\d` at `i` and none before, the result is the value of the whole digit run after `ref_id=` at `i` |
| Urls.ExtractRefIdIsLeftmost | IliasDownloaderUniMA/IliasDL.py:176-177 | every result is the ref id of the leftmost match |
| Urls.ExtractRefIdOfMatch | IliasDownloaderUniMA/IliasDL.py:176-177 | a match anywhere means a ref id is found |
| Urls.ExtractRefIdSomeIff | IliasDownloaderUniMA/IliasDL.py:176-177 | a ref id is found exactly when some index starts `ref_id=` followed by a digit |
| Urls.MatchAtTail | IliasDownloaderUniMA/IliasDL.py:176 | dropping the first character shifts every later match, and its ref id, one place left |
| Urls.ExtractRefIdHere | IliasDownloaderUniMA/IliasDL.py:176-177 | `ref_id=` followed by digits is read as the value of the whole digit run |
| Urls.ExtractRefIdSkip | IliasDownloaderUniMA/IliasDL.py:176 | the leftmost search passes over a prefix without `=` |
| Urls.ExtractRefIdOfCreateIliasUrl | IliasDownloaderUniMA/IliasDL.py:89-91 | round trip: the ref id read from the course URL of `id` is `id` |
| Urls.JoinBase | IliasDownloaderUniMA/IliasDL.py:293 | `urljoin(base_url, ref)` is absolute, and an absolute ref is kept as it is |
| Urls.JoinBaseIdempotent | IliasDownloaderUniMA/IliasDL.py:326 | joining an already joined URL again changes nothing |
| Urls.JoinBaseDot | IliasDownloaderUniMA/IliasDL.py:243 | `./x` lands at `x` below the root |
| Urls.JoinBaseRelative | IliasDownloaderUniMA/IliasDL.py:293 | a plain relative `x` lands at `x` below the root |
| Classify.FirstMatch | IliasDownloaderUniMA/IliasDL.py:183-195 | reference reading of the `elif` chain: the first rule whose marker occurs decides, and no marker gives Folder |
| Classify.DetermineItemType | IliasDownloaderUniMA/IliasDL.py:184-185 | File exactly when the URL contains `target=file`, whatever else it contains |
| Classify.DetermineItemTypeIsFirstMatch | IliasDownloaderUniMA/IliasDL.py:183-195 | the classifier is the first-match reading of its five markers in their order |
| Classify.FolderIffNoMarker | IliasDownloaderUniMA/IliasDL.py:194-195 | Folder exactly when no marker occurs |
| Classify.FolderWithoutMarkers | IliasDownloaderUniMA/IliasDL.py:183-195 | a URL with none of the five markers is a folder |
| Classify.CourseUrlNoFileMarker | IliasDownloaderUniMA/IliasDL.py:89-91 | no course URL contains `target=file` |
| Classify.CourseUrlIsFolder | IliasDownloaderUniMA/IliasDL.py:183-195 | every course URL `createIliasUrl(id)` is classified as a folder |
| Classify.LegacyDetermineItemType | IliasDownloaderUniMA/__init__.py:155-165 | the older classifier never returns a learning module |
| Classify.LegacyDetermineItemTypeIsFirstMatch | IliasDownloaderUniMA/__init__.py:155-165 | the older classifier is the first-match reading of its four markers |
| Classify.LegacyAgrees | IliasDownloaderUniMA/__init__.py:155-165 | both classifiers agree, except that the older one gives Folder where the newer one gives a learning module |
| Courses.GetCurrentSemester | IliasDownloaderUniMA/IliasDL.py:46-51 | the pattern names the given year and either the spring or the autumn terms |
| Courses.CurrentSemesterSelects | IliasDownloaderUniMA/IliasDL.py:48-51 | a name tagged `(FSS y)`/`(ST y)` is selected from February to July, `(HWS y)`/`(WT y)` in the other months |
| Courses.JanuaryPattern | IliasDownloaderUniMA/IliasDL.py:48-51 | in January the pattern is that of the autumn term with the new calendar year, as in December |
| Courses.StripBrackets | IliasDownloaderUniMA/IliasDL.py:136 | the clean-up never lengthens a name and keeps its first character unless that is `[` |
| Courses.StripBracketsKeepsPlain | IliasDownloaderUniMA/IliasDL.py:136 | text before the first `[` is kept |
| Courses.StripBracketsNoClose | IliasDownloaderUniMA/IliasDL.py:136 | a name without `] ` is unchanged |
| Courses.StripBracketsAt | IliasDownloaderUniMA/IliasDL.py:136 | a `[` is removed together with everything up to the last `] ` on its line |
| Courses.StripBracketsGroup | IliasDownloaderUniMA/IliasDL.py:136 | a group `[x] ` is removed whole, however many brackets `x` holds |
| Courses.StripBracketsOneGroup | IliasDownloaderUniMA/IliasDL.py:136 | from the first `[` to the last `] ` goes, the text around it stays |
| Courses.StripBracketsExample | tests/test_addAllSemesterCourses.py:33-40 | `GPU Programming [V] [1. PG] (HWS 2020)` becomes `GPU Programming (HWS 2020)` |
| Courses.CourseEntry | IliasDownloaderUniMA/IliasDL.py:132-137 | a stored course has the course URL of its id and a non-empty name; a given name not starting with `[` is always stored |
| Courses.AnchorCourse | IliasDownloaderUniMA/IliasDL.py:170-180 | a link adds a course only when selected, with a ref id that is not excluded, and then through `addCourse` |
| Courses.AnchorCourseExactly | IliasDownloaderUniMA/IliasDL.py:170-180 | both directions: a link adds a course exactly when selected, with a ref id that is not excluded and a non-empty cleaned name; the course is that cleaned name with `createIliasUrl(id)` |
| Courses.SemesterCourses | IliasDownloaderUniMA/IliasDL.py:170-180 | at most one course per link |
| Courses.SemesterCoursesConcat | IliasDownloaderUniMA/IliasDL.py:170 | the selection goes link by link: the courses of two runs of links are the courses of each, in order |
| Courses.SemesterCoursesSnoc | IliasDownloaderUniMA/IliasDL.py:170-180 | one more link appends exactly what that link contributes |
| Courses.SemesterCoursesValid | IliasDownloaderUniMA/IliasDL.py:176-180 | every stored course has a name, a URL whose ref id is not excluded, and is scanned as a folder |
| Courses.ExcludedNeverAdded | IliasDownloaderUniMA/IliasDL.py:179-180 | a link whose id is excluded adds nothing |
| FileProperties.KeptSlots | IliasDownloaderUniMA/IliasDL.py:212 | the filter keeps only spans with a word and without `Version` |
| FileProperties.KeptSlotsConcat | IliasDownloaderUniMA/IliasDL.py:212 | the filter works span by span |
| FileProperties.Ending | IliasDownloaderUniMA/IliasDL.py:214-217 | the extension is empty exactly when the first span has more than one word; for one word it is `.` followed by that word |
| FileProperties.ToMegabytes | IliasDownloaderUniMA/IliasDL.py:223-226 | scaling to megabytes never increases a non-negative size |
| FileProperties.ParseFileProperties | IliasDownloaderUniMA/IliasDL.py:211-214 | `p[0]` raises exactly when no span passes the filter |
| FileProperties.ParsedFromKeptSlots | IliasDownloaderUniMA/IliasDL.py:212-234 | for any number of spans: the extension is the one of the first kept span; the size is NaN exactly when fewer than two are kept, else the value read from the second, whose error is the error; the date is the sentinel exactly when fewer than three are kept, else the third |
| FileProperties.DroppedSlotIgnored | IliasDownloaderUniMA/IliasDL.py:212 | a blank or `Version` span anywhere does not shift size or date |
| FileProperties.TrailingSlotsIgnored | IliasDownloaderUniMA/IliasDL.py:231-232 | once three spans are kept, further spans change nothing |
| FileProperties.NormalizedSizeOf | IliasDownloaderUniMA/IliasDL.py:221 | the size text is lowered, its `.` removed and its `,` turned into `.` |
| FileProperties.ParseSizeOfTokens | IliasDownloaderUniMA/IliasDL.py:221-226 | a number and a unit read as that number scaled by the unit |
| FileProperties.SizeTokensDecimal | IliasDownloaderUniMA/IliasDL.py:221 | `i,f Unit` becomes the tokens `i.f` and the lower-case unit |
| FileProperties.ParseSizeDecimal | IliasDownloaderUniMA/IliasDL.py:221-226 | `i,f Unit` reads as the decimal `i.f` scaled by the lower-case unit |
| FileProperties.SizeTokensInteger | IliasDownloaderUniMA/IliasDL.py:221 | `d Unit` becomes the tokens `d` and the lower-case unit |
| FileProperties.ParseSizeInteger | IliasDownloaderUniMA/IliasDL.py:221-226 | `d Unit` reads as the integer `d` scaled by the unit |
| FileProperties.VersionSlotDropped | IliasDownloaderUniMA/IliasDL.py:212 | a span holding `Version` is dropped |
| FileProperties.EmptySlotDropped | IliasDownloaderUniMA/IliasDL.py:212 | an empty span is dropped |
| FileProperties.TwoWordSlot | IliasDownloaderUniMA/IliasDL.py:214-215 | a span of two words is kept and splits into two words |
| FileProperties.ParseThreeNoEnding | IliasDownloaderUniMA/IliasDL.py:214-215 | a first span of several words gives no extension, with size and date still read |
| FileProperties.BytesSlot | IliasDownloaderUniMA/IliasDL.py:225-226 | `d Bytes` is kept and reads as `d` bytes in megabytes |
| FileProperties.TrailingAfterThree | IliasDownloaderUniMA/IliasDL.py:231-232 | a fourth span after extension, size and date is ignored |
| FileProperties.ThreeItemsExample | tests/test_parseFileProperties.py:114-116 | `tar.gz`, `287,3 KB`, a date give `.tar.gz`, 0.2873 and that date |
| FileProperties.VersionExample | tests/test_parseFileProperties.py:118-120 | a `Version` span between size and date gives `.pdf`, 0.9031 and the date after it |
| FileProperties.AvailabilityExample | tests/test_parseFileProperties.py:122-124 | a trailing availability span, with or without a `Version` span, leaves `.pdf`, 0.5008 and the date |
| FileProperties.MissingExtensionExample | tests/test_parseFileProperties.py:126-128 | two words give no extension, an empty span is dropped, `d Bytes` is read as bytes |
| FileProperties.BytesValue | tests/test_parseFileProperties.py:128 | `739 Bytes` is 0.000739 megabytes |
| Listing.ThenAssociative | IliasDownloaderUniMA/IliasDL.py:333-334 | how successive scans are grouped does not matter |
| Listing.VideoName | IliasDownloaderUniMA/IliasDL.py:244 | the group found has no line break and is followed by `?il_wac_token` in the source |
| Listing.VideoNameOf | IliasDownloaderUniMA/IliasDL.py:244 | in a source `pre mobs/mm_<digits>/<name>?il_wac_token<rest>` the group is exactly the name |
| Listing.VideoNameOfSource | IliasDownloaderUniMA/IliasDL.py:244 | the same for a source given as a whole |
| Listing.ParseVideo | IliasDownloaderUniMA/IliasDL.py:239-254 | no video exactly when `None`; an empty source raises; otherwise name is the group, URL the joined source, size the header times 1e-6 |
| Listing.RelativeVideo | IliasDownloaderUniMA/IliasDL.py:242-252 | a source `./x mobs/mm_d/name?il_wac_token…` gives the name and the URL below the root |
| Listing.RelativeVideoOf | IliasDownloaderUniMA/IliasDL.py:243-252 | a relative source whose name matches gives the name and the joined URL |
| Listing.RelativeSource | IliasDownloaderUniMA/IliasDL.py:243 | `./x` joins below the root |
| Listing.VideoWithCaptionExample | tests/test_parseVideo.py:91-96 | the captioned test video gives `Session_02_DesignofFlowLinesPart1.mp4` and the expected URL |
| Listing.VideoWithoutCaptionExample | tests/test_parseVideo.py:84-89 | the test video without caption gives its name and the expected URL |
| Listing.FigureOutcome | IliasDownloaderUniMA/IliasDL.py:268-279 | one container adds at most one record: exactly when it holds a video that parses, and it raises exactly when parsing raises |
| Listing.MediaScan | IliasDownloaderUniMA/IliasDL.py:268-279 | every video record carries the course, the path and the sentinel date; nothing is queued |
| Listing.MediaScanNoVideos | IliasDownloaderUniMA/IliasDL.py:268-269 | containers without video add nothing |
| Listing.MediaScanConcat | IliasDownloaderUniMA/IliasDL.py:268-279 | scanning `a + b` is scanning `a`, then `b` unless `a` raised |
| Listing.MediaScanSnoc | IliasDownloaderUniMA/IliasDL.py:268-279 | one more container appends what it gives |
| Listing.MediaScanRaised | IliasDownloaderUniMA/IliasDL.py:268-279 | after an exception no later container is looked at |
| Listing.ContainerItem | IliasDownloaderUniMA/IliasDL.py:292-312 | an item adds a file exactly when its link is a file and its properties parse, raises exactly when they do not, queues itself exactly when it is a folder, task unit or learning module |
| Listing.FileItemRecord | IliasDownloaderUniMA/IliasDL.py:296-306 | a file record is named by link text and extension, and carries the parsed size and date, the joined URL, the course and the path |
| Listing.ContainerScan | IliasDownloaderUniMA/IliasDL.py:291-312 | every record carries the course and path and is a file URL; every queued entry is a folder, task unit or learning module |
| Listing.ContainerScanComplete | IliasDownloaderUniMA/IliasDL.py:291-312 | a scan that raises nothing queues exactly the folder, task and learning-module items in document order, and records one file per file item |
| Listing.ContainerScanConcat | IliasDownloaderUniMA/IliasDL.py:291-312 | scanning `a + b` is scanning `a`, then `b` unless `a` raised |
| Listing.ContainerScanSnoc | IliasDownloaderUniMA/IliasDL.py:291-312 | one more item appends what it gives |
| Listing.ContainerScanOne | IliasDownloaderUniMA/IliasDL.py:291-312 | the scan of one item is that item's contribution |
| Listing.ContainerScanRaised | IliasDownloaderUniMA/IliasDL.py:297 | after an exception no later item is looked at |
| Listing.ContainerScanStops | IliasDownloaderUniMA/IliasDL.py:297 | a scan that raises stops at a file item whose properties cannot be read, keeping what the items before it appended |
| Listing.NoColons | IliasDownloaderUniMA/IliasDL.py:329 | no colon is left after `replace(":", " - ")` |
| Listing.FolderPath | IliasDownloaderUniMA/IliasDL.py:328-329 | a folder path has no colon |
| Listing.FolderPathShape | IliasDownloaderUniMA/IliasDL.py:328-329 | a folder path is the cleaned course, `/`, the trail and a final `/` |
| Listing.FolderPathPlain | IliasDownloaderUniMA/IliasDL.py:328 | without colons the path is the course and the fifth to last-but-one breadcrumb lines joined by `/` |
| Listing.FolderPathOfTrail | IliasDownloaderUniMA/IliasDL.py:328 | four header lines, a trail and a last line: the trail becomes the path |
| Listing.TaskPath | IliasDownloaderUniMA/IliasDL.py:350-351 | a task path has no colon |
| Listing.TaskPathShape | IliasDownloaderUniMA/IliasDL.py:350-351 | the task path is the cleaned course, `/Aufgaben/`, the cleaned unit name and `/` |
| Listing.TaskRecord | IliasDownloaderUniMA/IliasDL.py:357-370 | a task file has no size, the sentinel date, the item's name, an absolute URL, the course and the path |
| Listing.ArchiveName | IliasDownloaderUniMA/IliasDL.py:393 | an archive name has no line break and ends in `.zip` |
| Listing.SubmissionPlaceholder | IliasDownloaderUniMA/IliasDL.py:383-404 | a placeholder exists exactly when the deadline has passed and the grades tab is visible; it has no size, the deadline as date, and the archive name |
| Background.Digraph | IliasDownloaderUniMA/IliasDL.py:413-419 | reference reading: an umlaut becomes its digraph, any other character stays, and no umlaut remains |
| Background.Fold | IliasDownloaderUniMA/IliasDL.py:413-419 | the per-character reading leaves no umlaut |
| Background.TranslitIsSubstChain | IliasDownloaderUniMA/IliasDL.py:413-419 | the seven `replace` calls on the name are seven character substitutions |
| Background.SubstChainConcat | IliasDownloaderUniMA/IliasDL.py:413-419 | the substitutions work character by character |
| Background.SubstChainNoUmlaut | IliasDownloaderUniMA/IliasDL.py:413-419 | a text without umlauts passes the substitutions unchanged |
| Background.SubstChainChar | IliasDownloaderUniMA/IliasDL.py:413-419 | one character goes through the seven steps to its digraph |
| Background.TranslitIsFold | IliasDownloaderUniMA/IliasDL.py:412-420 | the replacements in their order are the per-character digraph reading |
| Background.TranslitIdempotent | IliasDownloaderUniMA/IliasDL.py:412-420 | after transliteration no umlaut is left, and a second transliteration changes nothing |
| Background.TranslitPlain | IliasDownloaderUniMA/IliasDL.py:412-420 | a name without umlauts is kept |
| Background.TranslitPrefix | IliasDownloaderUniMA/IliasDL.py:411-420 | after `n` rounds the first `n` names are rewritten, the others untouched |
| Background.MatchIndex | IliasDownloaderUniMA/IliasDL.py:411-422 | the index found is the first whose transliterated name equals the title, or the length when none does |
| Background.MatchIndexAtMost | IliasDownloaderUniMA/IliasDL.py:421 | a placeholder named exactly the title, without umlauts, is found at its index or earlier |
| Background.Search | IliasDownloaderUniMA/IliasDL.py:411-422 | on a match: the first matching placeholder, transliterated, is returned and removed, those before it stay transliterated, those after it untouched; without a match all names are transliterated and none removed |
| Background.MatchOne | IliasDownloaderUniMA/IliasDL.py:439-449 | a task adds a record exactly when `searchBackgroundTaskFile` finds its archive; that record is named `title.zip`, has the task's download URL, and one placeholder goes; without a match nothing is added and no placeholder goes |
| Background.MatchOneExtends | IliasDownloaderUniMA/IliasDL.py:440-449 | one task adds at most one record, keeps the records before it, and consumes one placeholder per record |
| Background.MatchTasks | IliasDownloaderUniMA/IliasDL.py:432-449 | the records only grow, by at most one per task, and every added record consumed one placeholder |
| Background.MatchTasksNoPlaceholders | IliasDownloaderUniMA/IliasDL.py:440 | without placeholders no archive is added |
| Background.PlaceholderMatched | IliasDownloaderUniMA/IliasDL.py:439-440 | a queued placeholder without umlauts is matched by the archive of the same title |
| Background.RemoveUrls | IliasDownloaderUniMA/IliasDL.py:436-437 | every task's remove URL is recorded, one per task, in order |
| Background.RemoveUrlsSnoc | IliasDownloaderUniMA/IliasDL.py:437 | one more task records one more URL |
| Download.PathJoin | IliasDownloaderUniMA/IliasDL.py:514 | `os.path.join`: an absolute part replaces what is before it, otherwise the parts are kept with one separator between them |
| Download.PathJoinLead | IliasDownloaderUniMA/IliasDL.py:514 | a join is absolute exactly when one of its parts is |
| Download.PathJoinAssociative | IliasDownloaderUniMA/IliasDL.py:514 | `join(a, b, c)` does not depend on grouping |
| Download.JoinRelative | IliasDownloaderUniMA/IliasDL.py:514 | a relative part is appended after the separator |
| Download.SepOfJoin | IliasDownloaderUniMA/IliasDL.py:514 | after a join the separator rule depends only on the last part |
| Download.RelativeJoinRelative | IliasDownloaderUniMA/IliasDL.py:514 | two relative parts give a relative path |
| Download.TargetInDirectory | IliasDownloaderUniMA/IliasDL.py:543 | a record's target lies in the directory the pre-pass creates for it |
| Download.DownloadFile | IliasDownloaderUniMA/IliasDL.py:514-529 | skipped exactly when the local file exists and the remote time is strictly older; otherwise a write only on status 200; a skip, another status or a failed `open` leaves the files as they were; the older `downloadFile` (__init__.py:261-276) takes the same decision |
| Download.FetchedThenSkipped | IliasDownloaderUniMA/IliasDL.py:518 | once fetched at a time after its remote timestamp, such as the sentinel 2000-01-01, a record is skipped on every later run, whatever the server answers |
| Download.EqualTimesRefetched | IliasDownloaderUniMA/IliasDL.py:518 | a local file as old as the remote one is fetched again |
| Download.Normalize | IliasDownloaderUniMA/IliasDL.py:545 | `Path(p)` drops trailing separators |
| Download.Ancestors | IliasDownloaderUniMA/IliasDL.py:546 | `mkdir(parents=True)` creates the path and only parents of it |
| Download.MkDir | IliasDownloaderUniMA/IliasDL.py:545-546 | after one step the path exists and only it and its parents were added |
| Download.PrePassGrows | IliasDownloaderUniMA/IliasDL.py:544-546 | the pre-pass keeps the files, keeps every directory and adds only parents of listed paths |
| Download.PrePassConcat | IliasDownloaderUniMA/IliasDL.py:544-546 | the pre-pass runs path by path |
| Download.PrePassCovers | IliasDownloaderUniMA/IliasDL.py:544-546 | after the pre-pass every listed path exists |
| Download.PrePassDuplicate | IliasDownloaderUniMA/IliasDL.py:543 | a path listed twice is created once: collapsing the list to a set changes nothing |
| Download.MakeDirs | IliasDownloaderUniMA/IliasDL.py:544-546 | the loop computes the pre-pass, after which every listed path exists |
| Download.Directories | IliasDownloaderUniMA/IliasDL.py:543 | one directory per record, `join(download_path, path)` |
| Download.RecordDirectoriesExist | IliasDownloaderUniMA/IliasDL.py:543-546 | after the pre-pass the directory of every record exists |
| Traversal.TaskFiles | IliasDownloaderUniMA/IliasDL.py:356-370 | one record per task item, in order, under the task path |
| Traversal.TaskPlaceholders | IliasDownloaderUniMA/IliasDL.py:372-373 | a task unit queues one placeholder exactly in tutor mode with a passed deadline and a visible grades tab |
| Traversal.HelperStep | IliasDownloaderUniMA/IliasDL.py:457-465 | only a folder can raise; other entries are only popped; a folder adds no placeholders; files and placeholders only grow |
| Traversal.SearchSteps | IliasDownloaderUniMA/IliasDL.py:468-478 | the search with every entry scanned once, the entry that is popped: it only appends to files and placeholders |
| Traversal.SearchStepsStep | IliasDownloaderUniMA/IliasDL.py:475-478 | a search is one `scanHelper` step on the last entry, then the rest of the search |
| Traversal.AsWrittenRound | IliasDownloaderUniMA/IliasDL.py:457-477 | one round of the `while` loop as written: each `scanHelper` call pops the last entry and scans the entry the pool fed it; it only appends to files and placeholders |
| Traversal.AsWrittenSearch | IliasDownloaderUniMA/IliasDL.py:468-478 | rounds until the list is empty; it only appends to files and placeholders |
| Traversal.AsWrittenRescans | IliasDownloaderUniMA/IliasDL.py:457-477 | on `[a, b]` with a subfolder `e` in `a`, the loop as written scans `a` twice and stores its records twice |
| Traversal.SearchStepsScansOnce | IliasDownloaderUniMA/IliasDL.py:457-477 | on the same input, scanning the popped entry stores each folder's records once |
| Traversal.FolderPathInCourse | IliasDownloaderUniMA/IliasDL.py:328 | a folder path lies in the course's directory |
| Traversal.TaskPathInCourse | IliasDownloaderUniMA/IliasDL.py:350 | a task path lies in the course's directory |
| Traversal.FolderScanInCourse | IliasDownloaderUniMA/IliasDL.py:326-334 | the records of a folder page belong to the course |
| Traversal.HelperStepInCourse | IliasDownloaderUniMA/IliasDL.py:457-465 | one step adds only records of the course |
| Traversal.SearchInCourse | IliasDownloaderUniMA/IliasDL.py:468-478 | the search for a course adds only records of that course, whatever the pages hold |
| Traversal.HelperStepAdds | IliasDownloaderUniMA/IliasDL.py:457-465 | one step appends only records of the course, whatever was recorded before |
| Traversal.SearchAdds | IliasDownloaderUniMA/IliasDL.py:468-478 | the search for a course appends only records of that course, whatever was recorded before |
| Traversal.SearchWithoutFolders | IliasDownloaderUniMA/IliasDL.py:457-465 | a worklist without folders is used up in as many steps as it has entries, and nothing raises |
| Traversal.LeafFolderPops | IliasDownloaderUniMA/IliasDL.py:458-461 | a folder page listing only files and links queues nothing: the step just pops |
| Traversal.NoScanEntries | IliasDownloaderUniMA/IliasDL.py:307-312 | items that are neither folders, task units nor learning modules queue nothing |
| Downloader.SetParamResult | IliasDownloaderUniMA/IliasDL.py:64-75 | an accepted value is stored under its key, every other key is unchanged, a rejected value changes nothing |
| Downloader.SetParamWellTyped | IliasDownloaderUniMA/IliasDL.py:32-38 | `setParam` keeps every parameter present and of its type |
| Downloader.SetParamRejects | IliasDownloaderUniMA/IliasDL.py:64-66 | an unknown key is never stored, and `True` is not a thread count |
| Downloader.IdCourses | IliasDownloaderUniMA/IliasDL.py:140-149 | at most one course per id, each with the URL of one of the ids |
| Downloader.IdCoursesConcat | IliasDownloaderUniMA/IliasDL.py:148-149 | the ids are added one by one |
| Downloader.IdCoursesSnoc | IliasDownloaderUniMA/IliasDL.py:148-149 | one more id appends what its `addCourse` gives |
| Downloader.ScanAll | IliasDownloaderUniMA/IliasDL.py:484-496 | the scan of the courses only appends records |
| Downloader.ScanAllInCourses | IliasDownloaderUniMA/IliasDL.py:484-496 | every record the scan of the courses adds belongs to one of the scanned courses: it names the course and lies in its directory |
| Downloader.ScanAllStep | IliasDownloaderUniMA/IliasDL.py:489-496 | course `i` is searched from its own entry, then the remaining courses unless it raised |
| Downloader.IliasDownloader.constructor | IliasDownloaderUniMA/IliasDL.py:24-43 | empty lists, the default parameters, the semester of the creation date |
| Downloader.IliasDownloader.SetParam | IliasDownloaderUniMA/IliasDL.py:54-75 | the parameters become `SetParamResult`, nothing else changes |
| Downloader.IliasDownloader.AddCourse | IliasDownloaderUniMA/IliasDL.py:124-137 | the courses grow by `CourseEntry`, nothing else changes |
| Downloader.IliasDownloader.AddCourses | IliasDownloaderUniMA/IliasDL.py:140-149 | the loop appends `IdCourses` |
| Downloader.IliasDownloader.AddAnchor | IliasDownloaderUniMA/IliasDL.py:171-180 | one link appends its contribution |
| Downloader.IliasDownloader.AddAllSemesterCourses | IliasDownloaderUniMA/IliasDL.py:152-180 | the loop appends `SemesterCourses` under the given pattern or the creation semester |
| Downloader.IliasDownloader.ScanFigure | IliasDownloaderUniMA/IliasDL.py:269-279 | one container appends its record and reports its exception |
| Downloader.IliasDownloader.ScanMediaContainer | IliasDownloaderUniMA/IliasDL.py:257-279 | the loop appends `MediaScan`'s records and stops at its exception |
| Downloader.IliasDownloader.ScanListItem | IliasDownloaderUniMA/IliasDL.py:292-312 | one item appends its record or its entry |
| Downloader.IliasDownloader.ScanContainerList | IliasDownloaderUniMA/IliasDL.py:282-312 | the loop appends `ContainerScan`'s records and entries |
| Downloader.IliasDownloader.ScanFolder | IliasDownloaderUniMA/IliasDL.py:315-334 | media containers, then container list, under the folder path |
| Downloader.IliasDownloader.ScanTaskUnit | IliasDownloaderUniMA/IliasDL.py:337-373 | the task files are appended, and in tutor mode the placeholder |
| Downloader.IliasDownloader.ScanHelper | IliasDownloaderUniMA/IliasDL.py:457-465 | the lists become those of `HelperStep` |
| Downloader.IliasDownloader.SearchForFiles | IliasDownloaderUniMA/IliasDL.py:468-478 | the lists become those of `SearchSteps`, the search that scans the entry it pops |
| Downloader.IliasDownloader.QueueCourse | IliasDownloaderUniMA/IliasDL.py:490-494 | the course's folder entry is queued |
| Downloader.IliasDownloader.ScanCourses | IliasDownloaderUniMA/IliasDL.py:484-496 | the lists become those of `ScanAll` over the stored courses |
| Downloader.IliasDownloader.SearchBackgroundTaskFile | IliasDownloaderUniMA/IliasDL.py:407-422 | the in-place loop returns and leaves what `Search` describes |
| Downloader.IliasDownloader.ParseBackgroundTask | IliasDownloaderUniMA/IliasDL.py:433-449 | the remove URL is recorded and the archive matched as `MatchOne` says |
| Downloader.IliasDownloader.ParseBackgroundTasks | IliasDownloaderUniMA/IliasDL.py:425-449 | every remove URL is recorded and the archives matched as `MatchTasks` says |
| Downloader.IliasDownloader.PrepareDirectories | IliasDownloaderUniMA/IliasDL.py:543-546 | after the pre-pass the directory of every record exists |
| LegacyDates.DaysIn | IliasDownloaderUniMA/__init__.py:148 | a month of the calendar `datetime` uses has 28 to 31 days |
| LegacyDates.AsWrittenYesterday | IliasDownloaderUniMA/__init__.py:148 | `replace(day = day - 1)` raises exactly on the first of a month, and otherwise stays in the month |
| LegacyDates.PreviousDay | IliasDownloaderUniMA/__init__.py:148 | the intended day before is a valid date |
| LegacyDates.NextDay | IliasDownloaderUniMA/__init__.py:148 | reference: the day after is a valid date |
| LegacyDates.NextOfPrevious | IliasDownloaderUniMA/__init__.py:148 | the day after the day before is the day itself |
| LegacyDates.PreviousOfNext | IliasDownloaderUniMA/__init__.py:148 | the day before the day after is the day itself |
| LegacyDates.AsWrittenAgrees | IliasDownloaderUniMA/__init__.py:148 | where `replace` does not raise it gives the day before |
| LegacyDates.FirstOfMonthRaises | IliasDownloaderUniMA/__init__.py:148 | on 1 October 2020 `replace` raises, although 30 September 2020 is the day before |
| LegacyDates.MonthAbbr | IliasDownloaderUniMA/__init__.py:148 | `%b` has three letters |
| LegacyDates.TwoDigits | IliasDownloaderUniMA/__init__.py:148 | `%d` is two digits spelling the day |
| LegacyDates.FormatDate | IliasDownloaderUniMA/__init__.py:148 | `%d. %b %Y` spells day, month and year at fixed places |
| LegacyDates.MonthOfAbbrOf | IliasDownloaderUniMA/__init__.py:148 | the month can be read back from `%b` |
| LegacyDates.ReadFormatted | IliasDownloaderUniMA/__init__.py:148 | round trip: the formatted date reads back as the date |
| LegacyDates.FormatDateInjective | IliasDownloaderUniMA/__init__.py:150 | different dates are written differently |
| LegacyDates.Replacements | IliasDownloaderUniMA/__init__.py:149-150 | eight pairs with non-empty keys, in insertion order |
| LegacyDates.ReplaceAllAbsent | IliasDownloaderUniMA/__init__.py:151-152 | a text holding none of the keys passes the loop unchanged |
| LegacyDates.TranslatedPlain | IliasDownloaderUniMA/__init__.py:149-153 | a text without German month names, `Gestern` and `Heute` is returned unchanged |
| LegacyDates.AsWrittenTranslated | IliasDownloaderUniMA/__init__.py:147-153 | `translate_date` as written raises exactly on the first of a month |
| LegacyDates.AsWrittenTranslatedAgrees | IliasDownloaderUniMA/__init__.py:147-153 | on any other day it gives the corrected result |
| LegacyDates.TranslateDate | IliasDownloaderUniMA/__init__.py:135-153 | the method raises where `gestern` cannot be computed, and otherwise its loop applies the replacements in key order: it computes `AsWrittenTranslated` |
| Legacy.LegacySetParamResult | IliasDownloaderUniMA/__init__.py:52-57 | an accepted value is stored under its key, every other key is unchanged, a rejected value changes nothing |
| Legacy.LegacySetParamWellTyped | IliasDownloaderUniMA/__init__.py:37 | the older `setParam` keeps the keys and the integer thread counts |
| Legacy.LegacyIgnoresFlags | IliasDownloaderUniMA/__init__.py:52-57 | `verbose` and `tutor_mode` change nothing here, though the newer class takes booleans for them |
| Legacy.LegacyCourse | IliasDownloaderUniMA/__init__.py:116-120 | a course has the course URL of its id and a name no longer than the page title, stored even when empty |
| Legacy.LegacyCourses | IliasDownloaderUniMA/__init__.py:123-132 | exactly one course per id, in order |
| Legacy.LegacyCoursesAreFolders | IliasDownloaderUniMA/__init__.py:116 | every stored URL gives back its ref id and is a folder for the older classifier |
| Legacy.LegacyScale | IliasDownloaderUniMA/__init__.py:172-173 | only the unit `KB` scales, and scaling never increases a non-negative size |
| Legacy.LegacyParseFileProperties | IliasDownloaderUniMA/__init__.py:135-175 | raises for no span and for an empty first span exactly; after a readable size it raises exactly on the first of a month, where `translate_date` raises; on success the extension is the first word without dot, the size read from the second span, the date the last span as `translate_date` gives it |
| Legacy.LegacySizeTokensDecimal | IliasDownloaderUniMA/__init__.py:170 | `i,f Unit` becomes the tokens `i.f` and the unit as written |
| Legacy.LegacySizeDecimal | IliasDownloaderUniMA/__init__.py:170-173 | `i,f Unit` reads as `i.f`, scaled exactly when the unit is `KB` |
| Legacy.LegacyParseSizeOfTokens | IliasDownloaderUniMA/__init__.py:170-173 | a number and a unit read as that number scaled by the unit |
| Legacy.LegacyLowerKbUnscaled | IliasDownloaderUniMA/__init__.py:172 | the older test is case-sensitive: `kb` is not scaled, where the newer version scales it |
| Legacy.LegacyEndingAgrees | IliasDownloaderUniMA/__init__.py:199 | where both versions read a one-word first span, the newer extension is `.` and the older one |
| Legacy.Spread | IliasDownloaderUniMA/__init__.py:190 | reference: the characters at even places, `/` at odd places |
| Legacy.Chars | IliasDownloaderUniMA/__init__.py:190 | iterating over a string gives its characters |
| Legacy.JoinCharsIsSpread | IliasDownloaderUniMA/__init__.py:190 | `"/".join` over a string is its characters separated by `/` |
| Legacy.LegacyFolderPath | IliasDownloaderUniMA/__init__.py:190 | the path exists exactly when the breadcrumb has at least two lines; `[-2]` raises otherwise |
| Legacy.LegacyFolderPathSpread | IliasDownloaderUniMA/__init__.py:190 | the path is the course, `/`, the spread last-but-one line and `/` |
| Legacy.SpreadExample | IliasDownloaderUniMA/__init__.py:190 | `ab` gives `a/b` |
| Legacy.OneLineBreadcrumb | IliasDownloaderUniMA/__init__.py:190 | a one-line breadcrumb makes `scanFolder` raise |
| Legacy.LegacyThenAssociative | IliasDownloaderUniMA/__init__.py:192-209 | grouping of successive scans does not matter |
| Legacy.LegacyEntry | IliasDownloaderUniMA/__init__.py:196-209 | a file adds a record named text, `.` and extension, or raises when its properties fail; a folder or task is queued in its own list; all else adds nothing |
| Legacy.LegacyItem | IliasDownloaderUniMA/__init__.py:193-209 | one item adds at most one thing; it raises exactly without a link or for a file whose properties raise (on the first of a month always); files, folders and tasks each exactly for their kind |
| Legacy.LegacyScan | IliasDownloaderUniMA/__init__.py:192-209 | at most one contribution per item |
| Legacy.LegacyScanShape | IliasDownloaderUniMA/__init__.py:200-209 | every record carries the course and the folder path; the queues hold only folders and task units |
| Legacy.LegacyScanComplete | IliasDownloaderUniMA/__init__.py:192-209 | a scan that raises nothing queues exactly the folder and task items, in order, and records one file per file item |
| Legacy.LegacyScanConcat | IliasDownloaderUniMA/__init__.py:192-209 | scanning `a + b` is scanning `a`, then `b` unless `a` raised |
| Legacy.LegacyScanOne | IliasDownloaderUniMA/__init__.py:192-209 | the scan of one item is its contribution |
| Legacy.LegacyScanSnoc | IliasDownloaderUniMA/__init__.py:192-209 | one more item appends what it gives |
| Legacy.LegacyScanRaised | IliasDownloaderUniMA/__init__.py:192-209 | after an exception no later item is looked at |
| Legacy.LegacyFileItemFirstOfMonth | IliasDownloaderUniMA/__init__.py:193-199 | on the first of a month a file item raises (through `translate_date`, __init__.py:148 and 174) and records nothing |
| Legacy.LegacyScanFirstOfMonth | IliasDownloaderUniMA/__init__.py:192-209 | on the first of a month the older scan records no file at all |
| Legacy.LegacyDownloader.constructor | IliasDownloaderUniMA/__init__.py:29-39 | empty lists and ten threads each in the working directory |
| Legacy.LegacyDownloader.SetParam | IliasDownloaderUniMA/__init__.py:42-57 | the parameters become `LegacySetParamResult`, nothing else changes |
| Legacy.LegacyDownloader.AddCourse | IliasDownloaderUniMA/__init__.py:108-120 | the course is appended whatever its cleaned name |
| Legacy.LegacyDownloader.AddCourses | IliasDownloaderUniMA/__init__.py:123-132 | the loop appends `LegacyCourses` |
| Legacy.LegacyDownloader.ScanItem | IliasDownloaderUniMA/__init__.py:193-209 | one item's record or entry is appended, or its exception reported |
| Legacy.LegacyDownloader.QueueEntry | IliasDownloaderUniMA/__init__.py:196-209 | the branches on the kind of a linked item append what `LegacyEntry` gives |
| Legacy.LegacyDownloader.ScanItems | IliasDownloaderUniMA/__init__.py:192-209 | the loop appends `LegacyScan`'s records and entries and stops at its exception |
| Legacy.LegacyDownloader.ScanFolder | IliasDownloaderUniMA/__init__.py:186-209 | one folder entry is popped before the page is scanned |
| Legacy.LegacyDownloader.ScanTaskUnit | IliasDownloaderUniMA/__init__.py:225-226 | one task entry is popped and no record is added |

## Left out

- Login, every GET, POST and HEAD request, and the cleanup requests are network work. Their results are parameters: fetched pages, the HTTP status, the `Content-Length` of a video, the title of a course page.
- HTML parsing with BeautifulSoup is left out. Pages are given already split into breadcrumb, containers, items, spans and task-bar entries. A page missing a selected element (`soup.find` giving `None`) is not modelled.
- Date parsing (`dateparser`, `dateutil`) is left out. A parsed modification date is the text handed to the parser (`Parsed(text)`), and the fixed date 2000-01-01 is `Sentinel`.
- Unreadable dates are not modelled. `dateparser.parse` gives `None` for a text it cannot read. In the source that `None` then raises at `.timestamp()` (IliasDL.py:515) or at the comparison with `datetime.now()` (IliasDL.py:385). The model has `Parsed(text)` for every text, and the timestamp and the deadline test are parameters, so neither exception is modelled.
- Legacy.LegacyParseFileProperties: does not raise for a date text `dateutil.parse` cannot read (__init__.py:174). That exception is not modelled, because date parsing is left out.
- The timestamps compared by `downloadFile` are parameters. So is the deadline test of `scanTaskUnitSubmissions`.
- `datetime.now()` is left out. It is the month and year given to the constructor and the date `now` given to the older property parser.
- Numbers.ParseFloat: reads ASCII decimal numerals with an optional exponent only. The `float` forms `inf`, `nan` and `_` digit groups are read as an error, and so are numerals in other Unicode digits, which `float` and the `\d` of a regular expression accept.
- Text.Lower: lowers the ASCII and Latin-1 letters only. Python's `str.lower` (IliasDL.py:221) covers all of Unicode.
- Sizes are exact `real` numbers. IEEE rounding (`287.3 * 1e-3`) is left out, and NaN is `None`.
- Urls.JoinBase: resolves only absolute URLs and the relative forms `./x`, `/x` and `x` against the portal root. `../`, `//host` and query-only references are not modelled.
- Download.PathJoin: is the POSIX `os.path.join`. Windows drive letters are not modelled.
- Download.Normalize: drops trailing `/` only. `pathlib.Path` also collapses `//` and `/./`, so in the model `a//b` and `a/b` are different directories.
- Download.MkDir: succeeds when a parent of the path is a regular file. There `mkdir(parents=True, exist_ok=True)` (IliasDL.py:546) raises `FileExistsError` or `NotADirectoryError`, which ends `downloadAllFiles`. That failure is not modelled.
- `os.path.isdir` and `Path.exists` are modelled as follows. The answer of `isdir` is a parameter. The local file system is a map from file to modification time plus a set of directories.
- Downloader.Accepts: refuses a `download_path` that is not a string. The source stores any value for which `os.path.isdir` is true (IliasDL.py:67-69), and its docstring (IliasDL.py:61) allows `str or int`, so an `int` file descriptor of a directory is stored there. The model keeps the download path a string, because the pre-pass joins it with `os.path.join`, which raises `TypeError` for an `int`. `Downloader.SetParamResult`, `Downloader.SetParamWellTyped` and `Downloader.IliasDownloader.SetParam` inherit this.
- Download.UpToDate: a directory at the target path counts as missing. In the source `os.path.exists` (IliasDL.py:518) is true for a directory, its modification time is compared, and when the record is newer the later `open(..., 'wb')` raises and is returned as the error. The model keeps no times for directories.
- Directory creation races with the download threads are not modelled.
- Downloader.IliasDownloader.SearchForFiles: runs the worklist one entry at a time, for at most `fuel` steps, where the source loops until the list is empty. It scans the entry it pops, the last one. The source pops the last entry but scans the entry the `ThreadPool` fed it from the front of the list (see Findings). The threads are not modelled: `Traversal.AsWrittenSearch` models the loop as written with one worker that is fed the list as it stood when the round began.
- Traversal.SearchSteps: the same `fuel` bound and the same reading: the popped entry is the scanned one. A search that needs more steps stops with the lists reached so far.
- Traversal.AsWrittenSearch: a `fuel` bound on its rounds. It takes one reading of the thread scheduling, the one where the pool takes the whole list before the worker's first `pop`. Where the feeder instead reads the list while the worker pops, the scanned entries differ again.
- Downloader.ScanAll: the same `fuel` bound, per course.
- `downloadAllFiles` beyond its directory pre-pass is not modelled. This covers the threaded download loop over the records and the cleanup requests. The decision for each record is `Download.DownloadFile`. Streaming the body (`shutil.copyfileobj`) is the parameter `write`.
- Download.Directories: lists the directories in record order, with repeats. `list(set(...))` in the source has no fixed order. `Download.PrePassDuplicate` shows that repeats change nothing. Independence of the order of distinct paths is not proved.
- External scrapers (`addExternalScraper` and the loop at IliasDL.py:498-500) call code outside the repository and are not modelled.
- `scanLernmaterial` is an empty stub. A learning-module entry is popped and nothing else happens.
- Regular expressions given by the caller of `addAllSemesterCourses` are predicates on the course name. The pattern chosen at creation is the predicate `Courses.Matches` for the semester's tag.
- Printing and the `verbose` output are left out.
- The expectation at tests/test_addAllSemesterCourses.py:103 (four courses) is not adopted. The code adds three courses there. Of the five links, one has no term tag and one is the excluded id 862822. `Courses.ExcludedNeverAdded` states the exclusion.
- The older `searchFolderForFiles`, `scanCourses` and `downloadAllFiles` (__init__.py:212-222, 239-247, 279-293) only run the modelled steps through a `ThreadPool`. They are not modelled separately.
- Legacy.LegacyDownloader.ScanTaskUnit: models only the pop. The loop of the older `scanTaskUnit` (__init__.py:227-235) computes local values only and appends nothing. The exception it raises for a task item without a link is not modelled.
- The older `translate_date` works on the calendar from year 1, and years are written by `%Y` without padding, as glibc does. The corrected day before, `LegacyDates.PreviousDay`, excludes 1 January of year 1 (`now != FirstDay`), where `timedelta` overflows. The scan of the older version uses the code as written, which has no such requirement. Years have no upper bound (`LegacyDates.ValidDate`): `datetime.MAXYEAR` is 9999 in Python, so the day after 31 December 9999 raises `OverflowError` there, while `LegacyDates.NextDay` gives 1 January 10000.
- The key `MÃ¤r` of the older dictionary is the UTF-8 encoding of `Mär` read as Latin-1. It is kept in that form, so a text with a real `Mär` keeps it.

## Findings

| source | as written | input that shows it | evidently intended | confidence | as-written member | corrected member |
|---|---|---|---|---|---|---|
| IliasDownloaderUniMA/__init__.py:148 | `today.replace(day = today.day-1)` computes yesterday | any date on the first of a month, e.g. 1 October 2020: `replace(day=0)` raises `ValueError`, so `translate_date`, and every file item of the older `scanFolder` through it, fails on that day (`Legacy.LegacyScanFirstOfMonth`) | `today - timedelta(days=1)`, the previous calendar day, here 30 September 2020 | not executed | LegacyDates.FirstOfMonthRaises | LegacyDates.PreviousDay |
| IliasDownloaderUniMA/IliasDL.py:457-465 | `scanHelper(course_name, el)` pops the last entry of `to_scan` but scans `el`, which `searchForFiles` (IliasDL.py:475-477) feeds from the front of the same list | the list `[a, b]` of two folders, `a` holding one subfolder `e`: scanning `a` pops `b`, scanning `b` pops `e`, and `a` survives the round, so `a` is scanned again in the next one and its files are recorded twice | every queued entry scanned exactly once, e.g. by scanning the entry that is popped | not executed; one worker, fed the list as it stood when the round began (with the five workers of `num_scan_threads`, both pops can come before any append, and `a` may then be scanned once) | Traversal.AsWrittenRescans | Traversal.SearchSteps |
