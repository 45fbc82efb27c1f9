# web-file-downloader, modelled in Dafny

This project models the core of `src/main.py` from *web-file-downloader*.
That program visits a list of web pages, picks out the links that end with an
allowed file suffix, and downloads each file into a base folder. It then moves
each file into a sub-folder chosen by an organization rule (`date`, `type` or
`type_then_date`), and keeps a history of the links it has already filed.

How the model is laid out:

- `wrappers.dfy`: `Option`.
- `strings.dfy`: the `str` methods the program uses (`lower`, `capitalize`,
  `endswith`, `replace`, `str` of a counter, `split`-style helpers).
- `paths.dfy`: `os.path.join` of two parts, `basename` and `splitext`,
  following POSIX `posixpath`.
- `urls.dfy`: the `path` part that `urllib.parse.urlparse` computes. A scheme
  must start with an ASCII letter, as in the `urlsplit` of Python 3.11 and
  later; earlier versions accept a scheme that starts with a digit, `+`, `-`
  or `.`.
- `filesystem.dfy`: class `FileSystem`. Its field `paths` is the set of paths
  that exist. `os.path.exists` is membership in that set. `os.makedirs`,
  creating a file and `shutil.move` are methods that update the set.
- `links.dfy`: `find_download_links`.
- `download.dfy`: `download_file`, except the network transfer.
- `organize.dfy`: `organize_file`. This covers the rule, the extension
  normalisation, the destination folders, the name-collision loop and the move.
- `history.dfy`: loading the history, the decision to save it, and what the
  next run loads.
- `pipeline.dfy`: `main` after it has read the configuration. This covers the
  early abort, the loop over pages and links, the history updates and the save
  decision.

The outside world enters as parameters:

- The hyperlink targets of each page, or none when the page cannot be fetched.
- `urljoin`.
- What each file transfer does (`Fetched`, `FailedBeforeWrite`, or
  `FailedAfterOpen`, which leaves a partial file).
- Whether each move succeeds.
- Today's date as text.
- What the history file holds.

Two consequences of the code are worth knowing:

- Only the link is lower-cased, not the configured suffix. So a suffix with an
  upper-case letter never matches anything
  (`LinkExtractor.UpperCaseSuffixesFindNothing`).
- A transfer that breaks off after the file was opened leaves a partial file.
  The next attempt returns that partial file as downloaded, without fetching
  it again (`Downloader.InterruptedDownloadIsReused`).

## Model

| member | source | states |
|---|---|---|
| Strings.Lower | src/main.py:117 | `lower()` keeps the length and maps each character to its lower-case form |
| Strings.Capitalize | src/main.py:201 | `capitalize()` upper-cases the first character and lower-cases the rest, keeping the length |
| Strings.Remove | src/main.py:191 | `replace('.', '')` leaves no dot, adds no character and leaves a dot-free string unchanged |
| Strings.RemoveSingle | src/main.py:191 | removing `c` drops a single `c` and keeps any other single character |
| Strings.RemoveAppend | src/main.py:191 | removing `c` from two texts glued together glues the two results, so every other character is kept in order |
| Strings.NatToString | src/main.py:226 | the counter's text is a non-empty run of decimal digits that starts with `0` only for zero, as `str` writes it |
| Strings.DecimalValueOfNatToString | src/main.py:226 | reading the counter's text back gives the counter |
| Strings.NatToStringInjective | src/main.py:226 | different counters give different texts |
| Strings.LowerNeverEndsWithUpper | src/main.py:117 | a lower-cased link never ends with a suffix that contains an upper-case letter |
| Paths.Join | src/main.py:137 | `os.path.join` of two parts; its shape is stated by `Paths.JoinShape`, `Paths.BasenameOfJoin` and `Paths.JoinInjective` |
| Paths.JoinShape | src/main.py:137 | `os.path.join(d, n)` ends with `n`, and starts with `d` when `d` is non-empty and `n` is relative |
| Paths.Basename | src/main.py:190 | the base name holds no separator, ends the path, and follows a separator whenever it is not the whole path |
| Paths.BasenameOfJoin | src/main.py:137 | the base name of `join(d, n)` is `n` for a name `n` without separators |
| Paths.BasenameEmpty | src/main.py:131-133 | the base name is empty exactly when the path is empty or ends with a separator |
| Paths.JoinInjective | src/main.py:225-227 | joining one folder with two relative names gives the same path only when the names are equal |
| Paths.SplitExt | src/main.py:224 | `splitext` splits the name into two parts that glue back to it; the extension is empty or a dot followed by no dot and no separator |
| Paths.ExtensionShape | src/main.py:191 | when the name has an extension, the stem and the extension glue back to the name, and the extension is a dot followed by no dot and no separator |
| Paths.SplitExtOf | src/main.py:224 | a name `stem.ext` whose separator-free stem holds a character other than a dot, with an `ext` free of dots and separators, splits into `stem` and `.ext` |
| Paths.LeadingDotsOnly | src/main.py:191 | a name whose only dots are leading ones, such as `.bashrc`, has no extension and is all stem |
| Urls.UrlPath | src/main.py:131 | the path `urlparse` returns holds no `?` and no `#` |
| Urls.UrlPathOfWebUrl | src/main.py:131 | for `http(s)://host/path?query#fragment` with a lower-case `http` or `https` scheme, a host free of `/`, `?` and `#`, and a path without `;`, `?` and `#`, the path is `/path` |
| FileSystems.FileSystem.MakeDirs | src/main.py:139 | `os.makedirs(d, exist_ok=True)` makes `d` exist and changes nothing else |
| FileSystems.FileSystem.CreateFile | src/main.py:150 | opening a file for writing makes it exist and changes nothing else |
| FileSystems.FileSystem.Move | src/main.py:232 | `shutil.move` removes the source path and makes the destination exist |
| LinkExtractor.Qualifies | src/main.py:117 | the suffix test on the lower-cased link; its meaning is stated by `LinkExtractor.FoundMembership`, `LinkExtractor.UpperCaseSuffixesFindNothing` and `LinkExtractor.QueryAfterSuffixMisses` |
| LinkExtractor.Found | src/main.py:111-119 | the reference list of found links; see `LinkExtractor.FoundMembership`, `LinkExtractor.FoundNoDuplicates` and `LinkExtractor.FoundFirstSeenOrder` |
| LinkExtractor.ResolveAll | src/main.py:113-115 | every hyperlink target is resolved against the page URL, in document order |
| LinkExtractor.FoundMembership | src/main.py:113-119 | a URL is found if and only if it is a resolved link whose lower-cased text ends with an allowed suffix |
| LinkExtractor.FoundNoDuplicates | src/main.py:118-119 | no URL is found twice |
| LinkExtractor.FoundFirstSeenOrder | src/main.py:111-119 | the found URLs appear in the order of their first occurrence among the resolved links |
| LinkExtractor.UpperCaseSuffixesFindNothing | src/main.py:117 | when every allowed suffix contains an upper-case letter, no link is found |
| LinkExtractor.UpperCaseLinkMatches | src/main.py:117 | a link ending in `.PDF` matches the suffix `.pdf` |
| LinkExtractor.QueryAfterSuffixMisses | src/main.py:117 | a query after the extension (`report.pdf?v=2`) hides it from every suffix without `?` that is longer than the query |
| LinkExtractor.FindDownloadLinks | src/main.py:104-124 | the loop returns the resolved links that qualify, each once, in first-seen order, and nothing else |
| LinkExtractor.FoundOnPage | src/main.py:111-124 | the links found on a page are exactly the qualifying resolved targets, without duplicates, in first-seen order |
| Downloader.FileName | src/main.py:131 | the local name holds no separator, no `?` and no `#` |
| Downloader.FileNameOfWebUrl | src/main.py:131-135 | for a web URL with a lower-case `http` or `https` scheme and a path without `;`, the name is the last path segment, whatever query follows; it is empty, so the download fails, exactly when the path is empty or ends with `/` |
| Downloader.StagedPath | src/main.py:137 | the staging path of a URL; see `Downloader.StagedPathShape` |
| Downloader.StagedPathShape | src/main.py:137 | the staged path is not the staging folder itself, and its base name is the file name |
| Downloader.StageFile | src/main.py:137-169 | an existing file is returned without fetching; otherwise a file is returned only when the transfer completed; a transfer that failed after opening leaves the file behind; the staging folder always exists afterwards |
| Downloader.DownloadFile | src/main.py:127-169 | no name gives `None` with the filesystem untouched; otherwise the result and the new filesystem are those of the staging step, and a returned path exists |
| Downloader.InterruptedDownloadIsReused | src/main.py:141-154 | a transfer that breaks off after opening returns `None`, and the next attempt for the same URL returns the partial file |
| Organizer.ParseRule | src/main.py:196-213 | each of `date`, `type` and `type_then_date` names its rule, and every other name is unknown |
| Organizer.NormalizeExtension | src/main.py:191 | the normalised extension; see `Organizer.NormalizeExtensionIsLoweredSuffix` and `Organizer.ExtensionOfName` |
| Organizer.NormalizeExtensionIsLoweredSuffix | src/main.py:190-191 | the normalised extension is the lower-cased text after the extension's dot, or empty; it has no dot, no separator and no upper-case letter |
| Organizer.TypeFolder | src/main.py:199-208 | the type folder is `Otros` for no extension; otherwise it is the extension capitalised: the same length, the first character upper-cased and every later one lower-cased |
| Organizer.TypeFolderIsName | src/main.py:199-208 | the type folder of any file is a non-empty name without separators |
| Organizer.SubFolders | src/main.py:193-213 | the one or two sub-folder names of each rule; see `Organizer.DestinationLayout` |
| Organizer.DestinationDir | src/main.py:215-218 | the destination folder; see `Organizer.DestinationLayout` |
| Organizer.DestinationLayout | src/main.py:196-218 | the destination is `base/date` for `date`, `base/Folder` for `type` and `base/Folder/date` for `type_then_date` |
| Organizer.ExtensionOfName | src/main.py:191 | for a non-empty stem without separators that does not start with a dot, and an `EXT` free of dots and separators, `stem.EXT` normalises to the lower-cased `EXT` |
| Organizer.CsvTypeFolder | src/main.py:201 | the extension `csv` gets the folder `Csv` |
| Organizer.CandidateName | src/main.py:221-226 | the name tried at each counter; see `Organizer.AttemptNames` and `Organizer.CandidateNameInjective` |
| Organizer.Candidate | src/main.py:221-227 | the path tried at each counter; see `Organizer.CandidateInjective` |
| Organizer.CandidateNameInjective | src/main.py:226 | the names `stem(k)ext` for different `k` are all different |
| Organizer.CandidateInjective | src/main.py:225-227 | the attempted paths for different counters are all different |
| Organizer.AttemptNames | src/main.py:221-227 | the attempts are the name itself, then `stem(1)ext`, …, `stem(12)ext`, … |
| Organizer.SecondCopyNumbered | src/main.py:223-228 | a second file `a.txt` goes to `a(1).txt` when that name is free |
| Organizer.FirstFreeUnique | src/main.py:223-228 | there is only one first free attempt |
| Organizer.FreeNameKept | src/main.py:221-225 | a file whose name is free in the destination keeps its name |
| Organizer.NotTriedYet | src/main.py:225-228 | a later attempt is never among those already tried |
| Organizer.TriedExisting | src/main.py:225-228 | every attempt the loop has moved past exists |
| Organizer.CollisionShrinks | src/main.py:225-228 | each taken attempt shrinks the set of existing paths not yet tried, so the loop stops |
| Organizer.FirstFreeAttempt | src/main.py:223-228 | the loop stops at an attempt that does not exist, and every earlier attempt exists |
| Organizer.FirstFreePath | src/main.py:221-228 | the chosen path does not exist and is the first free attempt for the file's name |
| Organizer.OrganizeFile | src/main.py:172-241 | a missing file or an unknown rule gives `None` with nothing changed; otherwise the folders are created, the file moves to the first free name in the rule's folder exactly when the move succeeds, and the new filesystem is stated in full |
| Organizer.PlaceFile | src/main.py:220-240 | after the folders exist, the file is moved to the first free path, or stays where it is when the move fails |
| History.LoadHistory | src/main.py:39-61 | the loaded history is the set of URLs in a stored list, and empty for a missing, corrupt or unreadable file |
| History.LoadOfSaved | src/main.py:64-77 | loading a saved listing of a set gives the set back |
| History.NextRunLoads | src/main.py:336-338 | the next run loads exactly the history this run ended with, whether or not it was saved |
| History.ShouldSave | src/main.py:336 | the save rule; see `History.ShouldSaveIffNew` and `History.NextRunLoads` |
| History.ShouldSaveIffNew | src/main.py:296 | the history grew exactly when it gained a new URL |
| Pipeline.OrganizedLinksMembership | src/main.py:322 | a link is in the added history exactly when some event organized it |
| Pipeline.ProcessLink | src/main.py:312-326 | a link is skipped exactly when it is in the history and downloads are not forced; a skip touches nothing; otherwise the download fails exactly when the URL names no file, or no staged file of that name exists and the transfer does not complete; a downloaded file is organized exactly when the rule is known and the move succeeds; the link joins the history exactly when its file was organized |
| Pipeline.PageLinks | src/main.py:306-308 | the download links of one page; see `Pipeline.FetchDownloadLinks` and `LinkExtractor.FoundOnPage` |
| Pipeline.FetchDownloadLinks | src/main.py:306-308 | a page that cannot be fetched gives no links; otherwise its links are those `find_download_links` returns |
| Pipeline.ProcessNext | src/main.py:312-326 | handling the next link appends its event, keeps the history as loaded plus organized, keeps the skip rule and the agreement of every event with the outside world, and states for the new event what `Pipeline.ProcessLink` states: a skip touches nothing, the download fails exactly when the URL names no file or nothing is staged and the transfer does not complete, the staged path is the staging path of the URL, and a downloaded file is organized exactly when the rule is known and the move succeeds |
| Pipeline.ProcessPage | src/main.py:311-327 | processing one page's links keeps the history as loaded plus organized, adds one event per link in order, keeps the skip rule, and every event agrees with the outside world: organized only under a known rule with a successful move, and organized whenever the link is not skipped, names a file, is fetched completely and moves successfully |
| Pipeline.ProcessTargets | src/main.py:304-334 | the events cover the links of every page in order, the history is the loaded one plus every organized link, skips follow the history, and every event agrees with the outside world |
| Pipeline.Run | src/main.py:278-340 | the run aborts, touching nothing, exactly when there are no targets or no extensions; otherwise the history grows only by organized links, every link appears once per page, skips follow the history, every event agrees with the outside world (organized only under a known rule with a successful move and a URL that names a file, and always when the transfer also completes), and the history is saved exactly when it grew |
| Pipeline.AppendEvent | src/main.py:312-322 | one more link event keeps the skip rule and the history in step |
| Pipeline.AppendOutcome | src/main.py:316-322 | one more event that agrees with the outside world keeps every event in agreement |
| Pipeline.UnknownRuleSavesNothing | src/main.py:211-213 | with an unknown organization rule no link is organized, so the history is never saved |
| Pipeline.SucceedingLinkIsSaved | src/main.py:312-338 | under a known rule, a new link whose URL names a file, whose transfer completes and whose move succeeds gets the history saved |
| Pipeline.ForcedRunSkipsNothing | src/main.py:312 | with downloads forced, no link is skipped |
| Pipeline.UnforcedRunOrganizesOnce | src/main.py:312-322 | without forcing, a link from the loaded history is never organized again, and no link is organized twice in one run |
| Pipeline.SavedIffNewLink | src/main.py:336-338 | the history is saved exactly when some organized link was not in the loaded history |
| Pipeline.SecondRunOrganizesNothingAgain | src/main.py:312-322 | a second run that starts from the first run's history organizes none of the links the first run organized |

## Left out

- HTTP (`requests`), `get_page_content`, and the streaming of a body into a file. A run receives their outcomes as parameters. A page whose content is empty counts as a page that could not be fetched.
- HTML parsing (BeautifulSoup). A page is given as its list of `href` values.
- `urljoin`. It is the parameter `resolve`, so the model proves nothing about how relative references resolve.
- `urlparse` stripping whitespace and control characters, and its errors on malformed IPv6 hosts.
- Case mapping outside ASCII. `lower` and `capitalize` are modelled on ASCII letters only.
- JSON I/O. The history file is given as missing, corrupt, unreadable or a stored list. A valid JSON value that is not a list is not modelled. Write failures of the save are not modelled.
- Loading the configuration file, its defaults, and `argparse`.
- `print`, `time.sleep` and the request delay.
- `datetime.now()`. Every call in one run receives the same date text, so a run that crosses midnight is not modelled.
- The outcomes of page fetches, transfers and moves are functions of the URL and the link, so they are the same every time within one run.
- The filesystem does not tell files from directories, and it does not model path normalisation (`a//b` against `a/b`).
- `os.makedirs` failures. Only the base folder, the first sub-folder and the destination are added; ancestors of a nested base folder are not.
- A move that fails halfway is not modelled: a failed move changes nothing.
- An empty base folder makes `os.makedirs("")` raise in `download_file` and in `main`. `Downloader.DownloadFile` and `Pipeline.ProcessLink` exclude it, and `Pipeline.Run` excludes it whenever it does not abort. `Organizer.OrganizeFile` accepts it, because `os.path.join("", x)` is `x`. An empty date text is not excluded.
- `os.path.join` with more than two parts is modelled as nested two-part joins, as `posixpath` computes it.
- Urls.UrlPathOfWebUrl: states the path only for a lower-case `http` or `https` scheme and a path without `;`. `Urls.UrlPath` does cut `;params` off the last segment (`https://h/a;v` has path `/a`), but no lemma states that case.
- Downloader.FileNameOfWebUrl: states the name only for a lower-case `http` or `https` scheme and a path without `;`. For `https://h/a/;x` the modelled name is empty, but no lemma states that case.
- Pipeline.ProcessLink: states the filesystem change only for a skip, for the base folder, and for the staged and final paths of an organized file. It does not state the full new set of paths.
- Pipeline.ProcessNext: like `Pipeline.ProcessLink`, states the filesystem change only for a skip, for the base folder, and for the staged and final paths of an organized file.
- Pipeline.ProcessPage: states about the filesystem only that the base folder still exists. Whether a failed download was short-circuited by a file staged earlier depends on the filesystem, so it is stated per link in `Pipeline.ProcessLink` only.
- Pipeline.ProcessTargets: states about the filesystem only that the base folder still exists. The events agree with the outside world as in `Pipeline.ProcessPage`.
- Pipeline.Run: states about the filesystem only that nothing changes on an abort and that the base folder exists otherwise. The events agree with the outside world as in `Pipeline.ProcessPage`.
- Downloader.InterruptedDownloadIsReused: states about the filesystem only that no path disappears.
- History.LoadOfSaved: the order in which `list(set)` writes the URLs is not modelled. Any listing of the set is accepted.
