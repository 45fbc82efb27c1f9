/**
 * One run of the downloader (`main` after the configuration is loaded): for
 * every target page, every download link found on it is skipped when the
 * history already holds it (unless downloads are forced), otherwise downloaded
 * into the base folder and organized; a link enters the history only when both
 * steps succeed, and the history is written back only when it grew.
 */
module Pipeline {
  import opened Wrappers
  import opened LinkExtractor
  import opened Downloader
  import opened Organizer
  import opened FileSystems
  import opened History

  /** The settings a run uses. */
  datatype Config = Config(
    targetUrls: seq<string>,
    downloadBaseFolder: string,
    organizationRule: string,
    allowedExtensions: seq<string>)

  /**
   * What the outside world does during a run: the hyperlink targets of each
   * page (None when the page cannot be fetched or is empty), how a reference
   * is resolved against the page URL (`urljoin`), what fetching each link
   * does, whether moving the file downloaded from each link succeeds, and the
   * current date.
   */
  datatype Environment = Environment(
    fetchPage: string -> Option<seq<string>>,
    resolve: (string, string) -> string,
    fetchFile: string -> FetchOutcome,
    moveSucceeds: string -> bool,
    today: string)

  /** What happened to one download link. */
  datatype LinkEvent =
    | Skipped(link: string)
    | DownloadFailed(link: string)
    | OrganizeFailed(link: string, staged: string)
    | Organized(link: string, staged: string, path: string)

  datatype RunResult =
    | Aborted
    | Completed(history: set<string>, saved: bool, events: seq<LinkEvent>)

  /** The download links found on one page. */
  function PageLinks(config: Config, env: Environment, url: string): (links: seq<string>)
  {
    match env.fetchPage(url)
    case None => []
    case Some(hrefs) => Found(ResolveAll(url, hrefs, env.resolve), config.allowedExtensions)
  }

  /** The download links of the pages in `urls`, page after page. */
  function PlannedLinks(config: Config, env: Environment, urls: seq<string>): (links: seq<string>)
  {
    if urls == [] then []
    else PlannedLinks(config, env, urls[..|urls| - 1]) + PageLinks(config, env, urls[|urls| - 1])
  }

  /** The pages up to and including page `i` plan the links of the pages before it, then those of page `i`. */
  lemma PlannedLinksStep(config: Config, env: Environment, urls: seq<string>, i: nat)
    requires i < |urls|
    ensures PlannedLinks(config, env, urls[..i + 1]) ==
      PlannedLinks(config, env, urls[..i]) + PageLinks(config, env, urls[i])
  {
    assert urls[..i + 1][..i] == urls[..i];
  }

  /** The first `j + 1` elements are the first `j` and then element `j`. */
  lemma TakeStep(s: seq<string>, j: nat)
    requires j < |s|
    ensures s[..j + 1] == s[..j] + [s[j]]
  {
  }

  /** The links the events are about, in order. */
  function EventLinks(events: seq<LinkEvent>): (links: seq<string>)
  {
    if events == [] then []
    else EventLinks(events[..|events| - 1]) + [events[|events| - 1].link]
  }

  /** The links that were organized. */
  function OrganizedLinks(events: seq<LinkEvent>): (organized: set<string>)
  {
    if events == [] then {}
    else
      var e := events[|events| - 1];
      OrganizedLinks(events[..|events| - 1]) + if e.Organized? then {e.link} else {}
  }

  /** A link is among the organized ones exactly when some event organized it. */
  lemma {:induction false} OrganizedLinksMembership(events: seq<LinkEvent>)
    ensures forall u :: u in OrganizedLinks(events) <==>
      exists i :: 0 <= i < |events| && events[i].Organized? && events[i].link == u
    decreases |events|
  {
    if events != [] {
      var p := events[..|events| - 1];
      OrganizedLinksMembership(p);
      assert forall i :: 0 <= i < |p| ==> p[i] == events[i];
    }
  }

  /**
   * Every event is a skip exactly when downloads are not forced and the link
   * was in the history at that moment: loaded, or organized earlier in the run.
   */
  predicate SkipsFollowHistory(loaded: set<string>, events: seq<LinkEvent>, force: bool) {
    forall i :: 0 <= i < |events| ==>
      (events[i].Skipped? <==> !force && events[i].link in loaded + OrganizedLinks(events[..i]))
  }

  /**
   * What an event records agrees with the outside world, whatever the
   * filesystem held: a link is organized only when the organization rule is
   * known, its move succeeds and its URL names a file; a downloaded file fails
   * to organize only when the rule is unknown or the move fails; and a link
   * that is not skipped, names a file, is fetched completely and moves
   * successfully under a known rule is organized.
   */
  predicate OutcomeFollows(config: Config, env: Environment, e: LinkEvent) {
    var known := ParseRule(config.organizationRule).Some?;
    && (e.Organized? ==> known && env.moveSucceeds(e.link) && FileName(e.link) != "")
    && (e.OrganizeFailed? ==> FileName(e.link) != "" && !(known && env.moveSucceeds(e.link)))
    && (!e.Skipped? && FileName(e.link) != "" && env.fetchFile(e.link) == Fetched ==> !e.DownloadFailed?)
    && (var succeeds := FileName(e.link) != "" && env.fetchFile(e.link) == Fetched && known && env.moveSucceeds(e.link);
        !e.Skipped? && succeeds ==> e.Organized?)
  }

  /** Every event agrees with the outside world. */
  predicate OutcomesFollow(config: Config, env: Environment, events: seq<LinkEvent>) {
    forall i :: 0 <= i < |events| ==> OutcomeFollows(config, env, events[i])
  }

  /**
   * The handling of one download link in `main`. The history and the
   * filesystem are untouched for a skipped link; the link is added to the
   * history exactly when it was organized. The download fails exactly when
   * the URL names no file, or no file of that name is staged yet and the
   * transfer does not complete; a downloaded file is organized exactly when
   * the rule is known and the move succeeds.
   */
  method ProcessLink(fs: FileSystem, config: Config, env: Environment, force: bool,
                     history: set<string>, link: string)
    returns (history': set<string>, event: LinkEvent)
    requires config.downloadBaseFolder != ""
    modifies fs
    ensures event.link == link
    ensures event.Skipped? <==> link in history && !force
    ensures event.Skipped? ==> fs.paths == old(fs.paths)
    ensures history' == if event.Organized? then history + {link} else history
    ensures config.downloadBaseFolder in old(fs.paths) ==> config.downloadBaseFolder in fs.paths
    ensures event.Organized? ==> event.path in fs.paths && event.staged !in fs.paths
    ensures !event.Skipped? ==>
      (event.DownloadFailed? <==>
        FileName(link) == "" ||
        (StagedPath(config.downloadBaseFolder, link) !in old(fs.paths) && env.fetchFile(link) != Fetched))
    ensures event.OrganizeFailed? || event.Organized? ==> event.staged == StagedPath(config.downloadBaseFolder, link)
    ensures !event.Skipped? && !event.DownloadFailed? ==>
      (event.Organized? <==> ParseRule(config.organizationRule).Some? && env.moveSucceeds(link))
    ensures OutcomeFollows(config, env, event)
  {
    var base := config.downloadBaseFolder;
    if link in history && !force {
      return history, Skipped(link);
    }
    var downloaded := DownloadFile(fs, link, base, env.fetchFile(link));
    if downloaded.None? {
      return history, DownloadFailed(link);
    }
    StagedPathShape(base, FileName(link));
    assert base in fs.paths && downloaded.value != base;
    var organized := OrganizeFile(fs, downloaded.value, base, config.organizationRule, env.today,
                                  env.moveSucceeds(link));
    if organized.None? {
      return history, OrganizeFailed(link, downloaded.value);
    }
    return history + {link}, Organized(link, downloaded.value, organized.value);
  }

  /** Fetch one target page and find its download links; a page that cannot be fetched has none. */
  method FetchDownloadLinks(config: Config, env: Environment, url: string) returns (links: seq<string>)
    ensures links == PageLinks(config, env, url)
  {
    links := [];
    var page := env.fetchPage(url);
    if page.Some? {
      links := FindDownloadLinks(page.value, url, env.resolve, config.allowedExtensions);
    }
  }

  /**
   * One run of `main` from the loaded configuration on. `stored` is what the
   * history file holds; the result says what the history became, whether it
   * was written back, and what happened to every link.
   */
  method Run(fs: FileSystem, config: Config, env: Environment, force: bool, stored: StoredHistory)
    returns (result: RunResult)
    requires config.targetUrls != [] && config.allowedExtensions != [] ==> config.downloadBaseFolder != ""
    modifies fs
    ensures result.Aborted? <==> config.targetUrls == [] || config.allowedExtensions == []
    ensures result.Aborted? ==> fs.paths == old(fs.paths)
    ensures result.Completed? ==>
      && LoadHistory(stored) <= result.history
      && result.history == LoadHistory(stored) + OrganizedLinks(result.events)
      && (result.saved <==> ShouldSave(LoadHistory(stored), result.history))
      && EventLinks(result.events) == PlannedLinks(config, env, config.targetUrls)
      && SkipsFollowHistory(LoadHistory(stored), result.events, force)
      && OutcomesFollow(config, env, result.events)
      && config.downloadBaseFolder in fs.paths
  {
    if config.targetUrls == [] || config.allowedExtensions == [] {
      return Aborted;
    }
    var base := config.downloadBaseFolder;
    fs.MakeDirs(base);
    var loaded := LoadHistory(stored);
    var initialCount := |loaded|;
    var history, events := ProcessTargets(fs, config, env, force, loaded);
    var saved := |history| > initialCount;
    result := Completed(history, saved, events);
  }

  /** The outer loop of `main`: every target page, in order. */
  method ProcessTargets(fs: FileSystem, config: Config, env: Environment, force: bool, loaded: set<string>)
    returns (history: set<string>, events: seq<LinkEvent>)
    requires config.downloadBaseFolder != "" && config.downloadBaseFolder in fs.paths
    modifies fs
    ensures history == loaded + OrganizedLinks(events)
    ensures EventLinks(events) == PlannedLinks(config, env, config.targetUrls)
    ensures SkipsFollowHistory(loaded, events, force)
    ensures OutcomesFollow(config, env, events)
    ensures config.downloadBaseFolder in fs.paths
  {
    history, events := loaded, [];
    var i := 0;
    while i < |config.targetUrls|
      invariant 0 <= i <= |config.targetUrls|
      invariant history == loaded + OrganizedLinks(events)
      invariant EventLinks(events) == PlannedLinks(config, env, config.targetUrls[..i])
      invariant SkipsFollowHistory(loaded, events, force)
      invariant OutcomesFollow(config, env, events)
      invariant config.downloadBaseFolder in fs.paths
    {
      var url := config.targetUrls[i];
      var links := FetchDownloadLinks(config, env, url);
      ghost var planned := EventLinks(events) + links;
      PlannedLinksStep(config, env, config.targetUrls, i);
      assert planned == PlannedLinks(config, env, config.targetUrls[..i + 1]);
      history, events := ProcessPage(fs, config, env, force, loaded, history, events, links);
      assert EventLinks(events) == planned;
      i := i + 1;
    }
    assert config.targetUrls[..i] == config.targetUrls;
  }

  /** The inner loop of `main`: every download link of one page, in order. */
  method ProcessPage(fs: FileSystem, config: Config, env: Environment, force: bool, loaded: set<string>,
                     history: set<string>, events: seq<LinkEvent>, links: seq<string>)
    returns (history': set<string>, events': seq<LinkEvent>)
    requires config.downloadBaseFolder != "" && config.downloadBaseFolder in fs.paths
    requires history == loaded + OrganizedLinks(events)
    requires SkipsFollowHistory(loaded, events, force)
    requires OutcomesFollow(config, env, events)
    modifies fs
    ensures history' == loaded + OrganizedLinks(events')
    ensures EventLinks(events') == EventLinks(events) + links
    ensures SkipsFollowHistory(loaded, events', force)
    ensures OutcomesFollow(config, env, events')
    ensures config.downloadBaseFolder in fs.paths
  {
    history', events' := history, events;
    var j := 0;
    while j < |links|
      invariant 0 <= j <= |links|
      invariant history' == loaded + OrganizedLinks(events')
      invariant EventLinks(events') == EventLinks(events) + links[..j]
      invariant SkipsFollowHistory(loaded, events', force)
      invariant OutcomesFollow(config, env, events')
      invariant config.downloadBaseFolder in fs.paths
    {
      TakeStep(links, j);
      ghost var next := EventLinks(events) + links[..j + 1];
      assert next == EventLinks(events') + [links[j]];
      var event;
      history', event, events' := ProcessNext(fs, config, env, force, loaded, history', events', links[j]);
      assert EventLinks(events') == next;
      j := j + 1;
    }
    assert links[..j] == links;
  }

  /** One pass of the inner loop: handle the next link and record its event. */
  method ProcessNext(fs: FileSystem, config: Config, env: Environment, force: bool, loaded: set<string>,
                     history: set<string>, events: seq<LinkEvent>, link: string)
    returns (history': set<string>, event: LinkEvent, events': seq<LinkEvent>)
    requires config.downloadBaseFolder != "" && config.downloadBaseFolder in fs.paths
    requires history == loaded + OrganizedLinks(events)
    requires SkipsFollowHistory(loaded, events, force)
    requires OutcomesFollow(config, env, events)
    modifies fs
    ensures events' == events + [event]
    ensures history' == loaded + OrganizedLinks(events')
    ensures EventLinks(events') == EventLinks(events) + [link]
    ensures SkipsFollowHistory(loaded, events', force)
    ensures OutcomesFollow(config, env, events')
    ensures config.downloadBaseFolder in fs.paths
    ensures event.link == link
    ensures event.Skipped? ==> fs.paths == old(fs.paths)
    ensures event.Organized? ==> event.path in fs.paths && event.staged !in fs.paths
    ensures !event.Skipped? ==>
      (event.DownloadFailed? <==>
        FileName(link) == "" ||
        (StagedPath(config.downloadBaseFolder, link) !in old(fs.paths) && env.fetchFile(link) != Fetched))
    ensures event.OrganizeFailed? || event.Organized? ==> event.staged == StagedPath(config.downloadBaseFolder, link)
    ensures !event.Skipped? && !event.DownloadFailed? ==>
      (event.Organized? <==> ParseRule(config.organizationRule).Some? && env.moveSucceeds(link))
  {
    history', event := ProcessLink(fs, config, env, force, history, link);
    AppendEvent(loaded, events, event, force);
    AppendOutcome(config, env, events, event);
    events' := events + [event];
  }

  /** Appending the event of the next link keeps the skip rule and the history in step. */
  lemma AppendEvent(loaded: set<string>, events: seq<LinkEvent>, event: LinkEvent, force: bool)
    requires SkipsFollowHistory(loaded, events, force)
    requires event.Skipped? <==> !force && event.link in loaded + OrganizedLinks(events)
    ensures SkipsFollowHistory(loaded, events + [event], force)
    ensures OrganizedLinks(events + [event]) ==
      OrganizedLinks(events) + if event.Organized? then {event.link} else {}
    ensures EventLinks(events + [event]) == EventLinks(events) + [event.link]
  {
    var all := events + [event];
    assert all[..|events|] == events;
    forall i | 0 <= i < |events| ensures all[..i] == events[..i] {
    }
  }

  /** Appending an event that agrees with the outside world keeps every event in agreement. */
  lemma AppendOutcome(config: Config, env: Environment, events: seq<LinkEvent>, event: LinkEvent)
    requires OutcomesFollow(config, env, events) && OutcomeFollows(config, env, event)
    ensures OutcomesFollow(config, env, events + [event])
  {
    var all := events + [event];
    assert forall i :: 0 <= i < |events| ==> all[i] == events[i];
  }

  /** With downloads forced no link is ever skipped. */
  lemma ForcedRunSkipsNothing(loaded: set<string>, events: seq<LinkEvent>)
    requires SkipsFollowHistory(loaded, events, true)
    ensures forall i :: 0 <= i < |events| ==> !events[i].Skipped?
  {
  }

  /**
   * Without forcing, a link from the loaded history is never organized again,
   * and no link is organized twice in one run.
   */
  lemma UnforcedRunOrganizesOnce(loaded: set<string>, events: seq<LinkEvent>)
    requires SkipsFollowHistory(loaded, events, false)
    ensures forall i :: 0 <= i < |events| && events[i].Organized? ==> events[i].link !in loaded
    ensures forall i, j :: 0 <= i < j < |events| && events[i].Organized? && events[j].Organized? ==>
      events[i].link != events[j].link
  {
    forall i, j | 0 <= i < j < |events| && events[i].Organized? && events[j].Organized?
      ensures events[i].link != events[j].link
    {
      var earlier := events[..j];
      assert earlier[i] == events[i];
      OrganizedLinksMembership(earlier);
      assert events[i].link in OrganizedLinks(earlier);
    }
  }

  /** The history grew, and so is saved, exactly when some link outside the loaded history was organized. */
  lemma SavedIffNewLink(loaded: set<string>, events: seq<LinkEvent>)
    ensures ShouldSave(loaded, loaded + OrganizedLinks(events)) <==>
      exists i :: 0 <= i < |events| && events[i].Organized? && events[i].link !in loaded
  {
    ShouldSaveIffNew(loaded, loaded + OrganizedLinks(events));
    OrganizedLinksMembership(events);
    if exists i :: 0 <= i < |events| && events[i].Organized? && events[i].link !in loaded {
      var i :| 0 <= i < |events| && events[i].Organized? && events[i].link !in loaded;
      assert events[i].link in (loaded + OrganizedLinks(events)) - loaded;
    }
  }

  /**
   * Two runs in a row without forcing, the second starting from the history
   * the first ended with, never organize the same link twice.
   */
  lemma SecondRunOrganizesNothingAgain(loaded: set<string>, first: seq<LinkEvent>, second: seq<LinkEvent>)
    requires SkipsFollowHistory(loaded + OrganizedLinks(first), second, false)
    ensures forall i, j :: 0 <= i < |first| && 0 <= j < |second| && first[i].Organized? && second[j].Organized? ==>
      first[i].link != second[j].link
  {
    UnforcedRunOrganizesOnce(loaded + OrganizedLinks(first), second);
    OrganizedLinksMembership(first);
  }

  /** With an unknown organization rule nothing is organized, so the history is never saved. */
  lemma UnknownRuleSavesNothing(config: Config, env: Environment, loaded: set<string>, events: seq<LinkEvent>)
    requires ParseRule(config.organizationRule).None?
    requires OutcomesFollow(config, env, events)
    ensures OrganizedLinks(events) == {}
    ensures !ShouldSave(loaded, loaded + OrganizedLinks(events))
  {
    OrganizedLinksMembership(events);
    assert forall i :: 0 <= i < |events| ==> !events[i].Organized?;
    assert loaded + OrganizedLinks(events) == loaded;
  }

  /**
   * Under a known rule, a link outside the loaded history whose URL names a
   * file, whose transfer completes and whose move succeeds gets the history
   * saved: it is organized, or it was skipped only because the run had
   * organized it already.
   */
  lemma SucceedingLinkIsSaved(config: Config, env: Environment, loaded: set<string>, events: seq<LinkEvent>,
                              force: bool, i: nat)
    requires SkipsFollowHistory(loaded, events, force) && OutcomesFollow(config, env, events)
    requires ParseRule(config.organizationRule).Some?
    requires i < |events| && events[i].link !in loaded
    requires FileName(events[i].link) != "" && env.fetchFile(events[i].link) == Fetched
    requires env.moveSucceeds(events[i].link)
    ensures ShouldSave(loaded, loaded + OrganizedLinks(events))
  {
    SavedIffNewLink(loaded, events);
    var u := events[i].link;
    assert OutcomeFollows(config, env, events[i]);
    if events[i].Skipped? {
      var earlier := events[..i];
      assert u in OrganizedLinks(earlier);
      OrganizedLinksMembership(earlier);
      var j :| 0 <= j < |earlier| && earlier[j].Organized? && earlier[j].link == u;
      assert events[j] == earlier[j];
    }
  }
}
