/**
 * The download history: the set of link URLs that were downloaded and
 * organized in earlier runs, kept in a JSON file as a list.
 */
module History {

  /**
   * What the history file holds when a run starts: no file, a file that is not
   * valid JSON, a file that cannot be read, or a JSON list of URLs.
   */
  datatype StoredHistory = Missing | Corrupt | Unreadable | Stored(urls: seq<string>)

  /** `load_download_history`: the URLs of a stored list, and nothing in every other case. */
  function LoadHistory(stored: StoredHistory): (h: set<string>)
    ensures stored.Stored? ==> forall u :: u in h <==> u in stored.urls
    ensures !stored.Stored? ==> h == {}
  {
    if stored.Stored? then set u | u in stored.urls else {}
  }

  /** Saving writes some listing of the set; loading that file gives the same set back. */
  lemma LoadOfSaved(h: set<string>, listing: seq<string>)
    requires forall u :: u in listing <==> u in h
    ensures LoadHistory(Stored(listing)) == h
  {
  }

  /** The history is written back only when it has more entries than it had at load time. */
  predicate ShouldSave(loaded: set<string>, current: set<string>) {
    |current| > |loaded|
  }

  /**
   * What the next run loads is the history this run ended with: the saved
   * listing when the history grew, and the untouched file otherwise.
   */
  lemma NextRunLoads(stored: StoredHistory, history: set<string>, listing: seq<string>)
    requires LoadHistory(stored) <= history
    requires forall u :: u in listing <==> u in history
    ensures LoadHistory(if ShouldSave(LoadHistory(stored), history) then Stored(listing) else stored) == history
  {
    var loaded := LoadHistory(stored);
    ShouldSaveIffNew(loaded, history);
    if ShouldSave(loaded, history) {
      LoadOfSaved(history, listing);
    } else {
      forall u | u in history
        ensures u in loaded
      {
        assert u !in history - loaded;
      }
    }
  }

  /** A history that only ever gained entries has grown exactly when some entry is new. */
  lemma ShouldSaveIffNew(loaded: set<string>, current: set<string>)
    requires loaded <= current
    ensures ShouldSave(loaded, current) <==> current - loaded != {}
  {
    var added := current - loaded;
    assert current == loaded + added;
    assert loaded * added == {};
    assert |loaded + added| + |loaded * added| == |loaded| + |added|;
  }
}
