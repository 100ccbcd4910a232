/** What GetBookmarks promises, proved of its specification
    `SyncClient.GetBookmarksRun` (which the method `SyncClient.GetBookmarks` is
    proved to compute). */
module BookmarksProperties {
  import opened FFSync
  import opened Models
  import opened Sync

  /** A session that cannot be loaded ends the request at once with a "failed to
      load session" error wrapping the cause: no refresh and no listing. */
  lemma LoadFailureStopsRequest(sc: SyncClient, e: Error)
    requires sc.store.load(sc.sessionFilePath) == Fail(e)
    ensures var (outcome, trace) := sc.GetBookmarksRun();
      && outcome == Err(Wrapped("failed to load session", e))
      && Message(outcome.error) == "failed to load session: " + Message(e)
      && trace == [LoadSession(sc.sessionFilePath)]
  {
  }

  /** A refresh that fails ends the request with a wrapped "failed to refresh
      session" error, before any listing. */
  lemma RefreshFailureSkipsListing(sc: SyncClient, loaded: SyncSession, e: Error)
    requires sc.store.load(sc.sessionFilePath) == Success(loaded)
    requires sc.client.refreshSession(loaded, false) == Fail(e)
    ensures var (outcome, trace) := sc.GetBookmarksRun();
      && outcome == Err(Wrapped("failed to refresh session", e))
      && Message(outcome.error) == "failed to refresh session: " + Message(e)
      && trace == [LoadSession(sc.sessionFilePath), RefreshSession(loaded, false)]
  {
  }

  /** Every request loads the session file first; whatever it lists, it lists from
      the "bookmarks" collection with the session the refresh returned, never with
      the one read from disk; and it lists at most once. */
  lemma ListingUsesRefreshedSession(sc: SyncClient)
    ensures var (outcome, trace) := sc.GetBookmarksRun();
      && 1 <= |trace| <= 4
      && trace[0] == LoadSession(sc.sessionFilePath)
      && (|trace| > 1 ==> sc.store.load(sc.sessionFilePath).Success?
                          && trace[1] == RefreshSession(sc.store.load(sc.sessionFilePath).value, false))
      && (forall i :: 0 <= i < |trace| && trace[i].ListRecords? ==>
            && i == 2
            && trace[i].collection == "bookmarks"
            && sc.client.refreshSession(trace[1].loaded, false).Success?
            && trace[i].refreshed == sc.client.refreshSession(trace[1].loaded, false).value.0)
  {
  }

  /** A request returns bookmarks exactly when the load, the refresh, the listing
      and the decoding all succeed; it then returns the decoded records of that
      listing, one per listed record and in listing order. */
  lemma BookmarksFollowListing(sc: SyncClient)
    ensures var (outcome, trace) := sc.GetBookmarksRun();
      && (outcome.Ok? <==> forall i :: 0 <= i < |trace| ==> sc.CallError(trace[i]).None?)
      && (outcome.Ok? ==>
            && |trace| == 4
            && trace[2].ListRecords?
            && trace[3] == DecodeRecords(trace[3].records)
            && sc.client.listRecords(trace[2].refreshed, trace[2].collection) == Success(trace[3].records)
            && |outcome.value| == |trace[3].records|
            && forall i :: 0 <= i < |outcome.value| ==> sc.decode(trace[3].records[i]) == Success(outcome.value[i]))
  {
    var (outcome, trace) := sc.GetBookmarksRun();
    if outcome.Ok? {
      var records := trace[3].records;
      assert UnmarshalBookmarks(sc.decode, records) == Success(outcome.value);
    } else {
      RequestFailureKinds(sc);
      assert sc.CallError(trace[|trace| - 1]).Some?;
    }
  }

  /** How a request fails: every call but the last one succeeded; an error is the
      last call's error under the context of its step ("failed to load session",
      "failed to refresh session", "failed to get bookmarks"); a listing that cannot
      be decoded ends the process with status 1 instead. */
  lemma RequestFailureKinds(sc: SyncClient)
    ensures var (outcome, trace) := sc.GetBookmarksRun();
      && (forall i :: 0 <= i < |trace| - 1 ==> sc.CallError(trace[i]).None?)
      && (outcome.Err? ==>
            && outcome.error.Wrapped?
            && |trace| <= 3
            && sc.CallError(trace[|trace| - 1]) == Some(outcome.error.cause)
            && outcome.error.context
               == ["failed to load session", "failed to refresh session", "failed to get bookmarks"][|trace| - 1])
      && (outcome.Exit? ==>
            && outcome.status == 1
            && |trace| == 4
            && trace[3].DecodeRecords?
            && sc.CallError(trace[3]).Some?)
  {
  }
}
