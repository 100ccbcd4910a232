/** What FilterBookmarks promises, proved of its specification `Sync.Filter`
    (which the method `Sync.FilterBookmarks` is proved to compute). */
module FilterProperties {
  import opened FFSync
  import opened Models
  import opened Sync

  /** The positions of `bookmarks` whose parent folder is `folderName`, in increasing order. */
  function MatchingPositions(bookmarks: seq<BookmarkRecord>, folderName: string): (idx: seq<nat>)
    ensures forall k :: 0 <= k < |idx| ==> idx[k] < |bookmarks|
    ensures forall k, l :: 0 <= k < l < |idx| ==> idx[k] < idx[l]
    ensures forall j :: 0 <= j < |bookmarks| ==> (j in idx <==> bookmarks[j].parentName == folderName)
    decreases |bookmarks|
  {
    if bookmarks == [] then []
    else
      var last := |bookmarks| - 1;
      var front := MatchingPositions(bookmarks[..last], folderName);
      assert forall j :: 0 <= j < last ==> bookmarks[..last][j] == bookmarks[j];
      if bookmarks[last].parentName == folderName then front + [last] else front
  }

  /** Filter keeps exactly the records at the matching positions, in input order:
      it is the order-preserving subsequence of the records whose parent folder is
      named `folderName` (exact, case-sensitive string equality). */
  lemma {:induction false} FilterIsMatchingSubsequence(bookmarks: seq<BookmarkRecord>, folderName: string)
    ensures var r := Filter(bookmarks, folderName);
      var idx := MatchingPositions(bookmarks, folderName);
      && |r| == |idx|
      && forall k :: 0 <= k < |r| ==> r[k] == bookmarks[idx[k]]
    decreases |bookmarks|
  {
    if bookmarks != [] {
      var last := |bookmarks| - 1;
      var front := bookmarks[..last];
      assert bookmarks == front + [bookmarks[last]];
      FilterConcat(front, [bookmarks[last]], folderName);
      FilterIsMatchingSubsequence(front, folderName);
      assert Filter([bookmarks[last]], folderName)
        == if bookmarks[last].parentName == folderName then [bookmarks[last]] else [];
    }
  }

  /** Every record Filter returns comes from the input and lies in the folder. */
  lemma FilterSound(bookmarks: seq<BookmarkRecord>, folderName: string)
    ensures forall b :: b in Filter(bookmarks, folderName) ==> b in bookmarks && b.parentName == folderName
  {
    var r := Filter(bookmarks, folderName);
    FilterIsMatchingSubsequence(bookmarks, folderName);
    var idx := MatchingPositions(bookmarks, folderName);
    forall b | b in r ensures b in bookmarks && b.parentName == folderName {
      var k :| 0 <= k < |r| && r[k] == b;
      assert idx[k] in idx;
    }
  }

  /** Filter loses no record of the folder: each occurs in the output exactly as
      often as in the input, and every other record not at all. */
  lemma {:induction false} FilterMultiplicity(bookmarks: seq<BookmarkRecord>, folderName: string)
    ensures forall b :: multiset(Filter(bookmarks, folderName))[b]
                        == if b.parentName == folderName then multiset(bookmarks)[b] else 0
    decreases |bookmarks|
  {
    if bookmarks != [] {
      FilterMultiplicity(bookmarks[1..], folderName);
      assert bookmarks == [bookmarks[0]] + bookmarks[1..];
      assert multiset(bookmarks) == multiset([bookmarks[0]]) + multiset(bookmarks[1..]);
    }
  }

  /** Filter never lengthens its input. */
  lemma {:induction false} FilterNoLonger(bookmarks: seq<BookmarkRecord>, folderName: string)
    ensures |Filter(bookmarks, folderName)| <= |bookmarks|
    ensures |Filter(bookmarks, folderName)| == |bookmarks| <==> forall b :: b in bookmarks ==> b.parentName == folderName
    decreases |bookmarks|
  {
    if bookmarks != [] {
      FilterNoLonger(bookmarks[1..], folderName);
      assert forall b :: b in bookmarks <==> b == bookmarks[0] || b in bookmarks[1..];
    }
  }

  /** With no record in the folder the result is empty (an empty slice, not an
      error); with every record in it, the result is the input. */
  lemma FilterEmptyOrWhole(bookmarks: seq<BookmarkRecord>, folderName: string)
    ensures (forall b :: b in bookmarks ==> b.parentName != folderName) ==> Filter(bookmarks, folderName) == []
    ensures (forall b :: b in bookmarks ==> b.parentName == folderName) ==> Filter(bookmarks, folderName) == bookmarks
  {
    if forall b :: b in bookmarks ==> b.parentName != folderName {
      EmptyWhenNoneMatch(bookmarks, folderName);
    }
    if forall b :: b in bookmarks ==> b.parentName == folderName {
      WholeWhenAllMatch(bookmarks, folderName);
    }
  }

  lemma {:induction false} EmptyWhenNoneMatch(bookmarks: seq<BookmarkRecord>, folderName: string)
    requires forall b :: b in bookmarks ==> b.parentName != folderName
    ensures Filter(bookmarks, folderName) == []
    decreases |bookmarks|
  {
    if bookmarks != [] {
      assert bookmarks[0] in bookmarks;
      EmptyWhenNoneMatch(bookmarks[1..], folderName);
    }
  }

  lemma {:induction false} WholeWhenAllMatch(bookmarks: seq<BookmarkRecord>, folderName: string)
    requires forall b :: b in bookmarks ==> b.parentName == folderName
    ensures Filter(bookmarks, folderName) == bookmarks
    decreases |bookmarks|
  {
    if bookmarks != [] {
      assert bookmarks[0] in bookmarks;
      WholeWhenAllMatch(bookmarks[1..], folderName);
    }
  }

  /** Filtering twice by the same folder is filtering once. */
  lemma FilterIdempotent(bookmarks: seq<BookmarkRecord>, folderName: string)
    ensures Filter(Filter(bookmarks, folderName), folderName) == Filter(bookmarks, folderName)
  {
    FilterSound(bookmarks, folderName);
    WholeWhenAllMatch(Filter(bookmarks, folderName), folderName);
  }

  /** Records [{A, X}, {B, Y}, {C, X}] filtered by "X" give [{A, X}, {C, X}]. */
  lemma FilterExample()
    ensures var a := BookmarkRecord("A", "https://a.example", None, "X");
      var b := BookmarkRecord("B", "https://b.example", None, "Y");
      var c := BookmarkRecord("C", "https://c.example", None, "X");
      Filter([a, b, c], "X") == [a, c]
  {
    var a := BookmarkRecord("A", "https://a.example", None, "X");
    var b := BookmarkRecord("B", "https://b.example", None, "Y");
    var c := BookmarkRecord("C", "https://c.example", None, "X");
    assert "Y" != "X" by { assert "Y"[0] != "X"[0]; }
    assert [c][1..] == [];
    assert Filter([c], "X") == [c];
    assert [b, c][1..] == [c];
    assert Filter([b, c], "X") == [c];
    assert [a, b, c][1..] == [b, c];
  }
}
