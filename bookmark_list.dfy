/** The bookmark list component: an in-memory list of bookmarks and a
    `loading` flag, changed by completed fetches and by the store's change
    feed. The list transforms are pure functions; `ListState` holds the two
    state cells and has one method per input. */
module BookmarkList {
  import opened Records

  /** One `postgres_changes` payload as delivered: its event type, the new
      row and the old row's identifier. For a DELETE the new row is empty and
      is never read, so any value may stand for it. */
  datatype ChangePayload = ChangePayload(eventType: string, newRow: Bookmark, oldId: string)

  /** A payload by what the handler does with it. A deletion carries only the
      old row's identifier; any other event type is kept so the model can say
      what happens to it. */
  datatype ChangeEvent =
    | Inserted(row: Bookmark)
    | Deleted(oldId: string)
    | Updated(row: Bookmark)
    | Unrecognised(eventType: string)

  /** The handler's test of `eventType`: the three known strings select the
      part of the payload each branch reads, and only another string is
      unrecognised. */
  function Decode(p: ChangePayload): (e: ChangeEvent)
    ensures p.eventType == "INSERT" <==> e == Inserted(p.newRow)
    ensures p.eventType == "DELETE" <==> e == Deleted(p.oldId)
    ensures p.eventType == "UPDATE" <==> e == Updated(p.newRow)
    ensures e.Unrecognised? <==> p.eventType !in {"INSERT", "DELETE", "UPDATE"}
    ensures e.Unrecognised? ==> e.eventType == p.eventType
  {
    if p.eventType == "INSERT" then Inserted(p.newRow)
    else if p.eventType == "DELETE" then Deleted(p.oldId)
    else if p.eventType == "UPDATE" then Updated(p.newRow)
    else Unrecognised(p.eventType)
  }

  /** How the list query came back: `data` may be null on success. */
  datatype FetchResult = Fetched(data: Option<seq<Bookmark>>) | FetchFailed(message: string)

  /** INSERT: the new row goes in front, whatever the list already holds. */
  function Prepend(list: seq<Bookmark>, row: Bookmark): (r: seq<Bookmark>)
    ensures |r| == |list| + 1
    ensures r[0] == row && r[1..] == list
    ensures Ids(r) == Ids(list) + {row.id}
  {
    [row] + list
  }

  /** DELETE: the entries whose identifier differs from `id`, in order. */
  function RemoveById(list: seq<Bookmark>, id: string): (r: seq<Bookmark>)
    ensures IsSubsequence(r, list)
    ensures forall b :: multiset(r)[b] == if b.id == id then 0 else multiset(list)[b]
  {
    if list == [] then []
    else if list[0].id != id then
      var rest := RemoveById(list[1..], id);
      assert list == [list[0]] + list[1..];
      [list[0]] + rest
    else
      assert list == [list[0]] + list[1..];
      RemoveById(list[1..], id)
  }

  /** UPDATE: every entry carrying the row's identifier becomes the row. */
  function ReplaceById(list: seq<Bookmark>, row: Bookmark): (r: seq<Bookmark>)
    ensures |r| == |list|
    ensures forall i :: 0 <= i < |list| ==> r[i] == if list[i].id == row.id then row else list[i]
  {
    if list == [] then []
    else [if list[0].id == row.id then row else list[0]] + ReplaceById(list[1..], row)
  }

  /** The change-feed handler: one event applied to the current list. */
  function ApplyEvent(list: seq<Bookmark>, e: ChangeEvent): (r: seq<Bookmark>)
    ensures e.Inserted? ==> |r| == |list| + 1 && r[0] == e.row && r[1..] == list
    ensures e.Deleted? ==> IsSubsequence(r, list) && Ids(r) == Ids(list) - {e.oldId}
    ensures e.Deleted? ==> forall b :: multiset(r)[b] == if b.id == e.oldId then 0 else multiset(list)[b]
    ensures e.Updated? ==> |r| == |list| && Ids(r) == Ids(list)
    ensures e.Updated? ==>
              forall i :: 0 <= i < |list| ==> r[i] == if list[i].id == e.row.id then e.row else list[i]
    ensures e.Unrecognised? ==> r == list
  {
    match e
    case Inserted(row) => Prepend(list, row)
    case Deleted(id) => RemoveIds(list, id); RemoveById(list, id)
    case Updated(row) => UpdatePreservesIds(list, row); ReplaceById(list, row)
    case Unrecognised(_) => list
  }

  /** The list a completed fetch leaves behind. */
  function AfterFetch(list: seq<Bookmark>, result: FetchResult): (r: seq<Bookmark>)
    ensures result.FetchFailed? ==> r == list
    ensures result == Fetched(None) ==> r == []
    ensures result.Fetched? && result.data.Some? ==> r == result.data.value
  {
    match result
    case FetchFailed(_) => list
    case Fetched(None) => []
    case Fetched(Some(rows)) => rows
  }

  // ---------------------------------------------------------------------
  // Properties of the transforms

  /** There is no duplicate check: inserting a present identifier repeats it. */
  lemma InsertKeepsUniqueIff(list: seq<Bookmark>, row: Bookmark)
    ensures UniqueIds(Prepend(list, row)) <==> UniqueIds(list) && row.id !in Ids(list)
  {
    var r := Prepend(list, row);
    if UniqueIds(r) {
      forall i, j | 0 <= i < j < |list| ensures DifferentIds(list[i], list[j]) {
        assert list[i] == r[i + 1] && list[j] == r[j + 1];
      }
      forall b | b in list ensures b.id != row.id {
        var k :| 0 <= k < |list| && list[k] == b;
        assert r[k + 1] == b && DifferentIds(r[0], r[k + 1]);
      }
    }
    if UniqueIds(list) && row.id !in Ids(list) {
      forall i, j | 0 <= i < j < |r| ensures DifferentIds(r[i], r[j]) {
        if i == 0 {
          assert r[j] == list[j - 1] && r[j] in list;
        } else {
          assert r[i] == list[i - 1] && r[j] == list[j - 1];
        }
      }
    }
  }

  /** Inserting the same row twice is not the same as inserting it once. */
  lemma InsertNotIdempotent(list: seq<Bookmark>, row: Bookmark)
    ensures Prepend(Prepend(list, row), row) != Prepend(list, row)
    ensures !UniqueIds(Prepend(Prepend(list, row), row))
  {
    var r := Prepend(Prepend(list, row), row);
    assert |r| != |Prepend(list, row)|;
    assert r[0] == row && r[1] == row;
    assert !DifferentIds(r[0], r[1]);
  }

  /** An inserted row keeps a list in an order only if it belongs in front. */
  lemma InsertKeepsOrderIff(rel: (Bookmark, Bookmark) -> bool, list: seq<Bookmark>, row: Bookmark)
    ensures Pairwise(rel, Prepend(list, row)) <==>
            Pairwise(rel, list) && forall k :: 0 <= k < |list| ==> rel(row, list[k])
  {
    var r := Prepend(list, row);
    if Pairwise(rel, r) {
      forall i, j | 0 <= i < j < |list| ensures rel(list[i], list[j]) {
        assert list[i] == r[i + 1] && list[j] == r[j + 1];
      }
      forall k | 0 <= k < |list| ensures rel(row, list[k]) {
        assert r[k + 1] == list[k];
      }
    }
    if Pairwise(rel, list) && forall k :: 0 <= k < |list| ==> rel(row, list[k]) {
      forall i, j | 0 <= i < j < |r| ensures rel(r[i], r[j]) {
        if i == 0 {
          assert r[j] == list[j - 1];
        } else {
          assert r[i] == list[i - 1] && r[j] == list[j - 1];
        }
      }
    }
  }

  /** DELETE removes exactly the identifier it names. */
  lemma RemoveIds(list: seq<Bookmark>, id: string)
    ensures Ids(RemoveById(list, id)) == Ids(list) - {id}
  {
    var r := RemoveById(list, id);
    forall x | x in Ids(r) ensures x in Ids(list) - {id} {
      var b :| b in r && b.id == x;
      assert multiset(r)[b] > 0;
    }
    forall x | x in Ids(list) - {id} ensures x in Ids(r) {
      var b :| b in list && b.id == x;
      assert multiset(r)[b] > 0;
    }
  }

  /** DELETE of an identifier the list does not hold changes nothing. */
  lemma {:induction false} RemoveAbsent(list: seq<Bookmark>, id: string)
    requires id !in Ids(list)
    ensures RemoveById(list, id) == list
  {
    if list != [] {
      assert list[0] in list;
      assert Ids(list[1..]) <= Ids(list) by {
        forall x | x in Ids(list[1..]) ensures x in Ids(list) {
          var b :| b in list[1..] && b.id == x;
          assert b in list;
        }
      }
      RemoveAbsent(list[1..], id);
      assert list == [list[0]] + list[1..];
    }
  }

  /** DELETE applied twice is DELETE applied once. */
  lemma RemoveIdempotent(list: seq<Bookmark>, id: string)
    ensures RemoveById(RemoveById(list, id), id) == RemoveById(list, id)
  {
    RemoveAbsent(RemoveById(list, id), id);
  }

  /** Two deletions reach the same list in either order. */
  lemma {:induction false} RemoveCommutes(list: seq<Bookmark>, a: string, b: string)
    ensures RemoveById(RemoveById(list, a), b) == RemoveById(RemoveById(list, b), a)
  {
    if list != [] {
      RemoveCommutes(list[1..], a, b);
    }
  }

  /** DELETE keeps every pairwise relation the list had, in particular the
      newest-first order the store returned and the uniqueness of identifiers. */
  lemma RemoveKeepsPairwise(rel: (Bookmark, Bookmark) -> bool, list: seq<Bookmark>, id: string)
    requires Pairwise(rel, list)
    ensures Pairwise(rel, RemoveById(list, id))
  {
    SubsequencePairwise(rel, RemoveById(list, id), list);
  }

  /** UPDATE neither adds nor drops an identifier. */
  lemma UpdatePreservesIds(list: seq<Bookmark>, row: Bookmark)
    ensures Ids(ReplaceById(list, row)) == Ids(list)
  {
    var r := ReplaceById(list, row);
    forall x | x in Ids(r) ensures x in Ids(list) {
      var b :| b in r && b.id == x;
      var k :| 0 <= k < |r| && r[k] == b;
      assert list[k] in list;
    }
    forall x | x in Ids(list) ensures x in Ids(r) {
      var b :| b in list && b.id == x;
      var k :| 0 <= k < |list| && list[k] == b;
      assert r[k] in r;
    }
  }

  /** UPDATE of an identifier the list does not hold changes nothing. */
  lemma UpdateAbsent(list: seq<Bookmark>, row: Bookmark)
    requires row.id !in Ids(list)
    ensures ReplaceById(list, row) == list
  {
    var r := ReplaceById(list, row);
    forall k | 0 <= k < |list| ensures r[k] == list[k] {
      assert list[k] in list;
    }
  }

  /** A later UPDATE of the same identifier supersedes an earlier one; in
      particular UPDATE applied twice is UPDATE applied once. */
  lemma UpdateSupersedes(list: seq<Bookmark>, first: Bookmark, second: Bookmark)
    requires first.id == second.id
    ensures ReplaceById(ReplaceById(list, first), second) == ReplaceById(list, second)
  {
    var once := ReplaceById(list, first);
    assert forall k :: 0 <= k < |list| ==> (once[k].id == second.id <==> list[k].id == second.id);
  }

  /** UPDATE keeps identifiers unique. */
  lemma UpdateKeepsUnique(list: seq<Bookmark>, row: Bookmark)
    requires UniqueIds(list)
    ensures UniqueIds(ReplaceById(list, row))
  {
    var r := ReplaceById(list, row);
    forall i, j | 0 <= i < j < |r| ensures DifferentIds(r[i], r[j]) {
      assert DifferentIds(list[i], list[j]);
    }
  }

  /** Every row the list holds belongs to `owner`. */
  ghost predicate OwnedBy(list: seq<Bookmark>, owner: string)
  {
    forall b :: b in list ==> b.userId == owner
  }

  /** The feed is filtered on `user_id`, so rows it delivers belong to the
      subscribing user; applying such rows keeps the list the user's own. */
  lemma ApplyEventKeepsOwner(list: seq<Bookmark>, e: ChangeEvent, owner: string)
    requires OwnedBy(list, owner)
    requires (e.Inserted? || e.Updated?) ==> e.row.userId == owner
    ensures OwnedBy(ApplyEvent(list, e), owner)
  {
    var r := ApplyEvent(list, e);
    match e
    case Inserted(row) =>
      forall b | b in r ensures b.userId == owner {
        assert b == row || b in r[1..];
      }
    case Deleted(id) =>
      SubsequenceElements(r, list);
    case Updated(row) =>
      forall b | b in r ensures b.userId == owner {
        var k :| 0 <= k < |r| && r[k] == b;
        assert list[k] in list;
      }
    case Unrecognised(_) =>
  }

  // ---------------------------------------------------------------------
  // What the component renders

  /** One `BookmarkItem` element: its React key and the row it shows. */
  datatype Row = Row(key: string, bookmark: Bookmark)

  datatype View = Spinner | EmptyState | Rows(rows: seq<Row>)

  /** `bookmarks.map(...)`: one item per bookmark, keyed by its identifier. */
  function Items(list: seq<Bookmark>): (rows: seq<Row>)
    ensures |rows| == |list|
    ensures forall k :: 0 <= k < |list| ==> rows[k] == Row(list[k].id, list[k])
  {
    if list == [] then [] else [Row(list[0].id, list[0])] + Items(list[1..])
  }

  /** Loading shows the spinner; otherwise an empty list shows the empty
      state and a non-empty one an item per bookmark, in list order. */
  function Render(loading: bool, list: seq<Bookmark>): (v: View)
    ensures v.Spinner? <==> loading
    ensures v.EmptyState? <==> !loading && list == []
    ensures v.Rows? ==> |v.rows| == |list| > 0 &&
                        forall k :: 0 <= k < |list| ==> v.rows[k].bookmark == list[k] && v.rows[k].key == list[k].id
  {
    if loading then Spinner
    else if |list| == 0 then EmptyState
    else Rows(Items(list))
  }

  // ---------------------------------------------------------------------
  // The component's state cells

  class ListState {
    const userId: string
    var bookmarks: seq<Bookmark>
    var loading: bool

    /** Mounting: an empty list, still loading. */
    constructor (userId: string)
      ensures this.userId == userId && bookmarks == [] && loading
    {
      this.userId := userId;
      bookmarks := [];
      loading := true;
    }

    /** `fetchBookmarks` once its query has come back: the list becomes the
        rows (none if null), or stays as it was on error. */
    method FetchBookmarks(result: FetchResult)
      modifies this`bookmarks
      ensures bookmarks == AfterFetch(old(bookmarks), result)
    {
      match result {
        case FetchFailed(_) =>
        case Fetched(data) =>
          bookmarks := if data.Some? then data.value else [];
      }
    }

    /** `loadInitialBookmarks`: the first fetch, after which loading ends
        whether or not the fetch failed. */
    method LoadInitialBookmarks(result: FetchResult)
      modifies this
      ensures bookmarks == AfterFetch(old(bookmarks), result)
      ensures !loading
    {
      FetchBookmarks(result);
      loading := false;
    }

    /** The "bookmark-added" listener: a re-fetch that never touches `loading`. */
    method HandleBookmarkAdded(result: FetchResult)
      modifies this`bookmarks
      ensures bookmarks == AfterFetch(old(bookmarks), result)
      ensures loading == old(loading)
    {
      FetchBookmarks(result);
    }

    /** The `postgres_changes` callback, testing the payload's event type. */
    method HandleChange(p: ChangePayload)
      modifies this`bookmarks
      ensures bookmarks == ApplyEvent(old(bookmarks), Decode(p))
      ensures loading == old(loading)
    {
      if p.eventType == "INSERT" {
        bookmarks := [p.newRow] + bookmarks;
      } else if p.eventType == "DELETE" {
        bookmarks := RemoveById(bookmarks, p.oldId);
      } else if p.eventType == "UPDATE" {
        bookmarks := ReplaceById(bookmarks, p.newRow);
      }
    }

    /** What the component renders for its two state cells. */
    function View(): (v: View)
      reads this
      ensures v.Spinner? <==> loading
      ensures v.EmptyState? <==> !loading && bookmarks == []
      ensures v.Rows? ==> v.rows == Items(bookmarks)
    {
      Render(loading, bookmarks)
    }
  }

  /** Deleting the middle entry of three leaves the outer two in order. */
  lemma DeleteFromMiddle(a: Bookmark, b: Bookmark, c: Bookmark)
    requires a.id != b.id && a.id != c.id
    ensures RemoveById([c, a, b], a.id) == [c, b]
  {
    assert RemoveById([b], a.id) == [b] + RemoveById([], a.id);
    assert RemoveById([a, b], a.id) == [b] by { assert [a, b][1..] == [b]; }
    assert [c, a, b][1..] == [a, b];
  }

  /** Two rows loaded, a third inserted in front, the middle one deleted
      twice, then a re-fetch. */
  method Walkthrough(a: Bookmark, b: Bookmark, c: Bookmark, d: Bookmark)
    requires a.id != b.id && a.id != c.id
  {
    var list := new ListState("42");
    assert list.View() == Spinner;
    list.LoadInitialBookmarks(Fetched(Some([a, b])));
    assert list.bookmarks == [a, b] && !list.loading;
    list.HandleChange(ChangePayload("INSERT", c, c.id));
    assert list.bookmarks == [c, a, b];
    DeleteFromMiddle(a, b, c);
    list.HandleChange(ChangePayload("DELETE", a, a.id));
    assert list.bookmarks == [c, b];
    RemoveIdempotent([c, a, b], a.id);
    list.HandleChange(ChangePayload("DELETE", a, a.id));
    assert list.bookmarks == [c, b];
    list.HandleBookmarkAdded(Fetched(Some([d, c, b])));
    assert list.bookmarks == [d, c, b] && !list.loading;
  }

  /** A delivered INSERT of a row the re-fetch already brought in leaves it
      twice; an event type spelt in lower case and a failed re-fetch then
      change nothing. */
  method RepeatedInsert(b: Bookmark, d: Bookmark)
  {
    var list := new ListState("42");
    list.LoadInitialBookmarks(Fetched(Some([d, b])));
    list.HandleChange(ChangePayload("INSERT", d, d.id));
    assert list.bookmarks == [d, d, b];
    list.HandleChange(ChangePayload("insert", b, b.id));
    assert list.bookmarks == [d, d, b];
    list.HandleBookmarkAdded(FetchFailed("network"));
    assert list.bookmarks == [d, d, b] && list.View() == Rows(Items([d, d, b]));
  }
}
