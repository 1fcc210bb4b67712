/** Entities shared by the three bookmark components, and the sequence facts
    their list transforms are stated with. */
module Records {

  datatype Option<T> = None | Some(value: T)

  /** What a store call that the client only checks for an error reports. */
  datatype Outcome = Success | Failure(message: string)

  /** A row of the `bookmarks` table as the client receives it. The store
      assigns `id` and `createdAt`; the client never interprets either. */
  datatype Bookmark = Bookmark(id: string, title: string, url: string, createdAt: string, userId: string)

  /** The identifiers present in a list. */
  function Ids(s: seq<Bookmark>): (r: set<string>)
  {
    set b | b in s :: b.id
  }

  predicate DifferentIds(a: Bookmark, b: Bookmark)
  {
    a.id != b.id
  }

  /** `rel` holds of every pair of entries, the earlier one first. Sorted
      newest first is one instance, no duplicate identifier another. */
  ghost predicate Pairwise<T>(rel: (T, T) -> bool, s: seq<T>)
  {
    forall i, j :: 0 <= i < j < |s| ==> rel(s[i], s[j])
  }

  ghost predicate UniqueIds(s: seq<Bookmark>)
  {
    Pairwise(DifferentIds, s)
  }

  /** `a` is `b` with some entries left out and the rest in their order. */
  predicate IsSubsequence<T(==)>(a: seq<T>, b: seq<T>)
    decreases |b|
  {
    if a == [] then true
    else if b == [] then false
    else if a[0] == b[0] then IsSubsequence(a[1..], b[1..])
    else IsSubsequence(a, b[1..])
  }

  lemma {:induction false} SubsequenceElements<T>(a: seq<T>, b: seq<T>)
    requires IsSubsequence(a, b)
    ensures forall x :: x in a ==> x in b
    decreases |b|
  {
    if a != [] {
      if a[0] == b[0] {
        SubsequenceElements(a[1..], b[1..]);
        assert forall x :: x in a ==> x == a[0] || x in a[1..];
      } else {
        SubsequenceElements(a, b[1..]);
      }
    }
  }

  /** Dropping entries keeps every pairwise relation the list had: a list
      sorted newest first stays sorted, a duplicate-free one stays so. */
  lemma {:induction false} SubsequencePairwise<T>(rel: (T, T) -> bool, a: seq<T>, b: seq<T>)
    requires IsSubsequence(a, b) && Pairwise(rel, b)
    ensures Pairwise(rel, a)
    decreases |b|
  {
    if a != [] {
      assert Pairwise(rel, b[1..]) by {
        forall i, j | 0 <= i < j < |b| - 1 ensures rel(b[1..][i], b[1..][j]) {
          assert b[1..][i] == b[i + 1] && b[1..][j] == b[j + 1];
        }
      }
      if a[0] == b[0] {
        SubsequencePairwise(rel, a[1..], b[1..]);
        SubsequenceElements(a[1..], b[1..]);
        forall i, j | 0 <= i < j < |a| ensures rel(a[i], a[j]) {
          if i == 0 {
            assert a[j] in a[1..] by { assert a[j] == a[1..][j - 1]; }
            var k :| 0 <= k < |b[1..]| && b[1..][k] == a[j];
            assert b[k + 1] == a[j];
          } else {
            assert a[i] == a[1..][i - 1] && a[j] == a[1..][j - 1];
          }
        }
      } else {
        SubsequencePairwise(rel, a, b[1..]);
      }
    }
  }
}
