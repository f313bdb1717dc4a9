/**
 * The cursor loop shared by the three Square fetches: request a page, stop on
 * a transport error or an empty object list, keep the page's objects, and stop
 * when the page carries no cursor.
 */
module Paging {

  /**
   * What one listing request returns. `TransportError` stands for any exception
   * raised by the request or by decoding its body; an empty `cursor` stands for
   * a missing one. The i-th element of a page sequence answers the i-th request;
   * a sequence that runs out answers no further request.
   */
  datatype Response<T> = TransportError | Listed(objects: seq<T>, cursor: string)

  /** The objects a response contributes, none for an error. */
  function ObjectsOf<T>(p: Response<T>): seq<T>
  {
    if p.Listed? then p.objects else []
  }

  /**
   * How many responses the loop processes before it stops: every processed
   * response was a listing with objects, every one but the last carried a
   * cursor, and the loop stopped because the last one had no cursor, because
   * the next one was an error or empty, or because the responses ran out.
   */
  function Consumed<T>(pages: seq<Response<T>>): (n: nat)
    ensures n <= |pages|
    ensures forall j | 0 <= j < n :: pages[j].Listed? && pages[j].objects != []
    ensures forall j | 0 <= j < n - 1 :: pages[j].cursor != ""
    ensures n < |pages| ==>
              (0 < n && pages[n - 1].cursor == "") || !pages[n].Listed? || pages[n].objects == []
  {
    if pages == [] then 0
    else match pages[0]
      case TransportError => 0
      case Listed(objects, cursor) =>
        if objects == [] then 0
        else if cursor == "" then 1
        else
          var n := 1 + Consumed(pages[1..]);
          assert forall j | 1 <= j < n :: pages[j] == pages[1..][j - 1];
          n
  }

  /** All objects of `pages`, page after page. */
  function Flatten<T>(pages: seq<Response<T>>): seq<T>
  {
    if pages == [] then []
    else Flatten(pages[..|pages| - 1]) + ObjectsOf(pages[|pages| - 1])
  }

  /** What a paged fetch accumulates: the objects of the processed responses. */
  function Fetched<T>(pages: seq<Response<T>>): seq<T>
  {
    Flatten(pages[..Consumed(pages)])
  }

  lemma {:induction false} FlattenMembership<T>(pages: seq<Response<T>>, x: T)
    ensures x in Flatten(pages) <==> exists j | 0 <= j < |pages| :: x in ObjectsOf(pages[j])
  {
    if pages != [] {
      var init := pages[..|pages| - 1];
      FlattenMembership(init, x);
      assert forall j | 0 <= j < |init| :: init[j] == pages[j];
    }
  }

  /**
   * Partial results are kept: when the responses before `k` all continue the
   * loop and response `k` is an error or empty, the fetch returns exactly the
   * objects of the first `k` responses.
   */
  lemma PartialResultsKept<T>(pages: seq<Response<T>>, k: nat)
    requires k < |pages|
    requires forall j | 0 <= j < k :: pages[j].Listed? && pages[j].objects != [] && pages[j].cursor != ""
    requires !pages[k].Listed? || pages[k].objects == []
    ensures Fetched(pages) == Flatten(pages[..k])
  {
    var n := Consumed(pages);
    assert n == k;
  }

  /** Every object the fetch returns was listed on a processed response. */
  lemma FetchedFrom<T>(pages: seq<Response<T>>, x: T)
    requires x in Fetched(pages)
    ensures exists j | 0 <= j < Consumed(pages) :: pages[j].Listed? && x in pages[j].objects
  {
    var n := Consumed(pages);
    FlattenMembership(pages[..n], x);
    var j :| 0 <= j < n && x in ObjectsOf(pages[..n][j]);
    assert pages[..n][j] == pages[j];
  }

  /** One step of the loop: what the response at `i` does to the number of responses processed from `i` on. */
  lemma ConsumedFrom<T>(pages: seq<Response<T>>, i: nat)
    requires i < |pages|
    ensures !pages[i].Listed? || pages[i].objects == [] ==> Consumed(pages[i..]) == 0
    ensures pages[i].Listed? && pages[i].objects != [] && pages[i].cursor == "" ==> Consumed(pages[i..]) == 1
    ensures pages[i].Listed? && pages[i].objects != [] && pages[i].cursor != "" ==>
              Consumed(pages[i..]) == 1 + Consumed(pages[i + 1..])
  {
    assert pages[i..][0] == pages[i];
    assert pages[i..][1..] == pages[i + 1..];
  }

  lemma FlattenStep<T>(pages: seq<Response<T>>, i: nat)
    requires i < |pages|
    ensures Flatten(pages[..i + 1]) == Flatten(pages[..i]) + ObjectsOf(pages[i])
  {
    assert pages[..i + 1][..i] == pages[..i];
  }

  /** One more element of a page taken into the processed prefix. */
  lemma PrefixSnoc<T>(done: seq<T>, objects: seq<T>, k: nat)
    requires k < |objects|
    ensures done + objects[..k + 1] == (done + objects[..k]) + [objects[k]]
  {
    assert objects[..k + 1] == objects[..k] + [objects[k]];
  }

  /** `f` applied to each of `s`, in order: a loop appending one result per object. */
  function MapObjects<A, B>(f: A -> B, s: seq<A>): seq<B>
  {
    if s == [] then [] else MapObjects(f, s[..|s| - 1]) + [f(s[|s| - 1])]
  }

  lemma MapObjectsSnoc<A, B>(f: A -> B, s: seq<A>, x: A)
    ensures MapObjects(f, s + [x]) == MapObjects(f, s) + [f(x)]
  {
    assert (s + [x])[..|s|] == s;
  }

  /** One result per object, at the object's own position. */
  lemma {:induction false} MapObjectsAt<A, B>(f: A -> B, s: seq<A>)
    ensures |MapObjects(f, s)| == |s|
    ensures forall i | 0 <= i < |s| :: MapObjects(f, s)[i] == f(s[i])
  {
    if s != [] {
      MapObjectsAt(f, s[..|s| - 1]);
    }
  }
}
