/** Streams of record batches cut into epochs by checkpoint markers. */
module Streams {
  datatype Item<+B> = Batch(batch: B) | Marker(number: nat)

  /** The marker numbers of a stream, in order. */
  function Markers<B>(s: seq<Item<B>>): seq<nat> {
    if s == [] then []
    else if s[0].Marker? then [s[0].number] + Markers(s[1..])
    else Markers(s[1..])
  }

  /** The prefix of a stream that ends with its marker number `k`, counted from 0. */
  function ThroughMarker<B>(s: seq<Item<B>>, k: nat): seq<Item<B>> {
    if s == [] then []
    else if s[0].Marker? && k == 0 then [s[0]]
    else [s[0]] + ThroughMarker(s[1..], if s[0].Marker? then k - 1 else k)
  }

  /** The batches of a stream, in order. */
  function Batches<B>(s: seq<Item<B>>): seq<B> {
    if s == [] then []
    else if s[0].Batch? then [s[0].batch] + Batches(s[1..])
    else Batches(s[1..])
  }

  lemma {:induction false} BatchesAppend<B>(s: seq<Item<B>>, t: seq<Item<B>>)
    ensures Batches(s + t) == Batches(s) + Batches(t)
  {
    if s == [] {
      assert s + t == t;
    } else {
      BatchesAppend(s[1..], t);
      assert (s + t)[1..] == s[1..] + t;
    }
  }

  function Flatten<R>(pieces: seq<seq<R>>): seq<R> {
    if pieces == [] then [] else pieces[0] + Flatten(pieces[1..])
  }

  lemma Associate<T>(a: seq<T>, b: seq<T>, c: seq<T>)
    ensures a + (b + c) == a + b + c
  {
  }

  lemma {:induction false} FlattenAppend<R>(a: seq<seq<R>>, b: seq<seq<R>>)
    ensures Flatten(a + b) == Flatten(a) + Flatten(b)
  {
    if a == [] {
      assert a + b == b;
    } else {
      assert (a + b)[0] == a[0] && (a + b)[1..] == a[1..] + b;
      FlattenAppend(a[1..], b);
      Associate(a[0], Flatten(a[1..]), Flatten(b));
    }
  }

  /** All rows of a stream whose batches are row sequences. */
  function Rows<R>(s: seq<Item<seq<R>>>): seq<R> {
    Flatten(Batches(s))
  }

  lemma RowsAppend<R>(s: seq<Item<seq<R>>>, t: seq<Item<seq<R>>>)
    ensures Rows(s + t) == Rows(s) + Rows(t)
  {
    BatchesAppend(s, t);
    FlattenAppend(Batches(s), Batches(t));
  }
}
