/** Which remote addresses serve a range of partitions at a checkpoint. */
module Addresses {
  import opened Wrappers
  import opened Partitioning

  datatype Location = Location(address: string, from: nat, until: nat, partitions: PartitionRange)

  datatype InputDetail = InputDetail(streamId: string, locations: seq<Location>)

  datatype Address = Address(streamId: string, address: string, partitions: PartitionRange)

  predicate ValidAt(location: Location, checkpoint: nat) {
    location.from <= checkpoint < location.until
  }

  /** What one location contributes to a request: nothing, or an address with the part it serves. */
  function Offer(streamId: string, location: Location, partitions: PartitionRange): Option<Address> {
    if location.partitions.IsEmpty() && partitions.IsEmpty() then
      Some(Address(streamId, location.address, PartitionRange(0, 0, 0)))
    else
      var common := partitions.Intersection(location.partitions);
      if common.IsEmpty() then None else Some(Address(streamId, location.address, common))
  }

  function Taken(streamId: string, location: Location, partitions: PartitionRange, checkpoint: nat): seq<Address> {
    var offer := Offer(streamId, location, partitions);
    if ValidAt(location, checkpoint) && offer.Some? then [offer.value] else []
  }

  /** The offers of all locations valid at the checkpoint, in order. */
  function Select(streamId: string, locations: seq<Location>, partitions: PartitionRange, checkpoint: nat)
    : seq<Address>
  {
    if locations == [] then []
    else
      Taken(streamId, locations[0], partitions, checkpoint) +
      Select(streamId, locations[1..], partitions, checkpoint)
  }

  ghost predicate Forward(addresses: seq<Address>) {
    forall i | 0 <= i < |addresses| :: addresses[i].partitions.start <= addresses[i].partitions.end
  }

  function Sizes(addresses: seq<Address>): nat
    requires Forward(addresses)
  {
    if addresses == [] then 0 else addresses[0].partitions.Size() + Sizes(addresses[1..])
  }

  ghost predicate Within(addresses: seq<Address>, partitions: PartitionRange) {
    forall i | 0 <= i < |addresses| ::
      partitions.start <= addresses[i].partitions.start < addresses[i].partitions.end <= partitions.end
  }

  /** Selected parts of a nonempty request are nonempty and lie inside it. */
  lemma {:induction false} SelectInside(streamId: string, locations: seq<Location>, partitions: PartitionRange,
                                        checkpoint: nat)
    ensures Forward(Select(streamId, locations, partitions, checkpoint))
    ensures partitions.start < partitions.end ==>
              Within(Select(streamId, locations, partitions, checkpoint), partitions)
  {
    if locations != [] {
      var first := Taken(streamId, locations[0], partitions, checkpoint);
      SelectInside(streamId, locations[1..], partitions, checkpoint);
      assert Forward(first) && (partitions.start < partitions.end ==> Within(first, partitions));
    }
  }

  function Checked(streamId: string, found: seq<Address>, size: nat, partitions: PartitionRange): Outcome<seq<Address>>
    requires partitions.start <= partitions.end
  {
    if size == partitions.Size() then Ok(found) else Err("Missing partitions for stream " + streamId)
  }

  function StreamAddresses(detail: InputDetail, partitions: PartitionRange, checkpoint: nat): Outcome<seq<Address>>
    requires partitions.start <= partitions.end
  {
    var found := Select(detail.streamId, detail.locations, partitions, checkpoint);
    SelectInside(detail.streamId, detail.locations, partitions, checkpoint);
    Checked(detail.streamId, found, Sizes(found), partitions)
  }

  lemma {:induction false} SizesAppend(a: seq<Address>, b: seq<Address>)
    requires Forward(a) && Forward(b)
    ensures Forward(a + b) && Sizes(a + b) == Sizes(a) + Sizes(b)
  {
    if a == [] {
      assert a + b == b;
    } else {
      SizesAppend(a[1..], b);
      assert (a + b)[1..] == a[1..] + b;
    }
  }

  lemma {:induction false} SelectAppend(streamId: string, locations: seq<Location>, l: Location,
                                        partitions: PartitionRange, checkpoint: nat)
    ensures Select(streamId, locations + [l], partitions, checkpoint) ==
            Select(streamId, locations, partitions, checkpoint) + Taken(streamId, l, partitions, checkpoint)
  {
    if locations == [] {
      assert locations + [l] == [l] && [l][1..] == [];
    } else {
      SelectAppend(streamId, locations[1..], l, partitions, checkpoint);
      assert (locations + [l])[1..] == locations[1..] + [l];
    }
  }

  method GetAddressesForStream(partitions: PartitionRange, checkpoint: nat, detail: InputDetail)
      returns (result: Outcome<seq<Address>>)
    requires partitions.start <= partitions.end
    ensures result == StreamAddresses(detail, partitions, checkpoint)
  {
    var addresses: seq<Address> := [];
    var foundPartitions := 0;
    for k := 0 to |detail.locations|
      invariant addresses == Select(detail.streamId, detail.locations[..k], partitions, checkpoint)
      invariant Forward(addresses) && foundPartitions == Sizes(addresses)
    {
      var l := detail.locations[k];
      ghost var taken := Taken(detail.streamId, l, partitions, checkpoint);
      assert detail.locations[..k + 1] == detail.locations[..k] + [l];
      SelectAppend(detail.streamId, detail.locations[..k], l, partitions, checkpoint);
      SelectInside(detail.streamId, [l], partitions, checkpoint);
      assert Select(detail.streamId, [l], partitions, checkpoint) == taken;
      SizesAppend(addresses, taken);
      if ValidAt(l, checkpoint) {
        var offer := Offer(detail.streamId, l, partitions);
        if offer.Some? {
          addresses := addresses + [offer.value];
          foundPartitions := foundPartitions + offer.value.partitions.Size();
        }
      }
    }
    assert detail.locations[..|detail.locations|] == detail.locations;
    result := Checked(detail.streamId, addresses, foundPartitions, partitions);
  }

  // ---- Counting partitions ----

  ghost function Points(lo: nat, hi: nat): (s: set<nat>)
    requires lo <= hi
    ensures |s| == hi - lo
    ensures forall x: nat :: x in s <==> lo <= x < hi
    decreases hi
  {
    if lo == hi then {} else Points(lo, hi - 1) + {hi - 1}
  }

  ghost function Union(addresses: seq<Address>): set<nat>
    requires Forward(addresses)
  {
    if addresses == [] then {}
    else Points(addresses[0].partitions.start, addresses[0].partitions.end) + Union(addresses[1..])
  }

  ghost predicate Disjoint(addresses: seq<Address>)
    requires Forward(addresses)
  {
    forall i, j | 0 <= i < j < |addresses| :: Apart(addresses[i].partitions, addresses[j].partitions)
  }

  ghost predicate Apart(a: PartitionRange, b: PartitionRange) {
    a.end <= b.start || b.end <= a.start || a.end <= a.start || b.end <= b.start
  }

  lemma {:induction false} InUnion(addresses: seq<Address>, x: nat)
    requires Forward(addresses)
    ensures x in Union(addresses) <==> Serves(addresses, x)
  {
    if addresses != [] {
      InUnion(addresses[1..], x);
      ServesCons(addresses[0], addresses[1..], x);
      assert addresses == [addresses[0]] + addresses[1..];
    }
  }

  lemma DisjointCons(addresses: seq<Address>)
    requires Forward(addresses) && addresses != []
    ensures Disjoint(addresses) <==>
            && Disjoint(addresses[1..])
            && Points(addresses[0].partitions.start, addresses[0].partitions.end) !! Union(addresses[1..])
  {
    var tail := addresses[1..];
    var first := addresses[0].partitions;
    assert forall i | 0 < i < |addresses| :: addresses[i] == tail[i - 1];
    if Disjoint(addresses) {
      forall i, j | 0 <= i < j < |tail| ensures Apart(tail[i].partitions, tail[j].partitions) {
        assert Apart(addresses[i + 1].partitions, addresses[j + 1].partitions);
      }
      forall i | 0 <= i < |tail| ensures Apart(first, tail[i].partitions) {
        assert Apart(addresses[0].partitions, addresses[i + 1].partitions);
      }
      forall x: nat | x in Points(first.start, first.end) ensures x !in Union(tail) {
        InUnion(tail, x);
      }
    }
    if Disjoint(tail) && Points(first.start, first.end) !! Union(tail) {
      forall i, j | 0 <= i < j < |addresses| ensures Apart(addresses[i].partitions, addresses[j].partitions) {
        if i == 0 {
          var other := tail[j - 1].partitions;
          var x := if first.start < other.start then other.start else first.start;
          InUnion(tail, x);
          assert other.start <= x < other.end ==> Serves(tail, x);
          assert first.start <= x < first.end ==> x in Points(first.start, first.end);
        } else {
          assert Apart(tail[i - 1].partitions, tail[j - 1].partitions);
        }
      }
    }
  }

  /** The sizes add up to at least the number of distinct partitions, and to exactly that if nothing overlaps. */
  lemma {:induction false} SizesCount(addresses: seq<Address>)
    requires Forward(addresses)
    ensures |Union(addresses)| <= Sizes(addresses)
    ensures |Union(addresses)| == Sizes(addresses) <==> Disjoint(addresses)
  {
    if addresses != [] {
      var first := Points(addresses[0].partitions.start, addresses[0].partitions.end);
      var rest := Union(addresses[1..]);
      SizesCount(addresses[1..]);
      DisjointCons(addresses);
      assert |first + rest| == |first| + |rest| - |first * rest|;
      if |first * rest| == 0 { assert first * rest == {}; }
    }
  }

  /** Every requested partition is served by some location valid at the checkpoint. */
  ghost predicate Covers(found: seq<Address>, partitions: PartitionRange) {
    forall x: nat | partitions.start <= x < partitions.end :: Serves(found, x)
  }

  ghost predicate Serves(found: seq<Address>, x: nat) {
    exists i | 0 <= i < |found| :: found[i].partitions.start <= x < found[i].partitions.end
  }

  lemma CoversIsUnion(found: seq<Address>, partitions: PartitionRange)
    requires partitions.start <= partitions.end && Forward(found)
    requires Within(found, partitions)
    ensures Covers(found, partitions) <==> |Union(found)| == partitions.Size()
  {
    var whole := Points(partitions.start, partitions.end);
    forall x: nat ensures x in Union(found) <==> Serves(found, x) { InUnion(found, x); }
    assert Union(found) <= whole;
    if |Union(found)| == |whole| {
      assert |whole - Union(found)| == 0;
      assert Union(found) == whole;
      forall x: nat | partitions.start <= x < partitions.end ensures Serves(found, x) { assert x in whole; }
    }
    if Covers(found, partitions) {
      forall x | x in whole ensures x in Union(found) { assert Serves(found, x); }
      assert Union(found) == whole;
    }
  }

  // ---- In terms of the locations ----

  /** The location is valid at the checkpoint and serves the partition. */
  ghost predicate Has(location: Location, checkpoint: nat, x: nat) {
    ValidAt(location, checkpoint) && location.partitions.start <= x < location.partitions.end
  }

  ghost predicate Located(locations: seq<Location>, checkpoint: nat, x: nat) {
    exists k | 0 <= k < |locations| :: Has(locations[k], checkpoint, x)
  }

  ghost predicate LocatedOnce(locations: seq<Location>, checkpoint: nat, x: nat) {
    forall i, j | 0 <= i < j < |locations| :: !(Has(locations[i], checkpoint, x) && Has(locations[j], checkpoint, x))
  }

  /** The union of the valid locations covers the request. */
  ghost predicate LocationsCover(locations: seq<Location>, partitions: PartitionRange, checkpoint: nat) {
    forall x: nat | partitions.start <= x < partitions.end :: Located(locations, checkpoint, x)
  }

  /** No requested partition has two valid locations. */
  ghost predicate NoOverlap(locations: seq<Location>, partitions: PartitionRange, checkpoint: nat) {
    forall x: nat | partitions.start <= x < partitions.end :: LocatedOnce(locations, checkpoint, x)
  }

  lemma LocatedCons(locations: seq<Location>, checkpoint: nat, x: nat)
    requires locations != []
    ensures Located(locations, checkpoint, x) <==>
            Has(locations[0], checkpoint, x) || Located(locations[1..], checkpoint, x)
    ensures LocatedOnce(locations, checkpoint, x) <==>
            && LocatedOnce(locations[1..], checkpoint, x)
            && !(Has(locations[0], checkpoint, x) && Located(locations[1..], checkpoint, x))
  {
    var tail := locations[1..];
    assert forall k | 0 <= k < |tail| :: tail[k] == locations[k + 1];
    assert forall k | 0 < k < |locations| :: locations[k] == tail[k - 1];
  }

  lemma ServesCons(a: Address, tail: seq<Address>, x: nat)
    ensures Serves([a] + tail, x) <==> a.partitions.start <= x < a.partitions.end || Serves(tail, x)
  {
    var all := [a] + tail;
    assert all[0] == a && forall k | 0 <= k < |tail| :: tail[k] == all[k + 1];
    assert forall k | 0 < k < |all| :: all[k] == tail[k - 1];
  }

  /** What one location contributes holds exactly the requested partitions it serves at the checkpoint. */
  lemma TakenServes(streamId: string, location: Location, partitions: PartitionRange, checkpoint: nat, x: nat)
    requires partitions.start <= x < partitions.end
    ensures var taken := Taken(streamId, location, partitions, checkpoint);
            && |taken| <= 1
            && (Has(location, checkpoint, x) <==>
                taken != [] && taken[0].partitions.start <= x < taken[0].partitions.end)
  {
  }

  /** A requested partition is served by the selection if and only if some valid location serves it. */
  lemma {:induction false} SelectServes(streamId: string, locations: seq<Location>, partitions: PartitionRange,
                                        checkpoint: nat, x: nat)
    requires partitions.start <= x < partitions.end
    ensures Serves(Select(streamId, locations, partitions, checkpoint), x) <==> Located(locations, checkpoint, x)
  {
    if locations != [] {
      var taken := Taken(streamId, locations[0], partitions, checkpoint);
      var tail := Select(streamId, locations[1..], partitions, checkpoint);
      SelectServes(streamId, locations[1..], partitions, checkpoint, x);
      LocatedCons(locations, checkpoint, x);
      TakenServes(streamId, locations[0], partitions, checkpoint, x);
      if taken == [] {
        assert taken + tail == tail;
      } else {
        assert taken == [taken[0]];
        ServesCons(taken[0], tail, x);
      }
    }
  }

  ghost predicate Shares(a: Address, others: seq<Address>, x: nat) {
    a.partitions.start <= x < a.partitions.end && Serves(others, x)
  }

  ghost predicate SharesNone(a: Address, others: seq<Address>, partitions: PartitionRange) {
    forall x: nat | partitions.start <= x < partitions.end :: !Shares(a, others, x)
  }

  /** One more part overlaps the others exactly in the partitions it shares with them. */
  lemma DisjointWith(a: Address, tail: seq<Address>, partitions: PartitionRange)
    requires Forward([a] + tail) && Forward(tail) && Within([a], partitions)
    ensures Disjoint([a] + tail) <==>
            Disjoint(tail) && SharesNone(a, tail, partitions)
  {
    var all := [a] + tail;
    assert all[1..] == tail && [a][0] == a;
    DisjointCons(all);
    var points := Points(a.partitions.start, a.partitions.end);
    forall x: nat ensures x in Union(tail) <==> Serves(tail, x) { InUnion(tail, x); }
    if points !! Union(tail) {
      forall x: nat | a.partitions.start <= x < a.partitions.end ensures !Serves(tail, x) { assert x in points; }
    }
    if SharesNone(a, tail, partitions) {
      forall x: nat | x in points ensures x !in Union(tail) { assert !Shares(a, tail, x); }
    }
  }

  lemma SelectNonempty(streamId: string, location: Location, partitions: PartitionRange, checkpoint: nat)
    requires partitions.start < partitions.end
    ensures Within(Taken(streamId, location, partitions, checkpoint), partitions)
  {
  }

  lemma NoOverlapCons(streamId: string, locations: seq<Location>, partitions: PartitionRange, checkpoint: nat)
    requires locations != []
    ensures var taken := Taken(streamId, locations[0], partitions, checkpoint);
            var tail := Select(streamId, locations[1..], partitions, checkpoint);
            NoOverlap(locations, partitions, checkpoint) <==>
            && NoOverlap(locations[1..], partitions, checkpoint)
            && (taken != [] ==> SharesNone(taken[0], tail, partitions))
  {
    var taken := Taken(streamId, locations[0], partitions, checkpoint);
    var tail := Select(streamId, locations[1..], partitions, checkpoint);
    forall x: nat | partitions.start <= x < partitions.end
      ensures LocatedOnce(locations, checkpoint, x) <==>
              && LocatedOnce(locations[1..], checkpoint, x)
              && !(taken != [] && Shares(taken[0], tail, x))
    {
      LocatedCons(locations, checkpoint, x);
      SelectServes(streamId, locations[1..], partitions, checkpoint, x);
      TakenServes(streamId, locations[0], partitions, checkpoint, x);
    }
  }

  /** The selected parts do not overlap if and only if no requested partition has two valid locations. */
  lemma {:induction false} SelectDisjoint(streamId: string, locations: seq<Location>, partitions: PartitionRange,
                                          checkpoint: nat)
    requires partitions.start < partitions.end
    ensures Forward(Select(streamId, locations, partitions, checkpoint))
    ensures Disjoint(Select(streamId, locations, partitions, checkpoint)) <==>
            NoOverlap(locations, partitions, checkpoint)
  {
    SelectInside(streamId, locations, partitions, checkpoint);
    if locations != [] {
      var taken := Taken(streamId, locations[0], partitions, checkpoint);
      var tail := Select(streamId, locations[1..], partitions, checkpoint);
      SelectDisjoint(streamId, locations[1..], partitions, checkpoint);
      SelectNonempty(streamId, locations[0], partitions, checkpoint);
      NoOverlapCons(streamId, locations, partitions, checkpoint);
      if taken == [] {
        assert taken + tail == tail;
      } else {
        assert taken == [taken[0]];
        DisjointWith(taken[0], tail, partitions);
      }
    }
  }

  lemma CoverInLocations(detail: InputDetail, partitions: PartitionRange, checkpoint: nat)
    ensures Covers(Select(detail.streamId, detail.locations, partitions, checkpoint), partitions) <==>
            LocationsCover(detail.locations, partitions, checkpoint)
  {
    forall x: nat | partitions.start <= x < partitions.end
      ensures Serves(Select(detail.streamId, detail.locations, partitions, checkpoint), x) <==>
              Located(detail.locations, checkpoint, x)
    {
      SelectServes(detail.streamId, detail.locations, partitions, checkpoint, x);
    }
  }

  /**
   For a nonempty request, in terms of the valid locations: if no requested partition has two of them, the selection
   succeeds exactly when their union covers the request. If it does, the selection succeeds exactly when no requested
   partition has two of them. And a selection that succeeds covers the request exactly under that same condition.
   */
  lemma SelectionExact(detail: InputDetail, partitions: PartitionRange, checkpoint: nat)
    requires partitions.start < partitions.end
    ensures NoOverlap(detail.locations, partitions, checkpoint) ==>
              (StreamAddresses(detail, partitions, checkpoint).Ok? <==>
               LocationsCover(detail.locations, partitions, checkpoint))
    ensures LocationsCover(detail.locations, partitions, checkpoint) ==>
              (StreamAddresses(detail, partitions, checkpoint).Ok? <==>
               NoOverlap(detail.locations, partitions, checkpoint))
    ensures StreamAddresses(detail, partitions, checkpoint).Ok? ==>
              (LocationsCover(detail.locations, partitions, checkpoint) <==>
               NoOverlap(detail.locations, partitions, checkpoint))
    ensures var result := StreamAddresses(detail, partitions, checkpoint);
            result.Ok? ==>
              && result.value == Select(detail.streamId, detail.locations, partitions, checkpoint)
              && Within(result.value, partitions)
  {
    var found := Select(detail.streamId, detail.locations, partitions, checkpoint);
    SelectInside(detail.streamId, detail.locations, partitions, checkpoint);
    SelectDisjoint(detail.streamId, detail.locations, partitions, checkpoint);
    CoverInLocations(detail, partitions, checkpoint);
    SizesCount(found);
    CoversIsUnion(found, partitions);
  }

  ghost predicate LocationsApart(locations: seq<Location>, checkpoint: nat) {
    forall i, j | 0 <= i < j < |locations| && ValidAt(locations[i], checkpoint) && ValidAt(locations[j], checkpoint) ::
      Apart(locations[i].partitions, locations[j].partitions)
  }

  /** Each selected part comes from a valid location and lies inside it. */
  lemma {:induction false} SelectFrom(streamId: string, locations: seq<Location>, partitions: PartitionRange,
                                      checkpoint: nat, j: nat) returns (k: nat)
    requires partitions.start < partitions.end && j < |Select(streamId, locations, partitions, checkpoint)|
    ensures k < |locations| && ValidAt(locations[k], checkpoint)
    ensures var a := Select(streamId, locations, partitions, checkpoint)[j];
            && a.streamId == streamId && a.address == locations[k].address
            && locations[k].partitions.start <= a.partitions.start
            && a.partitions.end <= locations[k].partitions.end
  {
    var first := Taken(streamId, locations[0], partitions, checkpoint);
    if j < |first| {
      k := 0;
    } else {
      k := SelectFrom(streamId, locations[1..], partitions, checkpoint, j - |first|);
      k := k + 1;
    }
  }

  /**
   With pairwise disjoint valid locations, a request succeeds exactly when their union covers it, and then the returned
   parts tile it: they lie inside it, do not overlap and cover it.
   */
  lemma ApartLocationsExact(detail: InputDetail, partitions: PartitionRange, checkpoint: nat)
    requires partitions.start < partitions.end && LocationsApart(detail.locations, checkpoint)
    ensures StreamAddresses(detail, partitions, checkpoint).Ok? <==>
            LocationsCover(detail.locations, partitions, checkpoint)
    ensures var result := StreamAddresses(detail, partitions, checkpoint);
            result.Ok? ==>
              && Within(result.value, partitions)
              && Forward(result.value) && Disjoint(result.value) && Covers(result.value, partitions)
  {
    forall x: nat, i, j | partitions.start <= x < partitions.end && 0 <= i < j < |detail.locations|
      ensures !(Has(detail.locations[i], checkpoint, x) && Has(detail.locations[j], checkpoint, x))
    {
      if ValidAt(detail.locations[i], checkpoint) && ValidAt(detail.locations[j], checkpoint) {
        assert Apart(detail.locations[i].partitions, detail.locations[j].partitions);
      }
    }
    SelectionExact(detail, partitions, checkpoint);
    SelectDisjoint(detail.streamId, detail.locations, partitions, checkpoint);
    CoverInLocations(detail, partitions, checkpoint);
  }

  /** The address an unpartitioned location offers to an unpartitioned reader. */
  function Whole(streamId: string, address: string): Address {
    Address(streamId, address, PartitionRange(0, 0, 0))
  }

  ghost predicate Unpartitioned(location: Location, checkpoint: nat) {
    ValidAt(location, checkpoint) && location.partitions.IsEmpty()
  }

  ghost predicate AllPartitioned(locations: seq<Location>, checkpoint: nat) {
    forall k | 0 <= k < |locations| :: !Unpartitioned(locations[k], checkpoint)
  }

  /** Each valid unpartitioned location has its address among the found ones. */
  ghost predicate WholesFound(streamId: string, locations: seq<Location>, checkpoint: nat, found: seq<Address>) {
    forall k | 0 <= k < |locations| && Unpartitioned(locations[k], checkpoint) ::
      Whole(streamId, locations[k].address) in found
  }

  lemma UnpartitionedCons(streamId: string, head: Location, tail: seq<Location>, checkpoint: nat, found: seq<Address>)
    ensures AllPartitioned([head] + tail, checkpoint) <==>
            !Unpartitioned(head, checkpoint) && AllPartitioned(tail, checkpoint)
    ensures WholesFound(streamId, [head] + tail, checkpoint, found) <==>
            && WholesFound(streamId, tail, checkpoint, found)
            && (Unpartitioned(head, checkpoint) ==> Whole(streamId, head.address) in found)
  {
    var all := [head] + tail;
    assert all[0] == head && forall k | 0 <= k < |tail| :: tail[k] == all[k + 1];
    assert forall k | 0 < k < |all| :: all[k] == tail[k - 1];
  }

  lemma TakenUnpartitioned(streamId: string, location: Location, partitions: PartitionRange, checkpoint: nat)
    requires partitions.IsEmpty()
    ensures Taken(streamId, location, partitions, checkpoint) ==
            if Unpartitioned(location, checkpoint) then [Whole(streamId, location.address)] else []
  {
  }

  lemma WholesMore(streamId: string, locations: seq<Location>, checkpoint: nat, taken: seq<Address>,
                   found: seq<Address>)
    requires WholesFound(streamId, locations, checkpoint, found)
    ensures WholesFound(streamId, locations, checkpoint, taken + found)
  {
  }

  lemma {:induction false} SelectUnpartitioned(streamId: string, locations: seq<Location>, partitions: PartitionRange,
                                               checkpoint: nat)
    requires partitions.IsEmpty()
    ensures Forward(Select(streamId, locations, partitions, checkpoint))
    ensures Sizes(Select(streamId, locations, partitions, checkpoint)) == 0
    ensures Select(streamId, locations, partitions, checkpoint) == [] <==> AllPartitioned(locations, checkpoint)
    ensures WholesFound(streamId, locations, checkpoint, Select(streamId, locations, partitions, checkpoint))
  {
    if locations != [] {
      var taken := Taken(streamId, locations[0], partitions, checkpoint);
      var tail := Select(streamId, locations[1..], partitions, checkpoint);
      SelectUnpartitioned(streamId, locations[1..], partitions, checkpoint);
      TakenUnpartitioned(streamId, locations[0], partitions, checkpoint);
      SizesAppend(taken, tail);
      WholesMore(streamId, locations[1..], checkpoint, taken, tail);
      UnpartitionedCons(streamId, locations[0], locations[1..], checkpoint, taken + tail);
      assert locations == [locations[0]] + locations[1..];
    }
  }

  /**
   The empty request of an unpartitioned reader always succeeds, with the valid unpartitioned locations. So it succeeds
   without any address, and the reader's stream is empty, exactly if every valid location is partitioned.
   */
  lemma EmptyRequest(detail: InputDetail, partitions: PartitionRange, checkpoint: nat)
    requires partitions.IsEmpty()
    ensures var result := StreamAddresses(detail, partitions, checkpoint);
            && result.Ok?
            && (result.value == [] <==> AllPartitioned(detail.locations, checkpoint))
            && WholesFound(detail.streamId, detail.locations, checkpoint, result.value)
  {
    SelectUnpartitioned(detail.streamId, detail.locations, partitions, checkpoint);
  }

  /** The part is what the request and the held range have in common, or stands for a whole unpartitioned output. */
  ghost predicate CommonPart(part: PartitionRange, request: PartitionRange, held: PartitionRange) {
    if request.start == request.end then held.start == held.end && part == PartitionRange(0, 0, 0)
    else
      && part.start < part.end && part.partitions == request.partitions
      && forall x: nat :: Spans(part, x) <==> Spans(request, x) && Spans(held, x)
  }

  /** The location is valid and the address names it with its part of the request. */
  ghost predicate Offers(location: Location, request: PartitionRange, checkpoint: nat, a: Address) {
    && location.from <= checkpoint < location.until
    && a.address == location.address && CommonPart(a.partitions, request, location.partitions)
  }

  ghost predicate OfferedBy(locations: seq<Location>, request: PartitionRange, checkpoint: nat, a: Address) {
    exists k | 0 <= k < |locations| :: Offers(locations[k], request, checkpoint, a)
  }

  lemma OfferedCons(head: Location, tail: seq<Location>, request: PartitionRange, checkpoint: nat, a: Address)
    ensures OfferedBy([head] + tail, request, checkpoint, a) <==>
            Offers(head, request, checkpoint, a) || OfferedBy(tail, request, checkpoint, a)
  {
    var all := [head] + tail;
    assert all[0] == head && forall k | 0 <= k < |tail| :: tail[k] == all[k + 1];
    if OfferedBy(all, request, checkpoint, a) && !Offers(head, request, checkpoint, a) {
      var k :| 0 <= k < |all| && Offers(all[k], request, checkpoint, a);
      assert Offers(tail[k - 1], request, checkpoint, a);
    }
  }

  lemma SamePart(a: PartitionRange, b: PartitionRange)
    requires a.start < a.end && b.start < b.end && forall x: nat :: Spans(a, x) <==> Spans(b, x)
    ensures a.start == b.start && a.end == b.end
  {
    assert Spans(a, a.start) && Spans(b, b.start) && Spans(a, a.end - 1) && Spans(b, b.end - 1);
  }

  lemma CommonPartIs(part: PartitionRange, request: PartitionRange, held: PartitionRange)
    requires request.start != request.end
    ensures var common := request.Intersection(held);
            CommonPart(part, request, held) <==> common.start != common.end && part == common
  {
    var common := request.Intersection(held);
    if common.start != common.end {
      assert CommonPart(common, request, held);
      if CommonPart(part, request, held) { SamePart(part, common); }
    } else if CommonPart(part, request, held) {
      assert Spans(part, part.start);
    }
  }

  lemma TakenExactly(streamId: string, location: Location, partitions: PartitionRange, checkpoint: nat, a: Address)
    ensures a in Taken(streamId, location, partitions, checkpoint) <==>
            a.streamId == streamId && Offers(location, partitions, checkpoint, a)
  {
    if !partitions.IsEmpty() { CommonPartIs(a.partitions, partitions, location.partitions); }
  }

  /** The selection holds exactly the addresses of the valid locations, each with its part of the request. */
  lemma {:induction false} SelectExactly(streamId: string, locations: seq<Location>, partitions: PartitionRange,
                                         checkpoint: nat, a: Address)
    ensures a in Select(streamId, locations, partitions, checkpoint) <==>
            a.streamId == streamId && OfferedBy(locations, partitions, checkpoint, a)
  {
    if locations != [] {
      var head, tail := locations[0], locations[1..];
      assert locations == [head] + tail;
      SelectExactly(streamId, tail, partitions, checkpoint, a);
      TakenExactly(streamId, head, partitions, checkpoint, a);
      OfferedCons(head, tail, partitions, checkpoint, a);
    }
  }

  /** How many valid locations have the partition. */
  ghost function Times(locations: seq<Location>, checkpoint: nat, x: nat): nat {
    if locations == [] then 0
    else (if Has(locations[0], checkpoint, x) then 1 else 0) + Times(locations[1..], checkpoint, x)
  }

  /** That number, summed over the partitions from `lo` to `hi`. */
  ghost function Total(locations: seq<Location>, checkpoint: nat, lo: nat, hi: nat): nat
    decreases hi - lo
  {
    if lo >= hi then 0 else Times(locations, checkpoint, lo) + Total(locations, checkpoint, lo + 1, hi)
  }

  function Larger(a: nat, b: nat): nat { if a < b then b else a }

  function Smaller(a: nat, b: nat): nat { if a < b then a else b }

  /** The number of partitions two ranges have in common. */
  function CommonSize(lo: nat, hi: nat, start: nat, end: nat): nat {
    if Larger(lo, start) < Smaller(hi, end) then Smaller(hi, end) - Larger(lo, start) else 0
  }

  lemma {:induction false} TotalCons(head: Location, tail: seq<Location>, checkpoint: nat, lo: nat, hi: nat)
    ensures Total([head] + tail, checkpoint, lo, hi) ==
            Total(tail, checkpoint, lo, hi) +
            if ValidAt(head, checkpoint) then CommonSize(lo, hi, head.partitions.start, head.partitions.end) else 0
    decreases hi - lo
  {
    if lo < hi {
      TotalCons(head, tail, checkpoint, lo + 1, hi);
      assert ([head] + tail)[1..] == tail;
      assert Times([head] + tail, checkpoint, lo) ==
             (if Has(head, checkpoint, lo) then 1 else 0) + Times(tail, checkpoint, lo);
    }
  }

  lemma TotalNone(checkpoint: nat, lo: nat, hi: nat)
    ensures Total([], checkpoint, lo, hi) == 0
    decreases hi - lo
  {
  }

  lemma TakenSize(streamId: string, location: Location, partitions: PartitionRange, checkpoint: nat)
    requires partitions.start <= partitions.end
    ensures var taken := Taken(streamId, location, partitions, checkpoint);
            && Forward(taken)
            && Sizes(taken) ==
               if ValidAt(location, checkpoint)
               then CommonSize(partitions.start, partitions.end, location.partitions.start, location.partitions.end)
               else 0
  {
    var taken := Taken(streamId, location, partitions, checkpoint);
    if taken != [] { assert taken[1..] == []; }
  }

  lemma {:induction false} SizesAreTotal(streamId: string, locations: seq<Location>, partitions: PartitionRange,
                                         checkpoint: nat)
    requires partitions.start <= partitions.end
    ensures var found := Select(streamId, locations, partitions, checkpoint);
            Forward(found) && Sizes(found) == Total(locations, checkpoint, partitions.start, partitions.end)
  {
    if locations == [] {
      TotalNone(checkpoint, partitions.start, partitions.end);
    } else {
      var head, tail := locations[0], locations[1..];
      assert locations == [head] + tail;
      SizesAreTotal(streamId, tail, partitions, checkpoint);
      TakenSize(streamId, head, partitions, checkpoint);
      SizesAppend(Taken(streamId, head, partitions, checkpoint), Select(streamId, tail, partitions, checkpoint));
      TotalCons(head, tail, checkpoint, partitions.start, partitions.end);
    }
  }

  /**
   The exact condition of the size test, for every request and all locations: the requested partitions have, counted
   with repetition, as many valid locations as there are partitions.
   */
  lemma AcceptedExactly(detail: InputDetail, partitions: PartitionRange, checkpoint: nat)
    requires partitions.start <= partitions.end
    ensures StreamAddresses(detail, partitions, checkpoint).Ok? <==>
            Total(detail.locations, checkpoint, partitions.start, partitions.end) == partitions.end - partitions.start
  {
    SizesAreTotal(detail.streamId, detail.locations, partitions, checkpoint);
  }

  /** Overlapping locations can hide a gap: two with the same half of a request add up, and nobody serves the rest. */
  lemma OverlapHidesGap(detail: InputDetail, a: Location, b: Location, request: PartitionRange, middle: nat,
                        checkpoint: nat)
    requires request.start < middle && middle - request.start == request.end - middle
    requires detail.locations == [a, b] && ValidAt(a, checkpoint) && ValidAt(b, checkpoint)
    requires a.partitions == PartitionRange(request.start, middle, request.partitions) == b.partitions
    ensures StreamAddresses(detail, request, checkpoint).Ok?
    ensures forall x: nat | middle <= x :: !Located(detail.locations, checkpoint, x)
    ensures !LocationsCover(detail.locations, request, checkpoint)
  {
    var id := detail.streamId;
    var x, y := Address(id, a.address, a.partitions), Address(id, b.address, b.partitions);
    assert [a, b][1..] == [b] && [b][1..] == [];
    assert Select(id, [b], request, checkpoint) == [y];
    assert Select(id, [a, b], request, checkpoint) == [x, y];
    assert [x, y][1..] == [y] && Sizes([y]) == middle - request.start;
    assert !Located([a, b], checkpoint, middle);
  }
}
