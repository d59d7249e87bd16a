/** Which generation of the scheduling details holds at a marker, and when the fibres have to pause for a new one. */
module Generations {
  import opened Wrappers
  import opened Partitioning
  import opened Addresses
  import opened Fibres

  /** `startConditions` holds the smallest marker of each stream at which the generation may start. */
  datatype Generation = Generation(id: string, partitions: PartitionRange, startConditions: seq<(string, nat)>)

  /** All start conditions on the given streams hold; those on other streams are ignored. */
  predicate Started(g: Generation, streamIds: seq<string>, marker: nat) {
    forall i | 0 <= i < |g.startConditions| && g.startConditions[i].0 in streamIds :: g.startConditions[i].1 <= marker
  }

  /** The largest start condition on the given streams, or 0. */
  function Threshold(conditions: seq<(string, nat)>, streamIds: seq<string>): nat {
    if conditions == [] then 0
    else
      var rest := Threshold(conditions[1..], streamIds);
      if conditions[0].0 in streamIds && conditions[0].1 > rest then conditions[0].1 else rest
  }

  /** A generation has started exactly from its largest relevant start condition on, that marker included. */
  lemma {:induction false} StartedExactly(g: Generation, streamIds: seq<string>, marker: nat)
    ensures Started(g, streamIds, marker) <==> marker >= Threshold(g.startConditions, streamIds)
    decreases |g.startConditions|
  {
    var conditions := g.startConditions;
    if conditions != [] {
      var rest := g.(startConditions := conditions[1..]);
      StartedExactly(rest, streamIds, marker);
      if Started(g, streamIds, marker) {
        forall i | 0 <= i < |conditions[1..]| && conditions[1..][i].0 in streamIds
          ensures conditions[1..][i].1 <= marker
        {
          assert conditions[1..][i] == conditions[i + 1];
        }
      }
      if Started(rest, streamIds, marker) {
        forall i | 0 < i < |conditions| && conditions[i].0 in streamIds ensures conditions[i].1 <= marker {
          assert conditions[i] == conditions[1..][i - 1];
        }
      }
    }
  }

  /** The position of the last generation that has started. */
  function Current(streamIds: seq<string>, generations: seq<Generation>, marker: nat): Option<nat> {
    if generations == [] then None
    else if Started(generations[|generations| - 1], streamIds, marker) then Some(|generations| - 1)
    else Current(streamIds, generations[..|generations| - 1], marker)
  }

  method FindCurrentGeneration(streamIds: seq<string>, generations: seq<Generation>, marker: nat)
      returns (found: Option<nat>)
    ensures found == Current(streamIds, generations, marker)
  {
    var i := |generations|;
    assert generations[..i] == generations;
    while i > 0
      invariant 0 <= i <= |generations|
      invariant Current(streamIds, generations[..i], marker) == Current(streamIds, generations, marker)
    {
      assert generations[..i][..i - 1] == generations[..i - 1];
      if Started(generations[i - 1], streamIds, marker) {
        return Some(i - 1);
      }
      i := i - 1;
    }
    return None;
  }

  /** The choice is the last generation that has started, and there is none only if none has started. */
  lemma {:induction false} CurrentIsLast(streamIds: seq<string>, generations: seq<Generation>, marker: nat)
    ensures match Current(streamIds, generations, marker)
            case Some(i) =>
              && i < |generations|
              && Started(generations[i], streamIds, marker)
              && forall j | i < j < |generations| :: !Started(generations[j], streamIds, marker)
            case None =>
              forall j | 0 <= j < |generations| :: !Started(generations[j], streamIds, marker)
  {
    if generations != [] { CurrentIsLast(streamIds, generations[..|generations| - 1], marker); }
  }

  /** As markers grow the choice never goes back. */
  lemma CurrentMonotone(streamIds: seq<string>, generations: seq<Generation>, marker: nat, later: nat)
    requires marker <= later && Current(streamIds, generations, marker).Some?
    ensures var i, j := Current(streamIds, generations, marker), Current(streamIds, generations, later);
            j.Some? && i.value <= j.value
  {
    CurrentIsLast(streamIds, generations, marker);
    CurrentIsLast(streamIds, generations, later);
    assert Started(generations[Current(streamIds, generations, marker).value], streamIds, later);
  }

  function DetailOf(details: seq<InputDetail>, streamId: string): Option<InputDetail> {
    if details == [] then None
    else if details[0].streamId == streamId then Some(details[0])
    else DetailOf(details[1..], streamId)
  }

  /** The addresses of all streams, or the first failure. Unknown streams fail before any stream is searched. */
  function AllAddresses(partitions: PartitionRange, marker: nat, streamIds: seq<string>, details: seq<InputDetail>)
      : Outcome<seq<Address>>
    requires partitions.start <= partitions.end
  {
    if exists i | 0 <= i < |streamIds| :: DetailOf(details, streamIds[i]).None?
    then Err("No input detail found for stream ID") else Concat(partitions, marker, streamIds, details)
  }

  function Concat(partitions: PartitionRange, marker: nat, streamIds: seq<string>, details: seq<InputDetail>)
      : Outcome<seq<Address>>
    requires partitions.start <= partitions.end
    requires forall i | 0 <= i < |streamIds| :: DetailOf(details, streamIds[i]).Some?
  {
    if streamIds == [] then Ok([])
    else
      var first := StreamAddresses(DetailOf(details, streamIds[0]).value, partitions, marker);
      if first.Err? then first
      else
        var rest := Concat(partitions, marker, streamIds[1..], details);
        if rest.Err? then rest else Ok(first.value + rest.value)
  }

  /** Entry `i` is the first one for the stream. */
  ghost predicate FirstFor(details: seq<InputDetail>, i: nat, streamId: string) {
    i < |details| && details[i].streamId == streamId && forall j | 0 <= j < i :: details[j].streamId != streamId
  }

  lemma {:induction false} DetailIsFirst(details: seq<InputDetail>, streamId: string, i: nat)
    ensures FirstFor(details, i, streamId) ==> DetailOf(details, streamId) == Some(details[i])
    ensures DetailOf(details, streamId).Some? ==> exists k: nat :: FirstFor(details, k, streamId)
  {
    if details != [] && details[0].streamId != streamId {
      var rest := details[1..];
      DetailIsFirst(rest, streamId, if i > 0 then i - 1 else 0);
      if FirstFor(details, i, streamId) {
        assert FirstFor(rest, i - 1, streamId);
      }
      if DetailOf(details, streamId).Some? {
        var k: nat :| FirstFor(rest, k, streamId);
        assert FirstFor(details, k + 1, streamId);
      }
    } else if details != [] {
      assert FirstFor(details, 0, streamId);
    }
  }

  /** The first entry for the stream exists, and the selection from its locations succeeds. */
  ghost predicate Selected(partitions: PartitionRange, marker: nat, streamId: string, details: seq<InputDetail>)
    requires partitions.start <= partitions.end
  {
    exists i: nat :: FirstFor(details, i, streamId) && StreamAddresses(details[i], partitions, marker).Ok?
  }

  /** A valid location in the first entry for the address's stream offers it. */
  ghost predicate Offered(partitions: PartitionRange, marker: nat, details: seq<InputDetail>, a: Address) {
    exists i: nat :: FirstFor(details, i, a.streamId) && OfferedBy(details[i].locations, partitions, marker, a)
  }

  lemma OneStream(partitions: PartitionRange, marker: nat, streamId: string, details: seq<InputDetail>, a: Address)
    requires partitions.start <= partitions.end && DetailOf(details, streamId).Some?
    ensures var first := StreamAddresses(DetailOf(details, streamId).value, partitions, marker);
            && (first.Ok? <==> Selected(partitions, marker, streamId, details))
            && (first.Ok? ==> (a in first.value <==> a.streamId == streamId && Offered(partitions, marker, details, a)))
  {
    DetailIsFirst(details, streamId, 0);
    var k: nat :| FirstFor(details, k, streamId);
    DetailIsFirst(details, streamId, k);
    SelectExactly(streamId, details[k].locations, partitions, marker, a);
  }

  lemma {:induction false} ConcatExactly(partitions: PartitionRange, marker: nat, streamIds: seq<string>,
                                         details: seq<InputDetail>, a: Address)
    requires partitions.start <= partitions.end
    requires forall i | 0 <= i < |streamIds| :: DetailOf(details, streamIds[i]).Some?
    ensures var all := Concat(partitions, marker, streamIds, details);
            && (all.Ok? <==> forall id | id in streamIds :: Selected(partitions, marker, id, details))
            && (all.Ok? ==> (a in all.value <==> a.streamId in streamIds && Offered(partitions, marker, details, a)))
  {
    if streamIds != [] {
      OneStream(partitions, marker, streamIds[0], details, a);
      ConcatExactly(partitions, marker, streamIds[1..], details, a);
      assert forall id :: id in streamIds <==> id == streamIds[0] || id in streamIds[1..];
    }
  }

  /**
   For every list of streams: the search succeeds if and only if each stream has an entry and the selection from its
   first one succeeds. It then returns exactly the addresses of the valid locations in these first entries, each with
   the stream's id and its part of the request.
   */
  lemma AddressesExactly(partitions: PartitionRange, marker: nat, streamIds: seq<string>, details: seq<InputDetail>,
                         a: Address)
    requires partitions.start <= partitions.end
    ensures var all := AllAddresses(partitions, marker, streamIds, details);
            && (all.Ok? <==> forall id | id in streamIds :: Selected(partitions, marker, id, details))
            && (all.Ok? ==> (a in all.value <==> a.streamId in streamIds && Offered(partitions, marker, details, a)))
  {
    if exists i | 0 <= i < |streamIds| :: DetailOf(details, streamIds[i]).None? {
      var i :| 0 <= i < |streamIds| && DetailOf(details, streamIds[i]).None?;
      assert !Selected(partitions, marker, streamIds[i], details) by {
        forall k: nat ensures !FirstFor(details, k, streamIds[i]) { DetailIsFirst(details, streamIds[i], k); }
      }
    } else {
      ConcatExactly(partitions, marker, streamIds, details, a);
    }
  }

  /** Some address of the stream serves the partition. */
  ghost predicate ServedTo(addresses: seq<Address>, streamId: string, x: nat) {
    exists a | a in addresses :: a.streamId == streamId && Spans(a.partitions, x)
  }

  /** So a requested partition of a stream is served if and only if a valid location of its first entry has it. */
  lemma AddressesServe(partitions: PartitionRange, marker: nat, streamIds: seq<string>, details: seq<InputDetail>,
                       i: nat, x: nat)
    requires partitions.start <= x < partitions.end && AllAddresses(partitions, marker, streamIds, details).Ok?
    requires i < |details| && FirstFor(details, i, details[i].streamId) && details[i].streamId in streamIds
    ensures ServedTo(AllAddresses(partitions, marker, streamIds, details).value, details[i].streamId, x) <==>
            Located(details[i].locations, marker, x)
  {
    var id, all := details[i].streamId, AllAddresses(partitions, marker, streamIds, details).value;
    if ServedTo(all, id, x) {
      var a :| a in all && a.streamId == id && Spans(a.partitions, x);
      AddressesExactly(partitions, marker, streamIds, details, a);
      var j: nat :| FirstFor(details, j, id) && OfferedBy(details[j].locations, partitions, marker, a);
      var k :| 0 <= k < |details[j].locations| && Offers(details[j].locations[k], partitions, marker, a);
      assert j == i && Has(details[i].locations[k], marker, x);
    }
    if Located(details[i].locations, marker, x) {
      var k :| 0 <= k < |details[i].locations| && Has(details[i].locations[k], marker, x);
      var location := details[i].locations[k];
      var a := Address(id, location.address, partitions.Intersection(location.partitions));
      assert Offers(location, partitions, marker, a);
      AddressesExactly(partitions, marker, streamIds, details, a);
      assert Offered(partitions, marker, details, a) && Spans(a.partitions, x);
    }
  }

  function AddressSet(addresses: seq<Address>): set<Address> {
    set a | a in addresses
  }

  /** Whether the fibres of a generation may go on past a marker. */
  function CheckGenerationAndAddresses(generations: Option<seq<Generation>>, details: Option<seq<InputDetail>>,
                                       streamIds: seq<string>, currentId: string, currentAddresses: seq<Address>,
                                       marker: nat): Outcome<FiberState>
    requires generations.Some? ==>
               forall i | 0 <= i < |generations.value| ::
                 generations.value[i].partitions.start <= generations.value[i].partitions.end
  {
    if generations.None? then Err("No initial generations were provided")
    else if details.None? then Err("No initial input_details were provided")
    else match Current(streamIds, generations.value, marker)
      case None => Err("No generation found for the current marker")
      case Some(i) =>
        CurrentIsLast(streamIds, generations.value, marker);
        var generation := generations.value[i];
        if generation.id != currentId then Ok(Pause)
        else
          var addresses := AllAddresses(generation.partitions, marker, streamIds, details.value);
          if addresses.Err? then Err(addresses.message)
          else if AddressSet(addresses.value) != AddressSet(currentAddresses) then Ok(Pause)
          else Ok(Continue)
  }

  ghost predicate UniqueIds(generations: seq<Generation>) {
    forall i, j | 0 <= i < j < |generations| :: generations[i].id != generations[j].id
  }

  /**
   Once the generation has moved on it never comes back: a fibre that started under generation `i` and is paused by a
   newer one at `marker` would be paused by a newer one at every later marker too, whatever the addresses are.
   */
  lemma PauseForGood(generations: seq<Generation>, details: seq<InputDetail>, streamIds: seq<string>,
                     currentAddresses: seq<Address>, start: nat, marker: nat, later: nat)
    requires UniqueIds(generations) && start <= marker <= later
    requires forall i | 0 <= i < |generations| :: generations[i].partitions.start <= generations[i].partitions.end
    requires Current(streamIds, generations, start).Some?
    ensures var i := Current(streamIds, generations, start).value;
            && i < |generations|
            && (Current(streamIds, generations, marker) != Some(i) ==>
                  CheckGenerationAndAddresses(Some(generations), Some(details), streamIds, generations[i].id,
                                              currentAddresses, later) == Ok(Pause))
  {
    CurrentIsLast(streamIds, generations, start);
    CurrentIsLast(streamIds, generations, later);
    CurrentMonotone(streamIds, generations, start, marker);
    CurrentMonotone(streamIds, generations, marker, later);
  }

  /** Nothing newer than generation `i` has reached its start, and `i` has. */
  ghost predicate Newest(generations: seq<Generation>, streamIds: seq<string>, i: nat, marker: nat)
    requires i < |generations|
  {
    && Threshold(generations[i].startConditions, streamIds) <= marker
    && forall j | i < j < |generations| :: marker < Threshold(generations[j].startConditions, streamIds)
  }

  lemma NewestIsCurrent(generations: seq<Generation>, streamIds: seq<string>, i: nat, marker: nat)
    requires i < |generations|
    ensures Newest(generations, streamIds, i, marker) <==> Current(streamIds, generations, marker) == Some(i)
  {
    CurrentIsLast(streamIds, generations, marker);
    forall j | 0 <= j < |generations|
      ensures Started(generations[j], streamIds, marker) <==>
              marker >= Threshold(generations[j].startConditions, streamIds)
    {
      StartedExactly(generations[j], streamIds, marker);
    }
  }

  /** The addresses are exactly those that valid locations of the streams offer for the request. */
  ghost predicate AreOffered(addresses: seq<Address>, partitions: PartitionRange, marker: nat, streamIds: seq<string>,
                             details: seq<InputDetail>)
  {
    forall a :: a in addresses <==> a.streamId in streamIds && Offered(partitions, marker, details, a)
  }

  lemma SameAddresses(addresses: seq<Address>, current: seq<Address>, partitions: PartitionRange, marker: nat,
                      streamIds: seq<string>, details: seq<InputDetail>)
    requires partitions.start <= partitions.end
    requires AllAddresses(partitions, marker, streamIds, details) == Ok(addresses)
    ensures AddressSet(addresses) == AddressSet(current) <==>
            AreOffered(current, partitions, marker, streamIds, details)
  {
    assert AreOffered(addresses, partitions, marker, streamIds, details) by {
      forall a ensures a in addresses <==> a.streamId in streamIds && Offered(partitions, marker, details, a) {
        AddressesExactly(partitions, marker, streamIds, details, a);
      }
    }
    assert forall a :: a in AddressSet(addresses) <==> a in addresses;
    assert forall a :: a in AddressSet(current) <==> a in current;
  }

  ghost predicate AllSelected(partitions: PartitionRange, marker: nat, streamIds: seq<string>,
                              details: seq<InputDetail>)
    requires partitions.start <= partitions.end
  {
    forall id | id in streamIds :: Selected(partitions, marker, id, details)
  }

  lemma OnlyNewest(generations: seq<Generation>, streamIds: seq<string>, marker: nat)
    ensures match Current(streamIds, generations, marker)
            case Some(i) =>
              && i < |generations|
              && forall j | 0 <= j < |generations| :: Newest(generations, streamIds, j, marker) <==> j == i
            case None => forall j | 0 <= j < |generations| :: !Newest(generations, streamIds, j, marker)
  {
    CurrentIsLast(streamIds, generations, marker);
    forall j | 0 <= j < |generations|
      ensures Newest(generations, streamIds, j, marker) <==> Current(streamIds, generations, marker) == Some(j)
    {
      NewestIsCurrent(generations, streamIds, j, marker);
    }
  }

  /** The decision for the newest generation that has started. */
  ghost predicate MayContinue(generation: Generation, details: seq<InputDetail>, streamIds: seq<string>,
                              currentId: string, currentAddresses: seq<Address>, marker: nat)
    requires generation.partitions.start <= generation.partitions.end
  {
    && generation.id == currentId
    && AllSelected(generation.partitions, marker, streamIds, details)
    && AreOffered(currentAddresses, generation.partitions, marker, streamIds, details)
  }

  ghost predicate MustPause(generation: Generation, details: seq<InputDetail>, streamIds: seq<string>,
                            currentId: string, currentAddresses: seq<Address>, marker: nat)
    requires generation.partitions.start <= generation.partitions.end
  {
    generation.id == currentId ==>
      && AllSelected(generation.partitions, marker, streamIds, details)
      && !AreOffered(currentAddresses, generation.partitions, marker, streamIds, details)
  }

  /**
   The fibres continue exactly when their generation is the newest one that has started, every stream has its
   locations, and the fibres read from exactly the addresses these offer. They pause exactly when the newest one that
   has started is another one, or every stream has its locations and these offer other addresses. In all other cases
   the check fails.
   */
  lemma ContinueExactly(generations: Option<seq<Generation>>, details: Option<seq<InputDetail>>, streamIds: seq<string>,
                        currentId: string, currentAddresses: seq<Address>, marker: nat)
    requires generations.Some? ==>
               forall i | 0 <= i < |generations.value| ::
                 generations.value[i].partitions.start <= generations.value[i].partitions.end
    ensures CheckGenerationAndAddresses(generations, details, streamIds, currentId, currentAddresses, marker) ==
              Ok(Continue) <==>
            && generations.Some? && details.Some?
            && exists i | 0 <= i < |generations.value| ::
                 && Newest(generations.value, streamIds, i, marker)
                 && MayContinue(generations.value[i], details.value, streamIds, currentId, currentAddresses, marker)
    ensures CheckGenerationAndAddresses(generations, details, streamIds, currentId, currentAddresses, marker) ==
              Ok(Pause) <==>
            && generations.Some? && details.Some?
            && exists i | 0 <= i < |generations.value| ::
                 && Newest(generations.value, streamIds, i, marker)
                 && MustPause(generations.value[i], details.value, streamIds, currentId, currentAddresses, marker)
  {
    if generations.Some? && details.Some? {
      OnlyNewest(generations.value, streamIds, marker);
      var current := Current(streamIds, generations.value, marker);
      if current.Some? {
        Decision(generations.value[current.value], details.value, streamIds, currentAddresses, marker);
      }
    }
  }

  lemma Decision(generation: Generation, details: seq<InputDetail>, streamIds: seq<string>,
                 currentAddresses: seq<Address>, marker: nat)
    requires generation.partitions.start <= generation.partitions.end
    ensures var addresses := AllAddresses(generation.partitions, marker, streamIds, details);
            && (addresses.Ok? <==> AllSelected(generation.partitions, marker, streamIds, details))
            && (addresses.Ok? ==>
                  (AddressSet(addresses.value) == AddressSet(currentAddresses) <==>
                   AreOffered(currentAddresses, generation.partitions, marker, streamIds, details)))
  {
    var partitions := generation.partitions;
    var addresses := AllAddresses(partitions, marker, streamIds, details);
    AddressesExactly(partitions, marker, streamIds, details, Address("", "", partitions));
    if addresses.Ok? { SameAddresses(addresses.value, currentAddresses, partitions, marker, streamIds, details); }
  }
}
