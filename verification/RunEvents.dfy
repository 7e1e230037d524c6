/** Projecting a stream of run events onto an investigation. */
module RunEvents {
  import opened Wrappers

  datatype RunState = Queued | Running | WaitingForInput | Completed | Failed | Cancelled

  datatype Item = Item(id: string, sequence: int, kind: string, message: string, timestamp: string,
                       authenticity: string)

  /** `state` and `safeSummary` are the payload's, where they are strings. */
  datatype StreamEvent = StreamEvent(eventId: string, sequence: int, eventType: string, timestamp: string,
                                     authenticity: string, state: Option<string>, safeSummary: Option<string>)

  datatype Run = Run(state: RunState, latestSequence: int)

  datatype Investigation = Investigation(run: Option<Run>, events: seq<Item>)

  function ParseState(text: string): Option<RunState> {
    if text == "queued" then Some(Queued)
    else if text == "running" then Some(Running)
    else if text == "waiting_for_input" then Some(WaitingForInput)
    else if text == "completed" then Some(Completed)
    else if text == "failed" then Some(Failed)
    else if text == "cancelled" then Some(Cancelled)
    else None
  }

  /** The run state an event carries, if it is one. */
  function CarriedState(e: StreamEvent): Option<RunState> {
    if e.state.Some? then ParseState(e.state.value) else None
  }

  function Spaced(kind: string): string {
    seq(|kind|, i requires 0 <= i < |kind| => if kind[i] == '.' then ' ' else kind[i])
  }

  function Stored(e: StreamEvent): Item {
    var message := if e.safeSummary.Some? then e.safeSummary.value else Spaced(e.eventType);
    Item(e.eventId, e.sequence, e.eventType, message, e.timestamp, e.authenticity)
  }

  /** Behind every item of the same or a smaller sequence. */
  function InsertStable(sorted: seq<Item>, item: Item): seq<Item> {
    if sorted == [] then [item]
    else
      var n := |sorted| - 1;
      if sorted[n].sequence <= item.sequence then sorted + [item]
      else InsertStable(sorted[..n], item) + [sorted[n]]
  }

  function StableSort(items: seq<Item>): seq<Item> {
    if items == [] then []
    else InsertStable(StableSort(items[..|items| - 1]), items[|items| - 1])
  }

  function Project(v: Investigation, e: StreamEvent): Investigation {
    var known := exists item | item in v.events :: item.id == e.eventId;
    var events := if known then v.events else StableSort(v.events + [Stored(e)]);
    var run :=
      match v.run
      case None => None
      case Some(r) =>
        var state := CarriedState(e);
        Some(Run(if state.Some? then state.value else r.state,
                 if e.sequence > r.latestSequence then e.sequence else r.latestSequence));
    Investigation(run, events)
  }

  function ProjectAll(v: Investigation, deliveries: seq<StreamEvent>): Investigation {
    if deliveries == [] then v
    else Project(ProjectAll(v, deliveries[..|deliveries| - 1]), deliveries[|deliveries| - 1])
  }

  // ---- What one event stores and carries

  /** The six names of run states, and no other text, carry a state. */
  lemma StatesAreNamed(e: StreamEvent)
    ensures CarriedState(e) == Some(Queued) <==> e.state == Some("queued")
    ensures CarriedState(e) == Some(Running) <==> e.state == Some("running")
    ensures CarriedState(e) == Some(WaitingForInput) <==> e.state == Some("waiting_for_input")
    ensures CarriedState(e) == Some(Completed) <==> e.state == Some("completed")
    ensures CarriedState(e) == Some(Failed) <==> e.state == Some("failed")
    ensures CarriedState(e) == Some(Cancelled) <==> e.state == Some("cancelled")
  {
  }

  /** A delivery that is not known yet is stored with its own id, sequence, type, time and authenticity; its
      message is its safe summary, or else its type with a space for every dot. */
  lemma DeliveryIsStored(v: Investigation, e: StreamEvent)
    requires forall item | item in v.events :: item.id != e.eventId
    ensures exists item | item in Project(v, e).events ::
              && item.id == e.eventId && item.sequence == e.sequence && item.kind == e.eventType
              && item.timestamp == e.timestamp && item.authenticity == e.authenticity
              && if e.safeSummary.Some? then item.message == e.safeSummary.value
                 else
                   && |item.message| == |e.eventType|
                   && forall i | 0 <= i < |e.eventType| ::
                        item.message[i] == if e.eventType[i] == '.' then ' ' else e.eventType[i]
  {
    var all := v.events + [Stored(e)];
    hide StableSort;
    SortSorts(all);
    assert Stored(e) == all[|v.events|];
    assert Stored(e) in multiset(all) && Stored(e) in multiset(StableSort(all));
  }

  /** A delivery that is known changes no item. */
  lemma KnownIsNotStored(v: Investigation, e: StreamEvent)
    requires exists item :: item in v.events && item.id == e.eventId
    ensures Project(v, e).events == v.events
  {
  }

  ghost predicate IsPlaceFor(sorted: seq<Item>, item: Item, k: nat) {
    && k <= |sorted|
    && (forall i | 0 <= i < k :: sorted[i].sequence <= item.sequence)
    && forall i | k <= i < |sorted| :: sorted[i].sequence > item.sequence
  }

  lemma AheadOfLast(front: seq<Item>, last: Item, item: Item, k: nat)
    requires IsPlaceFor(front, item, k) && last.sequence > item.sequence
    ensures IsPlaceFor(front + [last], item, k)
    ensures front[..k] + [item] + front[k..] + [last] == (front + [last])[..k] + [item] + (front + [last])[k..]
  {
  }

  lemma AtTheEnd(sorted: seq<Item>, item: Item)
    requires forall x | x in sorted :: x.sequence <= item.sequence
    ensures IsPlaceFor(sorted, item, |sorted|)
    ensures sorted[..|sorted|] + [item] + sorted[|sorted|..] == sorted + [item]
  {
    assert forall i | 0 <= i < |sorted| :: sorted[i] in sorted;
  }

  /** An item is inserted behind all of the same or a smaller sequence, and ahead of the larger ones. */
  lemma {:induction false} InsertedAt(sorted: seq<Item>, item: Item) returns (k: nat)
    requires IsSorted(sorted)
    ensures k <= |sorted| && IsPlaceFor(sorted, item, k)
    ensures InsertStable(sorted, item) == sorted[..k] + [item] + sorted[k..]
  {
    hide IsSorted, IsPlaceFor;
    k := |sorted|;
    if sorted == [] {
      AtTheEnd(sorted, item);
    } else {
      var n := |sorted| - 1;
      LastIsLargest(sorted);
      if sorted[n].sequence <= item.sequence {
        AtTheEnd(sorted, item);
      } else {
        k := InsertedAt(sorted[..n], item);
        assert sorted == sorted[..n] + [sorted[n]];
        AheadOfLast(sorted[..n], sorted[n], item, k);
      }
    }
  }

  // ---- Sorting

  ghost predicate IsSorted(items: seq<Item>) {
    forall i, j | 0 <= i < j < |items| :: items[i].sequence <= items[j].sequence
  }

  ghost predicate IsStrict(items: seq<Item>) {
    forall i, j | 0 <= i < j < |items| :: items[i].sequence < items[j].sequence
  }

  /** Appending an item no smaller than any other. */
  lemma AppendKeepsOrder(sorted: seq<Item>, item: Item)
    requires IsSorted(sorted) && forall x | x in sorted :: x.sequence <= item.sequence
    ensures IsSorted(sorted + [item])
  {
  }

  lemma LastIsLargest(sorted: seq<Item>)
    requires IsSorted(sorted) && sorted != []
    ensures forall x | x in sorted :: x.sequence <= sorted[|sorted| - 1].sequence
    ensures IsSorted(sorted[..|sorted| - 1])
  {
  }

  lemma {:induction false} InsertKeepsOrder(sorted: seq<Item>, item: Item)
    requires IsSorted(sorted)
    ensures IsSorted(InsertStable(sorted, item))
    ensures multiset(InsertStable(sorted, item)) == multiset(sorted) + multiset{item}
    ensures forall x | x in InsertStable(sorted, item) :: x in sorted || x == item
  {
    if sorted != [] {
      hide IsSorted;
      var n := |sorted| - 1;
      assert sorted == sorted[..n] + [sorted[n]];
      LastIsLargest(sorted);
      if sorted[n].sequence > item.sequence {
        InsertKeepsOrder(sorted[..n], item);
        AppendKeepsOrder(InsertStable(sorted[..n], item), sorted[n]);
      } else {
        AppendKeepsOrder(sorted, item);
      }
    }
  }

  lemma {:induction false} SortSorts(items: seq<Item>)
    ensures IsSorted(StableSort(items)) && multiset(StableSort(items)) == multiset(items)
  {
    hide InsertStable;
    if items != [] {
      hide IsSorted;
      var n := |items| - 1;
      SortSorts(items[..n]);
      InsertKeepsOrder(StableSort(items[..n]), items[n]);
      assert items == items[..n] + [items[n]];
    }
  }

  function Members(items: seq<Item>): set<Item> {
    set x | x in items
  }

  lemma SortKeepsMembers(items: seq<Item>)
    ensures Members(StableSort(items)) == Members(items)
  {
    SortSorts(items);
    assert forall x :: x in items <==> x in multiset(items);
    assert forall x :: x in StableSort(items) <==> x in multiset(StableSort(items));
  }

  /** A set of items has one strictly ascending listing. */
  lemma {:induction false} StrictListingIsUnique(a: seq<Item>, b: seq<Item>)
    requires IsStrict(a) && IsStrict(b) && Members(a) == Members(b)
    ensures a == b
  {
    LastIsMember(a);
    LastIsMember(b);
    if a != [] && b != [] {
      var m, n := |a| - 1, |b| - 1;
      LastIsGreatest(a, b[n]);
      LastIsGreatest(b, a[m]);
      assert a[m] == b[n];
      MembersWithoutLast(a);
      MembersWithoutLast(b);
      StrictListingIsUnique(a[..m], b[..n]);
      assert a == a[..m] + [a[m]] && b == b[..n] + [b[n]];
    }
  }

  lemma LastIsMember(a: seq<Item>)
    ensures a == [] <==> Members(a) == {}
    ensures a != [] ==> a[|a| - 1] in Members(a)
  {
    if a != [] {
      assert a[|a| - 1] in Members(a);
    }
  }

  lemma LastIsGreatest(a: seq<Item>, x: Item)
    requires IsStrict(a) && x in Members(a)
    ensures a != [] && (x == a[|a| - 1] || x.sequence < a[|a| - 1].sequence)
  {
  }

  lemma MembersWithoutLast(a: seq<Item>)
    requires IsStrict(a) && a != []
    ensures IsStrict(a[..|a| - 1]) && Members(a[..|a| - 1]) == Members(a) - {a[|a| - 1]}
  {
  }

  // ---- Convergence

  /** Within a set of items an id fixes the content, and no two share a sequence. */
  ghost predicate IsCoherent(items: set<Item>) {
    forall a, b | a in items && b in items && (a.id == b.id || a.sequence == b.sequence) :: a == b
  }

  function Delivered(deliveries: seq<StreamEvent>): set<Item> {
    set e | e in deliveries :: Stored(e)
  }

  lemma DeliveredStep(deliveries: seq<StreamEvent>)
    requires deliveries != []
    ensures var n := |deliveries| - 1;
            Delivered(deliveries) == Delivered(deliveries[..n]) + {Stored(deliveries[n])}
  {
  }

  lemma SortedCoherentIsStrict(items: seq<Item>)
    requires IsSorted(items) && IsCoherent(Members(items)) && forall i, j | 0 <= i < j < |items| :: items[i] != items[j]
    ensures IsStrict(items)
  {
  }

  lemma NewItemSorts(items: seq<Item>, item: Item)
    requires IsStrict(items) && item !in items && IsCoherent(Members(items) + {item})
    ensures IsStrict(StableSort(items + [item]))
    ensures Members(StableSort(items + [item])) == Members(items) + {item}
  {
    var all := items + [item];
    SortKeepsMembers(all);
    SortSorts(all);
    assert Members(all) == Members(items) + {item};
    NoRepeats(items, item, StableSort(all));
    SortedCoherentIsStrict(StableSort(all));
  }

  lemma RepeatCountsTwice(items: seq<Item>, i: nat, j: nat)
    requires i < j < |items| && items[i] == items[j]
    ensures multiset(items)[items[i]] >= 2
  {
    assert items == items[..j] + [items[j]] + items[j + 1..];
    assert items[..j][i] == items[i];
    assert multiset(items[..j])[items[i]] >= 1;
  }

  lemma NoRepeats(items: seq<Item>, item: Item, sorted: seq<Item>)
    requires IsStrict(items) && item !in items && multiset(sorted) == multiset(items + [item])
    ensures forall i, j | 0 <= i < j < |sorted| :: sorted[i] != sorted[j]
  {
    forall i, j | 0 <= i < j < |sorted|
      ensures sorted[i] != sorted[j]
    {
      StrictHasNoRepeats(items, sorted[i]);
      if sorted[i] == sorted[j] {
        RepeatCountsTwice(sorted, i, j);
      }
    }
  }

  lemma {:induction false} StrictHasNoRepeats(items: seq<Item>, x: Item)
    requires IsStrict(items)
    ensures multiset(items)[x] <= 1
  {
    if items != [] {
      var n := |items| - 1;
      assert items == items[..n] + [items[n]];
      StrictHasNoRepeats(items[..n], x);
      if items[n] == x {
        assert x !in items[..n];
      }
    }
  }

  /** One delivery adds its item, or finds it there. */
  lemma ProjectionAdds(v: Investigation, e: StreamEvent)
    requires IsStrict(v.events) && IsCoherent(Members(v.events) + {Stored(e)})
    ensures IsStrict(Project(v, e).events)
    ensures Members(Project(v, e).events) == Members(v.events) + {Stored(e)}
  {
    hide StableSort;
    var item := Stored(e);
    if exists known | known in v.events :: known.id == item.id {
      var known :| known in v.events && known.id == item.id;
      assert known in Members(v.events);
      assert known == item;
    } else {
      NewItemSorts(v.events, item);
    }
  }

  /** Delivering coherent events keeps the list strictly sorted and adds exactly their items. */
  lemma {:induction false} ProjectionCollects(v: Investigation, deliveries: seq<StreamEvent>)
    requires IsStrict(v.events) && IsCoherent(Members(v.events) + Delivered(deliveries))
    ensures IsStrict(ProjectAll(v, deliveries).events)
    ensures Members(ProjectAll(v, deliveries).events) == Members(v.events) + Delivered(deliveries)
  {
    if deliveries == [] {
      assert Delivered(deliveries) == {};
    } else {
      hide Project, IsStrict, Members, Delivered, Stored;
      var n := |deliveries| - 1;
      DeliveredStep(deliveries);
      var before := ProjectAll(v, deliveries[..n]);
      ProjectionCollects(v, deliveries[..n]);
      assert Members(before.events) + {Stored(deliveries[n])} == Members(v.events) + Delivered(deliveries);
      ProjectionAdds(before, deliveries[n]);
    }
  }

  /** The largest sequence seen. */
  function Newest(latest: int, deliveries: seq<StreamEvent>): int {
    if deliveries == [] then latest
    else
      var before := Newest(latest, deliveries[..|deliveries| - 1]);
      var e := deliveries[|deliveries| - 1];
      if e.sequence > before then e.sequence else before
  }

  lemma {:induction false} NewestIsLeastBound(latest: int, deliveries: seq<StreamEvent>)
    ensures Newest(latest, deliveries) >= latest
    ensures forall item | item in Delivered(deliveries) :: item.sequence <= Newest(latest, deliveries)
    ensures Newest(latest, deliveries) == latest
         || exists item :: item in Delivered(deliveries) && item.sequence == Newest(latest, deliveries)
  {
    if deliveries != [] {
      var n := |deliveries| - 1;
      DeliveredStep(deliveries);
      NewestIsLeastBound(latest, deliveries[..n]);
      assert Stored(deliveries[n]).sequence == deliveries[n].sequence;
      assert Stored(deliveries[n]) in Delivered(deliveries);
    }
  }

  /** The state carried last, else the one before. */
  function LastCarried(state: RunState, deliveries: seq<StreamEvent>): RunState {
    if deliveries == [] then state
    else
      var e := deliveries[|deliveries| - 1];
      if CarriedState(e).Some? then CarriedState(e).value else LastCarried(state, deliveries[..|deliveries| - 1])
  }

  lemma {:induction false} ProjectedRun(v: Investigation, deliveries: seq<StreamEvent>)
    ensures ProjectAll(v, deliveries).run
         == match v.run
            case None => None
            case Some(r) => Some(Run(LastCarried(r.state, deliveries), Newest(r.latestSequence, deliveries)))
  {
    if deliveries != [] {
      ProjectedRun(v, deliveries[..|deliveries| - 1]);
    }
  }

  lemma SameNewest(latest: int, a: seq<StreamEvent>, b: seq<StreamEvent>)
    requires Delivered(a) == Delivered(b)
    ensures Newest(latest, a) == Newest(latest, b)
  {
    NewestIsLeastBound(latest, a);
    NewestIsLeastBound(latest, b);
  }

  /** The latest sequence is the largest of the one before and all delivered. */
  lemma LatestIsLargest(v: Investigation, deliveries: seq<StreamEvent>)
    requires v.run.Some?
    ensures ProjectAll(v, deliveries).run.Some?
    ensures var before, latest := v.run.value.latestSequence, ProjectAll(v, deliveries).run.value.latestSequence;
            && before <= latest && (forall e | e in deliveries :: e.sequence <= latest)
            && (latest == before || exists e :: e in deliveries && e.sequence == latest)
  {
    ProjectedRun(v, deliveries);
    NewestIsLeastBound(v.run.value.latestSequence, deliveries);
    hide ProjectAll, Newest;
    forall e | e in deliveries
      ensures e.sequence <= ProjectAll(v, deliveries).run.value.latestSequence
    {
      assert Stored(e) in Delivered(deliveries) && Stored(e).sequence == e.sequence;
    }
  }

  /** Reordered or repeated deliveries of the same coherent events leave the same strictly sorted,
      duplicate-free list and the same latest sequence. */
  lemma DeliveriesConverge(v: Investigation, a: seq<StreamEvent>, b: seq<StreamEvent>)
    requires IsStrict(v.events) && Delivered(a) == Delivered(b) && IsCoherent(Members(v.events) + Delivered(a))
    ensures var x, y := ProjectAll(v, a), ProjectAll(v, b);
            && x.events == y.events && IsStrict(x.events)
            && Members(x.events) == Members(v.events) + Delivered(a)
            && (v.run.Some? ==> x.run.Some? && y.run.Some? && x.run.value.latestSequence == y.run.value.latestSequence)
  {
    ProjectionCollects(v, a);
    ProjectionCollects(v, b);
    StrictListingIsUnique(ProjectAll(v, a).events, ProjectAll(v, b).events);
    ProjectedRun(v, a);
    ProjectedRun(v, b);
    if v.run.Some? {
      SameNewest(v.run.value.latestSequence, a, b);
    }
  }

  /** No delivery is older than the one before; repeats are allowed. */
  ghost predicate InOrder(deliveries: seq<StreamEvent>) {
    forall i, j | 0 <= i < j < |deliveries| :: deliveries[i].sequence <= deliveries[j].sequence
  }

  /** Events with one sequence that carry a state carry the same one. */
  ghost predicate OneStateASequence(deliveries: seq<StreamEvent>) {
    forall e, f |
      && e in deliveries && f in deliveries && e.sequence == f.sequence
      && CarriedState(e).Some? && CarriedState(f).Some? ::
      CarriedState(e) == CarriedState(f)
  }

  lemma {:induction false} LastCarriedIsCarried(state: RunState, deliveries: seq<StreamEvent>) returns (at: int)
    ensures -1 <= at < |deliveries|
    ensures forall i | at < i < |deliveries| :: CarriedState(deliveries[i]).None?
    ensures at == -1 ==> LastCarried(state, deliveries) == state
    ensures at >= 0 ==> CarriedState(deliveries[at]) == Some(LastCarried(state, deliveries))
  {
    if deliveries == [] {
      at := -1;
    } else if CarriedState(deliveries[|deliveries| - 1]).Some? {
      at := |deliveries| - 1;
    } else {
      at := LastCarriedIsCarried(state, deliveries[..|deliveries| - 1]);
    }
  }

  /** Delivered in order, with any repeats, the run ends in the state of the highest sequence that carries
      one. */
  lemma InOrderStateIsNewest(v: Investigation, deliveries: seq<StreamEvent>, e: StreamEvent)
    requires v.run.Some? && InOrder(deliveries) && OneStateASequence(deliveries)
    requires e in deliveries && CarriedState(e).Some?
    requires forall f | f in deliveries && CarriedState(f).Some? :: f.sequence <= e.sequence
    ensures ProjectAll(v, deliveries).run.Some?
    ensures ProjectAll(v, deliveries).run.value.state == CarriedState(e).value
  {
    hide CarriedState, LastCarried, ProjectAll;
    ProjectedRun(v, deliveries);
    var at := LastCarriedIsCarried(v.run.value.state, deliveries);
    var k :| 0 <= k < |deliveries| && deliveries[k] == e;
    assert at >= k && deliveries[at] in deliveries;
    assert deliveries[at].sequence == e.sequence;
  }

  // ---- The run state

  /** Every state carried is the same one. */
  ghost predicate CarriesOneState(deliveries: seq<StreamEvent>) {
    forall e, f | e in deliveries && f in deliveries && CarriedState(e).Some? && CarriedState(f).Some? ::
      CarriedState(e) == CarriedState(f)
  }

  /** Some permutation of the deliveries ends with `e`, and leaves the state `e` carries. */
  lemma DeliveredLast(state: RunState, deliveries: seq<StreamEvent>, e: StreamEvent) returns (moved: seq<StreamEvent>)
    requires e in deliveries && CarriedState(e).Some?
    ensures multiset(moved) == multiset(deliveries)
    ensures LastCarried(state, moved) == CarriedState(e).value
  {
    hide CarriedState;
    var i :| 0 <= i < |deliveries| && deliveries[i] == e;
    var others := deliveries[..i] + deliveries[i + 1..];
    moved := others + [e];
    assert deliveries == deliveries[..i] + [e] + deliveries[i + 1..];
    assert moved[..|moved| - 1] == others;
  }

  /** Deliveries of the same events that carry one state leave the same state. */
  lemma OneStateIsLeft(state: RunState, a: seq<StreamEvent>, b: seq<StreamEvent>)
    requires CarriesOneState(a) && EventsOf(a) == EventsOf(b)
    ensures LastCarried(state, a) == LastCarried(state, b)
  {
    hide CarriedState, LastCarried;
    assert forall e :: e in a <==> e in EventsOf(a);
    assert forall e :: e in b <==> e in EventsOf(b);
    var i := LastCarriedIsCarried(state, a);
    var j := LastCarriedIsCarried(state, b);
    if i >= 0 {
      assert a[i] in b;
    }
    if j >= 0 {
      assert b[j] in a;
    }
  }

  function EventsOf(deliveries: seq<StreamEvent>): set<StreamEvent> {
    set e | e in deliveries
  }

  lemma SameRun(v: Investigation, a: seq<StreamEvent>, b: seq<StreamEvent>)
    requires CarriesOneState(a) && EventsOf(a) == EventsOf(b)
    ensures ProjectAll(v, b).run == ProjectAll(v, a).run
  {
    ProjectedRun(v, a);
    ProjectedRun(v, b);
    if v.run.Some? {
      OneStateIsLeft(v.run.value.state, a, b);
      assert Delivered(a) == set e | e in EventsOf(a) :: Stored(e);
      assert Delivered(b) == set e | e in EventsOf(b) :: Stored(e);
      SameNewest(v.run.value.latestSequence, a, b);
    }
  }

  lemma SameEvents(a: seq<StreamEvent>, b: seq<StreamEvent>)
    requires multiset(a) == multiset(b)
    ensures EventsOf(a) == EventsOf(b)
  {
    assert forall e :: e in a <==> e in multiset(a);
    assert forall e :: e in b <==> e in multiset(b);
  }

  /** Two different states carried can each be the one left. */
  lemma SomeOrderDiffers(v: Investigation, a: seq<StreamEvent>) returns (b: seq<StreamEvent>)
    requires v.run.Some? && !CarriesOneState(a)
    ensures multiset(b) == multiset(a) && ProjectAll(v, b).run != ProjectAll(v, a).run
  {
    hide CarriedState;
    var e, f :|
      e in a && f in a && CarriedState(e).Some? && CarriedState(f).Some? && CarriedState(e) != CarriedState(f);
    var x := DeliveredLast(v.run.value.state, a, e);
    var y := DeliveredLast(v.run.value.state, a, f);
    ProjectedRun(v, a);
    ProjectedRun(v, x);
    ProjectedRun(v, y);
    b := if ProjectAll(v, x).run != ProjectAll(v, a).run then x else y;
  }

  /** The run ends alike in every order of the deliveries, and also with any of them repeated, exactly when
      no two of them carry different states. */
  lemma StateConvergesIff(v: Investigation, a: seq<StreamEvent>)
    requires v.run.Some?
    ensures CarriesOneState(a)
       <==> forall b | multiset(b) == multiset(a) :: ProjectAll(v, b).run == ProjectAll(v, a).run
    ensures CarriesOneState(a)
       <==> forall b | EventsOf(b) == EventsOf(a) :: ProjectAll(v, b).run == ProjectAll(v, a).run
  {
    hide CarriesOneState, EventsOf, ProjectAll;
    if CarriesOneState(a) {
      forall b | EventsOf(b) == EventsOf(a)
        ensures ProjectAll(v, b).run == ProjectAll(v, a).run
      {
        SameRun(v, a, b);
      }
      forall b | multiset(b) == multiset(a)
        ensures ProjectAll(v, b).run == ProjectAll(v, a).run
      {
        SameEvents(b, a);
      }
    } else {
      var b := SomeOrderDiffers(v, a);
      SameEvents(b, a);
    }
  }

  /** Two coherent events of one run that end it in a state older than the newest carried, if swapped. */
  lemma StateDependsOnOrder() returns (v: Investigation, e: StreamEvent, f: StreamEvent)
    ensures v.run.Some? && IsCoherent(Delivered([e, f])) && e.sequence < f.sequence
    ensures ProjectAll(v, [e, f]).run == Some(Run(Completed, f.sequence))
    ensures ProjectAll(v, [f, e]).run == Some(Run(Running, f.sequence))
  {
    v := Investigation(Some(Run(Queued, 0)), []);
    e := StreamEvent("e", 1, "run.updated", "2026-01-01T00:00:00Z", "collected", Some("running"), None);
    f := StreamEvent("f", 2, "run.updated", "2026-01-01T00:00:01Z", "collected", Some("completed"), None);
    assert CarriedState(e) == Some(Running) && CarriedState(f) == Some(Completed);
    assert Stored(e).id == "e" && Stored(f).id == "f";
    hide CarriedState, ProjectAll, LastCarried, Newest, Stored;
    ProjectedRun(v, [e, f]);
    ProjectedRun(v, [f, e]);
    LastOfTwo(0, Queued, e, f);
    LastOfTwo(0, Queued, f, e);
    TwoAreCoherent(e, f);
  }

  lemma TwoAreCoherent(e: StreamEvent, f: StreamEvent)
    requires e.eventId != f.eventId && e.sequence != f.sequence
    ensures IsCoherent(Delivered([e, f]))
  {
    assert Delivered([e, f]) == {Stored(e), Stored(f)};
  }

  lemma LastOfTwo(latest: int, state: RunState, e: StreamEvent, f: StreamEvent)
    requires CarriedState(f).Some? && latest < e.sequence && latest < f.sequence
    ensures LastCarried(state, [e, f]) == CarriedState(f).value
    ensures Newest(latest, [e, f]) == if e.sequence < f.sequence then f.sequence else e.sequence
  {
    assert [e, f][..1] == [e] && [e][..0] == [];
    assert Newest(latest, [e]) == e.sequence;
  }
}
