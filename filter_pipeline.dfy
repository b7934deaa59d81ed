/** The filter pipeline of a signal view: `ReorderableObservableCollection`
    holding `SignalFilterViewModel`s, and `SignalFiltersPipelineViewModel`,
    which adds, removes and cleans them up. The collection and its items
    refer to each other (an item's `Reorderer` is its collection), so they
    share one module. */
module FilterPipeline {
  import opened Wrappers
  import Documents
  import SignalFilters

  /** `List<T>.IndexOf`: the first index of `x`, or -1. */
  function IndexOf<X(==)>(s: seq<X>, x: X): (r: int)
    ensures -1 <= r < |s|
    ensures r == -1 <==> x !in s
    ensures 0 <= r ==> s[r] == x && x !in s[..r]
  {
    if s == [] then -1
    else if s[0] == x then 0
    else
      var r := IndexOf(s[1..], x);
      assert s[1..][..if r < 0 then 0 else r] == s[1..1 + if r < 0 then 0 else r];
      if r < 0 then -1 else 1 + r
  }

  /** `Collection<T>.Remove`: without the first occurrence of `x`. */
  function Without<X(==)>(s: seq<X>, x: X): (r: seq<X>)
    ensures x in s ==> |r| == |s| - 1
    ensures x !in s ==> r == s
  {
    var i := IndexOf(s, x);
    if i < 0 then s else s[..i] + s[i + 1..]
  }

  /** `Collection<T>.Insert`. */
  function InsertAt<X>(s: seq<X>, i: nat, x: X): (r: seq<X>)
    requires i <= |s|
    ensures |r| == |s| + 1 && r[i] == x
    ensures r[..i] == s[..i] && r[i + 1..] == s[i..]
  {
    s[..i] + [x] + s[i..]
  }

  predicate Distinct<X(==)>(s: seq<X>)
  {
    forall i, j :: 0 <= i < j < |s| ==> s[i] != s[j]
  }

  /** Taking `x` out and putting it back at `index`, as the collection's
      `MoveUp` and `MoveDown` do. */
  function Moved<X(==)>(s: seq<X>, x: X, index: nat): seq<X>
    requires index <= |Without(s, x)|
  {
    InsertAt(Without(s, x), index, x)
  }

  /** Without repeats, an item's first index is its index. */
  lemma IndexOfDistinct<X>(s: seq<X>, k: nat)
    requires Distinct(s) && k < |s|
    ensures IndexOf(s, s[k]) == k
  {
    var r := IndexOf(s, s[k]);
    assert r == k by {
      assert s[r] == s[k];
    }
  }

  /** Moving the item at `i + 1` to `i` exchanges the two neighbours and
      leaves the rest; so does moving the item at `i` to `i + 1`. */
  lemma MovedSwaps<X>(s: seq<X>, i: nat)
    requires Distinct(s) && i + 1 < |s|
    ensures Moved(s, s[i + 1], i) == s[..i] + [s[i + 1], s[i]] + s[i + 2..]
    ensures Moved(s, s[i], i + 1) == s[..i] + [s[i + 1], s[i]] + s[i + 2..]
  {
    MovedUpSwaps(s, i);
    MovedDownSwaps(s, i);
  }

  lemma MovedUpSwaps<X>(s: seq<X>, i: nat)
    requires Distinct(s) && i + 1 < |s|
    ensures Moved(s, s[i + 1], i) == s[..i] + [s[i + 1], s[i]] + s[i + 2..]
  {
    IndexOfDistinct(s, i + 1);
    var w := s[..i + 1] + s[i + 2..];
    assert Without(s, s[i + 1]) == w;
    assert Moved(s, s[i + 1], i) == w[..i] + [s[i + 1]] + w[i..];
    ReinsertedUp(s, i);
  }

  /** The sequence algebra of `MovedUpSwaps`. */
  lemma ReinsertedUp<X>(s: seq<X>, i: nat)
    requires i + 1 < |s|
    ensures var w := s[..i + 1] + s[i + 2..];
            w[..i] + [s[i + 1]] + w[i..] == s[..i] + [s[i + 1], s[i]] + s[i + 2..]
  {
    var w := s[..i + 1] + s[i + 2..];
    assert w[..i] == s[..i];
    assert w[i..] == [s[i]] + s[i + 2..];
  }

  lemma MovedDownSwaps<X>(s: seq<X>, i: nat)
    requires Distinct(s) && i + 1 < |s|
    ensures Moved(s, s[i], i + 1) == s[..i] + [s[i + 1], s[i]] + s[i + 2..]
  {
    IndexOfDistinct(s, i);
    var w := s[..i] + s[i + 1..];
    assert Without(s, s[i]) == w;
    assert Moved(s, s[i], i + 1) == w[..i + 1] + [s[i]] + w[i + 1..];
    ReinsertedDown(s, i);
  }

  /** The sequence algebra of `MovedDownSwaps`. */
  lemma ReinsertedDown<X>(s: seq<X>, i: nat)
    requires i + 1 < |s|
    ensures var w := s[..i] + s[i + 1..];
            w[..i + 1] + [s[i]] + w[i + 1..] == s[..i] + [s[i + 1], s[i]] + s[i + 2..]
  {
    var w := s[..i] + s[i + 1..];
    assert w[..i + 1] == s[..i] + [s[i + 1]];
    assert w[i + 1..] == s[i + 2..];
  }

  /** A move keeps the same items. */
  lemma MovedPermutes<X>(s: seq<X>, x: X, index: nat)
    requires x in s && index <= |Without(s, x)|
    ensures multiset(Moved(s, x, index)) == multiset(s)
  {
    var i := IndexOf(s, x);
    var w := Without(s, x);
    calc {
      multiset(s);
      { assert s == s[..i] + [x] + s[i + 1..]; }
      multiset(s[..i]) + multiset{x} + multiset(s[i + 1..]);
      multiset(w) + multiset{x};
      { assert w == w[..index] + w[index..]; }
      multiset(w[..index]) + multiset{x} + multiset(w[index..]);
      multiset(Moved(s, x, index));
    }
  }

  /** Exchanging two neighbours keeps a list without repeats. */
  lemma SwapKeepsDistinct<X>(s: seq<X>, i: nat)
    requires Distinct(s) && i + 1 < |s|
    ensures Distinct(s[..i] + [s[i + 1], s[i]] + s[i + 2..])
  {
    var t := s[..i] + [s[i + 1], s[i]] + s[i + 2..];
    forall a, b | 0 <= a < b < |t|
      ensures t[a] != t[b]
    {
      var sa := if a == i then i + 1 else if a == i + 1 then i else a;
      var sb := if b == i then i + 1 else if b == i + 1 then i else b;
      assert t[a] == s[sa] && t[b] == s[sb] && sa != sb;
    }
  }

  /** Moving an item up and then down again restores the order. */
  lemma MoveUpThenDown<X>(s: seq<X>, i: nat)
    requires Distinct(s) && 0 < i < |s|
    ensures var up := Moved(s, s[i], i - 1);
            Distinct(up) && up[i - 1] == s[i] && Moved(up, s[i], i) == s
  {
    MovedSwaps(s, i - 1);
    SwapKeepsDistinct(s, i - 1);
    var up := s[..i - 1] + [s[i], s[i - 1]] + s[i + 1..];
    SwapTwice(s, i - 1);
    assert up[i - 1] == s[i];
    MovedSwaps(up, i - 1);
  }

  /** Exchanging the same two neighbours twice gives the list back. */
  lemma SwapTwice<X>(s: seq<X>, j: nat)
    requires j + 1 < |s|
    ensures var t := s[..j] + [s[j + 1], s[j]] + s[j + 2..];
            |t| == |s| && t[j] == s[j + 1] && t[j + 1] == s[j] &&
            t[..j] + [t[j + 1], t[j]] + t[j + 2..] == s
  {
    var t := s[..j] + [s[j + 1], s[j]] + s[j + 2..];
    assert t[..j] == s[..j] && t[j + 2..] == s[j + 2..];
    Recompose(s, j);
  }

  lemma Recompose<X>(s: seq<X>, j: nat)
    requires j + 1 < |s|
    ensures s == s[..j] + [s[j], s[j + 1]] + s[j + 2..]
  {
    var t := s[..j] + [s[j], s[j + 1]] + s[j + 2..];
    assert |t| == |s|;
    forall k | 0 <= k < |s|
      ensures t[k] == s[k]
    {
      if k < j {
        assert t[k] == s[..j][k];
      } else if k >= j + 2 {
        assert t[k] == s[j + 2..][k - j - 2];
      }
    }
  }

  /** A handler's place in an event's invocation list. */
  class Subscription {
    var attached: bool

    constructor ()
      ensures attached
    {
      attached := true;
    }
  }

  /** The four `IReorderable` flags. */
  datatype Placement = Placement(isFirst: bool, isLast: bool, canMoveUp: bool, canMoveDown: bool)

  /** The flags `UpdateReorderables` gives the item at `i` of `n`. */
  function PlacementAt(i: nat, n: nat): (p: Placement)
    ensures p.canMoveUp <==> !p.isFirst
    ensures i < n ==> (p.canMoveDown <==> !p.isLast)
  {
    Placement(i == 0, i == n - 1, i > 0, i < n - 1)
  }

  /** The flags the `foreach` of `UpdateReorderables` sets before the ends
      are corrected. */
  const Middle := Placement(false, false, true, true)

  class SignalFilterViewModel {
    const root: Documents.FileManager
    const signalFilter: SignalFilters.SignalFilter
    var isFirst: bool
    var isLast: bool
    var canMoveUp: bool
    var canMoveDown: bool
    var canMove: bool
    var reorderer: ReorderableCollection?
    /** The view model's handler in the filter's `ConfigurationChanged`
        invocation list. */
    const handler: Subscription

    function Flags(): Placement
      reads this
    {
      Placement(isFirst, isLast, canMoveUp, canMoveDown)
    }

    /** `CanMove` follows the two move flags. */
    predicate Coherent()
      reads this
    {
      canMove == (canMoveUp || canMoveDown)
    }

    /** In the source a null filter throws `ArgumentNullException`; the
        datatype has no null. */
    constructor (root: Documents.FileManager, signalFilter: SignalFilters.SignalFilter)
      ensures this.root == root && this.signalFilter == signalFilter
      ensures Flags() == Placement(false, false, false, false) && Coherent()
      ensures reorderer == null && handler.attached && fresh(handler)
    {
      this.root := root;
      this.signalFilter := signalFilter;
      isFirst, isLast, canMoveUp, canMoveDown, canMove := false, false, false, false, false;
      reorderer := null;
      handler := new Subscription();
    }

    method SetIsFirst(value: bool)
      modifies this
      ensures Flags() == old(Flags()).(isFirst := value)
      ensures canMove == old(canMove) && reorderer == old(reorderer)
    {
      isFirst := value;
    }

    method SetIsLast(value: bool)
      modifies this
      ensures Flags() == old(Flags()).(isLast := value)
      ensures canMove == old(canMove) && reorderer == old(reorderer)
    {
      isLast := value;
    }

    /** The `CanMoveUp` setter recomputes `CanMove` only when the value
        changes. */
    method SetCanMoveUp(value: bool)
      modifies this
      ensures Flags() == old(Flags()).(canMoveUp := value)
      ensures canMove == if old(canMoveUp) != value then value || canMoveDown else old(canMove)
      ensures reorderer == old(reorderer)
      ensures old(Coherent()) ==> Coherent()
    {
      if canMoveUp != value {
        canMoveUp := value;
        canMove := canMoveUp || canMoveDown;
      }
    }

    method SetCanMoveDown(value: bool)
      modifies this
      ensures Flags() == old(Flags()).(canMoveDown := value)
      ensures canMove == if old(canMoveDown) != value then canMoveUp || value else old(canMove)
      ensures reorderer == old(reorderer)
      ensures old(Coherent()) ==> Coherent()
    {
      if canMoveDown != value {
        canMoveDown := value;
        canMove := canMoveUp || canMoveDown;
      }
    }

    /** The four setters one after the other. */
    method Place(p: Placement)
      requires Coherent()
      modifies this
      ensures Flags() == p && Coherent()
      ensures reorderer == old(reorderer)
    {
      SetIsFirst(p.isFirst);
      SetIsLast(p.isLast);
      SetCanMoveUp(p.canMoveUp);
      SetCanMoveDown(p.canMoveDown);
    }

    /** The `ConfigurationChanged` handler: the document becomes modified
        while the handler is subscribed. */
    method OnConfigurationChanged()
      modifies root
      ensures handler.attached ==> root.isModified && root.filename == old(root.filename)
      ensures handler.attached ==> root.trace == old(root.trace) + Documents.ModifiedChange(old(root.isModified), true)
      ensures !handler.attached ==> unchanged(root)
    {
      if handler.attached {
        root.SetIsModified(true);
      }
    }

    method ProcessValue(time: real, value: real) returns (r: real)
      requires SignalFilters.Defined(signalFilter.State(), time)
      modifies signalFilter.Objects()
      ensures (signalFilter.State(), r) == SignalFilters.Step(old(signalFilter.State()), time, value)
    {
      r := SignalFilters.ProcessValue(signalFilter, time, value);
    }

    /** The move-up command: asks the reorderer, if there is one. */
    method MoveUp() returns (moved: bool)
      requires reorderer != null ==> reorderer.Valid()
      modifies reorderer, if reorderer == null then [] else reorderer.items, this
      modifies if reorderer == null then null else reorderer.handlerRoot
      ensures reorderer == null ==> !moved
      ensures reorderer == old(reorderer) && (reorderer != null ==> reorderer.Valid())
      ensures moved <==> old(reorderer) != null && this in old(reorderer.items) && IndexOf(old(reorderer.items), this) >= 1
      ensures moved ==> var i := IndexOf(old(reorderer.items), this);
                        reorderer.items == old(reorderer.items[..i - 1] + [this, reorderer.items[i - 1]] + reorderer.items[i + 1..])
      ensures moved && reorderer.handlerRoot != null ==> reorderer.handlerRoot.isModified
    {
      moved := false;
      if reorderer != null {
        var collection := reorderer;
        moved := collection.MoveUp(this);
        if moved {
          collection.NotifySubscriber();
        }
      }
    }

    /** The move-down command, through the corrected guard (see
        `ReorderableCollection.MoveDownAsWritten`). */
    method MoveDown() returns (moved: bool)
      requires reorderer != null ==> reorderer.Valid()
      modifies reorderer, if reorderer == null then [] else reorderer.items, this
      modifies if reorderer == null then null else reorderer.handlerRoot
      ensures reorderer == null ==> !moved
      ensures reorderer == old(reorderer) && (reorderer != null ==> reorderer.Valid())
      ensures moved <==> old(reorderer) != null && this in old(reorderer.items) && IndexOf(old(reorderer.items), this) < |old(reorderer.items)| - 1
      ensures moved ==> var i := IndexOf(old(reorderer.items), this);
                        reorderer.items == old(reorderer.items[..i] + [reorderer.items[i + 1], this] + reorderer.items[i + 2..])
      ensures moved && reorderer.handlerRoot != null ==> reorderer.handlerRoot.isModified
    {
      moved := false;
      if reorderer != null {
        var collection := reorderer;
        moved := collection.MoveDown(this);
        if moved {
          collection.NotifySubscriber();
        }
      }
    }

    /** `Cleanup`: unsubscribes from the filter; disposing a filter only
        closes its configuration window. */
    method Cleanup()
      modifies handler
      ensures !handler.attached
    {
      handler.attached := false;
    }
  }

  /** Removing an item from a list without repeats shifts the items after
      it down by one. */
  lemma WithoutShifts<X>(s: seq<X>, x: X, k: nat)
    requires x in s && k < |s| - 1
    ensures Without(s, x)[k] == if k < IndexOf(s, x) then s[k] else s[k + 1]
  {
  }

  /** ... and leaves a list without repeats that lacks exactly `x`. */
  lemma WithoutKeepsOthers<X>(s: seq<X>, x: X)
    requires Distinct(s)
    ensures var w := Without(s, x);
            Distinct(w) && x !in w && (forall y :: y in w <==> y in s && y != x)
  {
    var i := IndexOf(s, x);
    if 0 <= i {
      var w := Without(s, x);
      forall a, b | 0 <= a < b < |w|
        ensures w[a] != w[b]
      {
        WithoutShifts(s, x, a);
        WithoutShifts(s, x, b);
      }
      forall y | y in w
        ensures y in s && y != x
      {
        var j :| 0 <= j < |w| && w[j] == y;
        WithoutShifts(s, x, j);
        IndexOfDistinct(s, i);
      }
      forall y | y in s && y != x
        ensures y in w
      {
        var j :| 0 <= j < |s| && s[j] == y;
        WithoutShifts(s, x, if j < i then j else j - 1);
      }
    }
  }

  lemma InsertKeepsDistinct<X>(s: seq<X>, i: nat, x: X)
    requires Distinct(s) && x !in s && i <= |s|
    ensures Distinct(InsertAt(s, i, x))
    ensures forall y :: y in InsertAt(s, i, x) <==> y in s || y == x
  {
    var r := InsertAt(s, i, x);
    assert forall k :: 0 <= k < |r| ==> r[k] == if k < i then s[k] else if k == i then x else s[k - 1];
    forall y | y in s
      ensures y in r
    {
      var j :| 0 <= j < |s| && s[j] == y;
      assert r[if j < i then j else j + 1] == y;
    }
  }

  /** `ReorderableObservableCollection<SignalFilterViewModel>`. */
  class ReorderableCollection {
    var items: seq<SignalFilterViewModel>
    /** The `ChildReordered` events raised so far, as (old index, new index). */
    var reorderings: seq<(int, int)>
    /** The document the `ChildReordered` subscriber marks modified, or null
        when nobody is subscribed. */
    var handlerRoot: Documents.FileManager?

    /** Every item is there once, knows its collection and carries the
        flags of its position. */
    predicate Valid()
      reads this`items, items
    {
      WellPlaced(items, this)
    }

    static predicate WellPlaced(items: seq<SignalFilterViewModel>, owner: ReorderableCollection)
      reads items
    {
      && Distinct(items)
      && forall i :: 0 <= i < |items| ==>
           items[i].Coherent() && items[i].reorderer == owner && items[i].Flags() == PlacementAt(i, |items|)
    }

    constructor ()
      ensures items == [] && reorderings == [] && handlerRoot == null && Valid()
    {
      items := [];
      reorderings := [];
      handlerRoot := null;
    }

    /** The `ChildReordered` subscriber, run at the end of a successful move:
        it marks the document modified. */
    method NotifySubscriber()
      modifies handlerRoot
      ensures handlerRoot != null ==> handlerRoot.isModified && handlerRoot.filename == old(handlerRoot.filename)
      ensures handlerRoot != null ==> handlerRoot.trace == old(handlerRoot.trace) + Documents.ModifiedChange(old(handlerRoot.isModified), true)
    {
      if handlerRoot != null {
        handlerRoot.SetIsModified(true);
      }
    }

    /** `ChildReordered +=` of a subscriber that marks `root` modified. */
    method Subscribe(root: Documents.FileManager?)
      modifies this
      ensures handlerRoot == root && items == old(items) && reorderings == old(reorderings)
    {
      handlerRoot := root;
    }

    /** `UpdateReorderables`: with `reset` (`Items`) every item first gets the
        middle flags and this collection as its reorderer; then the ends are
        corrected. Without it (after a removal) only the ends are. */
    method UpdateReorderables(reset: bool)
      requires Distinct(items)
      requires forall i :: 0 <= i < |items| ==> items[i].Coherent()
      requires !reset ==> forall i :: 0 <= i < |items| ==> items[i].reorderer == this
      requires !reset ==> forall i :: 0 < i < |items| - 1 ==> items[i].Flags() == Middle
      modifies items
      ensures Valid()
    {
      if reset {
        var i := 0;
        while i < |items|
          invariant 0 <= i <= |items|
          invariant forall k :: 0 <= k < |items| ==> items[k].Coherent()
          invariant forall k :: 0 <= k < i ==> items[k].Flags() == Middle && items[k].reorderer == this
        {
          items[i].Place(Middle);
          items[i].reorderer := this;
          i := i + 1;
        }
      }
      var n := |items|;
      if n == 0 {
        return;
      }
      if n == 1 {
        items[0].Place(PlacementAt(0, 1));
      } else {
        items[0].Place(PlacementAt(0, n));
        items[n - 1].Place(PlacementAt(n - 1, n));
      }
    }

    /** `Insert`: the collection-changed notification resets every item. */
    method Insert(index: nat, item: SignalFilterViewModel)
      requires Valid() && item !in items && index <= |items| && item.Coherent()
      modifies this, items, item
      ensures items == InsertAt(old(items), index, item) && Valid()
      ensures reorderings == old(reorderings) && handlerRoot == old(handlerRoot)
    {
      InsertKeepsDistinct(items, index, item);
      items := InsertAt(items, index, item);
      UpdateReorderables(true);
    }

    /** `Add`: an insertion at the end. */
    method Add(item: SignalFilterViewModel)
      requires Valid() && item !in items && item.Coherent()
      modifies this, items, item
      ensures items == old(items) + [item] && Valid()
      ensures reorderings == old(reorderings) && handlerRoot == old(handlerRoot)
    {
      Insert(|items|, item);
    }

    /** `Remove`: the notification of a removal corrects only the new ends,
        and the removed item keeps its flags and its reorderer. */
    method Remove(item: SignalFilterViewModel) returns (removed: bool)
      requires Valid()
      modifies this, items
      ensures removed <==> item in old(items)
      ensures items == Without(old(items), item) && Valid()
      ensures reorderings == old(reorderings) && handlerRoot == old(handlerRoot)
      ensures unchanged(item)
    {
      var i := IndexOf(items, item);
      if i < 0 {
        return false;
      }
      RemoveAt(i);
      removed := true;
    }

    /** `RemoveItem` at a known index. */
    method RemoveAt(i: nat)
      requires Valid() && i < |items|
      modifies this, items
      ensures items == old(items[..i] + items[i + 1..]) && Valid()
      ensures reorderings == old(reorderings) && handlerRoot == old(handlerRoot)
      ensures unchanged(old(items[i]))
    {
      var before := items;
      items := before[..i] + before[i + 1..];
      forall k | 0 <= k < |items|
        ensures items[k] == before[if k < i then k else k + 1]
      {
      }
      forall k | 0 <= k < |items|
        ensures items[k].Coherent() && items[k].reorderer == this && items[k] != before[i]
        ensures 0 < k < |items| - 1 ==> items[k].Flags() == Middle
      {
        var j := if k < i then k else k + 1;
        assert before[j].Flags() == PlacementAt(j, |before|);
      }
      assert Distinct(items) by {
        forall a, b | 0 <= a < b < |items|
          ensures items[a] != items[b]
        {
          assert items[a] == before[if a < i then a else a + 1];
          assert items[b] == before[if b < i then b else b + 1];
        }
      }
      UpdateReorderables(false);
    }

    /** `Clear`: the reset notification finds no items to update. */
    method Clear()
      modifies this
      ensures items == [] && Valid()
      ensures reorderings == old(reorderings) && handlerRoot == old(handlerRoot)
    {
      items := [];
    }

    /** The body shared by `MoveUp` and `MoveDown` before the event, for
        an item at index `i`: `Remove` (which finds it there), then insert
        at the new index. */
    method ReinsertAt(item: SignalFilterViewModel, i: nat, newIndex: nat)
      requires Valid() && i < |items| && items[i] == item && newIndex < |items|
      modifies this, items, item
      ensures Valid() && items == Moved(old(items), item, newIndex) && item.reorderer == this
      ensures reorderings == old(reorderings) && handlerRoot == old(handlerRoot)
    {
      IndexOfDistinct(items, i);
      RemoveAt(i);
      Insert(newIndex, item);
      assert items[newIndex] == item;
    }

    /** The move of the item at `i` to `i - 1` and its event. */
    method SwapUp(item: SignalFilterViewModel, i: nat)
      requires Valid() && 0 < i < |items| && items[i] == item
      modifies this, items, item
      ensures Valid() && handlerRoot == old(handlerRoot) && item.reorderer == this
      ensures items == old(items[..i - 1] + [items[i], items[i - 1]] + items[i + 1..])
      ensures reorderings == old(reorderings) + [(i, i - 1)]
    {
      MovedUpSwaps(items, i - 1);
      ReinsertAt(item, i, i - 1);
      RaiseChildReordered(i, i - 1);
    }

    /** The move of the item at `i` to `i + 1` and its event. */
    method SwapDown(item: SignalFilterViewModel, i: nat)
      requires Valid() && i + 1 < |items| && items[i] == item
      modifies this, items, item
      ensures Valid() && handlerRoot == old(handlerRoot) && item.reorderer == this
      ensures items == old(items[..i] + [items[i + 1], items[i]] + items[i + 2..])
      ensures reorderings == old(reorderings) + [(i, i + 1)]
    {
      MovedDownSwaps(items, i);
      ReinsertAt(item, i, i + 1);
      RaiseChildReordered(i, i + 1);
    }

    /** `ChildReordered` is raised. */
    method RaiseChildReordered(oldIndex: int, newIndex: nat)
      requires Valid()
      modifies this
      ensures Valid() && items == old(items)
      ensures reorderings == old(reorderings) + [(oldIndex, newIndex)] && handlerRoot == old(handlerRoot)
    {
      reorderings := reorderings + [(oldIndex, newIndex)];
    }

    /** `MoveUp`: an item that can move up and is not at the front trades
        places with the item before it. */
    method MoveUp(item: SignalFilterViewModel) returns (moved: bool)
      requires Valid()
      modifies this, items, item
      ensures Valid() && handlerRoot == old(handlerRoot) && item.reorderer == old(item.reorderer)
      ensures moved <==> item in old(items) && IndexOf(old(items), item) >= 1
      ensures moved ==> var i := IndexOf(old(items), item);
                        && items == old(items[..i - 1] + [items[i], items[i - 1]] + items[i + 1..])
                        && reorderings == old(reorderings) + [(i, i - 1)]
      ensures !moved ==> unchanged(this, item)
    {
      if !item.canMoveUp {
        return false;
      }
      var oldIndex := IndexOf(items, item);
      if oldIndex < 1 {
        return false;
      }
      SwapUp(item, oldIndex);
      moved := true;
    }

    /** `MoveDown` with the guard `oldIndex < 0 || oldIndex >= Count - 1`:
        an item that can move down and is not last trades places with the
        item after it, and an item of no collection stays out. */
    method MoveDown(item: SignalFilterViewModel) returns (moved: bool)
      requires Valid()
      modifies this, items, item
      ensures Valid() && handlerRoot == old(handlerRoot) && item.reorderer == old(item.reorderer)
      ensures moved <==> item in old(items) && IndexOf(old(items), item) < |old(items)| - 1
      ensures moved ==> var i := IndexOf(old(items), item);
                        && items == old(items[..i] + [items[i + 1], items[i]] + items[i + 2..])
                        && reorderings == old(reorderings) + [(i, i + 1)]
      ensures !moved ==> unchanged(this, item)
    {
      if !item.canMoveDown {
        return false;
      }
      var oldIndex := IndexOf(items, item);
      if oldIndex < 0 || oldIndex >= |items| - 1 {
        return false;
      }
      SwapDown(item, oldIndex);
      moved := true;
    }

    /** `MoveDown` as the source guards it, `oldIndex >= Count - 1` alone:
        `IndexOf` gives -1 for an item that is not in the collection, which
        passes the guard whenever the collection is not empty, and the item
        is then inserted at the front. */
    method MoveDownAsWritten(item: SignalFilterViewModel) returns (moved: bool)
      requires Valid() && item.Coherent()
      modifies this, items, item
      ensures Valid() && handlerRoot == old(handlerRoot)
      ensures moved <==> old(item.canMoveDown) && IndexOf(old(items), item) < |old(items)| - 1
      ensures moved && item in old(items) ==> var i := IndexOf(old(items), item);
                        && items == old(items[..i] + [items[i + 1], items[i]] + items[i + 2..])
                        && reorderings == old(reorderings) + [(i, i + 1)]
      ensures moved && item !in old(items) ==> items == [item] + old(items) && reorderings == old(reorderings) + [(-1, 0)]
      ensures !moved ==> unchanged(this, item)
    {
      if !item.canMoveDown {
        return false;
      }
      var oldIndex := IndexOf(items, item);
      if oldIndex >= |items| - 1 {
        return false;
      }
      if 0 <= oldIndex {
        SwapDown(item, oldIndex);
      } else {
        PrependAbsent(item);
      }
      moved := true;
    }

    /** The path of `MoveDownAsWritten` for an item of no collection:
        `Remove` finds nothing, `InsertItem(-1 + 1, item)` puts it in front
        and the event reports the move from -1 to 0. */
    method PrependAbsent(item: SignalFilterViewModel)
      requires Valid() && item !in items && item.Coherent()
      modifies this, items, item
      ensures Valid() && handlerRoot == old(handlerRoot)
      ensures items == [item] + old(items) && reorderings == old(reorderings) + [(-1, 0)]
    {
      Insert(0, item);
      RaiseChildReordered(-1, 0);
    }
  }

  /** Every filter of the list keeps its state in objects of its own. */
  predicate FiltersApart(items: seq<SignalFilterViewModel>)
  {
    forall i, j :: 0 <= i < j < |items| ==> items[i].signalFilter.Objects() !! items[j].signalFilter.Objects()
  }

  /** Every view model of the list has a handler of its own. */
  predicate HandlersApart(items: seq<SignalFilterViewModel>)
  {
    forall i, j :: 0 <= i < j < |items| ==> items[i].handler != items[j].handler
  }

  /** Every view model of the list reports to `root`. */
  predicate Reporting(items: seq<SignalFilterViewModel>, root: Documents.FileManager)
  {
    forall vm :: vm in items ==> vm.root == root
  }

  /** A selection outside the list has a handler none of the list shares. */
  predicate SelectionApart(items: seq<SignalFilterViewModel>, selected: SignalFilterViewModel?)
  {
    selected != null && selected !in items ==> forall vm :: vm in items ==> vm.handler != selected.handler
  }

  /** What the pipeline keeps of its list, apart from the list's own
      invariant. */
  predicate Kept(items: seq<SignalFilterViewModel>, root: Documents.FileManager, selected: SignalFilterViewModel?)
  {
    Reporting(items, root) && FiltersApart(items) && HandlersApart(items) && SelectionApart(items, selected)
  }

  /** A fresh view model keeps the list's filters and handlers apart. */
  lemma AppendApart(items: seq<SignalFilterViewModel>, vm: SignalFilterViewModel)
    requires FiltersApart(items) && HandlersApart(items)
    requires forall x :: x in items ==> x.handler != vm.handler && x.signalFilter.Objects() !! vm.signalFilter.Objects()
    ensures FiltersApart(items + [vm]) && HandlersApart(items + [vm])
  {
    var t := items + [vm];
    forall i, j | 0 <= i < j < |t|
      ensures t[i].signalFilter.Objects() !! t[j].signalFilter.Objects() && t[i].handler != t[j].handler
    {
      if j == |items| {
        assert t[i] in items;
      } else {
        assert t[i] == items[i] && t[j] == items[j];
      }
    }
  }

  /** Taking a view model out keeps the others apart, and apart from it. */
  lemma WithoutApart(items: seq<SignalFilterViewModel>, vm: SignalFilterViewModel)
    requires Distinct(items) && FiltersApart(items) && HandlersApart(items)
    requires vm in items
    ensures var w := Without(items, vm);
            FiltersApart(w) && HandlersApart(w) && forall x :: x in w ==> x.handler != vm.handler
  {
    var i := IndexOf(items, vm);
    var w := Without(items, vm);
    forall k | 0 <= k < |w|
      ensures w[k] == items[if k < i then k else k + 1]
    {
      WithoutShifts(items, vm, k);
    }
    forall x | x in w
      ensures x.handler != vm.handler
    {
      var k :| 0 <= k < |w| && w[k] == x;
      var j := if k < i then k else k + 1;
      assert items[j] == x && j != i;
    }
  }

  /** What the list keeps apart still holds once `vm` is taken out, and
      `vm` is then a selection outside it. */
  lemma RemovalApart(items: seq<SignalFilterViewModel>, root: Documents.FileManager, vm: SignalFilterViewModel)
    requires Distinct(items) && Kept(items, root, vm)
    ensures Kept(Without(items, vm), root, vm)
    ensures forall x :: x in Without(items, vm) ==> x in items && x.handler != vm.handler
  {
    WithoutKeepsOthers(items, vm);
    if vm in items {
      WithoutApart(items, vm);
    }
  }

  /** `SignalFiltersPipelineViewModel`. */
  class PipelineViewModel {
    const root: Documents.FileManager
    const availableSignalFilterFactories: seq<SignalFilters.SignalFilterFactory>
    const signalFilters: ReorderableCollection
    var selectedSignalFilterFactory: Option<SignalFilters.SignalFilterFactory>
    var selectedSignalFilter: SignalFilterViewModel?
    var addEnabled: bool
    var removeEnabled: bool
    var configureEnabled: bool

    /** The commands are enabled exactly when there is something to act on,
        and every filter in the list reports to this document. */
    predicate Valid()
      reads this, signalFilters, signalFilters.items
    {
      && signalFilters.Valid()
      && signalFilters.handlerRoot == root
      && addEnabled == selectedSignalFilterFactory.Some?
      && removeEnabled == (selectedSignalFilter != null)
      && configureEnabled == (selectedSignalFilter != null)
      && Kept(signalFilters.items, root, selectedSignalFilter)
    }

    /** The commands start disabled; the new collection's `ChildReordered`
        marks the document modified. The source's null check of the view
        selector, which it only stores, is not modelled. */
    constructor (root: Documents.FileManager, factories: seq<SignalFilters.SignalFilterFactory>)
      ensures this.root == root && availableSignalFilterFactories == factories
      ensures signalFilters.items == [] && fresh(signalFilters)
      ensures selectedSignalFilterFactory == None && selectedSignalFilter == null
      ensures !addEnabled && !removeEnabled && !configureEnabled
      ensures Valid()
    {
      this.root := root;
      availableSignalFilterFactories := factories;
      var collection := new ReorderableCollection();
      collection.Subscribe(root);
      signalFilters := collection;
      selectedSignalFilterFactory := None;
      selectedSignalFilter := null;
      addEnabled, removeEnabled, configureEnabled := false, false, false;
    }

    /** The `SelectedSignalFilterFactory` setter. */
    method SetSelectedSignalFilterFactory(factory: Option<SignalFilters.SignalFilterFactory>)
      requires Valid()
      modifies this
      ensures Valid() && selectedSignalFilterFactory == factory && addEnabled == factory.Some?
      ensures selectedSignalFilter == old(selectedSignalFilter)
    {
      selectedSignalFilterFactory := factory;
      addEnabled := selectedSignalFilterFactory.Some?;
    }

    /** The `SelectedSignalFilter` setter; the list box it is bound to
        offers the items of the list, or nothing. */
    method SetSelectedSignalFilter(vm: SignalFilterViewModel?)
      requires Valid() && (vm == null || vm in signalFilters.items)
      modifies this
      ensures Valid() && selectedSignalFilter == vm
      ensures removeEnabled == (vm != null) && configureEnabled == (vm != null)
      ensures selectedSignalFilterFactory == old(selectedSignalFilterFactory)
    {
      selectedSignalFilter := vm;
      removeEnabled := selectedSignalFilter != null;
      configureEnabled := selectedSignalFilter != null;
    }

    /** The new view model of `AddSelectedFilter`, with this list as its
        reorderer. */
    method NewFilterViewModel(factory: SignalFilters.SignalFilterFactory) returns (vm: SignalFilterViewModel)
      ensures fresh(vm) && fresh(vm.handler) && fresh(vm.signalFilter.Objects())
      ensures vm.root == root && vm.handler.attached && vm.Coherent() && vm.reorderer == signalFilters
      ensures vm.signalFilter.Factory() == factory && vm.signalFilter.State() == SignalFilters.InitialState(factory)
    {
      var filter := SignalFilters.ProduceSignalFilter(factory);
      vm := new SignalFilterViewModel(root, filter);
      vm.reorderer := signalFilters;
    }

    /** `AddSelectedFilter`: a new filter of the selected kind at the end of
        the list, and the document becomes modified. */
    method AddSelectedFilter()
      requires Valid()
      modifies signalFilters, signalFilters.items, root
      ensures Valid()
      ensures old(selectedSignalFilterFactory).None? ==> unchanged(signalFilters, root)
      ensures old(selectedSignalFilterFactory).None? ==> signalFilters.items == old(signalFilters.items)
      ensures old(selectedSignalFilterFactory).Some? ==>
                var n := |old(signalFilters.items)|;
                var factory := old(selectedSignalFilterFactory).value;
                && |signalFilters.items| == n + 1
                && signalFilters.items[..n] == old(signalFilters.items)
                && fresh(signalFilters.items[n])
                && signalFilters.items[n].signalFilter.Factory() == factory
                && signalFilters.items[n].handler.attached
                && root.isModified
    {
      if selectedSignalFilterFactory.None? {
        return;
      }
      AppendNew(selectedSignalFilterFactory.value);
      root.SetIsModified(true);
    }

    /** The first step of `AddSelectedFilter`: a new view model of a filter
        of `factory` joins the end of the list. */
    method AppendNew(factory: SignalFilters.SignalFilterFactory)
      requires Valid()
      modifies signalFilters, signalFilters.items
      ensures Valid()
      ensures var n := |old(signalFilters.items)|;
              && |signalFilters.items| == n + 1
              && signalFilters.items[..n] == old(signalFilters.items)
              && fresh(signalFilters.items[n])
              && signalFilters.items[n].signalFilter.Factory() == factory
              && signalFilters.items[n].handler.attached
    {
      var vm := NewFilterViewModel(factory);
      ghost var before := signalFilters.items;
      assert forall x :: x in before ==> x.handler != vm.handler && x.signalFilter.Objects() !! vm.signalFilter.Objects();
      AppendApart(before, vm);
      signalFilters.Add(vm);
      assert Kept(signalFilters.items, root, selectedSignalFilter);
    }

    /** `RemoveSelectedFilter`: the selected filter's handler is detached,
        the filter leaves the list, and the document becomes modified; the
        selection itself is kept. */
    method RemoveSelectedFilter()
      requires Valid()
      modifies signalFilters, signalFilters.items, root
      modifies if selectedSignalFilter == null then {} else {selectedSignalFilter.handler}
      ensures Valid()
      ensures selectedSignalFilter == null ==> unchanged(signalFilters, root)
      ensures selectedSignalFilter != null ==>
                && signalFilters.items == Without(old(signalFilters.items), selectedSignalFilter)
                && !selectedSignalFilter.handler.attached
                && root.isModified
    {
      if selectedSignalFilter == null {
        return;
      }
      DetachSelected();
      root.SetIsModified(true);
    }

    /** The first two steps of `RemoveSelectedFilter`, for a selection:
        the handler is detached and the filter leaves the list. */
    method DetachSelected()
      requires Valid() && selectedSignalFilter != null
      modifies signalFilters, signalFilters.items, selectedSignalFilter.handler
      ensures Valid()
      ensures signalFilters.items == Without(old(signalFilters.items), selectedSignalFilter)
      ensures !selectedSignalFilter.handler.attached
    {
      var vm := selectedSignalFilter;
      RemovalApart(signalFilters.items, root, vm);
      vm.Cleanup();
      assert signalFilters.Valid();
      var _ := signalFilters.Remove(vm);
      assert Kept(signalFilters.items, root, selectedSignalFilter);
    }

    /** `Cleanup`: the list's subscriber is detached, every filter view model
        is cleaned up, and the list is emptied. */
    method Cleanup()
      requires Valid()
      modifies signalFilters, set vm | vm in signalFilters.items :: vm.handler
      ensures signalFilters.items == [] && signalFilters.handlerRoot == null
      ensures signalFilters.reorderings == old(signalFilters.reorderings)
      ensures forall vm :: vm in old(signalFilters.items) ==> !vm.handler.attached
    {
      signalFilters.Subscribe(null);
      var items := signalFilters.items;
      var i := 0;
      while i < |items|
        invariant 0 <= i <= |items| && signalFilters.items == items && signalFilters.handlerRoot == null
        invariant signalFilters.reorderings == old(signalFilters.reorderings)
        invariant forall k :: 0 <= k < i ==> !items[k].handler.attached
      {
        items[i].Cleanup();
        i := i + 1;
      }
      signalFilters.Clear();
    }
  }

  /** A list of two fresh filter view models. */
  method TwoFilters() returns (list: ReorderableCollection, a: SignalFilterViewModel, b: SignalFilterViewModel)
    ensures list.Valid() && a != b && list.items == [a, b] && list.reorderings == []
    ensures fresh(list) && fresh(a) && fresh(b) && a.Coherent() && a.Flags() == PlacementAt(0, 2)
  {
    var root := new Documents.FileManager();
    list := new ReorderableCollection();
    a := new SignalFilterViewModel(root, SignalFilters.InverserFilter);
    b := new SignalFilterViewModel(root, SignalFilters.InverserFilter);
    list.Add(a);
    list.Add(b);
    assert list.items[0] == a;
  }

  /** Two filters, the first removed: it keeps the flags of a first item,
      so `MoveDownAsWritten` lets it through and puts it back at the
      front, raising `ChildReordered` from index -1. */
  method RemovedFilterReturns() returns (list: ReorderableCollection, a: SignalFilterViewModel, b: SignalFilterViewModel)
    ensures list.Valid() && a != b
    ensures list.items == [a, b] && list.reorderings == [(-1, 0)]
  {
    list, a, b := TwoFilters();
    var removed := list.Remove(a);
    assert list.items == [b];
    var moved := list.MoveDownAsWritten(a);
  }

  /** The same steps through the corrected `MoveDown` leave the list as
      the removal left it. */
  method RemovedFilterStaysOut() returns (list: ReorderableCollection, a: SignalFilterViewModel, b: SignalFilterViewModel)
    ensures list.Valid() && a != b
    ensures list.items == [b] && list.reorderings == []
  {
    list, a, b := TwoFilters();
    var removed := list.Remove(a);
    assert list.items == [b];
    var moved := list.MoveDown(a);
  }
}
