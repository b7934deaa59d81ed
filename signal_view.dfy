/** `SignalView`: the view of one component of a multi-component data
    source.  It observes arrays of samples and re-publishes the component
    at `ComponentIndex` to its own observers. */
module SignalViews {
  import opened Wrappers
  import opened Multicast

  datatype ViewFault = IndexOutOfRange

  class SignalView {
    const Name: string
    const ComponentIndex: int
    /** The provider side that `SignalView` inherits. */
    const observable: MulticastObservable<real>

    constructor (name: string, index: int)
      ensures Name == name && ComponentIndex == index
      ensures fresh(observable) && observable.Valid() && !observable.isDone
      ensures observable.observers == [] && observable.log == []
    {
      Name := name;
      ComponentIndex := index;
      observable := new MulticastObservable<real>();
    }

    /** Forwards the selected component; an index outside the array throws
        before anything is delivered. */
    method OnNext(value: seq<real>) returns (r: Outcome<ViewFault>)
      requires observable.Valid()
      modifies observable
      ensures observable.Valid()
      ensures r.Fail? <==> !(0 <= ComponentIndex < |value|)
      ensures r.Fail? ==> unchanged(observable)
      ensures r.Pass? && !old(observable.isDone) ==>
                && observable.observers == RemoveEach(old(observable.observers), old(observable.unsubscriptionList))
                && observable.unsubscriptionList == []
                && observable.log == old(observable.log) + Deliver(observable.observers, Next(value[ComponentIndex]))
      ensures r.Pass? && old(observable.isDone) ==> unchanged(observable)
      ensures observable.isDone == old(observable.isDone) && observable.subscribed == old(observable.subscribed)
    {
      if !(0 <= ComponentIndex < |value|) {
        return Fail(IndexOutOfRange);
      }
      observable.NotifyNext(value[ComponentIndex]);
      r := Pass;
    }

    method OnCompleted()
      requires observable.Valid()
      modifies observable
      ensures observable.Valid() && observable.isDone && observable.observers == []
      ensures !old(observable.isDone) ==>
                observable.log == old(observable.log)
                  + Deliver(RemoveEach(old(observable.observers), old(observable.unsubscriptionList)), Completed)
      ensures old(observable.isDone) ==> unchanged(observable)
      ensures observable.unsubscriptionList == [] && observable.subscribed == old(observable.subscribed)
    {
      observable.NotifyCompleted();
    }

    method OnError(error: nat)
      requires observable.Valid()
      modifies observable
      ensures observable.Valid() && observable.isDone && observable.observers == []
      ensures !old(observable.isDone) ==>
                observable.log == old(observable.log)
                  + Deliver(RemoveEach(old(observable.observers), old(observable.unsubscriptionList)), Error(error))
      ensures old(observable.isDone) ==> unchanged(observable)
      ensures observable.unsubscriptionList == [] && observable.subscribed == old(observable.subscribed)
    {
      observable.NotifyError(error);
    }
  }

  /** Two vectors in a row: the view's subscribers receive the first
      projected component, then the second, each in subscription order. */
  method OnNextTwice(view: SignalView, first: seq<real>, second: seq<real>)
    requires view.observable.Valid() && !view.observable.isDone
    requires 0 <= view.ComponentIndex < |first| && 0 <= view.ComponentIndex < |second|
    modifies view.observable
    ensures view.observable.observers
         == RemoveEach(old(view.observable.observers), old(view.observable.unsubscriptionList))
    ensures view.observable.log == old(view.observable.log)
              + Deliver(view.observable.observers, Next(first[view.ComponentIndex]))
              + Deliver(view.observable.observers, Next(second[view.ComponentIndex]))
  {
    var r1 := view.OnNext(first);
    var r2 := view.OnNext(second);
  }
}
