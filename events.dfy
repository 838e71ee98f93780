// What the facade emits: notifications to listeners, fanned out in the fixed order of
// MegaApi::fireOn* (Source/MEGASync/sdk/megaapi.cpp:2964-3171).
module Events {
  import opened Wrappers
  import opened Records

  /** The least element of a non-empty set of integers. */
  function Least(s: set<int>): (m: int)
    requires s != {}
    ensures m in s && forall x :: x in s ==> m <= x
  {
    LeastExists(s);
    var m :| m in s && forall x :: x in s ==> m <= x;
    m
  }

  /** A set with no element is the empty set. */
  lemma EmptyOrHasElement(s: set<int>)
    ensures s == {} || exists y :: y in s
  {
    if forall y :: y !in s {
      assert s == {};
    }
  }

  lemma {:induction false} LeastExists(s: set<int>)
    requires s != {}
    ensures exists m :: m in s && forall x :: x in s ==> m <= x
    decreases |s|
  {
    EmptyOrHasElement(s);
    var y :| y in s;
    var rest := s - {y};
    if rest == {} {
      assert s == {y};
      assert forall x :: x in s ==> y <= x;
    } else {
      LeastExists(rest);
      var m :| m in rest && forall x :: x in rest ==> m <= x;
      var least := if y < m then y else m;
      forall x | x in s ensures least <= x {
        if x != y {
          assert x in rest;
        }
      }
      assert least in s;
    }
  }

  /** Concatenation regroups freely. */
  lemma Concat<T>(a: seq<T>, b: seq<T>, c: seq<T>)
    ensures a + b + c == a + (b + c)
  {
  }

  /** What a listener is told. */
  datatype Event =
    | RequestStart(request: Request)
    | RequestFinish(request: Request, error: int)
    | RequestTemporaryError(request: Request, error: int)
    | TransferStart(transfer: Transfer)
    | TransferUpdate(transfer: Transfer)
    | TransferFinish(transfer: Transfer, error: int)
    | TransferTemporaryError(transfer: Transfer, error: int)
    | UsersUpdate
    | NodesUpdate
    | ReloadNeeded
    | SyncStateChanged

  /** One delivery of an event to one listener. */
  datatype Notice = Notice(listener: ListenerId, event: Event)

  /**
   * The deliveries of `ev` to every listener of a set, in the set's iteration order: a
   * std::set of pointers is walked in increasing address order.
   */
  function Deliver(listeners: set<ListenerId>, ev: Event): seq<Notice>
    decreases |listeners|
  {
    if listeners == {} then []
    else
      var l := Least(listeners);
      [Notice(l, ev)] + Deliver(listeners - {l}, ev)
  }

  /** One delivery per listener of the set. */
  lemma {:induction false} DeliverLength(listeners: set<ListenerId>, ev: Event)
    ensures |Deliver(listeners, ev)| == |listeners|
    decreases |listeners|
  {
    if listeners != {} {
      DeliverLength(listeners - {Least(listeners)}, ev);
    }
  }

  /** Every delivery carries `ev`, and goes to a listener of the set. */
  lemma {:induction false} DeliverSound(listeners: set<ListenerId>, ev: Event)
    ensures forall n :: n in Deliver(listeners, ev) ==> n.event == ev && n.listener in listeners
    decreases |listeners|
  {
    if listeners != {} {
      var l := Least(listeners);
      DeliverSound(listeners - {l}, ev);
    }
  }

  /** Every listener of the set is told `ev`. */
  lemma {:induction false} DeliverComplete(listeners: set<ListenerId>, ev: Event)
    ensures forall l :: l in listeners ==> Notice(l, ev) in Deliver(listeners, ev)
    decreases |listeners|
  {
    if listeners != {} {
      var m := Least(listeners);
      var rest := listeners - {m};
      DeliverComplete(rest, ev);
      forall l | l in listeners ensures Notice(l, ev) in Deliver(listeners, ev) {
        if l != m {
          assert l in rest;
          assert Notice(l, ev) in Deliver(rest, ev);
        }
      }
    }
  }

  /** Deliveries go out in strictly increasing listener order, so nobody is told twice. */
  lemma {:induction false} DeliverIncreasing(listeners: set<ListenerId>, ev: Event)
    ensures forall i, j :: 0 <= i < j < |Deliver(listeners, ev)| ==>
      Deliver(listeners, ev)[i].listener < Deliver(listeners, ev)[j].listener
    decreases |listeners|
  {
    if listeners != {} {
      var m := Least(listeners);
      var rest := listeners - {m};
      DeliverIncreasing(rest, ev);
      DeliverSound(rest, ev);
      var d := Deliver(listeners, ev);
      var t := Deliver(rest, ev);
      assert d == [Notice(m, ev)] + t;
      forall i, j | 0 <= i < j < |d| ensures d[i].listener < d[j].listener {
        assert d[j] == t[j - 1];
        assert t[j - 1] in t;
        if i > 0 {
          assert d[i] == t[i - 1];
        }
      }
    }
  }

  /**
   * fireOn* for a request or transfer event: the listeners of the event's category, then
   * the listeners of every event, then the listener the call was made with, if any.
   */
  function FanOut(category: set<ListenerId>, all: set<ListenerId>, own: Option<ListenerId>,
                  ev: Event): seq<Notice>
  {
    Deliver(category, ev) + Deliver(all, ev) + (if own.Some? then [Notice(own.value, ev)] else [])
  }

  /** A fan-out delivers to each category and general listener once, and to the caller's own last. */
  lemma FanOutShape(category: set<ListenerId>, all: set<ListenerId>, own: Option<ListenerId>,
                    ev: Event)
    ensures |FanOut(category, all, own, ev)| == |category| + |all| + (if own.Some? then 1 else 0)
    ensures forall n :: n in FanOut(category, all, own, ev) ==> n.event == ev
    ensures forall l :: l in category ==> Notice(l, ev) in FanOut(category, all, own, ev)[..|category|]
    ensures forall l :: l in all ==>
      Notice(l, ev) in FanOut(category, all, own, ev)[|category|..|category| + |all|]
    ensures own.Some? ==> FanOut(category, all, own, ev)[|category| + |all|] == Notice(own.value, ev)
  {
    DeliverLength(category, ev);
    DeliverLength(all, ev);
    DeliverSound(category, ev);
    DeliverSound(all, ev);
    DeliverComplete(category, ev);
    DeliverComplete(all, ev);
    var f := FanOut(category, all, own, ev);
    assert f[..|category|] == Deliver(category, ev);
    assert f[|category|..|category| + |all|] == Deliver(all, ev);
    forall n | n in f ensures n.event == ev {
      var k :| 0 <= k < |f| && f[k] == n;
      if k < |category| {
        assert f[k] == Deliver(category, ev)[k];
      } else if k < |category| + |all| {
        assert f[k] == Deliver(all, ev)[k - |category|];
      }
    }
  }
}
